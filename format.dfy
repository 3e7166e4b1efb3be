/**
  The `Format` methods of errors.go.  Plain verbs render the description only;
  `%+v` renders the child first and then the node's own payload.  What fmt and
  the stack package print (stack frames, `%q` quoting, field values, map
  iteration order, other verbs on foreign errors) is supplied by a `Renderer`.
 */
module Format {
  import opened Wrappers
  import opened Chain
  import Construct

  /** A verb rune other than the ones the `Format` methods switch on. */
  type OtherRune = c: char | c != 'v' && c != 's' && c != 'q' witness 'd'

  /** The verbs the `Format` methods tell apart: `%v`, `%+v`, `%s`, `%q`, other. */
  datatype Verb = V | PlusV | S | Q | Other(c: OtherRune)

  datatype Renderer = Renderer(
    /** `stack.Format` under `%+v`. */
    stackText: Stack -> string,
    /** fmt's `%q` quoting of a string. */
    quote: string -> string,
    /** fmt's `%v` of a field value. */
    valueText: Value -> string,
    /** The order in which `range` visits a field map's keys. */
    keyOrder: Fields -> seq<string>,
    /** fmt's output for a foreign error under a verb not listed above. */
    otherVerb: (string, char) -> string)

  /** `range` visits every key of every field map exactly once, in some order. */
  ghost predicate RangesEachKeyOnce(r: Renderer) {
    forall f: Fields :: multiset(r.keyOrder(f)) == multiset(f.Keys)
  }

  /** The "  key: value" line of key `k` of `f`. */
  function Line(f: Fields, k: string, r: Renderer): string
    requires k in f
  {
    "  " + k + ": " + r.valueText(f[k]) + "\n"
  }

  /** One line per listed key of `f`. */
  function FieldLines(f: Fields, keys: seq<string>, r: Renderer): string {
    if keys == [] then ""
    else (if keys[0] in f then Line(f, keys[0], r) else "") + FieldLines(f, keys[1..], r)
  }

  /** The lines of the listed keys, in listing order. */
  function ListedLines(f: Fields, keys: seq<string>, r: Renderer): seq<string>
    requires forall i :: 0 <= i < |keys| ==> keys[i] in f
  {
    seq(|keys|, i requires 0 <= i < |keys| => Line(f, keys[i], r))
  }

  function Concat(ss: seq<string>): string {
    if ss == [] then "" else ss[0] + Concat(ss[1..])
  }

  /** A key occurring twice in a sequence occurs twice in its multiset. */
  lemma TwoOccurrences(keys: seq<string>, i: nat, j: nat)
    requires i < j < |keys|
    ensures keys[i] == keys[j] ==> multiset(keys)[keys[i]] >= 2
  {
    if keys[i] == keys[j] {
      assert keys == keys[..j] + [keys[j]] + keys[j + 1..];
      assert keys[..j][i] == keys[i];
    }
  }

  /** A sequence with the multiset of a set lists each element once. */
  lemma ListsSetOnce(keys: seq<string>, s: set<string>)
    requires multiset(keys) == multiset(s)
    ensures |keys| == |s|
    ensures forall i :: 0 <= i < |keys| ==> keys[i] in s
    ensures forall k :: k in s ==> k in keys
    ensures forall i, j :: 0 <= i < j < |keys| ==> keys[i] != keys[j]
  {
    assert |keys| == |multiset(keys)| == |multiset(s)| == |s|;
    forall i | 0 <= i < |keys| ensures keys[i] in s {
      assert keys[i] in multiset(keys);
    }
    forall k | k in s ensures k in keys {
      assert k in multiset(keys);
    }
    forall i, j | 0 <= i < j < |keys| ensures keys[i] != keys[j] {
      TwoOccurrences(keys, i, j);
    }
  }

  /** When every listed key is in `f`, the block is one line per listed key. */
  lemma {:induction false} FieldLinesOfListed(f: Fields, keys: seq<string>, r: Renderer)
    requires forall i :: 0 <= i < |keys| ==> keys[i] in f
    ensures FieldLines(f, keys, r) == Concat(ListedLines(f, keys, r))
  {
    if keys != [] {
      FieldLinesOfListed(f, keys[1..], r);
      assert ListedLines(f, keys, r)[1..] == ListedLines(f, keys[1..], r);
    }
  }

  /** Under a faithful `range`, the `%+v` field block of `f` has exactly one
      line for each key of `f`, and no other line. */
  lemma FieldBlockOneLinePerKey(f: Fields, r: Renderer)
    requires RangesEachKeyOnce(r)
    ensures |r.keyOrder(f)| == |f|
    ensures forall i :: 0 <= i < |r.keyOrder(f)| ==> r.keyOrder(f)[i] in f
    ensures forall k :: k in f ==> k in r.keyOrder(f)
    ensures forall i, j :: 0 <= i < j < |r.keyOrder(f)| ==> r.keyOrder(f)[i] != r.keyOrder(f)[j]
    ensures FieldLines(f, r.keyOrder(f), r) == Concat(ListedLines(f, r.keyOrder(f), r))
  {
    var keys := r.keyOrder(f);
    assert multiset(keys) == multiset(f.Keys);
    ListsSetOnce(keys, f.Keys);
    FieldLinesOfListed(f, keys, r);
  }

  /** The `%+v` rendering; the recursion reaches the root, whose description
      opens the text. */
  function Verbose(e: Err, r: Renderer): (s: string)
    ensures Root(e).Error() <= s
  {
    match e
    case Fundamental(m, st) => m + r.stackText(st)
    case WithStack(c, st) => Verbose(c, r) + r.stackText(st)
    case WithMessage(c, m) => Verbose(c, r) + "\n" + m
    case WithFields(c, f) => Verbose(c, r) + "\n" + FieldLines(f, r.keyOrder(f), r)
    case Foreign(d) => d
  }

  /** What `Format` writes for `verb`.  `%v` and `%s` write the description;
      `%q` quotes it for `fundamental` and `withStack` but writes it unquoted
      for `withMessage` and `withFields`; other verbs write nothing. */
  function Format(e: Err, verb: Verb, r: Renderer): (s: string)
    ensures verb.V? || verb.S? ==> s == Prefixes(Messages(e)) + Root(e).Error()
    ensures verb.PlusV? ==> Root(e).Error() <= s
  {
    DescriptionShape(e);
    match verb
    case PlusV => Verbose(e, r)
    case V => e.Error()
    case S => e.Error()
    case Q =>
      if e.WithMessage? || e.WithFields? then e.Error() else r.quote(e.Error())
    case Other(c) =>
      if e.Foreign? then r.otherVerb(e.desc, c) else ""
  }

  /** What a wrapper appends to its child's `%+v` text. */
  function LayerText(l: Layer, r: Renderer): string {
    match l
    case StackLayer(st) => r.stackText(st)
    case MessageLayer(m) => "\n" + m
    case FieldsLayer(f) => "\n" + FieldLines(f, r.keyOrder(f), r)
  }

  /** The payload texts of `layers`, innermost (last) first. */
  function LayersText(layers: seq<Layer>, r: Renderer): string {
    if layers == [] then "" else LayersText(layers[1..], r) + LayerText(layers[0], r)
  }

  lemma LayersTextCons(l: Layer, ls: seq<Layer>, r: Renderer)
    ensures LayersText([l] + ls, r) == LayersText(ls, r) + LayerText(l, r)
  {
    assert ([l] + ls)[1..] == ls;
  }

  /** Concatenation re-associated in a proof of its own; stated inline in
      `VerboseShape`, the step exceeds the solver's budget on some seeds. */
  lemma Associative(a: string, b: string, c: string)
    ensures (a + b) + c == a + (b + c)
  {
  }

  /** `%+v` renders the root first and then every wrapper's payload, from
      the innermost wrapper out to the head. */
  lemma {:induction false} VerboseShape(e: Err, r: Renderer)
    ensures Verbose(e, r) == Verbose(Root(e), r) + LayersText(Layers(e), r)
  {
    if e.HasCause() {
      var c := e.cause;
      var l := OuterLayer(e);
      VerboseShape(c, r);
      LayersTextCons(l, Layers(c), r);
      VerboseStep(e, r);
      Associative(Verbose(Root(c), r), LayersText(Layers(c), r), LayerText(l, r));
    }
  }

  /** A wrapper's `%+v` is its child's followed by its own payload. */
  lemma VerboseStep(e: Err, r: Renderer)
    requires e.HasCause()
    ensures Verbose(e, r) == Verbose(e.cause, r) + LayerText(OuterLayer(e), r)
  {
    match e
    case WithStack(_, _) =>
    case WithMessage(_, _) =>
    case WithFields(_, _) =>
  }

  /** The payload of wrapper `e` as a layer. */
  function OuterLayer(e: Err): (l: Layer)
    requires e.HasCause()
    ensures Layers(e) == [l] + Layers(e.cause)
  {
    match e
    case WithStack(_, st) => StackLayer(st)
    case WithMessage(_, m) => MessageLayer(m)
    case WithFields(_, f) => FieldsLayer(f)
  }

  /** `%+v` of `Wrap(e, m)`: the child's text, a line with `m`, then the stack. */
  lemma VerboseOfWrap(e: Err, m: string, st: Stack, r: Renderer)
    ensures Verbose(Construct.Wrap(Some(e), m, st).value, r) == Verbose(e, r) + "\n" + m + r.stackText(st)
  {
  }

  /** `%+v` of `New(m)`: the message, then the text of the stack it recorded. */
  lemma VerboseOfNew(m: string, st: Stack, r: Renderer)
    ensures Verbose(Construct.New(m, st), r) == m + r.stackText(st)
  {
  }

  /** `%+v` of `Errorf`: the formatted message, then the text of the stack it
      recorded. */
  lemma VerboseOfErrorf(format: string, args: seq<Value>, sprintf: Construct.Sprintf, st: Stack, r: Renderer)
    ensures Verbose(Construct.Errorf(format, args, sprintf, st), r) == sprintf(format, args) + r.stackText(st)
  {
  }

  /** `%q` quotes the description when the head is a `fundamental` or a
      `withStack` ... */
  lemma QuotedHeads(e: Err, m: string, st: Stack, r: Renderer)
    ensures Format(Construct.New(m, st), Q, r) == r.quote(m)
    ensures Format(Construct.WithStack(Some(e), st).value, Q, r) == r.quote(e.Error())
  {
  }

  /** ... so a `Wrap` result, whose head is its stack node, is quoted whole,
      message included ... */
  lemma QuotedWrap(e: Err, m: string, st: Stack, r: Renderer)
    ensures Format(Construct.Wrap(Some(e), m, st).value, Q, r) == r.quote(m + ": " + e.Error())
  {
    var inner := Construct.WithMessage(Some(e), m);
    assert inner == Some(WithMessage(e, m));
    assert Construct.Wrap(Some(e), m, st) == Construct.WithStack(inner, st);
  }

  /** ... while a `WithMessage` or `WithField` result, whose head is a
      `withMessage` or a `withFields`, is written unquoted. */
  lemma UnquotedHeads(e: Err, m: string, k: string, v: Value, r: Renderer)
    ensures Format(Construct.WithMessage(Some(e), m).value, Q, r) == m + ": " + e.Error()
    ensures Format(Construct.WithField(Some(e), k, v).value, Q, r) == e.Error()
  {
  }
}
