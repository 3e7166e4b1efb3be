/**
  The error chain of errors.go: five kinds of node, four of which wrap exactly
  one child.  A wrapper's child is an `Err`, never nil, so every chain is finite
  and ends in a terminus (`Fundamental` or `Foreign`).
 */
module Chain {
  import opened Wrappers

  /** A stack captured by `callers()` when a node is built; an opaque token. */
  datatype Stack = Stack(id: nat)

  /** A field value (Go's `interface{}`); an opaque token. */
  datatype Value = Value(id: nat)

  /** The `Fields` map type: field name to value. */
  type Fields = map<string, Value>

  datatype Err =
    /** `fundamental`: a message and the stack of its creation; a terminus. */
    | Fundamental(msg: string, stack: Stack)
    /** `withStack`: a child annotated with the stack of the wrapping call. */
    | WithStack(cause: Err, stack: Stack)
    /** `withMessage`: a child annotated with a message. */
    | WithMessage(cause: Err, msg: string)
    /** `withFields`: a child annotated with a field map. */
    | WithFields(cause: Err, fields: Fields)
    /** Any other error (`io.EOF`, the string type `Error`, `errors.New`);
        it has no `Cause()` and no `Fields()`, so it ends the chain. */
    | Foreign(desc: string)
  {
    /** The description returned by `Error()`; it opens with the chain's
        messages, outermost first, each followed by ": ". */
    function Error(): (r: string)
      ensures Prefixes(Messages(this)) <= r
    {
      match this
      case Fundamental(m, _) => m
      case WithStack(c, _) => c.Error()
      case WithMessage(c, m) => m + ": " + c.Error()
      case WithFields(c, _) => c.Error()
      case Foreign(d) => d
    }

    /** The `causer` capability: only the three wrappers have `Cause()`, so a
        node has it exactly when it has wrappers to peel off. */
    predicate HasCause()
      ensures HasCause() <==> Layers(this) != []
    {
      WithStack? || WithMessage? || WithFields?
    }

    /** The `fielder` capability: only `withFields` has `Fields()`.  What it
        returns is the first map the chain contributes to `GetFields`; a node
        without it contributes nothing of its own. */
    function OwnFields(): (r: Option<Fields>)
      ensures r.Some? ==> WithFields? && FieldMaps(this) == [r.value] + FieldMaps(cause)
      ensures r.None? ==> FieldMaps(this) == if HasCause() then FieldMaps(cause) else []
    {
      if WithFields? then Some(fields) else None
    }
  }

  /** The const-able string error type `Error`: its description is the string. */
  function ConstError(s: string): (r: Err)
    ensures r.Error() == s
    ensures !r.HasCause() && r.OwnFields() == None
  {
    Foreign(s)
  }

  /** Number of nodes on the chain from `e` down to its terminus. */
  function Depth(e: Err): (n: nat)
    ensures n >= 1
  {
    if e.HasCause() then 1 + Depth(e.cause) else 1
  }

  /** The terminus reached by following `Cause()` from `e`. */
  function Root(e: Err): (r: Err)
    ensures !r.HasCause()
    ensures !e.HasCause() ==> r == e
  {
    if e.HasCause() then Root(e.cause) else e
  }

  /** One wrapper's own payload, without its child. */
  datatype Layer =
    | StackLayer(stack: Stack)
    | MessageLayer(msg: string)
    | FieldsLayer(fields: Fields)

  /** Builds a chain over terminus `t`; `layers[0]` is the outermost wrapper. */
  function Over(layers: seq<Layer>, t: Err): Err {
    if layers == [] then t
    else
      var inner := Over(layers[1..], t);
      match layers[0]
      case StackLayer(st) => WithStack(inner, st)
      case MessageLayer(m) => WithMessage(inner, m)
      case FieldsLayer(f) => WithFields(inner, f)
  }

  /** The wrappers of `e`, outermost first. */
  function Layers(e: Err): seq<Layer> {
    match e
    case WithStack(c, st) => [StackLayer(st)] + Layers(c)
    case WithMessage(c, m) => [MessageLayer(m)] + Layers(c)
    case WithFields(c, f) => [FieldsLayer(f)] + Layers(c)
    case _ => []
  }

  /** Every chain is its wrappers stacked over its root. */
  lemma {:induction false} OverLayersRoot(e: Err)
    ensures Over(Layers(e), Root(e)) == e
    ensures |Layers(e)| + 1 == Depth(e)
  {
    if e.HasCause() {
      OverLayersRoot(e.cause);
      assert (Layers(e))[1..] == Layers(e.cause);
    }
  }

  /** Any stack of wrappers over a terminus unwraps back to that terminus and
      to the same wrappers: `Cause` of a wrapper chain over `t` is `t`. */
  lemma {:induction false} RootOfOver(layers: seq<Layer>, t: Err)
    requires !t.HasCause()
    ensures Root(Over(layers, t)) == t
    ensures Layers(Over(layers, t)) == layers
  {
    if layers != [] {
      RootOfOver(layers[1..], t);
      assert [layers[0]] + layers[1..] == layers;
    }
  }

  /** The messages of the `withMessage` nodes, outermost first. */
  function Messages(e: Err): seq<string> {
    match e
    case WithMessage(c, m) => [m] + Messages(c)
    case WithStack(c, _) => Messages(c)
    case WithFields(c, _) => Messages(c)
    case _ => []
  }

  /** The field maps of the `withFields` nodes, outermost first. */
  function FieldMaps(e: Err): seq<Fields> {
    match e
    case WithFields(c, f) => [f] + FieldMaps(c)
    case WithStack(c, _) => FieldMaps(c)
    case WithMessage(c, _) => FieldMaps(c)
    case _ => []
  }

  /** Each message followed by ": ", outermost first. */
  function Prefixes(ms: seq<string>): string {
    if ms == [] then "" else ms[0] + ": " + Prefixes(ms[1..])
  }

  /** A description is the chain's messages, each followed by ": ", and then
      the root's description; stack and field nodes add nothing. */
  lemma {:induction false} DescriptionShape(e: Err)
    ensures e.Error() == Prefixes(Messages(e)) + Root(e).Error()
  {
    match e
    case WithMessage(c, m) =>
      DescriptionShape(c);
      assert (Messages(e))[1..] == Messages(c);
    case WithStack(c, _) => DescriptionShape(c);
    case WithFields(c, _) => DescriptionShape(c);
    case _ =>
  }
}
