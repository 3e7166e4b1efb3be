/**
  The three chain walks of errors.go: `Cause`, `Unpack` and `GetFields`.
  Each is a method with the source's loop, proved equal to a specification
  function; the properties the library promises are lemmas about those.
 */
module Walks {
  import opened Wrappers
  import opened Chain

  // ----------------------------------------------------------------- Cause

  /** What `Cause` returns: nil for nil, else the chain's terminus. */
  function CauseOf(err: Option<Err>): Option<Err> {
    if err.None? then None else Some(Root(err.value))
  }

  /** Follows `Cause()` until a node without it; nil stays nil. */
  method Cause(err: Option<Err>) returns (r: Option<Err>)
    ensures r == CauseOf(err)
    ensures r.None? <==> err.None?
    ensures r.Some? ==> !r.value.HasCause()
  {
    r := err;
    while r.Some?
      invariant CauseOf(r) == CauseOf(err)
      decreases if r.Some? then Depth(r.value) else 0
    {
      if !r.value.HasCause() {
        break;
      }
      r := Some(r.value.cause);
    }
  }

  /** `Cause` is idempotent: the terminus is its own cause. */
  lemma CauseIdempotent(err: Option<Err>)
    ensures CauseOf(CauseOf(err)) == CauseOf(err)
  {
  }

  // ---------------------------------------------------------------- Unpack

  /** The slice entry one node adds during the walk: nothing for stack and
      field nodes, a fresh error holding only the message for a message node,
      the node itself for anything else. */
  function Entry(e: Err): (r: Option<Err>)
    ensures r.None? <==> e.WithStack? || e.WithFields?
    ensures r.Some? ==> !r.value.HasCause()
    ensures r.Some? ==> r.value.Error() == if e.WithMessage? then e.msg else e.Error()
    ensures e.WithMessage? ==> r == Some(Foreign(e.msg))
    ensures !e.HasCause() ==> r == Some(e)
  {
    match e
    case WithStack(_, _) => None
    case WithFields(_, _) => None
    case WithMessage(_, m) => Some(Foreign(m))
    case _ => Some(e)
  }

  /** The entries in the order the walk appends them, head first. */
  function Walk(e: Err): seq<Err> {
    match e
    case WithStack(c, _) => Walk(c)
    case WithFields(c, _) => Walk(c)
    case WithMessage(c, m) => [Foreign(m)] + Walk(c)
    case _ => [e]
  }

  function WalkOf(err: Option<Err>): seq<Err> {
    if err.None? then [] else Walk(err.value)
  }

  /** The reverse of a sequence. */
  function Reversed<T>(s: seq<T>): (r: seq<T>)
    ensures |r| == |s|
  {
    if s == [] then [] else [s[|s| - 1]] + Reversed(s[..|s| - 1])
  }

  lemma {:induction false} ReversedAt<T>(s: seq<T>, k: nat)
    requires k < |s|
    ensures Reversed(s)[k] == s[|s| - 1 - k]
  {
    if k > 0 {
      ReversedAt(s[..|s| - 1], k - 1);
    }
  }

  /** Reversing appends: the head of a sequence becomes the tail of its reverse. */
  lemma ReversedCons<T>(x: T, s: seq<T>)
    ensures Reversed([x] + s) == Reversed(s) + [x]
  {
    var a, b := Reversed([x] + s), Reversed(s) + [x];
    forall k | 0 <= k < |a| ensures a[k] == b[k] {
      ReversedAt([x] + s, k);
      if k < |s| { ReversedAt(s, k); }
    }
  }

  /** Reversal loses and duplicates nothing. */
  lemma {:induction false} ReversedPermutes<T>(s: seq<T>)
    ensures multiset(Reversed(s)) == multiset(s)
  {
    if s != [] {
      ReversedPermutes(s[..|s| - 1]);
      assert s == s[..|s| - 1] + [s[|s| - 1]];
    }
  }

  /** Reverses `a` in place, swapping from the middle outwards. */
  method ReverseInPlace<T>(a: array<T>)
    modifies a
    ensures a[..] == Reversed(old(a[..]))
  {
    ghost var s := a[..];
    var n := a.Length;
    var i := n / 2 - 1;
    while i >= 0
      invariant -1 <= i <= n / 2 - 1
      invariant forall k :: 0 <= k <= i ==> a[k] == s[k]
      invariant forall k :: n - 1 - i <= k < n ==> a[k] == s[k]
      invariant forall k :: i < k < n - 1 - i ==> a[k] == s[n - 1 - k]
    {
      var opp := n - 1 - i;
      a[i], a[opp] := a[opp], a[i];
      i := i - 1;
    }
    forall k | 0 <= k < n ensures a[k] == Reversed(s)[k] {
      ReversedAt(s, k);
    }
  }

  /** What `Unpack` returns, terminus first and outermost message last,
      defined independently of the walk. */
  function Unpacked(e: Err): seq<Err> {
    match e
    case WithStack(c, _) => Unpacked(c)
    case WithFields(c, _) => Unpacked(c)
    case WithMessage(c, m) => Unpacked(c) + [Foreign(m)]
    case _ => [e]
  }

  function UnpackedOf(err: Option<Err>): seq<Err> {
    if err.None? then [] else Unpacked(err.value)
  }

  /** The walk order reversed is the reference order. */
  lemma {:induction false} UnpackedIsReversedWalk(e: Err)
    ensures Unpacked(e) == Reversed(Walk(e))
  {
    match e
    case WithStack(c, _) => UnpackedIsReversedWalk(c);
    case WithFields(c, _) => UnpackedIsReversedWalk(c);
    case WithMessage(c, m) =>
      UnpackedIsReversedWalk(c);
      ReversedCons(Foreign(m), Walk(c));
    case _ =>
      assert Reversed([e]) == [e];
  }

  /** The unpacked slice is the root followed by one message-only error per
      message node, innermost message first and outermost message last. */
  lemma {:induction false} UnpackedShape(e: Err)
    ensures |Unpacked(e)| == |Messages(e)| + 1
    ensures Unpacked(e)[0] == Root(e)
    ensures forall i :: 1 <= i < |Unpacked(e)| ==>
      Unpacked(e)[i] == Foreign(Messages(e)[|Messages(e)| - i])
  {
    match e
    case WithStack(c, _) => UnpackedShape(c);
    case WithFields(c, _) => UnpackedShape(c);
    case WithMessage(c, m) =>
      UnpackedShape(c);
      var u, ms := Unpacked(e), Messages(e);
      assert ms == [m] + Messages(c);
      forall i | 1 <= i < |u| ensures u[i] == Foreign(ms[|ms| - i]) {
        if i == |u| - 1 {
          assert u[i] == Foreign(m);
        } else {
          assert u[i] == Unpacked(c)[i];
        }
      }
    case _ =>
  }

  /** The first entry is the root cause; the last is the outermost message,
      or the root when the chain has no message node. */
  lemma UnpackedEnds(e: Err)
    ensures Unpacked(e) != [] && Unpacked(e)[0] == Root(e)
    ensures Messages(e) != [] ==> Unpacked(e)[|Unpacked(e)| - 1] == Foreign(Messages(e)[0])
    ensures Messages(e) == [] ==> Unpacked(e) == [Root(e)]
  {
    UnpackedShape(e);
  }

  /** One step of the walk: the node's entry, then the rest of the chain. */
  lemma WalkStep(e: Err, before: seq<Err>, after: seq<Err>)
    requires Entry(e).None? ==> after == before
    requires Entry(e).Some? ==> after == before + [Entry(e).value]
    ensures e.HasCause() ==> after + Walk(e.cause) == before + Walk(e)
    ensures !e.HasCause() ==> after == before + Walk(e)
  {
    match e
    case WithStack(c, _) =>
    case WithFields(c, _) =>
    case WithMessage(c, m) =>
      // Concatenation re-associated for the solver.
      assert (before + [Foreign(m)]) + Walk(c) == before + ([Foreign(m)] + Walk(c));
    case Fundamental(_, _) =>
    case Foreign(_) =>
  }

  /** Collects the entries head first, then reverses them in place. */
  method Unpack(err: Option<Err>) returns (r: seq<Err>)
    ensures r == UnpackedOf(err)
    ensures r == Reversed(WalkOf(err))
  {
    var stack: seq<Err> := [];
    var cur := err;
    while cur.Some?
      invariant cur.Some? ==> stack + Walk(cur.value) == WalkOf(err)
      invariant cur.None? ==> stack == WalkOf(err)
      decreases if cur.Some? then Depth(cur.value) else 0
    {
      var e := cur.value;
      ghost var before := stack;
      var entry := Entry(e);
      if entry.Some? {
        stack := stack + [entry.value];
      }
      WalkStep(e, before, stack);
      if !e.HasCause() {
        break;
      }
      cur := Some(e.cause);
    }

    var a := new Err[|stack|](k requires 0 <= k < |stack| => stack[k]);
    assert a[..] == stack;
    ReverseInPlace(a);
    r := a[..];
    if err.Some? {
      UnpackedIsReversedWalk(err.value);
    }
  }

  // ------------------------------------------------------------- GetFields

  /** The fields `GetFields` collects: every field node's map, and where a key
      occurs at several depths, the innermost node's value. */
  function Merged(e: Err): Fields {
    match e
    case WithFields(c, f) => f + Merged(c)
    case WithStack(c, _) => Merged(c)
    case WithMessage(c, _) => Merged(c)
    case _ => map[]
  }

  function MergedOf(err: Option<Err>): Fields {
    if err.None? then map[] else Merged(err.value)
  }

  /** Some map of `fs` holds `k`. */
  ghost predicate HeldBySome(fs: seq<Fields>, k: string) {
    exists j :: 0 <= j < |fs| && k in fs[j]
  }

  /** Field map `fs[j]` is the innermost of `fs` that holds `k`. */
  ghost predicate InnermostWith(fs: seq<Fields>, k: string, j: int) {
    0 <= j < |fs| && k in fs[j] && forall j' :: j < j' < |fs| ==> k !in fs[j']
  }

  /** `v` is the value of `k` in the innermost map of `fs` that holds `k`. */
  ghost predicate InnermostValue(fs: seq<Fields>, k: string, v: Value) {
    exists j :: InnermostWith(fs, k, j) && fs[j][k] == v
  }

  /** A key is collected iff some field node on the chain holds it, and its
      value is the one held by the innermost such node. */
  lemma {:induction false} MergedIsInnermostWins(e: Err, k: string)
    ensures k in Merged(e) <==> HeldBySome(FieldMaps(e), k)
    ensures k in Merged(e) ==> InnermostValue(FieldMaps(e), k, Merged(e)[k])
  {
    match e
    case WithStack(c, _) => MergedIsInnermostWins(c, k);
    case WithMessage(c, _) => MergedIsInnermostWins(c, k);
    case WithFields(c, f) =>
      MergedIsInnermostWins(c, k);
      var fs, gs := FieldMaps(e), FieldMaps(c);
      assert fs == [f] + gs;
      if k in Merged(c) {
        var j :| InnermostWith(gs, k, j) && gs[j][k] == Merged(c)[k];
        assert fs[j + 1] == gs[j];
        assert InnermostWith(fs, k, j + 1);
      } else {
        forall j | 0 < j < |fs| ensures k !in fs[j] {
          assert fs[j] == gs[j - 1];
          assert !(0 <= j - 1 < |gs| && k in gs[j - 1]);
        }
        if k in f {
          assert InnermostWith(fs, k, 0);
        }
      }
    case _ =>
  }

  /** A chain without field nodes, and nil, yield no fields. */
  lemma {:induction false} NoFieldNodesNoFields(e: Err)
    requires FieldMaps(e) == []
    ensures Merged(e) == map[]
  {
    match e
    case WithStack(c, _) => NoFieldNodesNoFields(c);
    case WithMessage(c, _) => NoFieldNodesNoFields(c);
    case WithFields(_, _) =>
    case _ =>
  }

  /** Copies every entry of `src` into `dst`, overwriting, in the map's
      unspecified iteration order. */
  method MergeInto(dst: Fields, src: Fields) returns (r: Fields)
    ensures r == dst + src
  {
    r := dst;
    var todo := src.Keys;
    while todo != {}
      invariant todo <= src.Keys
      invariant r.Keys == dst.Keys + (src.Keys - todo)
      invariant forall k :: k in r ==> r[k] == if k in src && k !in todo then src[k] else dst[k]
      decreases todo
    {
      var k :| k in todo;
      r := r[k := src[k]];
      todo := todo - {k};
    }
  }

  /** Walks head to terminus, merging each field node's map over the ones
      already collected. */
  method GetFields(err: Option<Err>) returns (fields: Fields)
    ensures fields == MergedOf(err)
  {
    fields := map[];
    var cur := err;
    while cur.Some?
      invariant cur.Some? ==> fields + Merged(cur.value) == MergedOf(err)
      invariant cur.None? ==> fields == MergedOf(err)
      decreases if cur.Some? then Depth(cur.value) else 0
    {
      var e := cur.value;
      var own := e.OwnFields();
      if own.Some? {
        fields := MergeInto(fields, own.value);
      }
      if !e.HasCause() {
        break;
      }
      cur := Some(e.cause);
    }
  }
}
