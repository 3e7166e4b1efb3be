/**
  The constructors of errors.go.  `callers()` is the `st` parameter (the stack
  at the constructing call) and `fmt.Sprintf` is the `sprintf` parameter.
  Every annotation constructor maps nil to nil.
 */
module Construct {
  import opened Wrappers
  import opened Chain
  import opened Walks

  /** `fmt.Sprintf`: a format string and arguments to a message. */
  type Sprintf = (string, seq<Value>) -> string

  /** A fresh terminus whose description is `message`. */
  function New(message: string, st: Stack): (r: Err)
    ensures r.Error() == message
    ensures r.Fundamental? && r.stack == st
    ensures CauseOf(Some(r)) == Some(r)
    ensures Layers(r) == [] && Unpacked(r) == [r] && Merged(r) == map[]
  {
    Fundamental(message, st)
  }

  /** `New` with the message produced by `sprintf`. */
  function Errorf(format: string, args: seq<Value>, sprintf: Sprintf, st: Stack): (r: Err)
    ensures r.Error() == sprintf(format, args)
    ensures r.Fundamental? && r.stack == st
    ensures CauseOf(Some(r)) == Some(r)
    ensures Layers(r) == [] && Unpacked(r) == [r] && Merged(r) == map[]
  {
    Fundamental(sprintf(format, args), st)
  }

  /** Two nodes: a stack node over a message node over `err`. */
  function Wrap(err: Option<Err>, message: string, st: Stack): (r: Option<Err>)
    ensures r.None? <==> err.None?
    ensures r.Some? ==> r.value.Error() == message + ": " + err.value.Error()
    ensures r.Some? ==> Layers(r.value) == [StackLayer(st), MessageLayer(message)] + Layers(err.value)
    ensures CauseOf(r) == CauseOf(err)
    ensures r.Some? ==> UnpackedOf(r) == UnpackedOf(err) + [Foreign(message)]
    ensures MergedOf(r) == MergedOf(err)
  {
    if err.None? then None
    else
      // The two-node layer list, re-associated for the solver.
      assert [StackLayer(st)] + ([MessageLayer(message)] + Layers(err.value))
          == [StackLayer(st), MessageLayer(message)] + Layers(err.value);
      WithStack(WithMessage(err, message), st)
  }

  /** `Wrap` with the message produced by `sprintf`. */
  function Wrapf(err: Option<Err>, format: string, args: seq<Value>, sprintf: Sprintf, st: Stack): (r: Option<Err>)
    ensures r.None? <==> err.None?
    ensures r.Some? ==> r.value.Error() == sprintf(format, args) + ": " + err.value.Error()
    ensures r.Some? ==>
      Layers(r.value) == [StackLayer(st), MessageLayer(sprintf(format, args))] + Layers(err.value)
    ensures CauseOf(r) == CauseOf(err)
    ensures r.Some? ==> UnpackedOf(r) == UnpackedOf(err) + [Foreign(sprintf(format, args))]
    ensures MergedOf(r) == MergedOf(err)
  {
    if err.None? then None
    else
      var m := sprintf(format, args);
      // The two-node layer list, re-associated for the solver.
      assert [StackLayer(st)] + ([MessageLayer(m)] + Layers(err.value))
          == [StackLayer(st), MessageLayer(m)] + Layers(err.value);
      WithStack(WithMessagef(err, format, args, sprintf), st)
  }

  /** A stack node over `err`; the description is unchanged. */
  function WithStack(err: Option<Err>, st: Stack): (r: Option<Err>)
    ensures r.None? <==> err.None?
    ensures r.Some? ==> r.value.Error() == err.value.Error()
    ensures r.Some? ==> Layers(r.value) == [StackLayer(st)] + Layers(err.value)
    ensures CauseOf(r) == CauseOf(err)
    ensures UnpackedOf(r) == UnpackedOf(err)
    ensures MergedOf(r) == MergedOf(err)
  {
    if err.None? then None else Some(Err.WithStack(err.value, st))
  }

  /** A message node over `err`; no stack is captured. */
  function WithMessage(err: Option<Err>, message: string): (r: Option<Err>)
    ensures r.None? <==> err.None?
    ensures r.Some? ==> r.value.Error() == message + ": " + err.value.Error()
    ensures r.Some? ==> Layers(r.value) == [MessageLayer(message)] + Layers(err.value)
    ensures CauseOf(r) == CauseOf(err)
    ensures r.Some? ==> UnpackedOf(r) == UnpackedOf(err) + [Foreign(message)]
    ensures MergedOf(r) == MergedOf(err)
  {
    if err.None? then None else Some(Err.WithMessage(err.value, message))
  }

  /** `WithMessage` with the message produced by `sprintf`. */
  function WithMessagef(err: Option<Err>, format: string, args: seq<Value>, sprintf: Sprintf): (r: Option<Err>)
    ensures r.None? <==> err.None?
    ensures r.Some? ==> r.value.Error() == sprintf(format, args) + ": " + err.value.Error()
    ensures r.Some? ==> Layers(r.value) == [MessageLayer(sprintf(format, args))] + Layers(err.value)
    ensures CauseOf(r) == CauseOf(err)
    ensures r.Some? ==> UnpackedOf(r) == UnpackedOf(err) + [Foreign(sprintf(format, args))]
    ensures MergedOf(r) == MergedOf(err)
  {
    if err.None? then None else Some(Err.WithMessage(err.value, sprintf(format, args)))
  }

  /** A field node holding exactly `{key: value}` over `err`. */
  function WithField(err: Option<Err>, key: string, value: Value): (r: Option<Err>)
    ensures r.None? <==> err.None?
    ensures r.Some? ==> r.value.OwnFields() == Some(map[key := value])
    ensures r.Some? ==> r.value.Error() == err.value.Error()
    ensures r.Some? ==> Layers(r.value) == [FieldsLayer(map[key := value])] + Layers(err.value)
    ensures CauseOf(r) == CauseOf(err)
    ensures UnpackedOf(r) == UnpackedOf(err)
    ensures r.Some? ==> MergedOf(r) == map[key := value] + MergedOf(err)
  {
    if err.None? then None else Some(Err.WithFields(err.value, map[key := value]))
  }

  /** A field node over `err` holding a key-by-key copy of `fields`. */
  method WithFields(err: Option<Err>, fields: Fields) returns (r: Option<Err>)
    ensures r.None? <==> err.None?
    ensures r.Some? ==> r.value.OwnFields() == Some(fields)
    ensures r.Some? ==> r.value.Error() == err.value.Error()
    ensures r.Some? ==> Layers(r.value) == [FieldsLayer(fields)] + Layers(err.value)
    ensures CauseOf(r) == CauseOf(err)
    ensures UnpackedOf(r) == UnpackedOf(err)
    ensures r.Some? ==> MergedOf(r) == fields + MergedOf(err)
  {
    if err.None? {
      return None;
    }
    var f := MergeInto(map[], fields);
    assert f == fields;
    return Some(Err.WithFields(err.value, f));
  }

  /** Fields from two nested `WithField` calls with distinct keys are both
      collected; with the same key, the inner call's value is kept. */
  lemma WithFieldTwice(e: Err, k1: string, v1: Value, k2: string, v2: Value)
    requires FieldMaps(e) == []
    ensures k1 != k2 ==>
      MergedOf(WithField(WithField(Some(e), k1, v1), k2, v2)) == map[k1 := v1, k2 := v2]
    ensures k1 == k2 ==>
      MergedOf(WithField(WithField(Some(e), k1, v1), k2, v2)) == map[k1 := v1]
  {
    NoFieldNodesNoFields(e);
    var inner := WithField(Some(e), k1, v1);
    assert MergedOf(inner) == map[k1 := v1];
  }
}
