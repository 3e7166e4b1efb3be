# errors — a Dafny model of an error-annotation chain

This project models the Go package `errors` (hexbee-net/errors): an error value
is a chain of wrapper nodes over a terminus. A wrapper adds a stack
(`withStack`), a message (`withMessage`) or a field map (`withFields`). The
terminus is a `fundamental` error (message and stack) or any foreign error
(`io.EOF`, the string type `Error`). Three walks read the chain:

- `Cause` follows `Cause()` down to the terminus.
- `Unpack` lists the terminus and one message-only error per message node.
- `GetFields` merges the field maps of all field nodes.

Files and modules:

- `wrappers.dfy` (`Wrappers`): `Option`. Go's nil `error` is `None`.
- `chain.dfy` (`Chain`): the `Err` datatype and its `Error()` description. It
  also has the `causer` and `fielder` capabilities, the terminus `Root`, and the
  decomposition of a chain into its wrappers (`Layers`, `Over`).
- `walks.dfy` (`Walks`): `Cause`, `Unpack` and `GetFields` as methods with the
  source's loops. Each is proved equal to a specification function (`CauseOf`,
  `UnpackedOf`, `MergedOf`). The library's promises are lemmas about those.
- `construct.dfy` (`Construct`): `New`, `Errorf`, `Wrap`, `Wrapf`,
  `WithStack`, `WithMessage`, `WithMessagef`, `WithField`, `WithFields`.
- `format.dfy` (`Format`): the `Format` methods. Plain verbs write the
  description. `%+v` renders the child first, then the node's own payload.

A wrapper's child is an `Err`, never `None`. So every chain the constructors
build is finite and acyclic, and the walks terminate structurally. The Go code
relies on this without checking it.

Inputs from outside the package are parameters:

- The stack captured by `callers()` is a `Stack` token argument `st`.
- `fmt.Sprintf` is a function argument `sprintf`.
- Field values (`interface{}`) are `Value` tokens.
- The verbose rendering takes a `Renderer`. It supplies stack text, `%q` quoting,
  value text, the map's key order and fmt's output for other verbs.

Field merge precedence follows the code. `GetFields` visits nodes from the head
to the terminus and overwrites on every visit. So when a key occurs at several
depths, the innermost node's value wins. The tests at
errors_test.go:189 and :213 call `Fields(got)`; they are read as
`GetFields(got)`.

## Model

| member | source | states |
|---|---|---|
| `Chain.Err.Error` | errors.go:280-282 | Every description opens with the chain's messages, outermost first, each followed by ": ". The other `Error` methods (errors.go:14, 53-55, 203, 348-350) add no text of their own. |
| `Chain.Err.HasCause` | errors.go:24-26 | A node has `Cause()` exactly when it is a wrapper, so it has wrappers to peel off. |
| `Chain.Err.OwnFields` | errors.go:152-154 | Only a `withFields` node has `Fields()`. What it returns is the first map the chain gives to `GetFields`. Any other node contributes no map of its own. |
| `Chain.ConstError` | errors.go:12-14 | The string type `Error` describes itself by its string, and it has neither `Cause()` nor `Fields()`. |
| `Chain.Root` | errors.go:187-198 | The node reached by following `Cause()` has no `Cause()`. A node without `Cause()` is its own root, so the loop stops at once. |
| `Chain.OverLayersRoot` | errors.go:24-26 | Every chain equals its wrappers stacked over its root, and has one node more than it has wrappers. |
| `Chain.RootOfOver` | errors.go:187-198 | Any stack of wrappers over a terminus `t` unwraps to `t`, and its wrappers are recovered exactly. |
| `Chain.DescriptionShape` | errors.go:280-282 | `Error()` is each message followed by ": ", outermost first, then the root's description. Stack and field nodes add nothing (errors.go:203, 348-350). |
| `Walks.Entry` | errors.go:124-131 | Stack and field nodes give no entry. A message node gives a fresh message-only error (`errors.New(msg)`) whose description is the message. Any other node, a `fundamental` with its stack included, is its own entry. Every entry has no `Cause()`. |
| `Walks.Cause` | errors.go:187-198 | Loop result: nil for nil; otherwise the chain's root, which has no `Cause()`. |
| `Walks.CauseIdempotent` | errors.go:187-198 | `Cause(Cause(e)) == Cause(e)`. |
| `Walks.ReverseInPlace` | errors.go:141-144 | The middle-outwards swap loop leaves the array as the exact reverse of its old contents. |
| `Walks.ReversedPermutes` | errors.go:141-144 | Reversal loses and duplicates no element: the multisets are equal. |
| `Walks.UnpackedIsReversedWalk` | errors.go:120-147 | The terminus-first reference order equals the reverse of the head-first walk order. |
| `Walks.UnpackedShape` | errors.go:120-147 | `Unpack` has one entry per message node plus one. Entry 0 is the root. Entry `i` is a message-only error for the `i`-th message counted from the innermost. |
| `Walks.UnpackedEnds` | errors.go:140-144 | The first entry is the root cause. The last is the outermost message, or the root when there is no message node. |
| `Walks.Unpack` | errors.go:120-147 | The collect loop followed by the in-place reversal returns the reference result. This is the reverse of the walk order, and empty for nil. |
| `Walks.MergedIsInnermostWins` | errors.go:151-174 | A key is collected iff some field node on the chain holds it. Its value is the one held by the innermost such node. |
| `Walks.NoFieldNodesNoFields` | errors.go:151-174 | A chain without field nodes yields the empty map. |
| `Walks.MergeInto` | errors.go:160-162 | Copying every entry of a map into another, in any iteration order, yields their union with the copied map's values winning. |
| `Walks.GetFields` | errors.go:151-174 | The nested merge loop returns the reference merge, which is empty for nil. |
| `Construct.New` | errors.go:36-41 | Description is exactly the message. The node is a `fundamental` that records the stack of the call (see `Format.VerboseOfNew`). It is a terminus: it is its own cause, has no fields, and unpacks to itself. |
| `Construct.Errorf` | errors.go:46-51 | Same as `New`, with the formatted message: a `fundamental` that records the stack of the call (see `Format.VerboseOfErrorf`). |
| `Construct.Wrap` | errors.go:77-91 | Nil gives nil. Otherwise: a stack node over a message node over `err`; description `message + ": " + err.Error()`; same cause and fields; `Unpack` gains the message last. |
| `Construct.Wrapf` | errors.go:95-109 | As `Wrap`, with the formatted message. |
| `Construct.WithStack` | errors.go:209-218 | Nil gives nil. Otherwise: one stack node carrying the call's stack. Description, cause, `Unpack` and fields are all unchanged. |
| `Construct.WithMessage` | errors.go:256-265 | Nil gives nil. Otherwise: one message node and no stack; description `message + ": " + err.Error()`; same cause and fields; `Unpack` gains the message last. |
| `Construct.WithMessagef` | errors.go:269-278 | As `WithMessage`, with the formatted message. |
| `Construct.WithField` | errors.go:318-327 | Nil gives nil. Otherwise: the node stores exactly `{key: value}`. Description, cause and `Unpack` are unchanged. Collected fields are `{key: value}` under the inner ones. |
| `Construct.WithFields` | errors.go:331-346 | Nil gives nil. Otherwise: the key-by-key copy stores a map equal to the argument. Description, cause and `Unpack` are unchanged. Collected fields are the argument under the inner ones. |
| `Construct.WithFieldTwice` | errors_test.go:166-191 | Two nested `WithField` calls over a field-less error collect both entries when the keys differ. With the same key, the inner value is kept. |
| `Format.VerboseShape` | errors.go:229-380 | `%+v` is the root's `%+v` followed by each wrapper's payload (stack text, a message line, field lines), from the innermost wrapper out to the head. |
| `Format.Verbose` | errors.go:364-380 | The `%+v` recursion reaches the root first: the root's description opens the text of any chain. The other `%+v` branches are at errors.go:57-73, 229-245 and 293-307. |
| `Format.VerboseOfWrap` | errors.go:229-307 | `%+v` of `Wrap(e, m)` is the `%+v` of `e`, a newline and `m`, then the stack text. |
| `Format.Format` | errors.go:293-307 | `%v` and `%s` write exactly the chain's messages, each followed by ": ", then the root's description. No stack or field text appears. `%+v` opens with the root's description. The same holds for every node's `Format` (errors.go:57-73, 229-245, 364-380). |
| `Format.VerboseOfNew` | errors.go:36-41 | `New(m)` records the stack of its call: its `%+v` is `m` followed by that stack's text (errors.go:60-62). |
| `Format.VerboseOfErrorf` | errors.go:46-51 | `Errorf` records the stack of its call: its `%+v` is the formatted message followed by that stack's text (errors.go:60-62). |
| `Format.QuotedHeads` | errors.go:229-245 | `%q` quotes `New(m)` as `m`, and a `WithStack(e)` result as `e.Error()`. |
| `Format.QuotedWrap` | errors.go:77-91 | `%q` quotes a `Wrap(e, m)` result whole, as `m + ": " + e.Error()`, because its head is the stack node. |
| `Format.UnquotedHeads` | errors.go:293-307 | `%q` writes a `WithMessage(e, m)` result as `m + ": " + e.Error()` and a `WithField` result as `e.Error()`, both unquoted. |
| `Format.FieldBlockOneLinePerKey` | errors.go:367-370 | When `range` visits each key of a map once, the `%+v` field block lists each key of the map once and no other key. The block is exactly one "  key: value" line per key, in visiting order. |

## Left out

- Stack capture (`callers()`, `stack.Format`): these read runtime call frames and are not part of this model. A stack is an opaque token, and its text comes from the `Renderer`.
- `fmt.Sprintf` interpolation in `Errorf`, `Wrapf` and `WithMessagef`: the formatter is a function parameter and is not interpreted.
- Go's `%q` escaping, `fmt.State` writing, and fmt's output for unlisted verbs on foreign errors: these are `Renderer` functions.
- The iteration order of the `%+v` field listing: Go's `range` order is unspecified, so `Renderer.keyOrder` gives it. `Format.RangesEachKeyOnce` states that it visits each key once. Because `keyOrder` is a function of the map's value, the model fixes one order per map value, whereas Go may visit the same map in a different order each time.
- `Fields.Fields()` (errors.go:20-22): a conversion to the apex/log type, which is not part of this model.
- The `Unwrap` methods (errors.go:224-227, 288-291, 356-358): they return the same child as `Cause()`.
- Interface comparison with `==` and "no panic" (errors_test.go:264-286): this is Go runtime semantics, not library logic.
- Pointer identity and typed nil pointers: a typed nil error is an ordinary `Foreign` terminus. The fresh `errors.New(msg)` that `Unpack` creates is `Foreign(msg)`, equal to any other such value.
- Foreign errors that implement their own `Cause()`, `Fields()` or `Format`: a foreign error is always a terminus with no fields, printed as its description.
- Cyclic chains: they cannot be built from the datatype, so the non-terminating walk the Go code would perform on one is not modelled.
- Aliasing of the caller's map in `WithFields`: maps are values here. The copy is proved equal to the argument, but the model cannot show that it is a separate object.
