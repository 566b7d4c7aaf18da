# transfunctions: the template rewriter, the bytecode operator and the layered namespace

`transfunctions` lets a Python programmer write one *template* function and
derive from it an ordinary function, a coroutine function and a generator
function. Inside the template, the blocks that belong to one flavour only
sit in `with sync_context():`, `with async_context():` or
`with generator_context():` blocks. This project models the three building
blocks behind that, and proves properties about them.

- **`FunctionTransformer`** (`transformer.dfy`, proved in
  `transformer_properties.dfy`). It takes the syntax tree of a template and
  runs three tree passes on it:
  - the context rewrite: the block of the target marker is spliced into its
    enclosing statement list, and the block of any other marker is deleted;
  - decorator removal: `@transfunction` is dropped from every `def` the
    pass reaches (it does not enter the body of a plain `def`);
  - for the coroutine flavour only, the template `def` becomes an
    `async def`.

  The passes follow `ast.NodeTransformer`: a handled `with` and a handled
  `def` are not descended into, and every other node is visited
  generically. The model also covers the three getters, the guard of the
  constructor and the error that calling a transformer raises. The code
  reads an attribute that some nodes do not have, and the model represents
  that as an `AttributeError` result. This happens in two cases:
  - the only item of a one-item `with` is not a call of a bare name (items
    of a `with` with any other number of items are never read);
  - a decorator that decorator removal reads is not a bare name.
- **`ByteCodeOperator`** (`bytecode_operations.dfy`). It is a class that
  does the following:
  - cuts a byte string into operations with the source's loop: 3 bytes when
    the opcode is at least `HAVE_ARGUMENT`, otherwise 1, and the last slice
    is clamped at the end of the input;
  - rewrites the operation list with a recogniser and a replacement
    callback, and joins the operations back into bytes;
  - renders a summary in which only the first `CACHE` operation appears, as
    `...`.

  `dis.opname` and `dis.HAVE_ARGUMENT` enter the model as an `OpcodeTable`
  value.
- **`UniversalNamespaceAroundFunction`** (`universal_namespace.dfy`). It is
  a class with a mutable table of assigned names. Its reads look in that
  table first, then in the locals of the frame chain from the innermost
  frame outward, then in the function's globals, then in the builtins. If
  none of them has the key, it raises `KeyError`. Its writes go only to the
  table.

`results.dfy` holds `Option` and `Result`. `syntax_tree.dfy` holds the part
of Python's syntax tree that the rewriter inspects.

## Model

| member | source | states |
|---|---|---|
| Transformer.NewFunctionTransformer | transfunctions/transformer.py:12-16 | The constructor succeeds exactly when it is given a function. The result keeps that function's template, and any other object raises `ValueError`. |
| Transformer.Call | transfunctions/transformer.py:18-19 | Calling a transformer raises `CallTransfunctionDirectlyError`, with the source's message, whatever the arguments are. |
| TransformerProperties.RewriteBlockAppend | transfunctions/transformer.py:51-64 | The context rewrite of two concatenated statement lists is the concatenation of their rewrites. The first exception wins. |
| TransformerProperties.RewriteAround | transfunctions/transformer.py:51-57 | A statement is rewritten in place: the statements around it are rewritten independently, and the order is kept. |
| TransformerProperties.UnwrapTarget | transfunctions/transformer.py:53-54 | A single-item `with` whose callee is the target marker is replaced by its body, spliced into the enclosing list. |
| TransformerProperties.DeleteOtherContext | transfunctions/transformer.py:55-56 | When the target is one of the three markers, a single-item `with` of any other callee disappears from the list. |
| TransformerProperties.KeepMultiItem | transfunctions/transformer.py:53-57 | A `with` with zero items, or with two or more, is kept exactly as written, and its body is not visited. |
| TransformerProperties.ExtractDropsOtherContext | transfunctions/transformer.py:55-68 | For a marker target, `extract_context` on a template with an extra top-level single-item `with` of another callee gives the same result as on the template without it. This holds whatever the extra pass. |
| TransformerProperties.GettersDropOtherMarkers | transfunctions/transformer.py:21-43 | Each getter gives the same result whether or not the template holds an extra top-level single-item `with` of a callee other than the getter's marker. |
| TransformerProperties.RewriteStmtSucceedsIff | transfunctions/transformer.py:53-55 | Rewriting a statement succeeds exactly when every single-item `with` it reaches is a call of a bare name. Otherwise it raises `AttributeError`. |
| TransformerProperties.RewriteBlockSucceedsIff | transfunctions/transformer.py:53-55 | The same if-and-only-if for a statement list: success exactly when every reachable single-item `with` is a call of a bare name, and `AttributeError` otherwise. |
| TransformerProperties.RewriteBlocksSucceedsIff | transfunctions/transformer.py:53-55 | The same if-and-only-if for the statement lists of a compound statement. |
| TransformerProperties.SettledStmtFixed | transfunctions/transformer.py:51-57 | A statement that holds no reachable single-item `with` is left unchanged by the context rewrite. |
| TransformerProperties.SettledBlockFixed | transfunctions/transformer.py:51-57 | A statement list that holds no reachable single-item `with` is a fixed point of the context rewrite. |
| TransformerProperties.SettledBlocksFixed | transfunctions/transformer.py:51-57 | The same fixed point for the statement lists of a compound statement. |
| TransformerProperties.SettledAppend | transfunctions/transformer.py:51-57 | Concatenating two settled statement lists gives a settled list. |
| TransformerProperties.FlatStmtSettles | transfunctions/transformer.py:51-57 | With a marker as target, one rewrite removes every reachable marker block from a statement whose marker blocks do not nest. |
| TransformerProperties.FlatBlockSettles | transfunctions/transformer.py:51-57 | The same for a statement list: after one rewrite, no reachable single-item `with` remains. |
| TransformerProperties.FlatBlocksSettles | transfunctions/transformer.py:51-57 | The same for the statement lists of a compound statement. |
| TransformerProperties.RewriteIdempotentWhenFlat | transfunctions/transformer.py:51-57 | On a template whose marker blocks do not nest, rewriting twice gives the same tree as rewriting once. |
| TransformerProperties.NestedMarkerLeftAsWritten | transfunctions/transformer.py:52-54 | The body of an unwrapped block is not visited again. A marker nested inside it survives the pass, although the same marker at top level is deleted. |
| TransformerProperties.FilterDecoratorsSucceedsIff | transfunctions/transformer.py:61 | Filtering a decorator list succeeds exactly when every decorator is a bare name. Otherwise it raises `AttributeError`. |
| TransformerProperties.FilterDecoratorsKeeps | transfunctions/transformer.py:61 | A decorator is in the filtered list exactly when it was in the input and is not `@transfunction`. Each survivor occurs as many times as in the input. |
| TransformerProperties.FilterDecoratorsAppend | transfunctions/transformer.py:61 | Filtering works element by element: filtering a concatenation gives the concatenation of the filtered parts, and the order is kept. |
| TransformerProperties.FilterDecoratorsIdempotent | transfunctions/transformer.py:61 | Filtering an already filtered decorator list changes nothing. |
| TransformerProperties.DeleteStmtIdempotent | transfunctions/transformer.py:59-62 | Running decorator removal a second time on a statement changes nothing. |
| TransformerProperties.DeleteBlockIdempotent | transfunctions/transformer.py:59-62 | Running decorator removal a second time on a statement list changes nothing. |
| TransformerProperties.DeleteBlocksIdempotent | transfunctions/transformer.py:59-62 | Running decorator removal a second time on the lists of a compound statement changes nothing. |
| TransformerProperties.ConvertBlockPointwise | transfunctions/transformer.py:27-38 | The async conversion maps a statement list one statement to one statement, keeping its length and order. |
| TransformerProperties.ConvertDefinitionAt | transfunctions/transformer.py:28-38 | A `def` becomes an `async def` exactly when its name is the template's, and then it loses its return annotation. Name, arguments, body, decorators and position are kept. Any other `def` is returned unchanged. |
| TransformerProperties.ConvertStmtWithoutTarget | transfunctions/transformer.py:28-38 | A statement with no reachable `def` named like the template is left unchanged by the conversion. |
| TransformerProperties.ConvertBlockWithoutTarget | transfunctions/transformer.py:28-38 | The same for a statement list. |
| TransformerProperties.ConvertBlocksWithoutTarget | transfunctions/transformer.py:28-38 | The same for the statement lists of a compound statement. |
| TransformerProperties.ExtractSingleDef | transfunctions/transformer.py:45-68 | On a template made of one `def`, `extract_context` gives that `def` with a rewritten body and filtered decorators. When an extra pass is given, the result is that pass applied to this tree. |
| TransformerProperties.UsualFunctionOfTemplate | transfunctions/transformer.py:21-22 | `get_usual_function` keeps the `sync_context` blocks of a template `def` and keeps it synchronous. |
| TransformerProperties.GeneratorFunctionOfTemplate | transfunctions/transformer.py:42-43 | `get_generator_function` keeps the `generator_context` blocks and keeps the `def` synchronous. |
| TransformerProperties.AsyncFunctionOfTemplate | transfunctions/transformer.py:24-40 | `get_async_function` keeps the `async_context` blocks and turns the template `def` into an `async def` without a return annotation. |
| TransformerProperties.DecoratorsNamedAppend | transfunctions/transformer.py:61 | Concatenating two lists whose decorators are all bare names gives a list with the same property. |
| TransformerProperties.RewriteStmtKeepsDecoratorsNamed | transfunctions/transformer.py:51-65 | The context rewrite introduces no decorator that is not a bare name, for a statement. |
| TransformerProperties.RewriteBlockKeepsDecoratorsNamed | transfunctions/transformer.py:51-65 | The same for a statement list. |
| TransformerProperties.RewriteBlocksKeepsDecoratorsNamed | transfunctions/transformer.py:51-65 | The same for the statement lists of a compound statement. |
| TransformerProperties.DeleteStmtSucceedsIff | transfunctions/transformer.py:59-62 | Decorator removal succeeds on a statement exactly when every decorator it reads is a bare name. It reads the decorators of each plain `def` it meets but not that `def`'s body, and it enters `async def`, `with` and compound statements. |
| TransformerProperties.DeleteBlockSucceedsIff | transfunctions/transformer.py:59-62 | The same if-and-only-if for a statement list. |
| TransformerProperties.DeleteBlocksSucceedsIff | transfunctions/transformer.py:59-62 | The same if-and-only-if for the statement lists of a compound statement. |
| TransformerProperties.DeleteStmtSucceeds | transfunctions/transformer.py:59-62 | A sufficient condition, independent of the pass's reach: decorator removal does not raise on a statement in which every decorator anywhere is a bare name, including those the pass never reads. |
| TransformerProperties.DeleteBlockSucceeds | transfunctions/transformer.py:59-62 | The same sufficient condition for a statement list. |
| TransformerProperties.DeleteBlocksSucceeds | transfunctions/transformer.py:59-62 | The same sufficient condition for the statement lists of a compound statement. |
| TransformerProperties.ExtractContextErrors | transfunctions/transformer.py:45-68 | `extract_context` succeeds exactly when the context rewrite succeeds and every decorator that decorator removal then reads is a bare name, whatever the extra pass. It succeeds in particular when every single-item `with` it reaches is a call of a bare name and every decorator anywhere in the template is a bare name. The only error it raises is `AttributeError`. |
| TransformerProperties.DeleteStmtRaisesAttributeError | transfunctions/transformer.py:61 | The only exception decorator removal raises on a statement is `AttributeError`. |
| TransformerProperties.DeleteBlockRaisesAttributeError | transfunctions/transformer.py:61 | The same for a statement list. |
| TransformerProperties.DeleteBlocksRaisesAttributeError | transfunctions/transformer.py:61 | The same for the statement lists of a compound statement. |
| BytecodeOperations.NewOperation | transfunctions/bytecode_operations.py:9-15 | An operation is built exactly when its bytes are non-empty, and `IndexError` is raised otherwise. Its code is the first byte, its name is that code's entry in the table, and its size is its length. Its argument holds the remaining bytes exactly when it is flagged as having one. |
| BytecodeOperations.ByteCodeOperator.constructor | transfunctions/bytecode_operations.py:26-45 | The loop leaves the list that `Parse` specifies, and joining that list gives back the input bytes. |
| BytecodeOperations.ByteCodeOperator.ReplaceOperation | transfunctions/bytecode_operations.py:69-81 | The new list is the one `Replaced` specifies: an operation that is not recognised is kept, and a recognised one is replaced by the callback's result or dropped when that result is `None`. |
| BytecodeOperations.ByteCodeOperator.ToString | transfunctions/bytecode_operations.py:50-67 | The summary gives every operation except `CACHE` as its name, with " (with arguments)" when it has an argument. `...` stands for the first `CACHE`, entries are separated by ", ", and the text is framed as in the source. |
| BytecodeOperations.JoinParse | transfunctions/bytecode_operations.py:83-84 | Round trip: `get_bytes` right after construction returns the bytes the operator was built from. |
| BytecodeOperations.JoinAppend | transfunctions/bytecode_operations.py:83-84 | Joining a concatenation of operation lists gives the concatenation of their bytes. |
| BytecodeOperations.JoinAround | transfunctions/bytecode_operations.py:83-84 | The bytes of operation k sit between the bytes of the operations before it and those after it. |
| BytecodeOperations.ParseStep | transfunctions/bytecode_operations.py:33-45 | One loop iteration cuts the first operation of `Parse` on the rest of the input. |
| BytecodeOperations.ParseShape | transfunctions/bytecode_operations.py:33-45 | Every parsed operation is consistent with its bytes, and it has an argument exactly when its opcode is at least `HAVE_ARGUMENT`. Such an operation is 3 bytes long unless it is the last one and the input ran out; every other operation is 1 byte long. |
| BytecodeOperations.ParseOffsets | transfunctions/bytecode_operations.py:33-45 | Operation k is exactly the slice of the input at the offset where the operations before it end, and its code is the input byte at that offset. |
| BytecodeOperations.ReplacedAppend | transfunctions/bytecode_operations.py:72-78 | The replacement handles operations one at a time and in order: replacing in a concatenation gives the concatenation of the replaced parts. |
| BytecodeOperations.ReplacedNoMatch | transfunctions/bytecode_operations.py:69-81 | A recogniser that matches nothing leaves the list, and so the joined bytes, unchanged. |
| BytecodeOperations.ReplacedPointwise | transfunctions/bytecode_operations.py:72-78 | When the callback never returns `None`, the length is kept. Entry i is the callback's result when operation i is recognised, and operation i otherwise. |
| BytecodeOperations.ReplacedDropping | transfunctions/bytecode_operations.py:72-78 | When the callback always returns `None`, an operation remains exactly when it was present and is not recognised. It remains as many times as it occurred. |
| BytecodeOperations.SummaryAfterCache | transfunctions/bytecode_operations.py:53-58 | Once a `CACHE` operation has been counted, later `CACHE` operations add no entry. |
| BytecodeOperations.SummaryWithoutCache | transfunctions/bytecode_operations.py:54-63 | Without a `CACHE` operation, the summary has one entry per operation, in order. |
| BytecodeOperations.SummaryFirstCache | transfunctions/bytecode_operations.py:53-63 | The counter is never reset, so only the first `CACHE` operation of the whole list yields `...`, at its position among the other entries. |
| BytecodeOperations.NatToStringDecimal | transfunctions/bytecode_operations.py:22 | The size is written as a non-empty string of decimal digits, without a leading zero, that denotes the size. |
| BytecodeOperations.OperationToStringParts | transfunctions/bytecode_operations.py:20-22 | An operation's text holds its name, "no arguments" or "arguments" according to its flag, and its size in decimal. |
| UniversalNamespace.Lookup | transfunctions/universal_namespace.py:17-36 | The only error a lookup raises is `KeyError` of the key looked up. |
| UniversalNamespace.UniversalNamespaceAroundFunction.constructor | transfunctions/universal_namespace.py:12-15 | A new namespace has no assigned names and keeps the function's globals and the frame chain it was given. |
| UniversalNamespace.UniversalNamespaceAroundFunction.GetItem | transfunctions/universal_namespace.py:17-36 | The loop over the frame chain returns what `Lookup` specifies, and the method changes no state: it has no `modifies` clause. |
| UniversalNamespace.UniversalNamespaceAroundFunction.SetItem | transfunctions/universal_namespace.py:38-39 | Only the table of assigned names changes, and only at the key. Afterwards the key reads back as the value, and every other key reads as before. |
| UniversalNamespace.FramesInnermostFirst | transfunctions/universal_namespace.py:21-27 | Frames are searched innermost first: the value comes from the first frame whose locals hold the key. |
| UniversalNamespace.FramesLookupNoneIff | transfunctions/universal_namespace.py:21-27 | The frame search finds nothing exactly when no frame holds the key. |
| UniversalNamespace.FrameShadowsGlobalsAndBuiltins | transfunctions/universal_namespace.py:21-30 | A frame local shadows every global and builtin of the same name. |
| UniversalNamespace.GlobalShadowsBuiltin | transfunctions/universal_namespace.py:29-34 | A global shadows a builtin of the same name. |
| UniversalNamespace.BuiltinFallback | transfunctions/universal_namespace.py:32-34 | A builtin is found when no other layer has the name. |
| UniversalNamespace.KeyErrorIff | transfunctions/universal_namespace.py:17-36 | `KeyError(key)` is raised exactly when the name is in none of the table, the frames, the globals and the builtins. |
| UniversalNamespace.LookupAfterSet | transfunctions/universal_namespace.py:38-39 | After `ns[k] = v`, `ns[k]` is `v`, even when `k` also names a local, a global or a builtin. |
| UniversalNamespace.LookupOtherKeyAfterSet | transfunctions/universal_namespace.py:38-39 | An assignment leaves the lookup of every other name unchanged. |
| UniversalNamespace.ResultsFirst | transfunctions/universal_namespace.py:18-19 | A name in the table of assigned names is answered from the table, ahead of every other layer. |
| UniversalNamespace.FreshNamespace | transfunctions/universal_namespace.py:12-36 | A new namespace finds a name exactly when some frame, the globals or the builtins have it. |

## Left out

- The runtime part of `extract_context` and `rewrite_globals_and_closure` (transfunctions/transformer.py:46-49, 70-89) is not modelled. That covers `getsource`, `parse`, `getfile`, `compile`, `exec`, the namespace lookup of the compiled function, `FunctionType`, `wraps` and `update_wrapper`. These are interpreter machinery. The model starts from the already parsed tree of the template, and its getters return the rewritten tree that would be compiled.
- Transformer.ExtractContext: the extra pass (`addictional_transformer`, which is any `NodeTransformer`) is modelled as a total, pure function from module tree to module tree. An extra pass that raises, or that has side effects beyond the tree, is outside the model. `get_async_function`'s conversion pass is the one instance the repository defines.
- Expressions are abstract. A `with` item is either a call of a bare name or something else, and a decorator is either a bare name or something else. Argument lists and return annotations are opaque values.
- Transformer: the code reads `context_expr.func.id`, so it accepts only the call form `with sync_context():`. The unit tests of the repository write the bare form `with sync_context:`, on which the code as written raises `AttributeError`. The model follows the code.
- Transformer: the rewrite mutates the parsed tree in place. The model returns a new tree, which is observably the same because nothing else holds the tree.
- The `Lock` of `ByteCodeOperator` and all concurrency are not modelled. The model is single-threaded.
- The `__repr__` methods are not modelled; they only print constructor arguments.
- `dis.opname` and `dis.HAVE_ARGUMENT` depend on the interpreter version. They are an `OpcodeTable` parameter, so no particular Python version's table is built in.
- BytecodeOperations.ByteCodeOperator.ReplaceOperation: the callbacks are modelled as total, pure functions. Exceptions and side effects inside them are not modelled.
- UniversalNamespace.UniversalNamespaceAroundFunction.constructor: it takes the function's globals, the frame chain (the sequence of `f_locals` maps, innermost first) and the builtins as values. This replaces a function object, a live frame object and the `builtins` module.
- UniversalNamespace.UniversalNamespaceAroundFunction.GetItem: frames, globals and builtins are snapshots. The source reads them live at each lookup. Code that changes a global between two lookups is outside the model.
- The `Nothing` sentinel of `universal_namespace.py` only means "not a builtin". The builtins map models it by the absence of the key.
- The class's own `dict` storage, inherited from `Dict`, is not modelled. It is never written by the code.
- `transfunctions/decorators/superfunction.py` is not part of this model. Its usage tracer relies on `weakref.finalize` and garbage-collection timing.
- `transfunctions/decorators/transfunction.py` is not part of this model. It is a thin wrapper around `currentframe()`.
- `transfunctions/markers.py` is not part of this model. Its markers are inert context managers, and only their names matter to the rewriter.
- The typing modules (`typing.py`, `_typing.py`, `types.py`) are not part of this model. They carry no behaviour.
