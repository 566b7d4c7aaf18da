/** The template rewriter of `FunctionTransformer`: the three tree passes
    (context rewrite, decorator removal, conversion to `async def`), the order
    in which `extract_context` runs them, the three getters that choose the
    marker, and the two operations that raise.

    Each pass is a total function over the syntax tree, with the same reach as
    the `ast.NodeTransformer` it models: a visitor method that returns without
    calling `generic_visit` does not descend into the node it handles, every
    other node has its statement lists visited in order, a returned list is
    spliced into the enclosing list and an empty list removes the node. */
module Transformer {
  import opened Results
  import opened SyntaxTree

  /** The exceptions the core raises. `AttributeError` is what Python raises
      when the rewriter reads `.func.id` or `.id` of a node that has none. */
  datatype Error =
    | ValueError
    | AttributeError
    | CallTransfunctionDirectlyError(message: string)

  const CallDirectlyMessage: string :=
    "You can't call a transfunction object directly, create a function, a generator function or a coroutine function from it."

  const SyncContext: string := "sync_context"
  const AsyncContext: string := "async_context"
  const GeneratorContext: string := "generator_context"
  const TransfunctionDecorator: string := "transfunction"

  /** The three marker names the deletion branch of the context rewrite accepts. */
  predicate IsMarker(name: string) {
    name == AsyncContext || name == SyncContext || name == GeneratorContext
  }

  /** Concatenation of two statement lists produced left to right; the first
      exception wins, as it does in `generic_visit`. */
  function ConcatResults<X>(x: Result<seq<X>, Error>, y: Result<seq<X>, Error>): Result<seq<X>, Error> {
    match x
    case Err(e) => Err(e)
    case Ok(a) =>
      match y
      case Err(e) => Err(e)
      case Ok(b) => Ok(a + b)
  }

  // ---------------------------------------------------------------------------
  // Pass 1: RewriteContexts
  // ---------------------------------------------------------------------------

  /** `RewriteContexts.visit_With`: what replaces one `with` statement in its
      enclosing statement list. */
  function VisitWith(items: seq<WithItem>, body: seq<Stmt>, target: string): Result<seq<Stmt>, Error> {
    if |items| == 1 then
      match items[0]
      case OtherContext => Err(AttributeError)
      case CallOf(callee) =>
        if callee == target then Ok(body)
        else if IsMarker(target) then Ok([])
        else Ok([With(items, body)])
    else
      Ok([With(items, body)])
  }

  /** The statements that replace `s` after the context rewrite. */
  function RewriteStmt(s: Stmt, target: string): Result<seq<Stmt>, Error> {
    match s
    case With(items, body) => VisitWith(items, body, target)
    case FunctionDef(isAsync, name, args, body, decorators, annotation, pos) =>
      var body' :- RewriteBlock(body, target);
      Ok([FunctionDef(isAsync, name, args, body', decorators, annotation, pos)])
    case Compound(kind, blocks) =>
      var blocks' :- RewriteBlocks(blocks, target);
      Ok([Compound(kind, blocks')])
    case Simple(_) => Ok([s])
  }

  function RewriteBlock(ss: seq<Stmt>, target: string): Result<seq<Stmt>, Error> {
    if ss == [] then Ok([])
    else ConcatResults(RewriteStmt(ss[0], target), RewriteBlock(ss[1..], target))
  }

  function RewriteBlocks(bs: seq<Block>, target: string): Result<seq<Block>, Error> {
    if bs == [] then Ok([])
    else
      var first :- RewriteBlock(bs[0].stmts, target);
      var rest :- RewriteBlocks(bs[1..], target);
      Ok([Block(first)] + rest)
  }

  // ---------------------------------------------------------------------------
  // Pass 2: DeleteDecorator
  // ---------------------------------------------------------------------------

  /** The list comprehension of `DeleteDecorator.visit_FunctionDef`. */
  function FilterDecorators(ds: seq<Decorator>): Result<seq<Decorator>, Error> {
    if ds == [] then Ok([])
    else
      match ds[0]
      case OtherDecorator => Err(AttributeError)
      case NameDecorator(id) =>
        var rest :- FilterDecorators(ds[1..]);
        Ok(if id != TransfunctionDecorator then [ds[0]] + rest else rest)
  }

  /** `DeleteDecorator` on one statement: a `def` has its decorator list
      filtered and is not descended into; any other node is visited generically. */
  function DeleteStmt(s: Stmt): Result<Stmt, Error> {
    match s
    case FunctionDef(isAsync, name, args, body, decorators, annotation, pos) =>
      if !isAsync then
        var ds :- FilterDecorators(decorators);
        Ok(FunctionDef(isAsync, name, args, body, ds, annotation, pos))
      else
        var body' :- DeleteBlock(body);
        Ok(FunctionDef(isAsync, name, args, body', decorators, annotation, pos))
    case With(items, body) =>
      var body' :- DeleteBlock(body);
      Ok(With(items, body'))
    case Compound(kind, blocks) =>
      var blocks' :- DeleteBlocks(blocks);
      Ok(Compound(kind, blocks'))
    case Simple(_) => Ok(s)
  }

  function DeleteBlock(ss: seq<Stmt>): Result<seq<Stmt>, Error> {
    if ss == [] then Ok([])
    else
      var first :- DeleteStmt(ss[0]);
      var rest :- DeleteBlock(ss[1..]);
      Ok([first] + rest)
  }

  function DeleteBlocks(bs: seq<Block>): Result<seq<Block>, Error> {
    if bs == [] then Ok([])
    else
      var first :- DeleteBlock(bs[0].stmts);
      var rest :- DeleteBlocks(bs[1..]);
      Ok([Block(first)] + rest)
  }

  // ---------------------------------------------------------------------------
  // Pass 3: ConvertSyncFunctionToAsync (async getter only)
  // ---------------------------------------------------------------------------

  /** `ConvertSyncFunctionToAsync` on one statement: a `def` named `name`
      becomes an `async def` built from its name, arguments, body, decorator
      list and position only; any other `def` is returned as it is; every
      other node is visited generically. */
  function ConvertStmt(s: Stmt, name: string): Stmt {
    match s
    case FunctionDef(isAsync, n, args, body, decorators, annotation, pos) =>
      if !isAsync then
        if n == name then FunctionDef(true, name, args, body, decorators, None, pos) else s
      else
        FunctionDef(isAsync, n, args, ConvertBlock(body, name), decorators, annotation, pos)
    case With(items, body) => With(items, ConvertBlock(body, name))
    case Compound(kind, blocks) => Compound(kind, ConvertBlocks(blocks, name))
    case Simple(_) => s
  }

  function ConvertBlock(ss: seq<Stmt>, name: string): seq<Stmt> {
    if ss == [] then [] else [ConvertStmt(ss[0], name)] + ConvertBlock(ss[1..], name)
  }

  function ConvertBlocks(bs: seq<Block>, name: string): seq<Block> {
    if bs == [] then [] else [Block(ConvertBlock(bs[0].stmts, name))] + ConvertBlocks(bs[1..], name)
  }

  // ---------------------------------------------------------------------------
  // FunctionTransformer
  // ---------------------------------------------------------------------------

  /** A template function: its `__name__` and the module tree that
      `parse(getsource(function))` yields for it. */
  datatype Template = Template(name: string, tree: seq<Stmt>)

  /** The argument given to `FunctionTransformer(...)`: a Python function, or
      any other object. */
  datatype PyObject = FunctionObject(template: Template) | OtherObject

  datatype FunctionTransformer = FunctionTransformer(template: Template)

  /** `FunctionTransformer.__init__`. */
  function NewFunctionTransformer(f: PyObject): (r: Result<FunctionTransformer, Error>)
    ensures r.Ok? <==> f.FunctionObject?
    ensures r.Ok? ==> r.value.template == f.template
    ensures r.Err? ==> r.error == ValueError
  {
    if f.FunctionObject? then Ok(FunctionTransformer(f.template)) else Err(ValueError)
  }

  /** `FunctionTransformer.__call__`: whatever the arguments, it raises. */
  function Call(t: FunctionTransformer, args: seq<PyObject>, kwargs: map<string, PyObject>): (r: Result<(), Error>)
    ensures r.Err? && r.error == CallTransfunctionDirectlyError(CallDirectlyMessage)
  {
    Err(CallTransfunctionDirectlyError(CallDirectlyMessage))
  }

  /** An extra pass given to `extract_context` (its `addictional_transformer`):
      what it makes of the whole module tree. */
  type ExtraPass = seq<Stmt> -> seq<Stmt>

  /** The extra pass of `get_async_function`: `ConvertSyncFunctionToAsync`
      for the template named `name`. */
  function ConvertPass(name: string): ExtraPass {
    ss => ConvertBlock(ss, name)
  }

  /** The tree that `extract_context` hands to `compile`: the context rewrite,
      then decorator removal, then the extra pass when one is given. */
  function ExtractContext(t: FunctionTransformer, contextName: string, extra: Option<ExtraPass>): Result<seq<Stmt>, Error> {
    var rewritten :- RewriteBlock(t.template.tree, contextName);
    var undecorated :- DeleteBlock(rewritten);
    Ok(if extra.Some? then extra.value(undecorated) else undecorated)
  }

  function GetUsualFunction(t: FunctionTransformer): Result<seq<Stmt>, Error> {
    ExtractContext(t, SyncContext, None)
  }

  function GetAsyncFunction(t: FunctionTransformer): Result<seq<Stmt>, Error> {
    ExtractContext(t, AsyncContext, Some(ConvertPass(t.template.name)))
  }

  function GetGeneratorFunction(t: FunctionTransformer): Result<seq<Stmt>, Error> {
    ExtractContext(t, GeneratorContext, None)
  }
}
