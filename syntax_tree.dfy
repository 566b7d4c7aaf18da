/** The part of Python's abstract syntax tree that the template rewriter looks at.

    A module, a function body or any other statement list is a `seq<Stmt>`.
    Expressions are not modelled: the rewriter only ever inspects the callee
    name of a `with` item and the name of a decorator. */
module SyntaxTree {
  import opened Results

  /** The context expression of one item of a `with` statement.
      `CallOf(n)` is a call `n(...)` whose callee is the bare name `n`, the only
      shape on which `context_expr.func.id` is defined; `OtherContext` is every
      other expression (a bare name, an attribute, a call of an attribute ...). */
  datatype WithItem = CallOf(callee: string) | OtherContext

  /** One entry of a `decorator_list`: a bare name such as `@transfunction`,
      or any other expression (`@a.b`, `@f(x)`), which has no `id`. */
  datatype Decorator = NameDecorator(id: string) | OtherDecorator

  /** `lineno` and `col_offset` of a node. */
  datatype Position = Position(line: int, col: int)

  /** One statement list of a compound statement (an `if` body, an `else`
      branch, an `except` handler body, a `finally` block ...). */
  datatype Block = Block(stmts: seq<Stmt>)

  datatype Stmt =
      /** `with i1, ..., in: body` */
    | With(items: seq<WithItem>, body: seq<Stmt>)
      /** `def` (isAsync == false, an `ast.FunctionDef`) or `async def`
          (isAsync == true, an `ast.AsyncFunctionDef`); `annotation` is the
          return annotation, kept abstract as its source text */
    | FunctionDef(isAsync: bool, name: string, args: seq<string>, body: seq<Stmt>,
                  decorators: seq<Decorator>, annotation: Option<string>, pos: Position)
      /** any other statement holding statement lists: `if`, `for`, `while`,
          `try`, `class`, `async with`, `match` */
    | Compound(kind: string, blocks: seq<Block>)
      /** a statement without nested statements */
    | Simple(text: string)
}
