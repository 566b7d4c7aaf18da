/** What the three passes of `FunctionTransformer` and their composition
    guarantee, stated over the functions of module `Transformer`. */
module TransformerProperties {
  import opened Results
  import opened SyntaxTree
  import opened Transformer

  // ---------------------------------------------------------------------------
  // Reach predicates
  // ---------------------------------------------------------------------------

  /** Every single-item `with` the context rewrite reaches has a context
      expression of the form `name(...)`; the bodies of `with` statements are
      not constrained, since the rewrite never enters them. */
  predicate CalleesNamedStmt(s: Stmt) {
    match s
    case With(items, _) => |items| == 1 ==> items[0].CallOf?
    case FunctionDef(_, _, _, body, _, _, _) => CalleesNamedBlock(body)
    case Compound(_, blocks) => CalleesNamedBlocks(blocks)
    case Simple(_) => true
  }

  predicate CalleesNamedBlock(ss: seq<Stmt>) {
    forall i | 0 <= i < |ss| :: CalleesNamedStmt(ss[i])
  }

  predicate CalleesNamedBlocks(bs: seq<Block>) {
    forall i | 0 <= i < |bs| :: CalleesNamedBlock(bs[i].stmts)
  }

  /** No single-item `with` is left where the context rewrite would look. */
  predicate SettledStmt(s: Stmt) {
    match s
    case With(items, _) => |items| != 1
    case FunctionDef(_, _, _, body, _, _, _) => SettledBlock(body)
    case Compound(_, blocks) => SettledBlocks(blocks)
    case Simple(_) => true
  }

  predicate SettledBlock(ss: seq<Stmt>) {
    forall i | 0 <= i < |ss| :: SettledStmt(ss[i])
  }

  predicate SettledBlocks(bs: seq<Block>) {
    forall i | 0 <= i < |bs| :: SettledBlock(bs[i].stmts)
  }

  /** Marker blocks are not nested directly: every single-item `with` the
      rewrite reaches is of the form `name(...)` and its body is settled. */
  predicate FlatStmt(s: Stmt) {
    match s
    case With(items, body) => |items| == 1 ==> items[0].CallOf? && SettledBlock(body)
    case FunctionDef(_, _, _, body, _, _, _) => FlatBlock(body)
    case Compound(_, blocks) => FlatBlocks(blocks)
    case Simple(_) => true
  }

  predicate FlatBlock(ss: seq<Stmt>) {
    forall i | 0 <= i < |ss| :: FlatStmt(ss[i])
  }

  predicate FlatBlocks(bs: seq<Block>) {
    forall i | 0 <= i < |bs| :: FlatBlock(bs[i].stmts)
  }

  /** No non-async `def` named `name` is reachable by the async conversion. */
  predicate NoSyncDefStmt(s: Stmt, name: string) {
    match s
    case FunctionDef(isAsync, n, _, body, _, _, _) =>
      if !isAsync then n != name else NoSyncDefBlock(body, name)
    case With(_, body) => NoSyncDefBlock(body, name)
    case Compound(_, blocks) => NoSyncDefBlocks(blocks, name)
    case Simple(_) => true
  }

  predicate NoSyncDefBlock(ss: seq<Stmt>, name: string) {
    forall i | 0 <= i < |ss| :: NoSyncDefStmt(ss[i], name)
  }

  predicate NoSyncDefBlocks(bs: seq<Block>, name: string) {
    forall i | 0 <= i < |bs| :: NoSyncDefBlock(bs[i].stmts, name)
  }

  // ---------------------------------------------------------------------------
  // Context rewrite: splicing
  // ---------------------------------------------------------------------------

  lemma ConcatResultsAssociative<X>(x: Result<seq<X>, Error>, y: Result<seq<X>, Error>, z: Result<seq<X>, Error>)
    ensures ConcatResults(x, ConcatResults(y, z)) == ConcatResults(ConcatResults(x, y), z)
  {
    if x.Ok? && y.Ok? && z.Ok? {
      assert x.value + (y.value + z.value) == (x.value + y.value) + z.value;
    }
  }

  /** The rewrite of a statement list is the concatenation, in order, of the
      rewrites of its parts: statements are spliced where they stood. */
  lemma {:induction false} RewriteBlockAppend(a: seq<Stmt>, b: seq<Stmt>, target: string)
    ensures RewriteBlock(a + b, target) == ConcatResults(RewriteBlock(a, target), RewriteBlock(b, target))
  {
    if a == [] {
      assert a + b == b;
      var y := RewriteBlock(b, target);
      if y.Ok? { assert [] + y.value == y.value; }
    } else {
      assert (a + b)[0] == a[0];
      assert (a + b)[1..] == a[1..] + b;
      RewriteBlockAppend(a[1..], b, target);
      ConcatResultsAssociative(RewriteStmt(a[0], target), RewriteBlock(a[1..], target), RewriteBlock(b, target));
    }
  }

  lemma RewriteAround(pre: seq<Stmt>, w: Stmt, post: seq<Stmt>, target: string)
    requires RewriteBlock(pre, target).Ok? && RewriteBlock(post, target).Ok? && RewriteStmt(w, target).Ok?
    ensures RewriteBlock(pre + [w] + post, target)
         == Ok(RewriteBlock(pre, target).value + RewriteStmt(w, target).value + RewriteBlock(post, target).value)
  {
    RewriteBlockAppend(pre + [w], post, target);
    RewriteBlockAppend(pre, [w], target);
    RewriteSingleton(w, target);
  }

  lemma RewriteSingleton(w: Stmt, target: string)
    requires RewriteStmt(w, target).Ok?
    ensures RewriteBlock([w], target) == RewriteStmt(w, target)
  {
    assert [w][0] == w && [w][1..] == [];
    assert RewriteBlock([w], target) == ConcatResults(RewriteStmt(w, target), RewriteBlock([], target));
    assert RewriteStmt(w, target).value + [] == RewriteStmt(w, target).value;
  }

  /** A single-item `with target(...)` is replaced, where it stood, by its body
      statements exactly as written (nested `with` statements included), and
      nothing else is inserted. */
  lemma UnwrapTarget(pre: seq<Stmt>, body: seq<Stmt>, post: seq<Stmt>, target: string)
    requires RewriteBlock(pre, target).Ok? && RewriteBlock(post, target).Ok?
    ensures RewriteBlock(pre + [With([CallOf(target)], body)] + post, target)
         == Ok(RewriteBlock(pre, target).value + body + RewriteBlock(post, target).value)
  {
    RewriteAround(pre, With([CallOf(target)], body), post, target);
  }

  /** For a marker target, a single-item `with c(...)` for any other callee `c`
      disappears with its whole body, whatever that body holds. */
  lemma DeleteOtherContext(pre: seq<Stmt>, callee: string, body: seq<Stmt>, post: seq<Stmt>, target: string)
    requires IsMarker(target) && callee != target
    requires RewriteBlock(pre, target).Ok? && RewriteBlock(post, target).Ok?
    ensures RewriteBlock(pre + [With([CallOf(callee)], body)] + post, target)
         == Ok(RewriteBlock(pre, target).value + RewriteBlock(post, target).value)
  {
    assert RewriteStmt(With([CallOf(callee)], body), target) == Ok([]);
    RewriteAround(pre, With([CallOf(callee)], body), post, target);
    assert RewriteBlock(pre, target).value + [] == RewriteBlock(pre, target).value;
  }

  /** A `with` that does not have exactly one item stays where it is, and its
      body is not rewritten. */
  lemma KeepMultiItem(pre: seq<Stmt>, items: seq<WithItem>, body: seq<Stmt>, post: seq<Stmt>, target: string)
    requires |items| != 1
    requires RewriteBlock(pre, target).Ok? && RewriteBlock(post, target).Ok?
    ensures RewriteBlock(pre + [With(items, body)] + post, target)
         == Ok(RewriteBlock(pre, target).value + [With(items, body)] + RewriteBlock(post, target).value)
  {
    RewriteAround(pre, With(items, body), post, target);
  }

  /** Through the whole of `extract_context`, a top-level single-item `with`
      of a callee other than a marker target is as if it had not been written. */
  lemma ExtractDropsOtherContext(name: string, pre: seq<Stmt>, callee: string, body: seq<Stmt>, post: seq<Stmt>,
                                 contextName: string, extra: Option<ExtraPass>)
    requires IsMarker(contextName) && callee != contextName
    requires RewriteBlock(pre, contextName).Ok? && RewriteBlock(post, contextName).Ok?
    ensures ExtractContext(FunctionTransformer(Template(name, pre + [With([CallOf(callee)], body)] + post)), contextName, extra)
         == ExtractContext(FunctionTransformer(Template(name, pre + post)), contextName, extra)
  {
    DeleteOtherContext(pre, callee, body, post, contextName);
    RewriteBlockAppend(pre, post, contextName);
  }

  /** Each getter deletes the blocks of the other markers: a template with
      one more top-level `with` of a callee other than the getter's marker
      yields the same tree as the template without it. */
  lemma GettersDropOtherMarkers(name: string, pre: seq<Stmt>, callee: string, body: seq<Stmt>, post: seq<Stmt>)
    requires CalleesNamedBlock(pre) && CalleesNamedBlock(post)
    ensures var with := FunctionTransformer(Template(name, pre + [With([CallOf(callee)], body)] + post));
            var without := FunctionTransformer(Template(name, pre + post));
            && (callee != SyncContext ==> GetUsualFunction(with) == GetUsualFunction(without))
            && (callee != AsyncContext ==> GetAsyncFunction(with) == GetAsyncFunction(without))
            && (callee != GeneratorContext ==> GetGeneratorFunction(with) == GetGeneratorFunction(without))
  {
    RewriteBlockSucceedsIff(pre, SyncContext);
    RewriteBlockSucceedsIff(post, SyncContext);
    RewriteBlockSucceedsIff(pre, AsyncContext);
    RewriteBlockSucceedsIff(post, AsyncContext);
    RewriteBlockSucceedsIff(pre, GeneratorContext);
    RewriteBlockSucceedsIff(post, GeneratorContext);
    if callee != SyncContext {
      ExtractDropsOtherContext(name, pre, callee, body, post, SyncContext, None);
    }
    if callee != AsyncContext {
      ExtractDropsOtherContext(name, pre, callee, body, post, AsyncContext, Some(ConvertPass(name)));
    }
    if callee != GeneratorContext {
      ExtractDropsOtherContext(name, pre, callee, body, post, GeneratorContext, None);
    }
  }

  // ---------------------------------------------------------------------------
  // Context rewrite: when it raises
  // ---------------------------------------------------------------------------

  lemma {:induction false} RewriteStmtSucceedsIff(s: Stmt, target: string)
    ensures RewriteStmt(s, target).Ok? <==> CalleesNamedStmt(s)
    ensures RewriteStmt(s, target).Err? ==> RewriteStmt(s, target).error == AttributeError
    decreases s, 1
  {
    match s
    case With(_, _) =>
    case FunctionDef(_, _, _, body, _, _, _) => RewriteBlockSucceedsIff(body, target);
    case Compound(_, blocks) => RewriteBlocksSucceedsIff(blocks, target);
    case Simple(_) =>
  }

  /** The context rewrite raises exactly when some single-item `with` that it
      reaches has a context expression other than `name(...)`, and it then
      raises `AttributeError`. */
  lemma {:induction false} RewriteBlockSucceedsIff(ss: seq<Stmt>, target: string)
    ensures RewriteBlock(ss, target).Ok? <==> CalleesNamedBlock(ss)
    ensures RewriteBlock(ss, target).Err? ==> RewriteBlock(ss, target).error == AttributeError
    decreases ss, 0
  {
    if ss != [] {
      RewriteStmtSucceedsIff(ss[0], target);
      RewriteBlockSucceedsIff(ss[1..], target);
      assert CalleesNamedBlock(ss) <==> CalleesNamedStmt(ss[0]) && CalleesNamedBlock(ss[1..]) by {
        if CalleesNamedStmt(ss[0]) && CalleesNamedBlock(ss[1..]) {
          forall i | 0 <= i < |ss| ensures CalleesNamedStmt(ss[i]) {
            if i > 0 { assert ss[i] == ss[1..][i - 1]; }
          }
        }
        if CalleesNamedBlock(ss) {
          forall i | 0 <= i < |ss| - 1 ensures CalleesNamedStmt(ss[1..][i]) {
            assert ss[1..][i] == ss[i + 1];
          }
        }
      }
    }
  }

  lemma {:induction false} RewriteBlocksSucceedsIff(bs: seq<Block>, target: string)
    ensures RewriteBlocks(bs, target).Ok? <==> CalleesNamedBlocks(bs)
    ensures RewriteBlocks(bs, target).Err? ==> RewriteBlocks(bs, target).error == AttributeError
    decreases bs
  {
    if bs != [] {
      RewriteBlockSucceedsIff(bs[0].stmts, target);
      RewriteBlocksSucceedsIff(bs[1..], target);
      assert CalleesNamedBlocks(bs) <==> CalleesNamedBlock(bs[0].stmts) && CalleesNamedBlocks(bs[1..]) by {
        if CalleesNamedBlock(bs[0].stmts) && CalleesNamedBlocks(bs[1..]) {
          forall i | 0 <= i < |bs| ensures CalleesNamedBlock(bs[i].stmts) {
            if i > 0 { assert bs[i] == bs[1..][i - 1]; }
          }
        }
      }
    }
  }

  // ---------------------------------------------------------------------------
  // Context rewrite: settled trees and a second pass
  // ---------------------------------------------------------------------------

  lemma {:induction false} SettledStmtFixed(s: Stmt, target: string)
    requires SettledStmt(s)
    ensures RewriteStmt(s, target) == Ok([s])
    decreases s, 1
  {
    match s
    case With(_, _) =>
    case FunctionDef(_, _, _, body, _, _, _) => SettledBlockFixed(body, target);
    case Compound(_, blocks) => SettledBlocksFixed(blocks, target);
    case Simple(_) =>
  }

  /** A tree in which the rewrite reaches no single-item `with` is left as it
      is, whatever the target. */
  lemma {:induction false} SettledBlockFixed(ss: seq<Stmt>, target: string)
    requires SettledBlock(ss)
    ensures RewriteBlock(ss, target) == Ok(ss)
    decreases ss, 0
  {
    if ss != [] {
      SettledStmtFixed(ss[0], target);
      assert SettledBlock(ss[1..]) by {
        forall i | 0 <= i < |ss| - 1 ensures SettledStmt(ss[1..][i]) {
          assert ss[1..][i] == ss[i + 1];
        }
      }
      SettledBlockFixed(ss[1..], target);
      assert [ss[0]] + ss[1..] == ss;
    }
  }

  lemma {:induction false} SettledBlocksFixed(bs: seq<Block>, target: string)
    requires SettledBlocks(bs)
    ensures RewriteBlocks(bs, target) == Ok(bs)
    decreases bs
  {
    if bs != [] {
      SettledBlockFixed(bs[0].stmts, target);
      assert SettledBlocks(bs[1..]) by {
        forall i | 0 <= i < |bs| - 1 ensures SettledBlock(bs[1..][i].stmts) {
          assert bs[1..][i] == bs[i + 1];
        }
      }
      SettledBlocksFixed(bs[1..], target);
      assert [Block(bs[0].stmts)] + bs[1..] == bs;
    }
  }

  lemma SettledAppend(a: seq<Stmt>, b: seq<Stmt>)
    requires SettledBlock(a) && SettledBlock(b)
    ensures SettledBlock(a + b)
  {
    forall i | 0 <= i < |a + b| ensures SettledStmt((a + b)[i]) {
      if i < |a| { assert (a + b)[i] == a[i]; } else { assert (a + b)[i] == b[i - |a|]; }
    }
  }

  lemma {:induction false} FlatStmtSettles(s: Stmt, target: string)
    requires IsMarker(target) && FlatStmt(s)
    ensures RewriteStmt(s, target).Ok? && SettledBlock(RewriteStmt(s, target).value)
    decreases s, 1
  {
    match s
    case With(items, body) =>
    case FunctionDef(_, _, _, body, _, _, _) =>
      FlatBlockSettles(body, target);
      assert SettledStmt(RewriteStmt(s, target).value[0]);
    case Compound(_, blocks) =>
      FlatBlocksSettles(blocks, target);
      assert SettledStmt(RewriteStmt(s, target).value[0]);
    case Simple(_) =>
  }

  /** With a marker target and no directly nested marker blocks, the rewrite
      succeeds and leaves no single-item `with` where it would look. */
  lemma {:induction false} FlatBlockSettles(ss: seq<Stmt>, target: string)
    requires IsMarker(target) && FlatBlock(ss)
    ensures RewriteBlock(ss, target).Ok? && SettledBlock(RewriteBlock(ss, target).value)
    decreases ss, 0
  {
    if ss != [] {
      FlatStmtSettles(ss[0], target);
      assert FlatBlock(ss[1..]) by {
        forall i | 0 <= i < |ss| - 1 ensures FlatStmt(ss[1..][i]) {
          assert ss[1..][i] == ss[i + 1];
        }
      }
      FlatBlockSettles(ss[1..], target);
      SettledAppend(RewriteStmt(ss[0], target).value, RewriteBlock(ss[1..], target).value);
    }
  }

  lemma {:induction false} FlatBlocksSettles(bs: seq<Block>, target: string)
    requires IsMarker(target) && FlatBlocks(bs)
    ensures RewriteBlocks(bs, target).Ok? && SettledBlocks(RewriteBlocks(bs, target).value)
    decreases bs
  {
    if bs != [] {
      FlatBlockSettles(bs[0].stmts, target);
      assert FlatBlocks(bs[1..]) by {
        forall i | 0 <= i < |bs| - 1 ensures FlatBlock(bs[1..][i].stmts) {
          assert bs[1..][i] == bs[i + 1];
        }
      }
      FlatBlocksSettles(bs[1..], target);
      var r := RewriteBlocks(bs, target).value;
      assert r == [Block(RewriteBlock(bs[0].stmts, target).value)] + RewriteBlocks(bs[1..], target).value;
      forall i | 0 <= i < |r| ensures SettledBlock(r[i].stmts) {
        if i > 0 { assert r[i] == RewriteBlocks(bs[1..], target).value[i - 1]; }
      }
    }
  }

  /** Without directly nested marker blocks, running the context rewrite a
      second time changes nothing. */
  lemma RewriteIdempotentWhenFlat(ss: seq<Stmt>, target: string)
    requires IsMarker(target) && FlatBlock(ss)
    ensures RewriteBlock(ss, target).Ok?
    ensures RewriteBlock(RewriteBlock(ss, target).value, target) == RewriteBlock(ss, target)
  {
    FlatBlockSettles(ss, target);
    SettledBlockFixed(RewriteBlock(ss, target).value, target);
  }

  /** The rewrite does not enter a block it unwraps: a marker block nested
      directly inside the target's block is left as written, so a second
      pass would still change the tree. */
  lemma NestedMarkerLeftAsWritten()
    ensures RewriteBlock([With([CallOf(SyncContext)], [With([CallOf(AsyncContext)], [Simple("x")])])], SyncContext)
         == Ok([With([CallOf(AsyncContext)], [Simple("x")])])
    ensures RewriteBlock([With([CallOf(AsyncContext)], [Simple("x")])], SyncContext) == Ok([])
  {
    var inner := With([CallOf(AsyncContext)], [Simple("x")]);
    assert RewriteStmt(With([CallOf(SyncContext)], [inner]), SyncContext) == Ok([inner]);
    RewriteSingleton(With([CallOf(SyncContext)], [inner]), SyncContext);
    assert RewriteStmt(inner, SyncContext) == Ok([]);
    RewriteSingleton(inner, SyncContext);
  }

  // ---------------------------------------------------------------------------
  // Decorator removal
  // ---------------------------------------------------------------------------

  /** The filter raises exactly when some decorator is not a bare name. */
  lemma {:induction false} FilterDecoratorsSucceedsIff(ds: seq<Decorator>)
    ensures FilterDecorators(ds).Ok? <==> forall i | 0 <= i < |ds| :: ds[i].NameDecorator?
    ensures FilterDecorators(ds).Err? ==> FilterDecorators(ds).error == AttributeError
  {
    if ds != [] {
      FilterDecoratorsSucceedsIff(ds[1..]);
      assert forall i | 0 <= i < |ds| - 1 :: ds[1..][i] == ds[i + 1];
      if (forall i | 0 <= i < |ds| - 1 :: ds[1..][i].NameDecorator?) && ds[0].NameDecorator? {
        assert forall i | 0 <= i < |ds| :: ds[i].NameDecorator? by {
          forall i | 0 <= i < |ds| ensures ds[i].NameDecorator? {
            if i > 0 { assert ds[i] == ds[1..][i - 1]; }
          }
        }
      }
    }
  }

  /** Exactly the decorators other than `@transfunction` survive, each as
      many times as it was written. */
  lemma {:induction false} FilterDecoratorsKeeps(ds: seq<Decorator>)
    requires FilterDecorators(ds).Ok?
    ensures forall d :: d in FilterDecorators(ds).value <==> d in ds && d != NameDecorator(TransfunctionDecorator)
    ensures forall d :: multiset(FilterDecorators(ds).value)[d]
                        == if d == NameDecorator(TransfunctionDecorator) then 0 else multiset(ds)[d]
  {
    if ds != [] {
      FilterDecoratorsKeeps(ds[1..]);
      assert ds == [ds[0]] + ds[1..];
    }
  }

  /** The survivors keep their original relative order: filtering a
      concatenation concatenates the filtered parts. */
  lemma {:induction false} FilterDecoratorsAppend(a: seq<Decorator>, b: seq<Decorator>)
    ensures FilterDecorators(a + b) == ConcatResults(FilterDecorators(a), FilterDecorators(b))
  {
    if a == [] {
      assert a + b == b;
      var y := FilterDecorators(b);
      if y.Ok? { assert [] + y.value == y.value; }
    } else {
      assert (a + b)[0] == a[0];
      assert (a + b)[1..] == a[1..] + b;
      FilterDecoratorsAppend(a[1..], b);
      match a[0]
      case OtherDecorator =>
      case NameDecorator(id) =>
        var x, y := FilterDecorators(a[1..]), FilterDecorators(b);
        if x.Ok? && y.Ok? {
          if id != TransfunctionDecorator {
            assert [a[0]] + (x.value + y.value) == ([a[0]] + x.value) + y.value;
          }
        }
    }
  }

  /** Filtering twice gives the same list as filtering once. */
  lemma {:induction false} FilterDecoratorsIdempotent(ds: seq<Decorator>)
    requires FilterDecorators(ds).Ok?
    ensures FilterDecorators(FilterDecorators(ds).value) == FilterDecorators(ds)
  {
    if ds != [] {
      FilterDecoratorsIdempotent(ds[1..]);
      var rest := FilterDecorators(ds[1..]).value;
      if ds[0].id != TransfunctionDecorator {
        assert ([ds[0]] + rest)[0] == ds[0];
        assert ([ds[0]] + rest)[1..] == rest;
      }
    }
  }

  lemma {:induction false} DeleteStmtIdempotent(s: Stmt)
    requires DeleteStmt(s).Ok?
    ensures DeleteStmt(DeleteStmt(s).value) == DeleteStmt(s)
    decreases s, 1
  {
    match s
    case FunctionDef(isAsync, _, _, body, decorators, _, _) =>
      if !isAsync { FilterDecoratorsIdempotent(decorators); } else { DeleteBlockIdempotent(body); }
    case With(_, body) => DeleteBlockIdempotent(body);
    case Compound(_, blocks) => DeleteBlocksIdempotent(blocks);
    case Simple(_) =>
  }

  /** Decorator removal over a whole tree: applying it twice gives the same
      tree as applying it once. */
  lemma {:induction false} DeleteBlockIdempotent(ss: seq<Stmt>)
    requires DeleteBlock(ss).Ok?
    ensures DeleteBlock(DeleteBlock(ss).value) == DeleteBlock(ss)
    decreases ss, 0
  {
    if ss != [] {
      DeleteStmtIdempotent(ss[0]);
      DeleteBlockIdempotent(ss[1..]);
      var r := DeleteBlock(ss).value;
      assert r[0] == DeleteStmt(ss[0]).value;
      assert r[1..] == DeleteBlock(ss[1..]).value;
    }
  }

  lemma {:induction false} DeleteBlocksIdempotent(bs: seq<Block>)
    requires DeleteBlocks(bs).Ok?
    ensures DeleteBlocks(DeleteBlocks(bs).value) == DeleteBlocks(bs)
    decreases bs
  {
    if bs != [] {
      DeleteBlockIdempotent(bs[0].stmts);
      DeleteBlocksIdempotent(bs[1..]);
      var r := DeleteBlocks(bs).value;
      assert r[0] == Block(DeleteBlock(bs[0].stmts).value);
      assert r[1..] == DeleteBlocks(bs[1..]).value;
    }
  }

  // ---------------------------------------------------------------------------
  // Async conversion
  // ---------------------------------------------------------------------------

  lemma {:induction false} ConvertBlockPointwise(ss: seq<Stmt>, name: string)
    ensures |ConvertBlock(ss, name)| == |ss|
    ensures forall i | 0 <= i < |ss| :: ConvertBlock(ss, name)[i] == ConvertStmt(ss[i], name)
  {
    if ss != [] {
      ConvertBlockPointwise(ss[1..], name);
    }
  }

  /** In a statement list, the conversion keeps every statement at its
      position; a `def` becomes `async def` exactly when it carries the given
      name, keeping its name, arguments, body, decorator list and position
      (its return annotation is not carried over); any other `def` is
      returned unchanged. */
  lemma ConvertDefinitionAt(ss: seq<Stmt>, name: string, i: nat)
    requires i < |ss| && ss[i].FunctionDef? && !ss[i].isAsync
    ensures |ConvertBlock(ss, name)| == |ss|
    ensures var r := ConvertBlock(ss, name)[i];
            && r.FunctionDef?
            && (r.isAsync <==> ss[i].name == name)
            && r.name == ss[i].name && r.args == ss[i].args && r.body == ss[i].body
            && r.decorators == ss[i].decorators && r.pos == ss[i].pos
            && (ss[i].name == name ==> r.annotation == None)
            && (ss[i].name != name ==> r == ss[i])
  {
    ConvertBlockPointwise(ss, name);
  }

  lemma {:induction false} ConvertStmtWithoutTarget(s: Stmt, name: string)
    requires NoSyncDefStmt(s, name)
    ensures ConvertStmt(s, name) == s
    decreases s, 1
  {
    match s
    case FunctionDef(isAsync, _, _, body, _, _, _) => if isAsync { ConvertBlockWithoutTarget(body, name); }
    case With(_, body) => ConvertBlockWithoutTarget(body, name);
    case Compound(_, blocks) => ConvertBlocksWithoutTarget(blocks, name);
    case Simple(_) =>
  }

  /** A tree with no reachable non-async `def` of the given name is returned
      unchanged by the conversion. */
  lemma {:induction false} ConvertBlockWithoutTarget(ss: seq<Stmt>, name: string)
    requires NoSyncDefBlock(ss, name)
    ensures ConvertBlock(ss, name) == ss
    decreases ss, 0
  {
    if ss != [] {
      ConvertStmtWithoutTarget(ss[0], name);
      assert NoSyncDefBlock(ss[1..], name) by {
        forall i | 0 <= i < |ss| - 1 ensures NoSyncDefStmt(ss[1..][i], name) {
          assert ss[1..][i] == ss[i + 1];
        }
      }
      ConvertBlockWithoutTarget(ss[1..], name);
      assert [ss[0]] + ss[1..] == ss;
    }
  }

  lemma {:induction false} ConvertBlocksWithoutTarget(bs: seq<Block>, name: string)
    requires NoSyncDefBlocks(bs, name)
    ensures ConvertBlocks(bs, name) == bs
    decreases bs
  {
    if bs != [] {
      ConvertBlockWithoutTarget(bs[0].stmts, name);
      assert NoSyncDefBlocks(bs[1..], name) by {
        forall i | 0 <= i < |bs| - 1 ensures NoSyncDefBlock(bs[1..][i].stmts, name) {
          assert bs[1..][i] == bs[i + 1];
        }
      }
      ConvertBlocksWithoutTarget(bs[1..], name);
      assert [Block(bs[0].stmts)] + bs[1..] == bs;
    }
  }

  // ---------------------------------------------------------------------------
  // The pipeline and the getters
  // ---------------------------------------------------------------------------

  /** The module tree of a template named `name` that is a single plain `def`. */
  function SingleDef(name: string, args: seq<string>, body: seq<Stmt>, decorators: seq<Decorator>,
                     annotation: Option<string>, pos: Position): FunctionTransformer
  {
    FunctionTransformer(Template(name, [FunctionDef(false, name, args, body, decorators, annotation, pos)]))
  }

  /** The two passes in `extract_context` order on a single plain `def`,
      followed by the extra pass when one is given. */
  lemma ExtractSingleDef(name: string, args: seq<string>, body: seq<Stmt>, decorators: seq<Decorator>,
                         annotation: Option<string>, pos: Position, contextName: string, extra: Option<ExtraPass>)
    requires RewriteBlock(body, contextName).Ok? && FilterDecorators(decorators).Ok?
    ensures var d := FunctionDef(false, name, args, RewriteBlock(body, contextName).value,
                                 FilterDecorators(decorators).value, annotation, pos);
            ExtractContext(SingleDef(name, args, body, decorators, annotation, pos), contextName, extra)
              == Ok(if extra.Some? then extra.value([d]) else [d])
  {
    var d := FunctionDef(false, name, args, body, decorators, annotation, pos);
    var body' := RewriteBlock(body, contextName).value;
    var d1 := FunctionDef(false, name, args, body', decorators, annotation, pos);
    assert RewriteStmt(d, contextName) == Ok([d1]);
    RewriteSingleton(d, contextName);
    var d2 := FunctionDef(false, name, args, body', FilterDecorators(decorators).value, annotation, pos);
    assert DeleteStmt(d1) == Ok(d2);
    assert DeleteBlock([d1]) == Ok([d2]) by {
      assert [d1][0] == d1 && [d1][1..] == [];
      assert DeleteBlock([]) == Ok([]);
      assert [d2] + [] == [d2];
    }
  }

  /** `get_usual_function`: the body is rewritten for `sync_context`, then
      `@transfunction` is removed; the definition stays a plain `def`. */
  lemma UsualFunctionOfTemplate(name: string, args: seq<string>, body: seq<Stmt>, decorators: seq<Decorator>,
                                annotation: Option<string>, pos: Position)
    requires CalleesNamedBlock(body)
    requires forall i | 0 <= i < |decorators| :: decorators[i].NameDecorator?
    ensures RewriteBlock(body, SyncContext).Ok? && FilterDecorators(decorators).Ok?
    ensures GetUsualFunction(SingleDef(name, args, body, decorators, annotation, pos))
         == Ok([FunctionDef(false, name, args, RewriteBlock(body, SyncContext).value,
                            FilterDecorators(decorators).value, annotation, pos)])
  {
    RewriteBlockSucceedsIff(body, SyncContext);
    FilterDecoratorsSucceedsIff(decorators);
    ExtractSingleDef(name, args, body, decorators, annotation, pos, SyncContext, None);
  }

  /** `get_generator_function`: as the usual getter, with `generator_context`. */
  lemma GeneratorFunctionOfTemplate(name: string, args: seq<string>, body: seq<Stmt>, decorators: seq<Decorator>,
                                    annotation: Option<string>, pos: Position)
    requires CalleesNamedBlock(body)
    requires forall i | 0 <= i < |decorators| :: decorators[i].NameDecorator?
    ensures RewriteBlock(body, GeneratorContext).Ok? && FilterDecorators(decorators).Ok?
    ensures GetGeneratorFunction(SingleDef(name, args, body, decorators, annotation, pos))
         == Ok([FunctionDef(false, name, args, RewriteBlock(body, GeneratorContext).value,
                            FilterDecorators(decorators).value, annotation, pos)])
  {
    RewriteBlockSucceedsIff(body, GeneratorContext);
    FilterDecoratorsSucceedsIff(decorators);
    ExtractSingleDef(name, args, body, decorators, annotation, pos, GeneratorContext, None);
  }

  /** `get_async_function`: the body is rewritten for `async_context`, then
      `@transfunction` is removed, and only then is the definition turned into
      an `async def`, which keeps the filtered decorator list and loses the
      return annotation. */
  lemma AsyncFunctionOfTemplate(name: string, args: seq<string>, body: seq<Stmt>, decorators: seq<Decorator>,
                                annotation: Option<string>, pos: Position)
    requires CalleesNamedBlock(body)
    requires forall i | 0 <= i < |decorators| :: decorators[i].NameDecorator?
    ensures RewriteBlock(body, AsyncContext).Ok? && FilterDecorators(decorators).Ok?
    ensures GetAsyncFunction(SingleDef(name, args, body, decorators, annotation, pos))
         == Ok([FunctionDef(true, name, args, RewriteBlock(body, AsyncContext).value,
                            FilterDecorators(decorators).value, None, pos)])
  {
    RewriteBlockSucceedsIff(body, AsyncContext);
    FilterDecoratorsSucceedsIff(decorators);
    ExtractSingleDef(name, args, body, decorators, annotation, pos, AsyncContext, Some(ConvertPass(name)));
    var d := FunctionDef(false, name, args, RewriteBlock(body, AsyncContext).value,
                         FilterDecorators(decorators).value, annotation, pos);
    assert ConvertBlock([d], name) == [ConvertStmt(d, name)] by {
      assert [d][0] == d && [d][1..] == [];
    }
  }

  /** Every decorator of every `def` anywhere in the tree is a bare name,
      including inside plain `def`s, which decorator removal does not enter:
      a condition on the template that does not depend on the marker. */
  predicate DecoratorsNamedStmt(s: Stmt) {
    match s
    case FunctionDef(_, _, _, body, decorators, _, _) =>
      (forall i | 0 <= i < |decorators| :: decorators[i].NameDecorator?) && DecoratorsNamedBlock(body)
    case With(_, body) => DecoratorsNamedBlock(body)
    case Compound(_, blocks) => DecoratorsNamedBlocks(blocks)
    case Simple(_) => true
  }

  predicate DecoratorsNamedBlock(ss: seq<Stmt>) {
    forall i | 0 <= i < |ss| :: DecoratorsNamedStmt(ss[i])
  }

  predicate DecoratorsNamedBlocks(bs: seq<Block>) {
    forall i | 0 <= i < |bs| :: DecoratorsNamedBlock(bs[i].stmts)
  }

  lemma DecoratorsNamedAppend(a: seq<Stmt>, b: seq<Stmt>)
    requires DecoratorsNamedBlock(a) && DecoratorsNamedBlock(b)
    ensures DecoratorsNamedBlock(a + b)
  {
    forall i | 0 <= i < |a + b| ensures DecoratorsNamedStmt((a + b)[i]) {
      if i < |a| { assert (a + b)[i] == a[i]; } else { assert (a + b)[i] == b[i - |a|]; }
    }
  }

  lemma {:induction false} RewriteStmtKeepsDecoratorsNamed(s: Stmt, target: string)
    requires DecoratorsNamedStmt(s) && RewriteStmt(s, target).Ok?
    ensures DecoratorsNamedBlock(RewriteStmt(s, target).value)
    decreases s, 1
  {
    match s
    case With(_, _) =>
    case FunctionDef(_, _, _, body, _, _, _) =>
      RewriteBlockKeepsDecoratorsNamed(body, target);
      assert DecoratorsNamedStmt(RewriteStmt(s, target).value[0]);
    case Compound(_, blocks) =>
      RewriteBlocksKeepsDecoratorsNamed(blocks, target);
      assert DecoratorsNamedStmt(RewriteStmt(s, target).value[0]);
    case Simple(_) =>
  }

  /** The context rewrite only removes statements and splices bodies written
      in the tree, so it brings in no decorator that was not there. */
  lemma {:induction false} RewriteBlockKeepsDecoratorsNamed(ss: seq<Stmt>, target: string)
    requires DecoratorsNamedBlock(ss) && RewriteBlock(ss, target).Ok?
    ensures DecoratorsNamedBlock(RewriteBlock(ss, target).value)
    decreases ss, 0
  {
    if ss != [] {
      assert DecoratorsNamedStmt(ss[0]);
      assert DecoratorsNamedBlock(ss[1..]) by {
        forall i | 0 <= i < |ss| - 1 ensures DecoratorsNamedStmt(ss[1..][i]) {
          assert ss[1..][i] == ss[i + 1];
        }
      }
      RewriteStmtKeepsDecoratorsNamed(ss[0], target);
      RewriteBlockKeepsDecoratorsNamed(ss[1..], target);
      DecoratorsNamedAppend(RewriteStmt(ss[0], target).value, RewriteBlock(ss[1..], target).value);
    }
  }

  lemma {:induction false} RewriteBlocksKeepsDecoratorsNamed(bs: seq<Block>, target: string)
    requires DecoratorsNamedBlocks(bs) && RewriteBlocks(bs, target).Ok?
    ensures DecoratorsNamedBlocks(RewriteBlocks(bs, target).value)
    decreases bs
  {
    if bs != [] {
      assert DecoratorsNamedBlocks(bs[1..]) by {
        forall i | 0 <= i < |bs| - 1 ensures DecoratorsNamedBlock(bs[1..][i].stmts) {
          assert bs[1..][i] == bs[i + 1];
        }
      }
      RewriteBlockKeepsDecoratorsNamed(bs[0].stmts, target);
      RewriteBlocksKeepsDecoratorsNamed(bs[1..], target);
      var r := RewriteBlocks(bs, target).value;
      assert r == [Block(RewriteBlock(bs[0].stmts, target).value)] + RewriteBlocks(bs[1..], target).value;
      forall i | 0 <= i < |r| ensures DecoratorsNamedBlock(r[i].stmts) {
        if i > 0 { assert r[i] == RewriteBlocks(bs[1..], target).value[i - 1]; }
      }
    }
  }

  /** Every decorator that `DeleteDecorator` reads is a bare name: the
      decorators of each plain `def` it meets (it does not enter its body),
      and those inside an `async def`, a `with` or a compound statement. */
  predicate DecoratorsReachedStmt(s: Stmt) {
    match s
    case FunctionDef(isAsync, _, _, body, decorators, _, _) =>
      if !isAsync then forall i | 0 <= i < |decorators| :: decorators[i].NameDecorator?
      else DecoratorsReachedBlock(body)
    case With(_, body) => DecoratorsReachedBlock(body)
    case Compound(_, blocks) => DecoratorsReachedBlocks(blocks)
    case Simple(_) => true
  }

  predicate DecoratorsReachedBlock(ss: seq<Stmt>) {
    forall i | 0 <= i < |ss| :: DecoratorsReachedStmt(ss[i])
  }

  predicate DecoratorsReachedBlocks(bs: seq<Block>) {
    forall i | 0 <= i < |bs| :: DecoratorsReachedBlock(bs[i].stmts)
  }

  /** Decorator removal succeeds on a statement exactly when every decorator
      it reads is a bare name. */
  lemma {:induction false} DeleteStmtSucceedsIff(s: Stmt)
    ensures DeleteStmt(s).Ok? <==> DecoratorsReachedStmt(s)
    decreases s, 1
  {
    match s
    case FunctionDef(isAsync, _, _, body, decorators, _, _) =>
      if !isAsync { FilterDecoratorsSucceedsIff(decorators); } else { DeleteBlockSucceedsIff(body); }
    case With(_, body) => DeleteBlockSucceedsIff(body);
    case Compound(_, blocks) => DeleteBlocksSucceedsIff(blocks);
    case Simple(_) =>
  }

  /** Decorator removal succeeds on a statement list exactly when every
      decorator it reads is a bare name. */
  lemma {:induction false} DeleteBlockSucceedsIff(ss: seq<Stmt>)
    ensures DeleteBlock(ss).Ok? <==> DecoratorsReachedBlock(ss)
    decreases ss, 0
  {
    if ss != [] {
      DeleteStmtSucceedsIff(ss[0]);
      DeleteBlockSucceedsIff(ss[1..]);
      assert DecoratorsReachedBlock(ss) <==> DecoratorsReachedStmt(ss[0]) && DecoratorsReachedBlock(ss[1..]) by {
        assert forall i | 0 <= i < |ss| - 1 :: ss[1..][i] == ss[i + 1];
        assert forall i | 0 < i < |ss| :: ss[i] == ss[1..][i - 1];
      }
    }
  }

  lemma {:induction false} DeleteBlocksSucceedsIff(bs: seq<Block>)
    ensures DeleteBlocks(bs).Ok? <==> DecoratorsReachedBlocks(bs)
    decreases bs
  {
    if bs != [] {
      DeleteBlockSucceedsIff(bs[0].stmts);
      DeleteBlocksSucceedsIff(bs[1..]);
      assert DecoratorsReachedBlocks(bs) <==> DecoratorsReachedBlock(bs[0].stmts) && DecoratorsReachedBlocks(bs[1..]) by {
        assert forall i | 0 <= i < |bs| - 1 :: bs[1..][i] == bs[i + 1];
        assert forall i | 0 < i < |bs| :: bs[i] == bs[1..][i - 1];
      }
    }
  }

  lemma {:induction false} DeleteStmtSucceeds(s: Stmt)
    requires DecoratorsNamedStmt(s)
    ensures DeleteStmt(s).Ok?
    decreases s, 1
  {
    match s
    case FunctionDef(isAsync, _, _, body, decorators, _, _) =>
      if !isAsync { FilterDecoratorsSucceedsIff(decorators); } else { DeleteBlockSucceeds(body); }
    case With(_, body) => DeleteBlockSucceeds(body);
    case Compound(_, blocks) => DeleteBlocksSucceeds(blocks);
    case Simple(_) =>
  }

  /** Decorator removal does not raise on a tree in which every decorator
      anywhere, reached by the pass or not, is a bare name. */
  lemma {:induction false} DeleteBlockSucceeds(ss: seq<Stmt>)
    requires DecoratorsNamedBlock(ss)
    ensures DeleteBlock(ss).Ok?
    decreases ss, 0
  {
    if ss != [] {
      assert DecoratorsNamedBlock(ss[1..]) by {
        forall i | 0 <= i < |ss| - 1 ensures DecoratorsNamedStmt(ss[1..][i]) {
          assert ss[1..][i] == ss[i + 1];
        }
      }
      DeleteStmtSucceeds(ss[0]);
      DeleteBlockSucceeds(ss[1..]);
    }
  }

  lemma {:induction false} DeleteBlocksSucceeds(bs: seq<Block>)
    requires DecoratorsNamedBlocks(bs)
    ensures DeleteBlocks(bs).Ok?
    decreases bs
  {
    if bs != [] {
      assert DecoratorsNamedBlocks(bs[1..]) by {
        forall i | 0 <= i < |bs| - 1 ensures DecoratorsNamedBlock(bs[1..][i].stmts) {
          assert bs[1..][i] == bs[i + 1];
        }
      }
      DeleteBlockSucceeds(bs[0].stmts);
      DeleteBlocksSucceeds(bs[1..]);
    }
  }

  /** `extract_context` succeeds exactly when the context rewrite succeeds
      and every decorator that decorator removal then reads is a bare name;
      it succeeds in particular when every reachable single-item `with` is
      `name(...)` and every decorator anywhere in the template is a bare name.
      Whatever the template, marker and extra pass, the only exception it
      raises is `AttributeError`. */
  lemma ExtractContextErrors(t: FunctionTransformer, contextName: string, extra: Option<ExtraPass>)
    ensures ExtractContext(t, contextName, extra).Ok?
        <==> (&& RewriteBlock(t.template.tree, contextName).Ok?
              && DecoratorsReachedBlock(RewriteBlock(t.template.tree, contextName).value))
    ensures RewriteBlock(t.template.tree, contextName).Ok? <==> CalleesNamedBlock(t.template.tree)
    ensures CalleesNamedBlock(t.template.tree) && DecoratorsNamedBlock(t.template.tree)
        ==> ExtractContext(t, contextName, extra).Ok?
    ensures ExtractContext(t, contextName, extra).Err?
        ==> ExtractContext(t, contextName, extra).error == AttributeError
  {
    RewriteBlockSucceedsIff(t.template.tree, contextName);
    if CalleesNamedBlock(t.template.tree) {
      var r := RewriteBlock(t.template.tree, contextName).value;
      DeleteBlockRaisesAttributeError(r);
      DeleteBlockSucceedsIff(r);
      if DecoratorsNamedBlock(t.template.tree) {
        RewriteBlockKeepsDecoratorsNamed(t.template.tree, contextName);
        DeleteBlockSucceeds(r);
      }
    }
  }

  lemma {:induction false} DeleteStmtRaisesAttributeError(s: Stmt)
    ensures DeleteStmt(s).Err? ==> DeleteStmt(s).error == AttributeError
    decreases s, 1
  {
    match s
    case FunctionDef(isAsync, _, _, body, decorators, _, _) =>
      if !isAsync { FilterDecoratorsSucceedsIff(decorators); } else { DeleteBlockRaisesAttributeError(body); }
    case With(_, body) => DeleteBlockRaisesAttributeError(body);
    case Compound(_, blocks) => DeleteBlocksRaisesAttributeError(blocks);
    case Simple(_) =>
  }

  lemma {:induction false} DeleteBlockRaisesAttributeError(ss: seq<Stmt>)
    ensures DeleteBlock(ss).Err? ==> DeleteBlock(ss).error == AttributeError
    decreases ss, 0
  {
    if ss != [] {
      DeleteStmtRaisesAttributeError(ss[0]);
      DeleteBlockRaisesAttributeError(ss[1..]);
    }
  }

  lemma {:induction false} DeleteBlocksRaisesAttributeError(bs: seq<Block>)
    ensures DeleteBlocks(bs).Err? ==> DeleteBlocks(bs).error == AttributeError
    decreases bs
  {
    if bs != [] {
      DeleteBlockRaisesAttributeError(bs[0].stmts);
      DeleteBlocksRaisesAttributeError(bs[1..]);
    }
  }
}
