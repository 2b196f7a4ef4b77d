/** `MiddlewareManager`: two ordered hook lists, run in insertion order
    around every dispatched call, each stopping at its first failure. */
module Middleware {
  import opened Common
  import opened JsonValues
  import opened Errors
  import opened Messages

  /** What one hook call does: return normally, or throw. */
  datatype HookResult = Pass | Fail(thrown: Thrown)

  /** An `IRpcMiddleware`: its before hook sees the request and the
      context, its after hook also sees the method's result. */
  datatype Middleware<-C> = Middleware(
    before: (Request, C) -> HookResult,
    after: (Request, Json, C) -> HookResult)

  datatype Manager<-C> = Manager(beforeHooks: seq<Middleware<C>>, afterHooks: seq<Middleware<C>>)

  /** `new MiddlewareManager()` */
  function EmptyManager<C>(): Manager<C> {
    Manager([], [])
  }

  /** `add(middleware, phase)`: "before" or "after" in any letter case
      appends to that list; any other phase throws and changes nothing. */
  function Add<C>(mgr: Manager<C>, m: Middleware<C>, phase: string): (r: Result<Manager<C>>)
    ensures r.Ok? <==> EqualsIgnoreCase(phase, "before") || EqualsIgnoreCase(phase, "after")
    ensures r.Ok? && EqualsIgnoreCase(phase, "before") ==>
              r.value.beforeHooks == mgr.beforeHooks + [m] && r.value.afterHooks == mgr.afterHooks
    ensures r.Ok? && !EqualsIgnoreCase(phase, "before") ==>
              r.value.afterHooks == mgr.afterHooks + [m] && r.value.beforeHooks == mgr.beforeHooks
  {
    if EqualsIgnoreCase(phase, "before") then Ok(mgr.(beforeHooks := mgr.beforeHooks + [m]))
    else if EqualsIgnoreCase(phase, "after") then Ok(mgr.(afterHooks := mgr.afterHooks + [m]))
    else Err("IllegalArgumentException: Phase must be 'before' or 'after'")
  }

  /** The phase is matched without regard to letter case. */
  lemma AddIgnoresCase<C>(mgr: Manager<C>, m: Middleware<C>)
    ensures Add(mgr, m, "BEFORE") == Add(mgr, m, "before")
    ensures Add(mgr, m, "After") == Add(mgr, m, "after")
    ensures Add(mgr, m, "during").Err?
    ensures Add(mgr, m, "before ").Err?
  {
    assert EqualsIgnoreCase("BEFORE", "before");
    assert EqualsIgnoreCase("After", "after");
    assert !EqualsIgnoreCase("during", "before") by { assert FoldCase("during"[0]) != FoldCase("before"[0]); }
    assert !EqualsIgnoreCase("during", "after") by { assert FoldCase("during"[0]) != FoldCase("after"[0]); }
  }

  /** How a run of one hook list ended, and how many hooks were called. */
  datatype ChainRun = ChainRun(status: HookResult, invoked: nat)

  /** Calls the hooks in order and stops at the first one that throws; that
      failure is the outcome. Without a failure every hook is called once. */
  function RunChain<H>(hooks: seq<H>, call: H -> HookResult): (r: ChainRun)
    ensures r.invoked <= |hooks|
    ensures forall i :: 0 <= i < r.invoked - 1 ==> call(hooks[i]).Pass?
    ensures r.status.Pass? <==> forall i :: 0 <= i < |hooks| ==> call(hooks[i]).Pass?
    ensures r.status.Pass? ==> r.invoked == |hooks|
    ensures r.status.Fail? ==> 0 < r.invoked && call(hooks[r.invoked - 1]) == r.status
    decreases |hooks|
  {
    if |hooks| == 0 then ChainRun(Pass, 0)
    else
      match call(hooks[0])
      case Fail(t) => ChainRun(Fail(t), 1)
      case Pass =>
        var rest := RunChain(hooks[1..], call);
        ChainRun(rest.status, rest.invoked + 1)
  }

  /** `executeBefore(request, context)` */
  function ExecuteBefore<C>(mgr: Manager<C>, req: Request, ctx: C): ChainRun {
    RunChain(mgr.beforeHooks, (m: Middleware<C>) => m.before(req, ctx))
  }

  /** `executeAfter(request, result, context)` */
  function ExecuteAfter<C>(mgr: Manager<C>, req: Request, result: Json, ctx: C): ChainRun {
    RunChain(mgr.afterHooks, (m: Middleware<C>) => m.after(req, result, ctx))
  }

  /** The before chain: a failure is the first failing hook's, every hook
      ahead of it passed and none behind it was called; without a failure
      all hooks were called. */
  lemma ExecuteBeforeFirstFailure<C>(mgr: Manager<C>, req: Request, ctx: C)
    ensures var r := ExecuteBefore(mgr, req, ctx);
            && (r.status.Fail? ==>
                  && 0 < r.invoked <= |mgr.beforeHooks|
                  && mgr.beforeHooks[r.invoked - 1].before(req, ctx) == r.status
                  && forall i :: 0 <= i < r.invoked - 1 ==> mgr.beforeHooks[i].before(req, ctx).Pass?)
            && (r.status.Pass? <==> forall i :: 0 <= i < |mgr.beforeHooks| ==> mgr.beforeHooks[i].before(req, ctx).Pass?)
            && (r.status.Pass? ==> r.invoked == |mgr.beforeHooks|)
  {
    var call := (m: Middleware<C>) => m.before(req, ctx);
    var r := RunChain(mgr.beforeHooks, call);
    assert forall i :: 0 <= i < |mgr.beforeHooks| ==> call(mgr.beforeHooks[i]) == mgr.beforeHooks[i].before(req, ctx);
  }

  /** The after chain, with the method's result passed to every hook. */
  lemma ExecuteAfterFirstFailure<C>(mgr: Manager<C>, req: Request, result: Json, ctx: C)
    ensures var r := ExecuteAfter(mgr, req, result, ctx);
            && (r.status.Fail? ==>
                  && 0 < r.invoked <= |mgr.afterHooks|
                  && mgr.afterHooks[r.invoked - 1].after(req, result, ctx) == r.status
                  && forall i :: 0 <= i < r.invoked - 1 ==> mgr.afterHooks[i].after(req, result, ctx).Pass?)
            && (r.status.Pass? <==> forall i :: 0 <= i < |mgr.afterHooks| ==> mgr.afterHooks[i].after(req, result, ctx).Pass?)
            && (r.status.Pass? ==> r.invoked == |mgr.afterHooks|)
  {
    var call := (m: Middleware<C>) => m.after(req, result, ctx);
    var r := RunChain(mgr.afterHooks, call);
    assert forall i :: 0 <= i < |mgr.afterHooks| ==> call(mgr.afterHooks[i]) == mgr.afterHooks[i].after(req, result, ctx);
  }

  /** Appending a hook runs it after all the earlier ones, and only when
      they all passed. */
  lemma {:induction false} RunChainAppend<H>(hooks: seq<H>, h: H, call: H -> HookResult)
    ensures var before := RunChain(hooks, call);
            RunChain(hooks + [h], call) ==
              if before.status.Fail? then before
              else ChainRun(call(h), |hooks| + 1)
    decreases |hooks|
  {
    if |hooks| > 0 {
      assert (hooks + [h])[1..] == hooks[1..] + [h];
      RunChainAppend(hooks[1..], h, call);
    }
  }
}
