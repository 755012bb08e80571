/** Batches of actions that may depend on the success of earlier ones. */
module Depends {
  import opened Options
  import opened Json

  datatype DependsOutcome = SUCCESS | FAILURE | SKIPPED

  // The outcomes so far, shared between the batch loop and the dependency check.
  class OutcomeStack {
    var items: seq<DependsOutcome>

    constructor ()
      ensures items == []
    {
      items := [];
    }

    method Push(o: DependsOutcome)
      modifies this
      ensures items == old(items) + [o]
    {
      items := items + [o];
    }
  }

  const SIZE_T: int := 0x1_0000_0000_0000_0000

  // rapidjson counts array elements with 32 bits.
  const SIZE_TYPE: int := 0x1_0000_0000

  /** An int compared with a size_t is converted first: a negative one becomes huge. */
  function ToSizeT(n: int): int
    requires -0x8000_0000 <= n < 0x8000_0000
  {
    if n < 0 then n + SIZE_T else n
  }

  /** The dependency check's test of one entry. */
  predicate DepHolds(dep: Json, outcomes: seq<DependsOutcome>)
    requires |outcomes| < SIZE_TYPE
  {
    dep.IsInt() && !(ToSizeT(dep.n) >= |outcomes|) && outcomes[dep.n] == SUCCESS
  }

  datatype Verdict = Go | Skip | Malformed

  /** What the dependency check decides. */
  function Check(action: Json, outcomes: seq<DependsOutcome>): Verdict
    requires |outcomes| < SIZE_TYPE
  {
    if !action.Obj? then Go
    else
      match action.FindMember("depends")
      case None => Go
      case Some(Arr(deps)) => if forall i :: 0 <= i < |deps| ==> DepHolds(deps[i], outcomes) then Go else Skip
      case Some(dep) =>
        if !dep.IsInt() then Malformed else if DepHolds(dep, outcomes) then Go else Skip
  }

  /** The test of one entry as the source makes it: a failing entry pushes its verdict at once. */
  method SuccessPred(dep: Json, outcomes: OutcomeStack) returns (ok: bool)
    requires |outcomes.items| < SIZE_TYPE
    modifies outcomes
    ensures ok <==> DepHolds(dep, old(outcomes.items))
    ensures outcomes.items == old(outcomes.items) + if ok then [] else [SKIPPED]
  {
    var currIdx := |outcomes.items|;
    if !dep.IsInt() || ToSizeT(dep.n) >= currIdx || outcomes.items[dep.n] != SUCCESS {
      outcomes.Push(SKIPPED);
      return false;
    }
    return true;
  }

  /** Pushes exactly one outcome when the action may not run, and nothing when it may. */
  method CheckDepends(json: Json, outcomes: OutcomeStack, res: JsonRes) returns (ok: bool)
    requires |outcomes.items| < SIZE_TYPE
    modifies outcomes, res`success, res`errors
    ensures ok <==> Check(json, old(outcomes.items)) == Go
    ensures outcomes.items == old(outcomes.items) + Pushed(Check(json, old(outcomes.items)))
    ensures res.View() == if Check(json, old(outcomes.items)) == Malformed then WithError(old(res.View()), 0) else old(res.View())
  {
    if !json.Obj? {
      return true;
    }
    var deps := json.FindMember("depends");
    if deps.None? {
      return true;
    }
    if deps.value.Arr? {
      var arr := deps.value.items;
      for i := 0 to |arr|
        invariant outcomes.items == old(outcomes.items) && res.View() == old(res.View())
        invariant forall j :: 0 <= j < i ==> DepHolds(arr[j], old(outcomes.items))
      {
        var holds := SuccessPred(arr[i], outcomes);
        if !holds {
          return false;
        }
      }
      return true;
    }
    if deps.value.IsInt() {
      ok := SuccessPred(deps.value, outcomes);
      return;
    }
    res.Error(0);
    outcomes.Push(FAILURE);
    return false;
  }

  function Pushed(v: Verdict): seq<DependsOutcome> {
    match v
    case Go => []
    case Skip => [SKIPPED]
    case Malformed => [FAILURE]
  }

  // ---------------------------------------------------------------- the batch loop

  // What a batch works on: the response, and whatever else the handler changes.
  datatype Batch<W> = Batch(res: Response, world: W, outcomes: seq<DependsOutcome>)

  /** A handler, by its effect on the response and on the rest of the world. */
  type Handler<!W> = (Response, W, Json) -> (Response, W, DependsOutcome)

  /** One round of the batch loop. */
  function BatchStep<W>(b: Batch<W>, action: Json, hdl: Handler<W>): (b': Batch<W>)
    requires |b.outcomes| < SIZE_TYPE
    ensures |b'.outcomes| == |b.outcomes| + 1 && b'.outcomes[..|b.outcomes|] == b.outcomes
  {
    match Check(action, b.outcomes)
    case Go =>
      var (res, world, o) := hdl(b.res, b.world, action);
      Batch(res, world, b.outcomes + [o])
    case Skip => b.(outcomes := b.outcomes + [SKIPPED])
    case Malformed => Batch(WithError(b.res, 0), b.world, b.outcomes + [FAILURE])
  }

  /** The batch after its first `n` actions. */
  function RunBatch<W>(actions: seq<Json>, n: nat, res: Response, world: W, hdl: Handler<W>): (b: Batch<W>)
    requires n <= |actions| < SIZE_TYPE
    ensures |b.outcomes| == n
  {
    if n == 0 then Batch(res, world, [])
    else BatchStep(RunBatch(actions, n - 1, res, world, hdl), actions[n - 1], hdl)
  }

  method HandleDepends<W>(jsonReq: Json, res: JsonRes, world: W, hdl: Handler<W>) returns (world': W, outcomes: OutcomeStack)
    requires jsonReq.Arr? ==> |jsonReq.items| < SIZE_TYPE
    modifies res
    ensures fresh(outcomes)
    ensures !jsonReq.Arr? ==> res.View() == WithError(old(res.View()), 298) && world' == world && outcomes.items == []
    ensures jsonReq.Arr? ==>
              Batch(res.View(), world', outcomes.items)
              == RunBatch(jsonReq.items, |jsonReq.items|, old(res.View()), world, hdl)
  {
    outcomes := new OutcomeStack();
    world' := world;
    if !jsonReq.Arr? {
      res.Error(298);
      return;
    }
    var actions := jsonReq.items;
    for i := 0 to |actions|
      invariant fresh(outcomes)
      invariant Batch(res.View(), world', outcomes.items) == RunBatch(actions, i, old(res.View()), world, hdl)
    {
      world' := Round(actions[i], outcomes, res, world', hdl);
    }
  }

  /** One round of the loop: check, then hand the action to the handler if it may run. */
  method Round<W>(action: Json, outcomes: OutcomeStack, res: JsonRes, world: W, hdl: Handler<W>) returns (world': W)
    requires |outcomes.items| < SIZE_TYPE
    modifies outcomes, res
    ensures Batch(res.View(), world', outcomes.items)
            == BatchStep(Batch(old(res.View()), world, old(outcomes.items)), action, hdl)
  {
    world' := world;
    var ok := CheckDepends(action, outcomes, res);
    if ok {
      var (res', w, o) := hdl(Response(res.results, res.success, res.errors, res.messages), world, action);
      res.results, res.success, res.errors, res.messages := res'.results, res'.success, res'.errors, res'.messages;
      world' := w;
      outcomes.Push(o);
    }
  }

  // ---------------------------------------------------------------- scopes of alternatives

  type Alternative<!W> = W -> (W, DependsOutcome)

  /** The alternatives are tried in order until one does not skip. */
  function Scope<W>(fns: seq<Alternative<W>>, w: W): (W, DependsOutcome) {
    if fns == [] then (w, SKIPPED)
    else
      var (w', o) := fns[0](w);
      if o != SKIPPED then (w', o) else Scope(fns[1..], w')
  }

  /** From `ws[0]`, the first alternatives skip one after the other and leave the worlds `ws`. */
  ghost predicate Skips<W>(fns: seq<Alternative<W>>, ws: seq<W>) {
    && 0 < |ws| <= |fns| + 1
    && forall j :: 0 <= j < |ws| - 1 ==> fns[j](ws[j]) == (ws[j + 1], SKIPPED)
  }

  /** After some alternatives that skip, the next one does not: it leaves `w'` with outcome `o`. */
  ghost predicate Decides<W>(fns: seq<Alternative<W>>, ws: seq<W>, w': W, o: DependsOutcome) {
    && Skips(fns, ws) && |ws| <= |fns| && o != SKIPPED
    && fns[|ws| - 1](ws[|ws| - 1]) == (w', o)
  }

  ghost predicate AllSkip<W>(fns: seq<Alternative<W>>, ws: seq<W>, w': W) {
    Skips(fns, ws) && |ws| == |fns| + 1 && ws[|fns|] == w'
  }

  lemma {:induction false} ScopeOfSkips<W>(fns: seq<Alternative<W>>, ws: seq<W>)
    requires Skips(fns, ws)
    ensures Scope(fns, ws[0]) == Scope(fns[|ws| - 1..], ws[|ws| - 1])
    decreases |ws|
  {
    if |ws| == 1 {
      assert fns[0..] == fns;
    } else {
      SkipsRest(fns, ws);
      ScopeOfSkips(fns[1..], ws[1..]);
      assert fns[1..][|ws| - 2..] == fns[|ws| - 1..];
    }
  }

  lemma SkipsRest<W>(fns: seq<Alternative<W>>, ws: seq<W>)
    requires Skips(fns, ws) && |ws| > 1
    ensures Skips(fns[1..], ws[1..]) && fns[0](ws[0]) == (ws[1], SKIPPED)
  {
    forall j | 0 <= j < |ws| - 2
      ensures fns[1..][j](ws[1..][j]) == (ws[1..][j + 1], SKIPPED)
    {
      assert fns[j + 1](ws[j + 1]) == (ws[j + 2], SKIPPED);
    }
  }

  lemma SkipsMore<W>(fns: seq<Alternative<W>>, w: W, ws: seq<W>)
    requires fns != [] && Skips(fns[1..], ws) && fns[0](w) == (ws[0], SKIPPED)
    ensures Skips(fns, [w] + ws)
  {
    forall j | 0 <= j < |[w] + ws| - 1
      ensures fns[j](([w] + ws)[j]) == (([w] + ws)[j + 1], SKIPPED)
    {
      if j > 0 { assert fns[1..][j - 1](ws[j - 1]) == (ws[j], SKIPPED); }
    }
  }

  /** The worlds that a scope goes through until an alternative decides, or all have skipped. */
  lemma {:induction false} ScopeChain<W>(fns: seq<Alternative<W>>, w: W) returns (ws: seq<W>)
    ensures Skips(fns, ws) && ws[0] == w
    ensures var (w', o) := Scope(fns, w);
            if o != SKIPPED then Decides(fns, ws, w', o) else AllSkip(fns, ws, w')
    decreases |fns|
  {
    ws := [w];
    if fns != [] && fns[0](w).1 == SKIPPED {
      var rest := ScopeChain(fns[1..], fns[0](w).0);
      SkipsMore(fns, w, rest);
      ws := [w] + rest;
    }
  }

  /**
    A scope ends with an outcome other than a skip exactly when that is the outcome of an alternative
    before which all skip, each in the world that the one before left; and it skips exactly when all do.
  */
  lemma ScopeIff<W(!new)>(fns: seq<Alternative<W>>, w: W, w': W, o: DependsOutcome)
    ensures o != SKIPPED ==> (Scope(fns, w) == (w', o) <==> exists ws :: Decides(fns, ws, w', o) && ws[0] == w)
    ensures Scope(fns, w) == (w', SKIPPED) <==> exists ws :: AllSkip(fns, ws, w') && ws[0] == w
  {
    var chain := ScopeChain(fns, w);
    forall ws | Skips(fns, ws) && ws[0] == w
      ensures Scope(fns, w) == Scope(fns[|ws| - 1..], ws[|ws| - 1])
    {
      ScopeOfSkips(fns, ws);
    }
  }

  /** Calls every alternative in turn so long as they skip; once one has decided, the rest are not called. */
  method ParameterizedDependsScope<W(!new)>(fns: seq<Alternative<W>>, w: W) returns (w': W, ret: DependsOutcome)
    ensures (w', ret) == Scope(fns, w)
    ensures ret != SKIPPED ==> exists ws :: Decides(fns, ws, w', ret) && ws[0] == w
    ensures ret == SKIPPED ==> exists ws :: AllSkip(fns, ws, w') && ws[0] == w
  {
    ret := SKIPPED;
    w' := w;
    for i := 0 to |fns|
      invariant Scope(fns, w) == if ret != SKIPPED then (w', ret) else Scope(fns[i..], w')
    {
      if ret == SKIPPED {
        assert fns[i..][1..] == fns[i + 1..];
        var (u, ao) := fns[i](w');
        w' := u;
        if ao != SKIPPED {
          ret := ao;
        }
      }
    }
    ScopeIff(fns, w, w', ret);
  }

  /** More alternatives matter only to a scope that would skip, which they take up where it ends. */
  lemma {:induction false} ScopeOfMore<W>(fns: seq<Alternative<W>>, more: seq<Alternative<W>>, w: W)
    ensures Scope(fns + more, w) == if Scope(fns, w).1 != SKIPPED then Scope(fns, w) else Scope(more, Scope(fns, w).0)
  {
    if fns == [] {
      assert fns + more == more;
    } else {
      assert (fns + more)[1..] == fns[1..] + more;
      ScopeOfMore(fns[1..], more, fns[0](w).0);
    }
  }

  // ---------------------------------------------------------------- what ran, and why

  /** The outcomes of a whole batch. */
  function Outcomes<W>(actions: seq<Json>, res: Response, world: W, hdl: Handler<W>): (os: seq<DependsOutcome>)
    requires |actions| < SIZE_TYPE
    ensures |os| == |actions|
  {
    RunBatch(actions, |actions|, res, world, hdl).outcomes
  }

  lemma {:induction false} OutcomesPrefix<W>(actions: seq<Json>, m: nat, n: nat, res: Response, world: W, hdl: Handler<W>)
    requires m <= n <= |actions| < SIZE_TYPE
    ensures RunBatch(actions, m, res, world, hdl).outcomes == RunBatch(actions, n, res, world, hdl).outcomes[..m]
    decreases n
  {
    if m < n {
      OutcomesPrefix(actions, m, n - 1, res, world, hdl);
      var os := RunBatch(actions, n, res, world, hdl).outcomes;
      assert os[..n - 1][..m] == os[..m];
    }
  }

  /** Entry `dep` of the depends of an action, written alone or in a list. */
  ghost predicate IsEntry(action: Json, dep: Json) {
    && action.Obj? && action.FindMember("depends").Some?
    && var d := action.FindMember("depends").value;
       if d.Arr? then dep in d.items else dep == d
  }

  /** Neither a list of anything, nor a single 32-bit integer. */
  ghost predicate BadDepends(action: Json) {
    && action.Obj? && action.FindMember("depends").Some?
    && var d := action.FindMember("depends").value;
       !d.Arr? && !(d.Int? && -0x8000_0000 <= d.n <= 0x7fff_ffff)
  }

  /** The entry refers to an action below `i` that is in `S`. */
  ghost predicate Refers(dep: Json, i: nat, S: set<nat>) {
    dep.Int? && -0x8000_0000 <= dep.n <= 0x7fff_ffff && 0 <= dep.n < i && dep.n in S
  }

  /** Every entry of the action's depends refers to an action below `i` that is in `S`. */
  ghost predicate Justified(action: Json, i: nat, S: set<nat>) {
    forall dep :: IsEntry(action, dep) ==> Refers(dep, i, S)
  }

  ghost function Succeeded(outcomes: seq<DependsOutcome>): set<nat> {
    set i: nat | i < |outcomes| && outcomes[i] == SUCCESS
  }

  lemma DepHoldsIff(dep: Json, outcomes: seq<DependsOutcome>)
    requires |outcomes| < SIZE_TYPE
    ensures DepHolds(dep, outcomes) <==> Refers(dep, |outcomes|, Succeeded(outcomes))
  {
  }

  /** An action may run exactly when all its entries refer to earlier successes. */
  lemma CheckIff(action: Json, outcomes: seq<DependsOutcome>)
    requires |outcomes| < SIZE_TYPE
    ensures Check(action, outcomes) == Go <==> Justified(action, |outcomes|, Succeeded(outcomes))
    ensures Check(action, outcomes) == Malformed <==> BadDepends(action)
  {
    forall dep ensures DepHolds(dep, outcomes) <==> Refers(dep, |outcomes|, Succeeded(outcomes)) {
      DepHoldsIff(dep, outcomes);
    }
    if action.Obj? && action.FindMember("depends").Some? {
      var d := action.FindMember("depends").value;
      if d.Arr? {
        assert forall i :: 0 <= i < |d.items| ==> IsEntry(action, d.items[i]);
      } else {
        assert IsEntry(action, d);
      }
    }
  }

  /** Action `i` was handed to the handler. */
  ghost predicate Ran<W>(actions: seq<Json>, i: nat, res: Response, world: W, hdl: Handler<W>)
    requires |actions| < SIZE_TYPE
  {
    i < |actions| && Check(actions[i], RunBatch(actions, i, res, world, hdl).outcomes) == Go
  }

  /** The outcome of one action in terms of the outcomes before it. */
  lemma OutcomeOf<W>(actions: seq<Json>, i: nat, res: Response, world: W, hdl: Handler<W>)
    requires i < |actions| < SIZE_TYPE
    ensures var before := RunBatch(actions, i, res, world, hdl);
            var o := Outcomes(actions, res, world, hdl)[i];
            && before.outcomes == Outcomes(actions, res, world, hdl)[..i]
            && o == (match Check(actions[i], before.outcomes)
                     case Go => hdl(before.res, before.world, actions[i]).2
                     case Skip => SKIPPED
                     case Malformed => FAILURE)
  {
    OutcomesPrefix(actions, i, |actions|, res, world, hdl);
    OutcomesPrefix(actions, i + 1, |actions|, res, world, hdl);
    var os := Outcomes(actions, res, world, hdl);
    assert os[i] == os[..i + 1][i];
  }

  /** An action that ran succeeded in all it names: each entry is an earlier action that ran and succeeded. */
  lemma RanHasEarlierSuccesses<W>(actions: seq<Json>, i: nat, dep: Json, res: Response, world: W, hdl: Handler<W>)
    requires |actions| < SIZE_TYPE && Ran(actions, i, res, world, hdl) && IsEntry(actions[i], dep)
    ensures dep.IsInt() && 0 <= dep.n < i
    ensures Outcomes(actions, res, world, hdl)[dep.n] == SUCCESS && Ran(actions, dep.n, res, world, hdl)
  {
    CheckIff(actions[i], RunBatch(actions, i, res, world, hdl).outcomes);
    OutcomeOf(actions, i, res, world, hdl);
    assert Refers(dep, i, Succeeded(Outcomes(actions, res, world, hdl)[..i]));
    OutcomeOf(actions, dep.n, res, world, hdl);
  }

  /** A chain of dependencies from action `path[0]`. */
  ghost predicate IsChain(actions: seq<Json>, path: seq<int>) {
    && |path| > 0
    && forall k :: 0 <= k < |path| - 1 ==> 0 <= path[k] < |actions| && DependsOn(actions[path[k]], path[k + 1])
  }

  ghost predicate DependsOn(action: Json, j: int) {
    IsEntry(action, Int(j))
  }

  /** Every transitive dependency of an action that ran comes earlier, ran, and succeeded. */
  lemma {:induction false} TransitiveDependenciesSucceeded<W>(actions: seq<Json>, path: seq<int>, res: Response, world: W, hdl: Handler<W>)
    requires |actions| < SIZE_TYPE && IsChain(actions, path) && |path| >= 2
    requires 0 <= path[0] && Ran(actions, path[0], res, world, hdl)
    ensures var j := path[|path| - 1];
            0 <= j < path[0] && Ran(actions, j, res, world, hdl) && Outcomes(actions, res, world, hdl)[j] == SUCCESS
    decreases |path|
  {
    RanHasEarlierSuccesses(actions, path[0], Int(path[1]), res, world, hdl);
    if |path| > 2 {
      var rest := path[1..];
      assert forall k :: 0 <= k < |rest| ==> rest[k] == path[k + 1];
      TransitiveDependenciesSucceeded(actions, rest, res, world, hdl);
    }
  }

  /** A reference to itself, to a later action or to a negative index never runs: it is skipped. */
  lemma BadReferenceIsSkipped<W>(actions: seq<Json>, i: nat, dep: Json, res: Response, world: W, hdl: Handler<W>)
    requires i < |actions| < SIZE_TYPE && IsEntry(actions[i], dep) && !BadDepends(actions[i])
    requires !(dep.IsInt() && 0 <= dep.n < i)
    ensures !Ran(actions, i, res, world, hdl) && Outcomes(actions, res, world, hdl)[i] == SKIPPED
  {
    OutcomeOf(actions, i, res, world, hdl);
    CheckIff(actions[i], RunBatch(actions, i, res, world, hdl).outcomes);
    assert !Refers(dep, i, Succeeded(RunBatch(actions, i, res, world, hdl).outcomes));
  }

  // ---------------------------------------------------------------- the least fixed point

  /** The handler's outcome depends on the action alone. */
  ghost predicate DependsOnlyOnAction<W(!new)>(hdl: Handler<W>, f: Json -> DependsOutcome) {
    forall res, world, action :: hdl(res, world, action).2 == f(action)
  }

  /** The actions that succeed if those in `S` have succeeded. */
  ghost function Consequences(actions: seq<Json>, f: Json -> DependsOutcome, S: set<nat>): set<nat> {
    set i: nat | i < |actions| && Justified(actions[i], i, S) && f(actions[i]) == SUCCESS
  }

  lemma SucceededIff<W(!new)>(actions: seq<Json>, i: nat, res: Response, world: W, hdl: Handler<W>, f: Json -> DependsOutcome)
    requires i < |actions| < SIZE_TYPE && DependsOnlyOnAction(hdl, f)
    ensures Outcomes(actions, res, world, hdl)[i] == SUCCESS <==>
            Justified(actions[i], i, Succeeded(Outcomes(actions, res, world, hdl))) && f(actions[i]) == SUCCESS
  {
    var os := Outcomes(actions, res, world, hdl);
    OutcomeOf(actions, i, res, world, hdl);
    CheckIff(actions[i], os[..i]);
    forall dep
      ensures Refers(dep, i, Succeeded(os[..i])) <==> Refers(dep, i, Succeeded(os))
    {
    }
  }

  /** The successes of a batch are the least fixed point of Consequences. */
  lemma SuccessesAreLeastFixedPoint<W(!new)>(actions: seq<Json>, res: Response, world: W, hdl: Handler<W>, f: Json -> DependsOutcome)
    requires |actions| < SIZE_TYPE && DependsOnlyOnAction(hdl, f)
    ensures var S := Succeeded(Outcomes(actions, res, world, hdl));
            && Consequences(actions, f, S) == S
            && forall T :: Consequences(actions, f, T) <= T ==> S <= T
  {
    var S := Succeeded(Outcomes(actions, res, world, hdl));
    forall i: nat | i < |actions|
      ensures i in S <==> Justified(actions[i], i, S) && f(actions[i]) == SUCCESS
    {
      SucceededIff(actions, i, res, world, hdl, f);
    }
    forall T, i | Consequences(actions, f, T) <= T && i in S
      ensures i in T
    {
      SuccessInClosed(actions, f, S, T, i);
    }
  }

  lemma {:induction false} SuccessInClosed(actions: seq<Json>, f: Json -> DependsOutcome, S: set<nat>, T: set<nat>, i: nat)
    requires Consequences(actions, f, S) == S && Consequences(actions, f, T) <= T && i in S
    ensures i in T
    decreases i
  {
    forall dep | IsEntry(actions[i], dep)
      ensures Refers(dep, i, T)
    {
      assert Refers(dep, i, S);
      SuccessInClosed(actions, f, S, T, dep.n);
    }
    assert i in Consequences(actions, f, T);
  }

  /** The fixed point is unique, because references only ever point back. */
  lemma FixedPointUnique(actions: seq<Json>, f: Json -> DependsOutcome, S: set<nat>, T: set<nat>)
    requires Consequences(actions, f, S) == S && Consequences(actions, f, T) == T
    ensures S == T
  {
    forall i | i in S ensures i in T { SuccessInClosed(actions, f, S, T, i); }
    forall i | i in T ensures i in S { SuccessInClosed(actions, f, T, S, i); }
  }
}
