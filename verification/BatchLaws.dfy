/** What a batch of domain actions adds to the response, and which libvirt calls it makes. */
module BatchLaws {
  import opened Options
  import opened Json
  import opened Depends
  import opened DomainActions
  import opened JsonParams

  // ---------------------------------------------------------------- one handler

  /** The response gains `errors` errors and `messages` messages, and says so. */
  ghost predicate Adds(r: Response, r': Response, errors: int, messages: nat) {
    && r'.results == r.results
    && (exists es :: r'.errors == r.errors + es && |es| == errors)
    && r'.success == (r.success && errors == 0)
    && (exists msgs :: r'.messages == r.messages + msgs && |msgs| == messages)
  }

  /** What one handler may add: one error if it fails, one message if a power action succeeds. */
  ghost predicate Conserves(r: Response, r': Response, o: DependsOutcome, power: bool) {
    Adds(r, r', if o == FAILURE then 1 else 0, if o == SUCCESS && power then 1 else 0) && o != SKIPPED
  }

  lemma ErrorConserves(r: Response, code: int, power: bool)
    ensures Conserves(r, WithError(r, code), FAILURE, power)
  {
    assert WithError(r, code).errors == r.errors + [code];
    assert r.messages == r.messages + [];
  }

  lemma SuccessConserves(r: Response, msgs: seq<Json>)
    requires |msgs| <= 1
    ensures Conserves(r, r.(messages := r.messages + msgs), SUCCESS, |msgs| == 1)
  {
    assert r.errors == r.errors + [];
  }

  ghost predicate NoMutation(calls: seq<Call>) {
    forall i :: 0 <= i < |calls| ==> !calls[i].Mutation?
  }

  /** The calls between two worlds: some that only look, then at most one that changes the domain. */
  ghost predicate Made(w: World, w': World, seen: seq<Call>, change: Option<Call>) {
    && w'.env == w.env && NoMutation(seen)
    && (change.Some? ==> change.value.Mutation?)
    && w'.log == w.log + seen + if change.Some? then [change.value] else []
  }

  /** An action succeeds exactly when it made its change. */
  ghost predicate Faithful(o: DependsOutcome, change: Option<Call>)
    requires change.Some? ==> change.value.Mutation?
  {
    o == if change.Some? && change.value.ok then SUCCESS else FAILURE
  }

  /** What the calls before a power call must have shown. */
  ghost predicate Observed(p: Prereq, seen: seq<Call>) {
    match p
    case MustRun => seen == [Info(RUNNING)]
    case MustBePaused => seen == [Info(PAUSED)]
    case MustBeActive => |seen| == 2 && seen[0].Info? && seen[1] == Active(true)
    case MustBeInactive => |seen| == 2 && seen[0].Info? && seen[1] == Active(false)
  }

  /** The error code for a prerequisite that does not hold. */
  function PrereqCode(p: Prereq): int {
    match p
    case MustRun => 201
    case MustBePaused => 211
    case MustBeActive => 210
    case MustBeInactive => 203
  }

  /** Why a power action failed, told from the calls it made: the call, the flags, or the prerequisite. */
  ghost function FailureCode(a: PowerAction, seen: seq<Call>, change: Option<Call>): int {
    if change.Some? then a.errc else if Observed(a.prereq, seen) then 301 else PrereqCode(a.prereq)
  }

  lemma PrerequisiteLaw(w: World, p: Prereq, state: DomState) returns (seen: seq<Call>)
    ensures Made(w, Prerequisite(w, p, state).0, seen, None)
    ensures Prerequisite(w, p, state).1.None? <==> Observed(p, [Info(state)] + seen)
    ensures Prerequisite(w, p, state).1.Some? ==> Prerequisite(w, p, state).1.value == PrereqCode(p)
  {
    seen := if p.MustBeActive? || p.MustBeInactive? then [Active(Answer(w).active)] else [];
    var all := [Info(state)] + seen;
    assert all[0] == Info(state);
    assert |seen| == 1 ==> all[1] == seen[0];
  }

  lemma PowerCallLaw(r: Response, w: World, a: PowerAction, flags: Option<nat>) returns (change: Call)
    ensures var (r', w', o) := PowerCall(r, w, a, flags);
            && Made(w, w', [], Some(change)) && Faithful(o, Some(change)) && Conserves(r, r', o, true)
            && change.m == Power(a.tag, flags)
            && (o == FAILURE ==> r'.errors == r.errors + [a.errc])
  {
    change := Mutation(Power(a.tag, flags), Answer(w).ok);
    if change.ok {
      SuccessConserves(r, [Obj([(a.tag, Str(a.msg))])]);
    } else {
      ErrorConserves(r, a.errc, true);
    }
  }

  lemma PowerActLaw(r: Response, w: World, a: PowerAction, state: DomState, flag: Option<Json>) returns (seen: seq<Call>, change: Option<Call>)
    requires flag.Some? ==> FlagsWellTyped(flag.value)
    ensures var (r', w', o) := PowerAct(r, w, a, state, flag);
            && Made(w, w', seen, change) && Faithful(o, change) && Conserves(r, r', o, true)
    ensures change.Some? ==> change.value.m.Power? && change.value.m.verb == a.tag && Observed(a.prereq, [Info(state)] + seen)
    ensures PowerAct(r, w, a, state, flag).2 == FAILURE ==>
              PowerAct(r, w, a, state, flag).0.errors == r.errors + [FailureCode(a, [Info(state)] + seen, change)]
  {
    var (w1, err) := Prerequisite(w, a.prereq, state);
    seen := PrerequisiteLaw(w, a.prereq, state);
    if err.Some? {
      change := None;
      ErrorConserves(r, err.value, true);
    } else if flag.Some? && (a.flags.None? || CombinedFlags(a.flags.value, true, flag.value).None?) {
      change := None;
      ErrorConserves(r, 301, true);
    } else {
      var flags := if flag.None? then None else CombinedFlags(a.flags.value, true, flag.value);
      var c := PowerCallLaw(r, w1, a, flags);
      change := Some(c);
    }
  }

  /**
    A power action changes the domain at most once, and only when it is the requested verb of the
    table and its prerequisite has just been observed.
  */
  lemma PowerMgtLaw(r: Response, w: World, val: Json) returns (seen: seq<Call>, change: Option<Call>)
    requires PowerWellTyped(val)
    ensures var (r', w', o) := PowerMgt(r, w, val);
            && Made(w, w', seen, change) && Faithful(o, change) && Conserves(r, r', o, true)
    ensures change.Some? ==>
              Request(val).Some? && exists a :: a in POWER && a.tag == Request(val).value.0 && change.value.m.Power?
                                                && change.value.m.verb == a.tag && Observed(a.prereq, seen)
    ensures PowerMgt(r, w, val).2 == FAILURE ==>
              PowerMgt(r, w, val).0.errors == r.errors + [
                if Request(val).None? || FindPower(POWER, Request(val).value.0).None? then 300
                else FailureCode(FindPower(POWER, Request(val).value.0).value, seen, change)]
  {
    if Request(val).None? {
      seen, change := [], None;
      ErrorConserves(r, 300, true);
    } else {
      var (req, flag) := Request(val).value;
      var state := Answer(w).state;
      var a := FindPower(POWER, req);
      if a.None? {
        seen, change := [Info(state)], None;
        ErrorConserves(r, 300, true);
      } else {
        var rest;
        rest, change := PowerActLaw(r, Called(w, Info(state)), a.value, state, flag);
        seen := [Info(state)] + rest;
        MadeAfter(w, Info(state), PowerAct(r, Called(w, Info(state)), a.value, state, flag).1, rest, change);
      }
    }
  }

  lemma MadeAfter(w: World, c: Call, w': World, seen: seq<Call>, change: Option<Call>)
    requires !c.Mutation? && Made(Called(w, c), w', seen, change)
    ensures Made(w, w', [c] + seen, change)
  {
    var last := if change.Some? then [change.value] else [];
    assert (w.log + [c]) + seen + last == w.log + ([c] + seen) + last;
  }

  lemma SimpleLaw(r: Response, w: World, m: Option<Mutator>, errc: int) returns (change: Option<Call>)
    ensures var (r', w', o) := Simple(r, w, m, errc);
            && Made(w, w', [], change) && Faithful(o, change) && Conserves(r, r', o, false)
    ensures (change.Some? <==> m.Some?) && (change.Some? ==> change.value.m == m.value)
    ensures Simple(r, w, m, errc).2 == FAILURE ==>
              Simple(r, w, m, errc).0.errors == r.errors + [if change.None? then 0 else errc]
  {
    if m.None? {
      change := None;
      ErrorConserves(r, 0, false);
    } else {
      change := Some(Mutation(m.value, Answer(w).ok));
      if Answer(w).ok {
        SuccessConserves(r, []);
        assert r.(messages := r.messages + []) == r;
      } else {
        ErrorConserves(r, errc, false);
      }
    }
  }

  // ---------------------------------------------------------------- sending signals and keys

  /** Fails without an error: a signal whose pid or name is missing or unknown, or keys that libvirt refuses. */
  ghost predicate Quiet(action: Json, w: World)
    requires WellTyped(action)
  {
    var (name, val) := action.members[0];
    val.Obj? && ((name == "send_signal" && SignalArgs(val).None? && !SignalComplains(val))
                 || (name == "send_keys" && KeysArgs(val).Some? && !Answer(w).ok))
  }

  /** Fails with two errors: keys whose first bad parameter is there, but of the wrong type. */
  ghost predicate Loud(action: Json)
    requires WellTyped(action)
  {
    var (name, val) := action.members[0];
    name == "send_keys" && val.Obj? && KeysArgs(val).None? && KeysComplain(val)
  }

  /** Succeeds although libvirt refused: a signal. */
  ghost predicate Unheeded(action: Json, w: World)
    requires WellTyped(action)
  {
    var (name, val) := action.members[0];
    name == "send_signal" && val.Obj? && SignalArgs(val).Some? && !Answer(w).ok
  }

  /** Errors over and above one for a failure. */
  ghost function ErrorSkew(action: Json, w: World): int
    requires WellTyped(action)
  {
    if Loud(action) then 1 else if Quiet(action, w) then -1 else 0
  }

  lemma ComplainedAdds(r: Response, complains: bool)
    ensures Adds(r, Complained(r, complains), if complains then 1 else 0, 0)
  {
    assert r.errors == r.errors + [] && r.messages == r.messages + [];
    assert WithError(r, 0).errors == r.errors + [0];
  }

  lemma AddsOneMore(r: Response, r': Response, errors: nat)
    requires Adds(r, r', errors, 0)
    ensures Adds(r, WithError(r', 0), errors + 1, 0)
  {
    var es :| r'.errors == r.errors + es && |es| == errors;
    assert WithError(r', 0).errors == r.errors + (es + [0]);
  }

  lemma SignalLaw(r: Response, w: World, val: Json) returns (change: Option<Call>)
    ensures var (r', w', o) := Signalled(r, w, val);
            && Made(w, w', [], change) && (o == if change.Some? then SUCCESS else FAILURE)
            && Adds(r, r', if o == FAILURE && (val.Obj? ==> SignalComplains(val)) then 1 else 0, 0)
    ensures change.Some? <==> val.Obj? && SignalArgs(val).Some?
    ensures change.Some? ==> change.value == Mutation(SignalArgs(val).value, Answer(w).ok)
  {
    change := if val.Obj? && SignalArgs(val).Some? then Some(Mutation(SignalArgs(val).value, Answer(w).ok)) else None;
    ComplainedAdds(r, !val.Obj? || (SignalArgs(val).None? && SignalComplains(val)));
  }

  lemma KeysLaw(r: Response, w: World, val: Json) returns (change: Option<Call>)
    ensures var (r', w', o) := KeysSent(r, w, val);
            && Made(w, w', [], change) && Faithful(o, change)
            && Adds(r, r', if change.Some? then 0 else if val.Obj? && KeysComplain(val) then 2 else 1, 0)
    ensures change.Some? <==> val.Obj? && KeysArgs(val).Some?
    ensures change.Some? ==> change.value == Mutation(KeysArgs(val).value, Answer(w).ok)
  {
    change := if val.Obj? && KeysArgs(val).Some? then Some(Mutation(KeysArgs(val).value, Answer(w).ok)) else None;
    var complains := val.Obj? && KeysArgs(val).None? && KeysComplain(val);
    ComplainedAdds(r, complains);
    AddsOneMore(r, Complained(r, complains), if complains then 1 else 0);
  }

  /** One handler's law: which calls were made, and what the response gained. */
  ghost predicate Lawful(r: Response, r': Response, w: World, w': World, o: DependsOutcome, action: Json, seen: seq<Call>, change: Option<Call>)
    requires WellTyped(action)
  {
    && Made(w, w', seen, change) && o != SKIPPED
    && (o == SUCCESS <==> change.Some? && (change.value.ok || Unheeded(action, w)))
    && (Unheeded(action, w) ==> change.Some? && !change.value.ok)
    && Adds(r, r', (if o == FAILURE then 1 else 0) + ErrorSkew(action, w), if o == SUCCESS && IsPower(action) then 1 else 0)
  }

  /**
    Every action keeps the law, whatever libvirt answers: one error if it fails, unless it is quiet or
    loud about it, one message if it is a power action that succeeds, and at most one change.
  */
  lemma AlteredLaw(other: Handler<World>, r: Response, w: World, action: Json) returns (seen: seq<Call>, change: Option<Call>)
    requires WellTyped(action)
    ensures Quiet(action, w) || Loud(action) ==> Altered(other, r, w, action).2 == FAILURE
    ensures var (r', w', o) := Altered(other, r, w, action);
            Lawful(r, r', w, w', o, action, seen, change)
  {
    if IsSend(action) {
      seen := [];
      change := SendLaw(other, r, w, action);
    } else {
      seen, change := PlainLaw(other, r, w, action);
    }
  }

  lemma SendLaw(other: Handler<World>, r: Response, w: World, action: Json) returns (change: Option<Call>)
    requires WellTyped(action) && IsSend(action)
    ensures Quiet(action, w) || Loud(action) ==> Altered(other, r, w, action).2 == FAILURE
    ensures var (r', w', o) := Altered(other, r, w, action);
            Lawful(r, r', w, w', o, action, [], change)
  {
    if action.members[0].0 == "send_signal" {
      change := SendSignalLaw(r, w, action);
    } else {
      change := SendKeysLaw(r, w, action);
    }
  }

  lemma SendSignalLaw(r: Response, w: World, action: Json) returns (change: Option<Call>)
    requires WellTyped(action) && action.members[0].0 == "send_signal"
    ensures var (r', w', o) := Signalled(r, w, action.members[0].1);
            && Lawful(r, r', w, w', o, action, [], change)
            && (Quiet(action, w) || Loud(action) ==> o == FAILURE)
  {
    change := SignalLaw(r, w, action.members[0].1);
  }

  lemma SendKeysLaw(r: Response, w: World, action: Json) returns (change: Option<Call>)
    requires WellTyped(action) && action.members[0].0 == "send_keys"
    ensures var (r', w', o) := KeysSent(r, w, action.members[0].1);
            && Lawful(r, r', w, w', o, action, [], change)
            && (Quiet(action, w) || Loud(action) ==> o == FAILURE)
  {
    change := KeysLaw(r, w, action.members[0].1);
  }

  /** The other actions keep it without exceptions. */
  lemma PlainLaw(other: Handler<World>, r: Response, w: World, action: Json) returns (seen: seq<Call>, change: Option<Call>)
    requires WellTyped(action) && !IsSend(action)
    ensures var (r', w', o) := Altered(other, r, w, action);
            && Made(w, w', seen, change) && Faithful(o, change) && Conserves(r, r', o, IsPower(action))
    ensures !Quiet(action, w) && !Loud(action) && !Unheeded(action, w)
  {
    var (name, val) := action.members[0];
    seen, change := [], None;
    if name == "power_mgt" {
      seen, change := PowerMgtLaw(r, w, val);
    } else if name == "name" {
      change := SimpleLaw(r, w, NameArg(val), 205);
    } else if name == "memory" {
      change := SimpleLaw(r, w, MemoryArg(val), 206);
    } else if name == "max_memory" {
      change := SimpleLaw(r, w, MaxMemoryArg(val), 207);
    } else if name == "autostart" {
      change := SimpleLaw(r, w, AutoStartArg(val), 208);
    } else {
      ErrorConserves(r, 123, false);
    }
  }

  // ---------------------------------------------------------------- whole batches

  /** Actions of a batch whose outcome is `o`. */
  function CountOutcome(outcomes: seq<DependsOutcome>, o: DependsOutcome): nat {
    if outcomes == [] then 0
    else CountOutcome(outcomes[..|outcomes| - 1], o) + if outcomes[|outcomes| - 1] == o then 1 else 0
  }

  function PowerSuccesses(actions: seq<Json>, outcomes: seq<DependsOutcome>): nat
    requires |outcomes| <= |actions|
  {
    if outcomes == [] then 0
    else
      var n := |outcomes| - 1;
      PowerSuccesses(actions, outcomes[..n]) + if outcomes[n] == SUCCESS && IsPower(actions[n]) then 1 else 0
  }

  /** Successful changes among some calls. */
  function Changes(calls: seq<Call>): nat {
    if calls == [] then 0
    else Changes(calls[..|calls| - 1]) + if calls[|calls| - 1].Mutation? && calls[|calls| - 1].ok then 1 else 0
  }

  lemma {:induction false} ChangesOf(calls: seq<Call>, seen: seq<Call>)
    requires NoMutation(seen)
    ensures Changes(calls + seen) == Changes(calls)
  {
    if seen == [] {
      assert calls + seen == calls;
    } else {
      var n := |seen| - 1;
      assert (calls + seen)[..|calls + seen| - 1] == calls + seen[..n];
      ChangesOf(calls, seen[..n]);
    }
  }

  lemma ChangesMade(w: World, w': World, seen: seq<Call>, change: Option<Call>)
    requires Made(w, w', seen, change)
    ensures Changes(w'.log) == Changes(w.log) + if change.Some? && change.value.ok then 1 else 0
  {
    ChangesOf(w.log, seen);
    if change.Some? {
      assert w'.log[..|w'.log| - 1] == w.log + seen;
    } else {
      assert w'.log == w.log + seen;
    }
  }

  ghost predicate InScope(actions: seq<Json>) {
    |actions| < SIZE_TYPE && forall i :: 0 <= i < |actions| ==> WellTyped(actions[i])
  }

  /** The batch after its first `n` actions. */
  ghost function After(other: Handler<World>, actions: seq<Json>, n: nat, r: Response, w: World): (b: Batch<World>)
    requires n <= |actions| < SIZE_TYPE
    ensures |b.outcomes| == n
  {
    RunBatch(actions, n, r, w, (r, w, a) => Altered(other, r, w, a))
  }

  /** Action `i` was handed to the handler, and it fails quietly, loudly, or succeeds unheeded. */
  ghost predicate QuietAt(other: Handler<World>, actions: seq<Json>, i: nat, r: Response, w: World)
    requires InScope(actions) && i < |actions|
  {
    var b := After(other, actions, i, r, w);
    Check(actions[i], b.outcomes) == Go && Quiet(actions[i], b.world)
  }

  ghost predicate LoudAt(other: Handler<World>, actions: seq<Json>, i: nat, r: Response, w: World)
    requires InScope(actions) && i < |actions|
  {
    Check(actions[i], After(other, actions, i, r, w).outcomes) == Go && Loud(actions[i])
  }

  ghost predicate UnheededAt(other: Handler<World>, actions: seq<Json>, i: nat, r: Response, w: World)
    requires InScope(actions) && i < |actions|
  {
    var b := After(other, actions, i, r, w);
    Check(actions[i], b.outcomes) == Go && Unheeded(actions[i], b.world)
  }

  datatype Tally = Tally(quiet: nat, loud: nat, unheeded: nat)

  /** How many of the first `n` actions failed quietly, failed loudly, succeeded unheeded. */
  ghost function Exceptions(other: Handler<World>, actions: seq<Json>, n: nat, r: Response, w: World): (c: Tally)
    requires InScope(actions) && n <= |actions|
  {
    if n == 0 then Tally(0, 0, 0)
    else
      var before := Exceptions(other, actions, n - 1, r, w);
      Tally(before.quiet + if QuietAt(other, actions, n - 1, r, w) then 1 else 0,
            before.loud + if LoudAt(other, actions, n - 1, r, w) then 1 else 0,
            before.unheeded + if UnheededAt(other, actions, n - 1, r, w) then 1 else 0)
  }

  /** What a batch has added, with `c` the numbers of quiet, loud and unheeded actions. */
  ghost predicate Adding(actions: seq<Json>, r: Response, w: World, b: Batch<World>, c: Tally)
    requires |b.outcomes| <= |actions|
  {
    && b.res.results == r.results
    && |b.res.errors| + c.quiet == |r.errors| + CountOutcome(b.outcomes, FAILURE) + c.loud
    && |b.res.messages| == |r.messages| + PowerSuccesses(actions, b.outcomes)
    && Changes(b.world.log) + c.unheeded == Changes(w.log) + CountOutcome(b.outcomes, SUCCESS)
    && (Truthful(r) ==> Truthful(b.res))
  }

  /**
    Conservation over a batch, for all actions: errors are the failures, less the quiet ones, plus one
    more for each loud one; messages are the successful power actions; successful changes of the domain
    are the successes, less the unheeded ones; nothing is added for what is skipped, and the success
    member is false exactly when there are errors.
  */
  lemma {:induction false} BatchConserves(other: Handler<World>, actions: seq<Json>, n: nat, r: Response, w: World)
    requires InScope(actions) && n <= |actions|
    ensures Adding(actions, r, w, After(other, actions, n, r, w), Exceptions(other, actions, n, r, w))
  {
    if n > 0 {
      BatchConserves(other, actions, n - 1, r, w);
      RoundConserves(other, After(other, actions, n - 1, r, w), actions[n - 1]);
      RoundAdds(actions, r, w, After(other, actions, n - 1, r, w), After(other, actions, n, r, w),
                Exceptions(other, actions, n - 1, r, w), Exceptions(other, actions, n, r, w));
    }
  }

  /** The totals after one more round. */
  lemma RoundAdds(actions: seq<Json>, r: Response, w: World, b: Batch<World>, b': Batch<World>, c: Tally, c': Tally)
    requires |b.outcomes| < |actions| && |b'.outcomes| == |b.outcomes| + 1 && b'.outcomes[..|b.outcomes|] == b.outcomes
    requires Adding(actions, r, w, b, c)
    requires var o := b'.outcomes[|b.outcomes|];
             && b'.res.results == b.res.results
             && |b'.res.errors| + (c'.quiet - c.quiet) == |b.res.errors| + (if o == FAILURE then 1 else 0) + (c'.loud - c.loud)
             && |b'.res.messages| == |b.res.messages| + (if o == SUCCESS && IsPower(actions[|b.outcomes|]) then 1 else 0)
             && Changes(b'.world.log) + (c'.unheeded - c.unheeded) == Changes(b.world.log) + (if o == SUCCESS then 1 else 0)
             && (Truthful(b.res) ==> Truthful(b'.res))
    ensures Adding(actions, r, w, b', c')
  {
  }

  /** What one round of the batch adds. */
  lemma RoundConserves(other: Handler<World>, b: Batch<World>, action: Json)
    requires |b.outcomes| < SIZE_TYPE && WellTyped(action)
    ensures var b' := BatchStep(b, action, (r, w, a) => Altered(other, r, w, a));
            var o := b'.outcomes[|b.outcomes|];
            var go := Check(action, b.outcomes) == Go;
            && b'.res.results == b.res.results
            && |b'.res.errors| == |b.res.errors| + (if o == FAILURE then 1 else 0) + (if go then ErrorSkew(action, b.world) else 0)
            && |b'.res.messages| == |b.res.messages| + (if o == SUCCESS && IsPower(action) then 1 else 0)
            && Changes(b'.world.log) + (if go && Unheeded(action, b.world) then 1 else 0)
               == Changes(b.world.log) + (if o == SUCCESS then 1 else 0)
            && (Truthful(b.res) ==> Truthful(b'.res))
            && (o == SKIPPED ==> b'.res == b.res && b'.world == b.world)
  {
    if Check(action, b.outcomes) == Go {
      HandedOverAdds(other, b.res, b.world, action);
    }
  }

  lemma HandedOverAdds(other: Handler<World>, r: Response, w: World, action: Json)
    requires WellTyped(action)
    ensures var (r', w', o) := Altered(other, r, w, action);
            && r'.results == r.results && o != SKIPPED
            && |r'.errors| == |r.errors| + (if o == FAILURE then 1 else 0) + ErrorSkew(action, w)
            && |r'.messages| == |r.messages| + (if o == SUCCESS && IsPower(action) then 1 else 0)
            && Changes(w'.log) + (if Unheeded(action, w) then 1 else 0) == Changes(w.log) + (if o == SUCCESS then 1 else 0)
            && (Truthful(r) ==> Truthful(r'))
  {
    var seen, change := AlteredLaw(other, r, w, action);
    var (r', w', o) := Altered(other, r, w, action);
    LawfulAdds(r, r', w, w', o, action, seen, change);
  }

  lemma LawfulAdds(r: Response, r': Response, w: World, w': World, o: DependsOutcome, action: Json, seen: seq<Call>, change: Option<Call>)
    requires WellTyped(action) && Lawful(r, r', w, w', o, action, seen, change)
    ensures |r'.errors| == |r.errors| + (if o == FAILURE then 1 else 0) + ErrorSkew(action, w)
    ensures |r'.messages| == |r.messages| + (if o == SUCCESS && IsPower(action) then 1 else 0)
    ensures Changes(w'.log) + (if Unheeded(action, w) then 1 else 0) == Changes(w.log) + (if o == SUCCESS then 1 else 0)
    ensures Truthful(r) ==> Truthful(r')
  {
    ChangesMade(w, w', seen, change);
  }

  /** The errors so far are the failures so far. */
  ghost predicate ErrorsAreFailures(other: Handler<World>, actions: seq<Json>, n: nat, r: Response, w: World)
    requires InScope(actions) && n <= |actions|
  {
    var b := After(other, actions, n, r, w);
    |b.res.errors| == |r.errors| + CountOutcome(b.outcomes, FAILURE)
  }

  ghost predicate Breaks(other: Handler<World>, actions: seq<Json>, i: nat, r: Response, w: World)
    requires InScope(actions) && i < |actions|
  {
    QuietAt(other, actions, i, r, w) || LoudAt(other, actions, i, r, w)
  }

  ghost predicate AsManyQuietAsLoud(other: Handler<World>, actions: seq<Json>, n: nat, r: Response, w: World)
    requires InScope(actions) && n <= |actions|
  {
    Exceptions(other, actions, n, r, w).quiet == Exceptions(other, actions, n, r, w).loud
  }

  lemma ErrorsAreFailuresIff(other: Handler<World>, actions: seq<Json>, n: nat, r: Response, w: World)
    requires InScope(actions) && n <= |actions|
    ensures ErrorsAreFailures(other, actions, n, r, w) <==> AsManyQuietAsLoud(other, actions, n, r, w)
  {
    BatchConserves(other, actions, n, r, w);
  }

  /** No action is quiet and loud, so the next one keeps the two numbers equal only if it is neither. */
  lemma ExceptionsStep(other: Handler<World>, actions: seq<Json>, n: nat, r: Response, w: World)
    requires InScope(actions) && n < |actions| && AsManyQuietAsLoud(other, actions, n, r, w)
    ensures AsManyQuietAsLoud(other, actions, n + 1, r, w) <==> !Breaks(other, actions, n, r, w)
  {
    assert !(QuietAt(other, actions, n, r, w) && LoudAt(other, actions, n, r, w));
  }

  ghost predicate NoneBreaks(other: Handler<World>, actions: seq<Json>, n: nat, r: Response, w: World)
    requires InScope(actions) && n <= |actions|
  {
    forall i: nat :: i < n ==> !Breaks(other, actions, i, r, w)
  }

  lemma NoneBreaksBefore(other: Handler<World>, actions: seq<Json>, n: nat, r: Response, w: World)
    requires InScope(actions) && n < |actions| && NoneBreaks(other, actions, n + 1, r, w)
    ensures NoneBreaks(other, actions, n, r, w) && !Breaks(other, actions, n, r, w)
  {
  }

  lemma {:induction false} NoBreaksNoDifference(other: Handler<World>, actions: seq<Json>, n: nat, r: Response, w: World)
    requires InScope(actions) && n <= |actions| && NoneBreaks(other, actions, n, r, w)
    ensures AsManyQuietAsLoud(other, actions, n, r, w)
  {
    if n > 0 {
      NoneBreaksBefore(other, actions, n - 1, r, w);
      NoBreaksNoDifference(other, actions, n - 1, r, w);
      ExceptionsStep(other, actions, n - 1, r, w);
    }
  }

  lemma NoDifferenceIff(other: Handler<World>, actions: seq<Json>, r: Response, w: World)
    requires InScope(actions)
    ensures (forall n: nat :: n <= |actions| ==> AsManyQuietAsLoud(other, actions, n, r, w))
            <==> NoneBreaks(other, actions, |actions|, r, w)
  {
    if forall n: nat :: n <= |actions| ==> AsManyQuietAsLoud(other, actions, n, r, w) {
      forall i: nat | i < |actions|
        ensures !Breaks(other, actions, i, r, w)
      {
        ExceptionsStep(other, actions, i, r, w);
      }
    }
    if NoneBreaks(other, actions, |actions|, r, w) {
      forall n: nat | n <= |actions|
        ensures AsManyQuietAsLoud(other, actions, n, r, w)
      {
        assert NoneBreaks(other, actions, n, r, w);
        NoBreaksNoDifference(other, actions, n, r, w);
      }
    }
  }

  /**
    When the error law holds: throughout a batch the errors are the failures exactly when no action that
    was handed over fails quietly or loudly.
  */
  lemma ErrorLawIff(other: Handler<World>, actions: seq<Json>, r: Response, w: World)
    requires InScope(actions)
    ensures (forall n: nat :: n <= |actions| ==> ErrorsAreFailures(other, actions, n, r, w))
            <==> NoneBreaks(other, actions, |actions|, r, w)
  {
    forall n: nat | n <= |actions|
      ensures ErrorsAreFailures(other, actions, n, r, w) <==> AsManyQuietAsLoud(other, actions, n, r, w)
    {
      ErrorsAreFailuresIff(other, actions, n, r, w);
    }
    NoDifferenceIff(other, actions, r, w);
  }

  /** A batch without signals and keys has no exceptions. */
  lemma {:induction false} PlainBatchHasNoExceptions(other: Handler<World>, actions: seq<Json>, n: nat, r: Response, w: World)
    requires InScope(actions) && n <= |actions| && forall i :: 0 <= i < |actions| ==> !IsSend(actions[i])
    ensures Exceptions(other, actions, n, r, w) == Tally(0, 0, 0)
  {
    if n > 0 {
      PlainBatchHasNoExceptions(other, actions, n - 1, r, w);
    }
  }

  /** A PATCH request on one domain: the batch loop with the domain's own handler. */
  method PatchDomain(jsonReq: Json, res: JsonRes, dom: Domain, ghost other: Handler<World>) returns (outcomes: OutcomeStack)
    requires jsonReq.Arr? ==> InScope(jsonReq.items)
    modifies res, dom
    ensures fresh(outcomes)
    ensures !jsonReq.Arr? ==> res.View() == WithError(old(res.View()), 298) && dom.View() == old(dom.View())
    ensures jsonReq.Arr? ==>
              var n := |jsonReq.items|;
              var c := Exceptions(other, jsonReq.items, n, old(res.View()), old(dom.View()));
              && Batch(res.View(), dom.View(), outcomes.items) == After(other, jsonReq.items, n, old(res.View()), old(dom.View()))
              && |res.errors| + c.quiet == old(|res.errors|) + CountOutcome(outcomes.items, FAILURE) + c.loud
              && |res.messages| == old(|res.messages|) + PowerSuccesses(jsonReq.items, outcomes.items)
              && Changes(dom.log) + c.unheeded == old(Changes(dom.log)) + CountOutcome(outcomes.items, SUCCESS)
              && ((forall i :: 0 <= i < n ==> !IsSend(jsonReq.items[i])) ==> c == Tally(0, 0, 0))
              && (old(Truthful(res.View())) ==> (res.success <==> res.errors == []))
  {
    outcomes := new OutcomeStack();
    if !jsonReq.Arr? {
      res.Error(298);
      return;
    }
    PatchActions(jsonReq.items, res, dom, outcomes, other);
    BatchConserves(other, jsonReq.items, |jsonReq.items|, old(res.View()), old(dom.View()));
    if forall i :: 0 <= i < |jsonReq.items| ==> !IsSend(jsonReq.items[i]) {
      PlainBatchHasNoExceptions(other, jsonReq.items, |jsonReq.items|, old(res.View()), old(dom.View()));
    }
  }

  /** The batch loop, with the handler working on the response and the domain in place. */
  method PatchActions(actions: seq<Json>, res: JsonRes, dom: Domain, outcomes: OutcomeStack, ghost other: Handler<World>)
    requires InScope(actions) && outcomes.items == []
    modifies res, dom, outcomes
    ensures Batch(res.View(), dom.View(), outcomes.items) == After(other, actions, |actions|, old(res.View()), old(dom.View()))
  {
    for i := 0 to |actions|
      invariant Batch(res.View(), dom.View(), outcomes.items) == After(other, actions, i, old(res.View()), old(dom.View()))
    {
      PatchRound(actions[i], res, dom, outcomes, other);
    }
  }

  method PatchRound(action: Json, res: JsonRes, dom: Domain, outcomes: OutcomeStack, ghost other: Handler<World>)
    requires |outcomes.items| < SIZE_TYPE && WellTyped(action)
    modifies res, dom, outcomes
    ensures Batch(res.View(), dom.View(), outcomes.items)
            == BatchStep(Batch(old(res.View()), old(dom.View()), old(outcomes.items)), action, (r, w, a) => Altered(other, r, w, a))
  {
    var ok := CheckDepends(action, outcomes, res);
    if ok {
      var o := Alter(action, res, dom, other);
      outcomes.Push(o);
    }
  }
}
