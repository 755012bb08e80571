/**
  The asynchronous request store as a transition system.

  Every event is one critical section, or one step that happens outside the mutex: a launcher's
  size test, a launcher's locked insertion, a worker's locked housekeeping, a worker's future
  becoming ready after the closure has returned, a poll, and a garbage collection sweep. A run is
  any sequence of enabled events, so the theorems below hold for every interleaving.
*/
module AsyncSystem {
  import opened Options
  import opened FreeId

  const MAX_ENTRIES: nat := IDS - 1  // numeric_limits<IndexType>::max()
  const INIT_EXPIRE: int := 0x7fff_ffff_ffff_ffff

  // What a worker has done so far: computing or waiting for the mutex; past its critical section;
  // returned, so that its future is ready.
  datatype Phase = Running | Stamped | Ready

  // The shared state behind one std::async call. `value` is what its callable returns.
  datatype Task = Task(id: Id, value: string, phase: Phase)

  // A store entry. `fut` is the index of the Task whose shared state the future refers to; a
  // default-constructed future has none.
  datatype Entry = Entry(expires: int, fut: Option<nat>)

  // `admitted` counts the launchers that have passed the size test and not yet taken the mutex.
  datatype State = State(elems: map<Id, Entry>, last: Id, tasks: seq<Task>, admitted: nat)

  datatype Event =
    | LaunchCheck
    | LaunchInsert(value: string)
    | Housekeep(task: nat, expires: int)
    | Finish(task: nat)
    | Poll(id: Id)
    | Gc(passed: set<Id>)  // the ids of the entries that pass the time test

  datatype TaskStatus = NonExistent | InProgress | Finished

  const Initial: State := State(map[], IDS - 1, [], 0)

  /** The future of entry `id` refers to a shared state that holds a value. */
  predicate IsReady(s: State, id: Id) {
    && id in s.elems
    && s.elems[id].fut.Some?
    && s.elems[id].fut.value < |s.tasks|
    && s.tasks[s.elems[id].fut.value].phase == Ready
  }

  ghost predicate Enabled(s: State, e: Event) {
    match e
    case LaunchCheck => true
    case LaunchInsert(_) => s.admitted > 0 && |s.elems| < IDS  // else the id search never ends
    case Housekeep(t, _) => t < |s.tasks| && s.tasks[t].phase == Running
    case Finish(t) => t < |s.tasks| && s.tasks[t].phase == Stamped
    case Poll(_) => true
    case Gc(_) => true
  }

  /** `elems[id]`, which creates an entry with an empty future when there is none. */
  function Subscript(elems: map<Id, Entry>, id: Id): Entry {
    if id in elems then elems[id] else Entry(0, None)
  }

  ghost function Next(s: State, e: Event): State
    requires Enabled(s, e)
  {
    match e
    case LaunchCheck =>
      if |s.elems| == MAX_ENTRIES then s else s.(admitted := s.admitted + 1)
    case LaunchInsert(value) =>
      var id := NextFree(s.last, s.elems.Keys);
      State(s.elems[id := Entry(INIT_EXPIRE, Some(|s.tasks|))], id, s.tasks + [Task(id, value, Running)], s.admitted - 1)
    case Housekeep(t, expires) =>
      var id := s.tasks[t].id;
      s.(elems := s.elems[id := Subscript(s.elems, id).(expires := expires)],
         tasks := s.tasks[t := s.tasks[t].(phase := Stamped)])
    case Finish(t) =>
      s.(tasks := s.tasks[t := s.tasks[t].(phase := Ready)])
    case Poll(id) =>
      if IsReady(s, id) then s.(elems := s.elems - {id}) else s
    case Gc(passed) =>
      s.(elems := map id | id in s.elems && !(id in passed && IsReady(s, id)) :: s.elems[id])
  }

  /** The status and buffer that a poll returns. */
  function PollResult(s: State, id: Id): (TaskStatus, string) {
    if id !in s.elems then (NonExistent, "")
    else if IsReady(s, id) then (Finished, s.tasks[s.elems[id].fut.value].value)
    else (InProgress, "")
  }

  // ---------------------------------------------------------------- runs

  ghost predicate ValidRun(s: State, es: seq<Event>)
    decreases |es|
  {
    es == [] || (Enabled(s, es[0]) && ValidRun(Next(s, es[0]), es[1..]))
  }

  ghost function Run(s: State, es: seq<Event>): State
    requires ValidRun(s, es)
    decreases |es|
  {
    if es == [] then s else Run(Next(s, es[0]), es[1..])
  }

  lemma {:induction false} RunSplit(s: State, a: seq<Event>, b: seq<Event>)
    requires ValidRun(s, a + b)
    ensures ValidRun(s, a) && ValidRun(Run(s, a), b) && Run(Run(s, a), b) == Run(s, a + b)
    decreases |a|
  {
    if a == [] {
      assert a + b == b;
    } else {
      assert (a + b)[1..] == a[1..] + b;
      RunSplit(Next(s, a[0]), a[1..], b);
    }
  }

  lemma RunPrefix(s: State, es: seq<Event>, i: nat)
    requires ValidRun(s, es) && i <= |es|
    ensures ValidRun(s, es[..i]) && ValidRun(Run(s, es[..i]), es[i..])
    ensures Run(Run(s, es[..i]), es[i..]) == Run(s, es)
  {
    assert es[..i] + es[i..] == es;
    RunSplit(s, es[..i], es[i..]);
  }

  lemma {:induction false} RunAppend(s: State, a: seq<Event>, b: seq<Event>)
    requires ValidRun(s, a) && ValidRun(Run(s, a), b)
    ensures ValidRun(s, a + b) && Run(s, a + b) == Run(Run(s, a), b)
    decreases |a|
  {
    if a == [] {
      assert a + b == b;
    } else {
      RunAppend(Next(s, a[0]), a[1..], b);
      assert (a + b)[1..] == a[1..] + b;
    }
  }

  /** The state in which event `i` of a run happens. */
  ghost function StateAt(s: State, es: seq<Event>, i: nat): State
    requires ValidRun(s, es) && i <= |es|
  {
    RunPrefix(s, es, i);
    Run(s, es[..i])
  }

  lemma {:induction false} StateAtStep(s: State, es: seq<Event>, i: nat)
    requires ValidRun(s, es) && i < |es|
    ensures Enabled(StateAt(s, es, i), es[i])
    ensures StateAt(s, es, i + 1) == Next(StateAt(s, es, i), es[i])
  {
    RunPrefix(s, es, i);
    RunPrefix(s, es, i + 1);
    var p := es[..i + 1];
    RunPrefix(s, p, i);
    assert p[..i] == es[..i];
    assert p[i..] == [es[i]];
  }

  // ---------------------------------------------------------------- the inductive invariant

  /** Task `t` still has its own entry. */
  ghost predicate Holds(s: State, t: nat) {
    t < |s.tasks| && s.tasks[t].id in s.elems && s.elems[s.tasks[t].id].fut == Some(t)
  }

  ghost predicate Inv(s: State) {
    && (forall id :: id in s.elems ==> s.elems[id].fut.Some? && s.elems[id].fut.value < |s.tasks|
                                       && s.tasks[s.elems[id].fut.value].id == id)
    && (forall t :: 0 <= t < |s.tasks| && s.tasks[t].phase != Ready ==> Holds(s, t))
  }

  lemma NextKeepsInv(s: State, e: Event)
    requires Inv(s) && Enabled(s, e)
    ensures Inv(Next(s, e))
  {
    EntriesStayOwned(s, e);
    forall t | 0 <= t < |Next(s, e).tasks| && Next(s, e).tasks[t].phase != Ready
      ensures Holds(Next(s, e), t)
    {
      WorkerKeepsEntry(s, e, t);
    }
  }

  lemma EntriesStayOwned(s: State, e: Event)
    requires Inv(s) && Enabled(s, e)
    ensures forall id :: id in Next(s, e).elems ==>
              && Next(s, e).elems[id].fut.Some? && Next(s, e).elems[id].fut.value < |Next(s, e).tasks|
              && Next(s, e).tasks[Next(s, e).elems[id].fut.value].id == id
  {
    if e.Housekeep? { assert Holds(s, e.task); }
  }

  lemma WorkerKeepsEntry(s: State, e: Event, t: nat)
    requires Inv(s) && Enabled(s, e)
    requires t < |Next(s, e).tasks| && Next(s, e).tasks[t].phase != Ready
    ensures Holds(Next(s, e), t)
  {
    if t < |s.tasks| { assert Holds(s, t); }
  }

  lemma {:induction false} RunKeepsInv(s: State, es: seq<Event>)
    requires Inv(s) && ValidRun(s, es)
    ensures Inv(Run(s, es))
    decreases |es|
  {
    if es != [] {
      NextKeepsInv(s, es[0]);
      RunKeepsInv(Next(s, es[0]), es[1..]);
    }
  }

  lemma InvAt(es: seq<Event>, i: nat)
    requires ValidRun(Initial, es) && i <= |es|
    ensures Inv(StateAt(Initial, es, i))
  {
    RunPrefix(Initial, es, i);
    RunKeepsInv(Initial, es[..i]);
  }

  /** A worker that reaches its housekeeping finds its own entry, so `elems[id]` creates nothing. */
  lemma WorkerFindsItsEntry(es: seq<Event>, t: nat, expires: int)
    requires ValidRun(Initial, es)
    requires Enabled(Run(Initial, es), Housekeep(t, expires))
    ensures var s := Run(Initial, es);
            && s.tasks[t].id in s.elems
            && s.elems[s.tasks[t].id].fut == Some(t)
            && Next(s, Housekeep(t, expires)).elems == s.elems[s.tasks[t].id := Entry(expires, Some(t))]
            && Next(s, Housekeep(t, expires)).elems.Keys == s.elems.Keys
  {
    RunKeepsInv(Initial, es);
    assert Holds(Run(Initial, es), t);
  }

  /** Two workers that have not finished never share an id. */
  lemma UnfinishedIdsDiffer(es: seq<Event>, t: nat, u: nat)
    requires ValidRun(Initial, es)
    requires t < u < |Run(Initial, es).tasks|
    requires Run(Initial, es).tasks[t].phase != Ready && Run(Initial, es).tasks[u].phase != Ready
    ensures Run(Initial, es).tasks[t].id != Run(Initial, es).tasks[u].id
  {
    RunKeepsInv(Initial, es);
    assert Holds(Run(Initial, es), t) && Holds(Run(Initial, es), u);
  }

  // ---------------------------------------------------------------- what happens to a task

  /** The index of the Task whose string event `e` hands to its caller. */
  function Delivered(s: State, e: Event): Option<nat> {
    if e.Poll? && IsReady(s, e.id) then s.elems[e.id].fut else None
  }

  /** Event `e` is a sweep that discards task `t`. */
  ghost predicate Collected(s: State, e: Event, t: nat) {
    e.Gc? && Holds(s, t) && s.tasks[t].id in e.passed && s.tasks[t].phase == Ready
  }

  ghost predicate Taken(s: State, e: Event, t: nat) {
    Delivered(s, e) == Some(t) || Collected(s, e, t)
  }

  /** An entry disappears only by being delivered or collected, and never comes back. */
  lemma HoldsStep(s: State, e: Event, t: nat)
    requires Inv(s) && Enabled(s, e) && t < |s.tasks|
    ensures t < |Next(s, e).tasks|
    ensures Next(s, e).tasks[t].id == s.tasks[t].id && Next(s, e).tasks[t].value == s.tasks[t].value
    ensures Taken(s, e, t) ==> Holds(s, t)
    ensures Holds(Next(s, e), t) <==> Holds(s, t) && !Taken(s, e, t)
  {
    if e.Housekeep? { assert Holds(s, e.task); }
  }

  /** A task without its entry never gets it back. */
  lemma {:induction false} GoneStaysGone(es: seq<Event>, i: nat, j: nat, t: nat)
    requires ValidRun(Initial, es) && i <= j <= |es|
    requires t < |StateAt(Initial, es, i).tasks| && !Holds(StateAt(Initial, es, i), t)
    ensures t < |StateAt(Initial, es, j).tasks| && !Holds(StateAt(Initial, es, j), t)
    decreases j
  {
    if i < j {
      GoneStaysGone(es, i, j - 1, t);
      StateAtStep(Initial, es, j - 1);
      InvAt(es, j - 1);
      HoldsStep(StateAt(Initial, es, j - 1), es[j - 1], t);
    }
  }

  /** At most one event of a run takes a given task. */
  lemma TakenAtMostOnce(es: seq<Event>, i: nat, j: nat, t: nat)
    requires ValidRun(Initial, es) && i < j < |es| && t < |StateAt(Initial, es, i).tasks|
    requires Taken(StateAt(Initial, es, i), es[i], t)
    ensures !Taken(StateAt(Initial, es, j), es[j], t)
  {
    StateAtStep(Initial, es, i);
    InvAt(es, i);
    HoldsStep(StateAt(Initial, es, i), es[i], t);
    GoneStaysGone(es, i + 1, j, t);
    StateAtStep(Initial, es, j);
    InvAt(es, j);
    HoldsStep(StateAt(Initial, es, j), es[j], t);
  }

  ghost predicate TakenWithin(es: seq<Event>, k: nat, n: nat, t: nat)
    requires ValidRun(Initial, es) && k <= n <= |es|
  {
    exists i :: k <= i < n && Taken(StateAt(Initial, es, i), es[i], t)
  }

  lemma TakenWithinStep(es: seq<Event>, k: nat, n: nat, t: nat)
    requires ValidRun(Initial, es) && k < n <= |es|
    ensures TakenWithin(es, k, n, t) <==> TakenWithin(es, k, n - 1, t) || Taken(StateAt(Initial, es, n - 1), es[n - 1], t)
  {
  }

  /** Nothing is lost: after its launch, an entry is stored until an event takes it, and no longer. */
  lemma {:induction false} StoredUntilTaken(es: seq<Event>, k: nat, n: nat, t: nat)
    requires ValidRun(Initial, es) && LaunchedBy(es, k, t) && k < n <= |es|
    ensures t < |StateAt(Initial, es, n).tasks|
    ensures Holds(StateAt(Initial, es, n), t) <==> !TakenWithin(es, k + 1, n, t)
    decreases n
  {
    StateAtStep(Initial, es, n - 1);
    var s := StateAt(Initial, es, n - 1);
    if n == k + 1 {
      assert Next(s, es[k]).tasks[t] == Task(Next(s, es[k]).last, es[k].value, Running);
      assert Holds(Next(s, es[k]), t);
    } else {
      StoredUntilTaken(es, k, n - 1, t);
      InvAt(es, n - 1);
      HoldsStep(s, es[n - 1], t);
      TakenWithinStep(es, k + 1, n, t);
    }
  }

  /** Event `k` of a run from the initial state is the one that launched task `t`. */
  ghost predicate LaunchedBy(es: seq<Event>, k: nat, t: nat)
    requires ValidRun(Initial, es)
  {
    k < |es| && es[k].LaunchInsert? && |StateAt(Initial, es, k).tasks| == t
  }

  lemma {:induction false} EveryTaskWasLaunched(es: seq<Event>, i: nat, t: nat) returns (k: nat)
    requires ValidRun(Initial, es) && i <= |es| && t < |StateAt(Initial, es, i).tasks|
    ensures k < i && LaunchedBy(es, k, t)
    ensures StateAt(Initial, es, i).tasks[t].value == es[k].value
    ensures StateAt(Initial, es, i).tasks[t].id == StateAt(Initial, es, k + 1).last
  {
    assert i > 0 by { assert es[..0] == []; }
    StateAtStep(Initial, es, i - 1);
    if t < |StateAt(Initial, es, i - 1).tasks| {
      k := EveryTaskWasLaunched(es, i - 1, t);
      InvAt(es, i - 1);
      HoldsStep(StateAt(Initial, es, i - 1), es[i - 1], t);
    } else {
      k := i - 1;
    }
  }

  /**
    A delivery hands over the string that its own callable returned, to a poll for the id that it
    was given when it was launched; no other event of the run delivers it again.
  */
  lemma DeliveryIsCorrect(es: seq<Event>, i: nat, t: nat) returns (k: nat)
    requires ValidRun(Initial, es) && i < |es|
    requires Delivered(StateAt(Initial, es, i), es[i]) == Some(t)
    ensures k < i && LaunchedBy(es, k, t)
    ensures es[i] == Poll(StateAt(Initial, es, k + 1).last)
    ensures PollResult(StateAt(Initial, es, i), es[i].id) == (Finished, es[k].value)
    ensures forall j :: 0 <= j < |es| && j != i ==> Delivered(StateAt(Initial, es, j), es[j]) != Some(t)
  {
    InvAt(es, i);
    k := EveryTaskWasLaunched(es, i, t);
    forall j | 0 <= j < |es| && j != i
      ensures Delivered(StateAt(Initial, es, j), es[j]) != Some(t)
    {
      if Delivered(StateAt(Initial, es, j), es[j]) == Some(t) {
        if i < j {
          TakenAtMostOnce(es, i, j, t);
        } else {
          InvAt(es, j);
          TakenAtMostOnce(es, j, i, t);
        }
      }
    }
  }

  /** A poll changes nothing unless it delivers; then it removes exactly that entry. */
  lemma PollEffect(s: State, id: Id)
    requires Inv(s)
    ensures PollResult(s, id).0 == Finished <==> Delivered(s, Poll(id)).Some?
    ensures PollResult(s, id).0 == NonExistent <==> id !in s.elems
    ensures PollResult(s, id).0 == InProgress <==>
            exists t: nat :: Holds(s, t) && s.tasks[t].id == id && s.tasks[t].phase != Ready
    ensures PollResult(s, id).0 != Finished ==> Next(s, Poll(id)) == s && PollResult(s, id).1 == ""
    ensures PollResult(s, id).0 == Finished ==>
            var t := Delivered(s, Poll(id)).value;
            && Holds(s, t) && s.tasks[t].id == id && PollResult(s, id).1 == s.tasks[t].value
            && Next(s, Poll(id)) == s.(elems := s.elems - {id})
  {
    if id in s.elems {
      assert Holds(s, s.elems[id].fut.value);
    }
  }

  /** Event `e` is a launch that is given `id`. */
  ghost predicate Issues(s: State, e: Event, id: Id) {
    e.LaunchInsert? && Enabled(s, e) && NextFree(s.last, s.elems.Keys) == id
  }

  lemma AbsentStep(s: State, e: Event, id: Id)
    requires Inv(s) && Enabled(s, e) && id !in s.elems && !Issues(s, e, id)
    ensures id !in Next(s, e).elems
  {
    assert e.Housekeep? ==> Holds(s, e.task);
  }

  /** After a delivery the id reads as non-existent until a launch is given it again. */
  lemma {:induction false} DeliveredIdIsGone(es: seq<Event>, i: nat, j: nat)
    requires ValidRun(Initial, es) && i < j <= |es|
    requires Delivered(StateAt(Initial, es, i), es[i]).Some?
    requires forall k :: i < k < j ==> !Issues(StateAt(Initial, es, k), es[k], es[i].id)
    ensures PollResult(StateAt(Initial, es, j), es[i].id) == (NonExistent, "")
  {
    StateAtStep(Initial, es, j - 1);
    InvAt(es, j - 1);
    if i + 1 < j {
      DeliveredIdIsGone(es, i, j - 1);
      AbsentStep(StateAt(Initial, es, j - 1), es[j - 1], es[i].id);
    }
  }

  // ---------------------------------------------------------------- which ids are given out

  /** The ids given out so far are 0, 1, 2 and so on, until they wrap. */
  ghost predicate Counted(s: State) {
    && (forall t :: 0 <= t < |s.tasks| && t < IDS ==> s.tasks[t].id == t)
    && (|s.tasks| <= IDS ==> s.last == (|s.tasks| + IDS - 1) % IDS)
  }

  /** The next id has not been used before, so the search makes one increment. */
  lemma NextIdIsCount(s: State)
    requires Inv(s) && Counted(s) && |s.elems| < IDS && |s.tasks| < IDS
    ensures NextFree(s.last, s.elems.Keys) == |s.tasks|
  {
    assert Advance(s.last, 1) == |s.tasks|;
    assert FirstFree(s.last, s.elems.Keys, 1) by {
      assert forall id :: id in s.elems ==> id < |s.tasks|;
    }
    DistanceUnique(s.last, s.elems.Keys, 1);
  }

  lemma CountedStep(s: State, e: Event)
    requires Inv(s) && Counted(s) && Enabled(s, e)
    ensures Counted(Next(s, e))
  {
    if e.LaunchInsert? {
      if |s.tasks| < IDS { NextIdIsCount(s); }
    } else {
      SameCount(s, e);
    }
  }

  lemma SameCount(s: State, e: Event)
    requires Enabled(s, e) && !e.LaunchInsert?
    ensures Next(s, e).last == s.last && |Next(s, e).tasks| == |s.tasks|
    ensures forall t :: 0 <= t < |s.tasks| ==> Next(s, e).tasks[t].id == s.tasks[t].id
  {
  }

  /** Over every run, whatever is taken in between, the first 2^32 launches are given the ids in order. */
  lemma {:induction false} IdsAreIncremental(es: seq<Event>, t: nat)
    requires ValidRun(Initial, es) && t < |Run(Initial, es).tasks| && t < IDS
    ensures Run(Initial, es).tasks[t].id == t
  {
    CountedRun(Initial, es);
  }

  lemma {:induction false} CountedRun(s: State, es: seq<Event>)
    requires Inv(s) && Counted(s) && ValidRun(s, es)
    ensures Counted(Run(s, es))
    decreases |es|
  {
    if es != [] {
      CountedStep(s, es[0]);
      NextKeepsInv(s, es[0]);
      CountedRun(Next(s, es[0]), es[1..]);
    }
  }

  // ---------------------------------------------------------------- from launch to delivery

  /** Worker `t` stamped its entry among the events from `i` up to `n`. */
  ghost predicate StampedWithin(es: seq<Event>, i: nat, n: nat, t: nat)
    requires n <= |es|
  {
    exists j :: i <= j < n && es[j].Housekeep? && es[j].task == t
  }

  ghost predicate FinishedWithin(es: seq<Event>, i: nat, n: nat, t: nat)
    requires n <= |es|
  {
    exists j :: i <= j < n && es[j] == Finish(t)
  }

  lemma PhaseStep(s: State, e: Event, t: nat)
    requires Enabled(s, e) && t < |s.tasks|
    ensures t < |Next(s, e).tasks|
    ensures Next(s, e).tasks[t] == s.tasks[t].(phase :=
              if e == Finish(t) then Ready else if e.Housekeep? && e.task == t then Stamped else s.tasks[t].phase)
    ensures e.Housekeep? && e.task == t ==> s.tasks[t].phase == Running
    ensures e == Finish(t) ==> s.tasks[t].phase == Stamped
  {
  }

  lemma WithinStep(es: seq<Event>, i: nat, n: nat, t: nat)
    requires i < n <= |es|
    ensures FinishedWithin(es, i, n, t) <==> FinishedWithin(es, i, n - 1, t) || es[n - 1] == Finish(t)
    ensures StampedWithin(es, i, n, t) <==> StampedWithin(es, i, n - 1, t) || (es[n - 1].Housekeep? && es[n - 1].task == t)
  {
  }

  /** How far worker `t` has come: its two events since `i` tell. */
  ghost predicate PhaseOf(es: seq<Event>, i: nat, n: nat, t: nat, s: State)
    requires n <= |es|
  {
    && t < |s.tasks|
    && (FinishedWithin(es, i, n, t) ==> StampedWithin(es, i, n, t))
    && s.tasks[t].phase == if FinishedWithin(es, i, n, t) then Ready else if StampedWithin(es, i, n, t) then Stamped else Running
  }

  lemma PhaseOfStep(es: seq<Event>, i: nat, n: nat, t: nat, s: State)
    requires i <= n < |es| && PhaseOf(es, i, n, t, s) && Enabled(s, es[n])
    ensures PhaseOf(es, i, n + 1, t, Next(s, es[n]))
  {
    PhaseStep(s, es[n], t);
    WithinStep(es, i, n + 1, t);
  }

  /** A worker goes through its phases by its own two events, each of them once. */
  lemma {:induction false} PhaseAt(es: seq<Event>, k: nat, n: nat, t: nat)
    requires ValidRun(Initial, es) && LaunchedBy(es, k, t) && k < n <= |es|
    ensures PhaseOf(es, k + 1, n, t, StateAt(Initial, es, n))
    ensures StateAt(Initial, es, n).tasks[t].id == StateAt(Initial, es, k + 1).last
    ensures StateAt(Initial, es, n).tasks[t].value == es[k].value
    decreases n
  {
    StateAtStep(Initial, es, n - 1);
    if n > k + 1 {
      PhaseAt(es, k, n - 1, t);
      PhaseOfStep(es, k + 1, n - 1, t, StateAt(Initial, es, n - 1));
      PhaseStep(StateAt(Initial, es, n - 1), es[n - 1], t);
    }
  }

  /**
    What a client sees of a launched request that nothing has taken: a poll for its id answers finished,
    with its callable's string, exactly when its worker has finished, and in progress until then. The
    worker can stamp its entry exactly if it has not, and finish exactly if it has stamped and not finished.
  */
  lemma PollOfLaunched(es: seq<Event>, k: nat, n: nat, t: nat)
    requires ValidRun(Initial, es) && LaunchedBy(es, k, t) && k < n <= |es| && !TakenWithin(es, k + 1, n, t)
    ensures var s := StateAt(Initial, es, n);
            && PollResult(s, StateAt(Initial, es, k + 1).last)
               == (if FinishedWithin(es, k + 1, n, t) then (Finished, es[k].value) else (InProgress, ""))
            && (forall expires :: Enabled(s, Housekeep(t, expires)) <==> !StampedWithin(es, k + 1, n, t))
            && (Enabled(s, Finish(t)) <==> StampedWithin(es, k + 1, n, t) && !FinishedWithin(es, k + 1, n, t))
  {
    PhaseAt(es, k, n, t);
    StoredUntilTaken(es, k, n, t);
  }

  lemma ExpiryStep(s: State, e: Event, t: nat)
    requires Inv(s) && Enabled(s, e) && t < |s.tasks| && Holds(s, t) && !Taken(s, e, t)
    ensures Holds(Next(s, e), t)
    ensures Next(s, e).elems[s.tasks[t].id].expires ==
            if e.Housekeep? && e.task == t then e.expires else s.elems[s.tasks[t].id].expires
  {
    HoldsStep(s, e, t);
    if e.Housekeep? { assert Holds(s, e.task); }
  }

  /** The entry for `id` has the largest expiry there is until worker `t` stamps it, and then the one of its stamp. */
  ghost predicate ExpiryOf(es: seq<Event>, i: nat, n: nat, t: nat, s: State, id: Id)
    requires n <= |es|
  {
    && id in s.elems
    && (!StampedWithin(es, i, n, t) ==> s.elems[id].expires == 0x7fff_ffff_ffff_ffff)
    && forall j :: i <= j < n && es[j].Housekeep? && es[j].task == t ==> s.elems[id].expires == es[j].expires
  }

  /** So it is over every run, so long as nothing takes the entry. */
  lemma {:induction false} ExpiryAt(es: seq<Event>, k: nat, n: nat, t: nat)
    requires ValidRun(Initial, es) && LaunchedBy(es, k, t) && k < n <= |es| && !TakenWithin(es, k + 1, n, t)
    ensures ExpiryOf(es, k + 1, n, t, StateAt(Initial, es, n), StateAt(Initial, es, k + 1).last)
    decreases n
  {
    if n == k + 1 {
      StateAtStep(Initial, es, k);
    } else {
      TakenWithinStep(es, k + 1, n, t);
      ExpiryAt(es, k, n - 1, t);
      ExpiryAtStep(es, k, n - 1, t);
    }
  }

  lemma ExpiryAtStep(es: seq<Event>, k: nat, n: nat, t: nat)
    requires ValidRun(Initial, es) && LaunchedBy(es, k, t) && k < n < |es|
    requires !TakenWithin(es, k + 1, n, t) && !Taken(StateAt(Initial, es, n), es[n], t)
    requires ExpiryOf(es, k + 1, n, t, StateAt(Initial, es, n), StateAt(Initial, es, k + 1).last)
    ensures ExpiryOf(es, k + 1, n + 1, t, StateAt(Initial, es, n + 1), StateAt(Initial, es, k + 1).last)
  {
    PhaseAt(es, k, n, t);
    StoredUntilTaken(es, k, n, t);
    StateAtStep(Initial, es, n);
    InvAt(es, n);
    ExpiryOfStep(es, k + 1, n, t, StateAt(Initial, es, n));
  }

  lemma ExpiryOfStep(es: seq<Event>, i: nat, n: nat, t: nat, s: State)
    requires i <= n < |es| && Inv(s) && Enabled(s, es[n]) && PhaseOf(es, i, n, t, s)
    requires Holds(s, t) && !Taken(s, es[n], t) && ExpiryOf(es, i, n, t, s, s.tasks[t].id)
    ensures ExpiryOf(es, i, n + 1, t, Next(s, es[n]), s.tasks[t].id)
  {
    ExpiryStep(s, es[n], t);
    HoldsStep(s, es[n], t);
    WithinStep(es, i, n + 1, t);
    StampedOnce(es, i, n, t, s);
  }

  /** A worker that has stamped its entry does not stamp it again. */
  lemma StampedOnce(es: seq<Event>, i: nat, n: nat, t: nat, s: State)
    requires n < |es| && Enabled(s, es[n]) && PhaseOf(es, i, n, t, s)
    ensures es[n].Housekeep? && es[n].task == t ==> forall j :: i <= j < n ==> !(es[j].Housekeep? && es[j].task == t)
  {
  }

  /** No launched request is stuck: so long as its entry is stored, its own worker's steps lead to its delivery. */
  lemma DeliveryIsReachable(s: State, t: nat) returns (es: seq<Event>)
    requires Inv(s) && Holds(s, t)
    ensures ValidRun(s, es) && forall i :: 0 <= i < |es| ==> es[i] in {Housekeep(t, 0), Finish(t)}
    ensures PollResult(Run(s, es), s.tasks[t].id) == (Finished, s.tasks[t].value)
  {
    match s.tasks[t].phase
    case Running =>
      var s1 := Next(s, Housekeep(t, 0));
      var s2 := Next(s1, Finish(t));
      es := [Housekeep(t, 0), Finish(t)];
      assert es[1..] == [Finish(t)] && es[1..][1..] == [];
      assert ValidRun(s2, []);
      assert ValidRun(s1, es[1..]) && Run(s1, es[1..]) == Run(s2, []);
    case Stamped =>
      es := [Finish(t)];
      assert es[1..] == [];
    case Ready =>
      es := [];
  }

  // ---------------------------------------------------------------- what the sweep discards

  /** The ids whose entries pass the sweep's time test at `now`, as it is written. */
  ghost function Passing(s: State, now: int): set<Id> {
    set id | id in s.elems && s.elems[id].expires > now
  }

  ghost predicate Expired(s: State, id: Id, now: int)
    requires id in s.elems
  {
    s.elems[id].expires <= now
  }

  /** The sweep discards the expired entries, as its comment says. */
  ghost predicate DiscardsExpired(s: State, now: int) {
    forall id :: id in s.elems ==> (id !in Next(s, Gc(Passing(s, now))).elems <==> Expired(s, id, now))
  }

  /** The sweep discards the finished requests whose entries have expired. */
  ghost predicate DiscardsExpiredFinished(s: State, now: int) {
    forall id :: id in s.elems ==>
      (id !in Next(s, Gc(Passing(s, now))).elems <==> Expired(s, id, now) && IsReady(s, id))
  }

  /**
    The sweep does what its comment says exactly when there is nothing to discard: no entry has
    expired and none is finished. If only finished requests are to be discarded when they expire, it
    is right exactly when no entry is finished.
  */
  lemma SweepIsRightIff(s: State, now: int)
    ensures DiscardsExpired(s, now) <==> forall id :: id in s.elems ==> !Expired(s, id, now) && !IsReady(s, id)
    ensures DiscardsExpiredFinished(s, now) <==> forall id :: id in s.elems ==> !IsReady(s, id)
    ensures DiscardsExpired(s, now) ==> Next(s, Gc(Passing(s, now))) == s
  {
    var s' := Next(s, Gc(Passing(s, now)));
    forall id | id in s.elems
      ensures id !in s'.elems <==> !Expired(s, id, now) && IsReady(s, id)
    {
    }
    if DiscardsExpired(s, now) {
      assert s'.elems == s.elems;
    }
  }

  /** Every sweep of the run tests against the time it happens at, and time does not go back. */
  ghost predicate Timed(es: seq<Event>, times: seq<int>)
    requires ValidRun(Initial, es)
  {
    && |times| == |es|
    && (forall i, j :: 0 <= i <= j < |times| ==> times[i] <= times[j])
    && forall i :: 0 <= i < |es| && es[i].Gc? ==> es[i].passed == Passing(StateAt(Initial, es, i), times[i])
  }

  ghost predicate HeldExpired(s: State, t: nat, now: int) {
    Holds(s, t) && s.tasks[t].phase == Ready && Expired(s, s.tasks[t].id, now)
  }

  /** What has finished and expired stays so: nothing stamps it again, and no later sweep takes it. */
  lemma HeldExpiredStep(s: State, e: Event, t: nat, now: int)
    requires Inv(s) && Enabled(s, e) && HeldExpired(s, t, now)
    requires e.Gc? ==> s.tasks[t].id !in e.passed
    ensures HeldExpired(Next(s, e), t, now) || (e == Poll(s.tasks[t].id) && Delivered(s, e) == Some(t))
  {
    if e.Housekeep? { assert Holds(s, e.task); }
  }

  /** Over a whole run, a finished request whose entry has expired is never swept: only a poll ends it. */
  lemma {:induction false} ExpiredIsNeverSwept(es: seq<Event>, times: seq<int>, i: nat, j: nat, t: nat)
    requires ValidRun(Initial, es) && Timed(es, times) && i <= j < |es|
    requires HeldExpired(StateAt(Initial, es, i), t, times[i])
    ensures !Collected(StateAt(Initial, es, j), es[j], t)
    ensures HeldExpired(StateAt(Initial, es, j), t, times[i])
            || exists k :: i <= k < j && Delivered(StateAt(Initial, es, k), es[k]) == Some(t)
    decreases j
  {
    if i < j {
      ExpiredIsNeverSwept(es, times, i, j - 1, t);
      var s := StateAt(Initial, es, j - 1);
      StateAtStep(Initial, es, j - 1);
      InvAt(es, j - 1);
      if HeldExpired(s, t, times[i]) {
        HeldExpiredStep(s, es[j - 1], t, times[i]);
      }
    }
    NotSweptNow(es, times, i, j, t);
  }

  lemma NotSweptNow(es: seq<Event>, times: seq<int>, i: nat, j: nat, t: nat)
    requires ValidRun(Initial, es) && Timed(es, times) && i <= j < |es|
    requires t < |StateAt(Initial, es, i).tasks|
    requires HeldExpired(StateAt(Initial, es, j), t, times[i])
             || exists k :: i <= k < j && Delivered(StateAt(Initial, es, k), es[k]) == Some(t)
    ensures !Collected(StateAt(Initial, es, j), es[j], t)
  {
    if !HeldExpired(StateAt(Initial, es, j), t, times[i]) {
      var k :| i <= k < j && Delivered(StateAt(Initial, es, k), es[k]) == Some(t);
      InvAt(es, k);
      StateAtStep(Initial, es, k);
      TakenAtMostOnce(es, k, j, t);
    }
  }
}
