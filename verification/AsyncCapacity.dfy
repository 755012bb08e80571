/** How full the asynchronous store gets, and how long an id stays out of circulation. */
module AsyncCapacity {
  import opened FreeId
  import opened AsyncSystem

  // ---------------------------------------------------------------- room for the admitted launchers

  ghost predicate NoSizeTests(es: seq<Event>) {
    forall i :: 0 <= i < |es| ==> !es[i].LaunchCheck?
  }

  /** Whatever happens before the next size test, the store stays within its limit. */
  ghost predicate StaysWithin(s: State) {
    forall es :: ValidRun(s, es) && NoSizeTests(es) ==> |Run(s, es).elems| <= MAX_ENTRIES
  }

  /** Whatever happens before the next size test, an id is left for every admitted launcher. */
  ghost predicate SearchesEnd(s: State) {
    forall es :: ValidRun(s, es) && NoSizeTests(es) && Run(s, es).admitted > 0 ==> |Run(s, es).elems| < IDS
  }

  /** Entries stored, and entries that admitted launchers may still store. */
  function Claims(s: State): nat {
    |s.elems| + s.admitted
  }

  lemma InsertAddsOne(s: State, value: string)
    requires Enabled(s, LaunchInsert(value))
    ensures |Next(s, LaunchInsert(value)).elems| == |s.elems| + 1
    ensures Next(s, LaunchInsert(value)).admitted == s.admitted - 1
  {
    var s' := Next(s, LaunchInsert(value));
    assert s'.elems.Keys == s.elems.Keys + {s'.last};
    assert |s'.elems.Keys| == |s.elems.Keys| + 1;
  }

  /** Only a size test adds a claim. */
  lemma ClaimsStep(s: State, e: Event)
    requires Inv(s) && Enabled(s, e) && !e.LaunchCheck?
    ensures Claims(Next(s, e)) <= Claims(s)
  {
    var s' := Next(s, e);
    match e
    case LaunchInsert(value) =>
      InsertAddsOne(s, value);
    case Housekeep(t, _) =>
      assert Holds(s, t);
      assert s'.elems.Keys == s.elems.Keys;
      assert |s'.elems.Keys| == |s.elems.Keys|;
    case Finish(_) =>
    case Poll(_) =>
      SubsetSize(s'.elems.Keys, s.elems.Keys);
    case Gc(_) =>
      SubsetSize(s'.elems.Keys, s.elems.Keys);
  }

  lemma {:induction false} ClaimsRun(s: State, es: seq<Event>)
    requires Inv(s) && ValidRun(s, es) && NoSizeTests(es)
    ensures Claims(Run(s, es)) <= Claims(s)
    decreases |es|
  {
    if es != [] {
      ClaimsStep(s, es[0]);
      NextKeepsInv(s, es[0]);
      ClaimsRun(Next(s, es[0]), es[1..]);
    }
  }

  lemma RunCons(s: State, e: Event, es: seq<Event>)
    requires Enabled(s, e) && ValidRun(Next(s, e), es)
    ensures ValidRun(s, [e] + es) && Run(s, [e] + es) == Run(Next(s, e), es)
  {
    assert ([e] + es)[1..] == es;
  }

  /** Admitted launchers insert one after the other, so long as there are ids. */
  lemma {:induction false} Inserts(s: State, n: nat) returns (es: seq<Event>)
    requires n <= s.admitted && |s.elems| + n <= IDS
    ensures ValidRun(s, es) && NoSizeTests(es)
    ensures |Run(s, es).elems| == |s.elems| + n && Run(s, es).admitted == s.admitted - n
    decreases n
  {
    if n == 0 {
      es := [];
    } else {
      InsertAddsOne(s, "");
      var rest := Inserts(Next(s, LaunchInsert("")), n - 1);
      RunCons(s, LaunchInsert(""), rest);
      es := [LaunchInsert("")] + rest;
    }
  }

  /**
    When the limit holds: the store stays within 2^32 - 1 entries until the next size test exactly
    when entries and admitted launchers together do not exceed that number.
  */
  lemma StaysWithinIff(s: State)
    requires Inv(s)
    ensures StaysWithin(s) <==> Claims(s) <= MAX_ENTRIES
  {
    if Claims(s) <= MAX_ENTRIES {
      forall es | ValidRun(s, es) && NoSizeTests(es)
        ensures |Run(s, es).elems| <= MAX_ENTRIES
      {
        ClaimsRun(s, es);
      }
    } else {
      Pigeonhole(s.elems.Keys);
      assert |s.elems.Keys| == |s.elems|;
      var es := Inserts(s, IDS - |s.elems|);
      assert |Run(s, es).elems| > MAX_ENTRIES;
    }
  }

  /** When the search ends: exactly when there are as many ids as entries and admitted launchers. */
  lemma SearchesEndIff(s: State)
    requires Inv(s)
    ensures SearchesEnd(s) <==> Claims(s) <= IDS
  {
    if Claims(s) <= IDS {
      forall es | ValidRun(s, es) && NoSizeTests(es) && Run(s, es).admitted > 0
        ensures |Run(s, es).elems| < IDS
      {
        ClaimsRun(s, es);
      }
    } else {
      Pigeonhole(s.elems.Keys);
      assert |s.elems.Keys| == |s.elems|;
      var es := Inserts(s, IDS - |s.elems|);
      assert Run(s, es).admitted > 0;
    }
  }

  /** Launchers that are admitted and have not inserted leave no room for another one. */
  predicate OverlapsAtLimit(s: State) {
    s.admitted > 0 && Claims(s) == MAX_ENTRIES
  }

  /** A size test gives the limit away exactly when it overlaps launchers that will reach it. */
  lemma SizeTestIff(s: State)
    requires Inv(s) && StaysWithin(s)
    ensures StaysWithin(Next(s, LaunchCheck)) <==> !OverlapsAtLimit(s)
  {
    NextKeepsInv(s, LaunchCheck);
    StaysWithinIff(s);
    StaysWithinIff(Next(s, LaunchCheck));
  }

  ghost predicate NoTestOverlapsAtLimit(es: seq<Event>, n: nat)
    requires ValidRun(Initial, es) && n <= |es|
  {
    forall i :: 0 <= i < n && es[i].LaunchCheck? ==> !OverlapsAtLimit(StateAt(Initial, es, i))
  }

  ghost predicate RoomUpTo(es: seq<Event>, n: nat)
    requires ValidRun(Initial, es) && n <= |es|
  {
    forall i :: 0 <= i <= n ==> Claims(StateAt(Initial, es, i)) <= MAX_ENTRIES
  }

  lemma RoomStep(s: State, e: Event)
    requires Inv(s) && Enabled(s, e) && Claims(s) <= MAX_ENTRIES
    ensures Claims(Next(s, e)) <= MAX_ENTRIES <==> !(e.LaunchCheck? && OverlapsAtLimit(s))
  {
    if !e.LaunchCheck? { ClaimsStep(s, e); }
  }

  lemma {:induction false} RunHasRoomIff(es: seq<Event>, n: nat)
    requires ValidRun(Initial, es) && n <= |es|
    ensures RoomUpTo(es, n) <==> NoTestOverlapsAtLimit(es, n)
  {
    if n == 0 {
      assert es[..0] == [];
    } else {
      RunHasRoomIff(es, n - 1);
      InvAt(es, n - 1);
      StateAtStep(Initial, es, n - 1);
      if RoomUpTo(es, n - 1) {
        RoomStep(StateAt(Initial, es, n - 1), es[n - 1]);
      }
    }
  }

  /**
    Over a whole run, with any number of overlapping launches: the limit is never given away exactly
    when no size test overlaps launchers that will reach it.
  */
  lemma RunStaysWithinIff(es: seq<Event>, n: nat)
    requires ValidRun(Initial, es) && n <= |es|
    ensures (forall i :: 0 <= i <= n ==> StaysWithin(StateAt(Initial, es, i))) <==> NoTestOverlapsAtLimit(es, n)
  {
    RunHasRoomIff(es, n);
    forall i | 0 <= i <= n
      ensures StaysWithin(StateAt(Initial, es, i)) <==> Claims(StateAt(Initial, es, i)) <= MAX_ENTRIES
    {
      InvAt(es, i);
      StaysWithinIff(StateAt(Initial, es, i));
    }
  }

  // ---------------------------------------------------------------- serialised launches

  /** At most one launcher at a time is between its size test and its insertion. */
  ghost predicate Serialised(es: seq<Event>)
    requires ValidRun(Initial, es)
  {
    forall i :: 0 <= i <= |es| ==> StateAt(Initial, es, i).admitted <= 1
  }

  /**
    When launches are serialised no size test overlaps another launcher that is let in, so the store
    never exceeds 2^32 - 1 entries and the id search of an admitted launcher always ends.
  */
  lemma SerialisedLaunchesFit(es: seq<Event>)
    requires ValidRun(Initial, es) && Serialised(es)
    ensures |Run(Initial, es).elems| <= MAX_ENTRIES
    ensures forall value :: Run(Initial, es).admitted > 0 ==> Enabled(Run(Initial, es), LaunchInsert(value))
  {
    forall i | 0 <= i < |es| && es[i].LaunchCheck?
      ensures !OverlapsAtLimit(StateAt(Initial, es, i))
    {
      StateAtStep(Initial, es, i);
      assert StateAt(Initial, es, i + 1).admitted <= 1;
    }
    RunStaysWithinIff(es, |es|);
    assert es[..|es|] == es;
    RunKeepsInv(Initial, es);
    StaysWithinIff(StateAt(Initial, es, |es|));
  }

  // ---------------------------------------------------------------- overlapping launches

  lemma {:induction false} RunThatFills(n: nat) returns (es: seq<Event>)
    requires n <= MAX_ENTRIES
    ensures ValidRun(Initial, es) && |Run(Initial, es).elems| == n && Run(Initial, es).admitted == 0
  {
    if n == 0 {
      es := [];
    } else {
      var before := RunThatFills(n - 1);
      var s := Run(Initial, before);
      var launch := Inserts(Next(s, LaunchCheck), 1);
      RunCons(s, LaunchCheck, launch);
      RunAppend(Initial, before, [LaunchCheck] + launch);
      es := before + ([LaunchCheck] + launch);
    }
  }

  /**
    What happens otherwise: two launchers that both pass the size test at 2^32 - 2 entries take every
    id, after which the size test lets a third launcher through (the size is past the only value it
    refuses) whose id search never ends.
  */
  lemma OverlappingLaunchesOverfill() returns (es: seq<Event>)
    ensures ValidRun(Initial, es)
    ensures |Run(Initial, es).elems| == IDS && Run(Initial, es).admitted == 0
    ensures forall x: Id :: x in Run(Initial, es).elems
    ensures Next(Run(Initial, es), LaunchCheck).admitted == 1
    ensures forall value :: !Enabled(Next(Run(Initial, es), LaunchCheck), LaunchInsert(value))
    ensures SearchesEnd(Run(Initial, es)) && !SearchesEnd(Next(Run(Initial, es), LaunchCheck))
  {
    var before := RunThatFills(MAX_ENTRIES - 1);
    var s := Run(Initial, before);
    var s1 := Next(s, LaunchCheck);
    var s2 := Next(s1, LaunchCheck);
    var late := Inserts(s2, 2);
    RunCons(s1, LaunchCheck, late);
    RunCons(s, LaunchCheck, [LaunchCheck] + late);
    RunAppend(Initial, before, [LaunchCheck] + ([LaunchCheck] + late));
    es := before + ([LaunchCheck] + ([LaunchCheck] + late));
    EveryIdUsed(es);
  }

  lemma EveryIdUsed(es: seq<Event>)
    requires ValidRun(Initial, es) && |Run(Initial, es).elems| == IDS && Run(Initial, es).admitted == 0
    ensures forall x: Id :: x in Run(Initial, es).elems
    ensures SearchesEnd(Run(Initial, es)) && !SearchesEnd(Next(Run(Initial, es), LaunchCheck))
  {
    var s := Run(Initial, es);
    Pigeonhole(s.elems.Keys);
    assert |s.elems.Keys| == |s.elems|;
    RunKeepsInv(Initial, es);
    NextKeepsInv(s, LaunchCheck);
    SearchesEndIff(s);
    SearchesEndIff(Next(s, LaunchCheck));
  }

  // ---------------------------------------------------------------- reuse of ids

  /** At event `k` the id `y` was given out, or the search found it in use and went past it. */
  ghost predicate VisitedAt(es: seq<Event>, k: nat, y: Id)
    requires ValidRun(Initial, es) && k < |es|
  {
    var s := StateAt(Initial, es, k);
    && es[k].LaunchInsert? && Enabled(s, es[k])
    && (Issues(s, es[k], y) || (y in s.elems && SteppedOver(s.last, NextFree(s.last, s.elems.Keys), y)))
  }

  lemma {:induction false} SearchPasses(es: seq<Event>, i: nat, j: nat, x: Id, y: Id) returns (k: nat)
    requires ValidRun(Initial, es) && i <= j < |es|
    requires Issues(StateAt(Initial, es, j), es[j], x)
    requires Gap(StateAt(Initial, es, i).last, y) < Gap(StateAt(Initial, es, i).last, x)
    ensures i <= k <= j && VisitedAt(es, k, y)
    decreases j - i
  {
    var s := StateAt(Initial, es, i);
    StateAtStep(Initial, es, i);
    var z := Next(s, es[i]).last;
    if es[i].LaunchInsert? && Gap(s.last, y) <= Gap(s.last, z) {
      if y != z { SteppedOverIsUsed(s.last, s.elems.Keys, y); }
      k := i;
    } else {
      k := SearchPasses(es, i + 1, j, x, y);
    }
  }

  /**
    Between two launches that are given the same id, every other id was either given out or found
    in use by a search that went past it.
  */
  lemma ReissuedOnlyAfterFullLap(es: seq<Event>, i: nat, j: nat, x: Id, y: Id) returns (k: nat)
    requires ValidRun(Initial, es) && i < j < |es| && x != y
    requires Issues(StateAt(Initial, es, i), es[i], x) && Issues(StateAt(Initial, es, j), es[j], x)
    ensures i < k <= j && VisitedAt(es, k, y)
  {
    StateAtStep(Initial, es, i);
    k := SearchPasses(es, i + 1, j, x, y);
  }
}
