/** The asynchronous request store itself; every method is one event of AsyncSystem. */
module AsyncStores {
  import opened Options
  import opened Words
  import opened FreeId
  import opened AsyncSystem

  class AsyncStore {
    var elems: map<Id, Entry>
    var lastId: Id
    var tasks: seq<Task>  // the shared states of the std::async calls made so far
    var admitted: nat     // launchers between their size test and their insertion
    const defaultExpire: int := 120

    ghost function View(): State
      reads this
    {
      State(elems, lastId, tasks, admitted)
    }

    constructor ()
      ensures View() == Initial
    {
      elems, lastId, tasks, admitted := map[], IDS - 1, [], 0;
    }

    /** Searches for a key that is not in use. The store must not be full. */
    method GetFreeId() returns (id: Id)
      requires |elems| < IDS
      ensures id == NextFree(lastId, elems.Keys)
    {
      ghost var stop := Distance(lastId, elems.Keys);
      ghost var d := 1;
      id := Wrap(lastId + 1);
      while id in elems
        invariant 1 <= d <= stop && id == Advance(lastId, d)
        decreases stop - d
      {
        AdvanceOnce(lastId, d);
        id := Wrap(id + 1);
        d := d + 1;
      }
      DistanceUnique(lastId, elems.Keys, d);
    }

    /** The size test of a launch, made before the mutex is taken. */
    method Admit() returns (ok: bool)
      modifies this`admitted
      ensures View() == Next(old(View()), LaunchCheck)
      ensures ok <==> admitted == old(admitted) + 1
    {
      ok := |elems| != MAX_ENTRIES;
      if ok { admitted := admitted + 1; }
    }

    /** The part of a launch that holds the mutex. */
    method InsertTask(value: string) returns (id: Id)
      requires Enabled(View(), LaunchInsert(value))
      modifies this
      ensures View() == Next(old(View()), LaunchInsert(value))
      ensures id == lastId
    {
      id := GetFreeId();
      lastId := id;
      elems := elems[id := Entry(INIT_EXPIRE, None)];
      elems := elems[id := elems[id].(fut := Some(|tasks|))];
      tasks := tasks + [Task(id, value, Running)];
      admitted := admitted - 1;
    }

    /** A whole launch that no other launcher overlaps. */
    method Launch(value: string) returns (r: Option<Id>)
      requires Inv(View()) && |elems| <= MAX_ENTRIES
      modifies this
      ensures r.None? <==> old(|elems|) == MAX_ENTRIES
      ensures r.None? ==> View() == old(View())
      ensures r.Some? ==> && r.value !in old(elems)
                          && View() == Next(Next(old(View()), LaunchCheck), LaunchInsert(value))
                          && r.value == lastId && PollResult(View(), r.value) == (InProgress, "")
      ensures Inv(View())
    {
      NextKeepsInv(View(), LaunchCheck);
      var ok := Admit();
      if !ok { return None; }
      NextKeepsInv(View(), LaunchInsert(value));
      var id := InsertTask(value);
      return Some(id);
    }

    /** The locked end of a worker's closure. */
    method Housekeeping(t: nat, now: int, expireOpt: Option<int>)
      requires Inv(View()) && t < |tasks| && tasks[t].phase == Running
      modifies this`elems, this`tasks
      ensures View() == Next(old(View()), Housekeep(t, now + if expireOpt.Some? then expireOpt.value else 120))
      ensures elems.Keys == old(elems.Keys) && Inv(View())
    {
      assert Holds(View(), t);
      NextKeepsInv(View(), Housekeep(t, now + if expireOpt.Some? then expireOpt.value else defaultExpire));
      var id := tasks[t].id;
      elems := elems[id := Subscript(elems, id).(expires := now + if expireOpt.Some? then expireOpt.value else defaultExpire)];
      tasks := tasks[t := tasks[t].(phase := Stamped)];
    }

    /** The closure of worker `t` has returned: its future becomes ready. */
    method CompleteFuture(t: nat)
      requires Inv(View()) && t < |tasks| && tasks[t].phase == Stamped
      modifies this`tasks
      ensures View() == Next(old(View()), Finish(t)) && Inv(View())
    {
      NextKeepsInv(View(), Finish(t));
      tasks := tasks[t := tasks[t].(phase := Ready)];
    }

    method ValueIfReady(id: Id) returns (status: TaskStatus, value: string)
      requires Inv(View())
      modifies this`elems
      ensures (status, value) == PollResult(old(View()), id)
      ensures View() == Next(old(View()), Poll(id)) && Inv(View())
    {
      NextKeepsInv(View(), Poll(id));
      if id !in elems {
        return NonExistent, "";
      }
      var fut := elems[id].fut.value;
      if tasks[fut].phase != Ready {
        return InProgress, "";
      }
      elems := elems - {id};
      return Finished, tasks[fut].value;
    }

    /** Visits every entry once, in any order, and erases as it goes. */
    method Collect(now: int)
      requires Inv(View())
      modifies this`elems
      ensures View() == Next(old(View()), Gc(Passing(old(View()), now))) && Inv(View())
    {
      ghost var before := View();
      NextKeepsInv(before, Gc(Passing(before, now)));
      var todo := elems.Keys;
      while todo != {}
        invariant todo <= elems.Keys <= before.elems.Keys
        invariant forall id :: id in elems ==> elems[id] == before.elems[id]
        invariant forall id :: id in before.elems && id !in todo ==>
                    (id in elems <==> !(before.elems[id].expires > now && IsReady(before, id)))
        decreases todo
      {
        var id :| id in todo;
        if elems[id].expires > now && tasks[elems[id].fut.value].phase == Ready {
          elems := elems - {id};
        }
        todo := todo - {id};
      }
      assert elems == Next(before, Gc(Passing(before, now))).elems;
    }
  }
}
