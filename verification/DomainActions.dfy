/** The actions of a PATCH request on a domain, and what a batch of them adds to the response. */
module DomainActions {
  import opened Options
  import opened Json
  import opened Depends
  import opened Bits
  import opened EnumSets
  import opened JsonParams

  // ---------------------------------------------------------------- the domain

  datatype DomState = NOSTATE | RUNNING | BLOCKED | PAUSED | SHUTDOWN | SHUTOFF | CRASHED | PMSUSPENDED

  datatype Mutator =
    | Power(verb: string, flags: Option<nat>)
    | Rename(name: string)
    | SetMemory(kib: int)
    | SetMaxMemory(kib: int)
    | SetAutoStart(on: bool)
    | SendSignal(pid: int, signal: int)
    | SendKey(codeset: int, holdtime: int, keys: seq<int>)

  // One libvirt call and what it returned.
  datatype Call = Info(state: DomState) | Active(active: bool) | Mutation(m: Mutator, ok: bool)

  // What libvirt would answer to the call with a given number: nothing is assumed about it.
  datatype Reply = Reply(state: DomState, active: bool, ok: bool)

  datatype World = World(env: nat -> Reply, log: seq<Call>)

  function Called(w: World, c: Call): World {
    w.(log := w.log + [c])
  }

  function Answer(w: World): Reply {
    w.env(|w.log|)
  }

  class Domain {
    const env: nat -> Reply
    var log: seq<Call>

    ghost function View(): World
      reads this
    {
      World(env, log)
    }

    constructor (env: nat -> Reply)
      ensures View() == World(env, [])
    {
      this.env, this.log := env, [];
    }

    method GetInfo() returns (state: DomState)
      modifies this
      ensures state == Answer(old(View())).state && View() == Called(old(View()), Info(state))
    {
      state := env(|log|).state;
      log := log + [Info(state)];
    }

    method IsActive() returns (active: bool)
      modifies this
      ensures active == Answer(old(View())).active && View() == Called(old(View()), Active(active))
    {
      active := env(|log|).active;
      log := log + [Active(active)];
    }

    method Mutate(m: Mutator) returns (ok: bool)
      modifies this
      ensures ok == Answer(old(View())).ok && View() == Called(old(View()), Mutation(m, ok))
    {
      ok := env(|log|).ok;
      log := log + [Mutation(m, ok)];
    }
  }

  // ---------------------------------------------------------------- flags

  /** The flags of the entries of a list, unless one of them is unknown. */
  function ListedFlags(names: seq<string>, items: seq<Json>): (r: Option<seq<nat>>)
    requires forall i :: 0 <= i < |items| ==> items[i].Str?
    ensures r.Some? <==> forall i :: 0 <= i < |items| ==> items[i].s in names
    ensures r.Some? ==> |r.value| == |items|
                        && forall i :: 0 <= i < |items| ==> FromString(names, items[i].s) == Some(r.value[i])
  {
    if items == [] then Some([])
    else
      var n := |items| - 1;
      var init := ListedFlags(names, items[..n]);
      var last := FromString(names, items[n].s);
      assert items[n].s in names <==> last.Some?;
      assert forall i :: 0 <= i < n ==> items[..n][i] == items[i];
      if init.Some? && last.Some? then Some(init.value + [last.value]) else None
  }

  /**
    A list of names, one name, or anything else, which stands for no flag. A list of flags that do not
    combine may hold one name at most.
  */
  function CombinedFlags(names: seq<string>, combine: bool, j: Json): Option<nat>
    requires FlagsWellTyped(j)
  {
    match j
    case Arr(items) =>
      var fs := ListedFlags(names, items);
      if fs.Some? && (combine || |items| <= 1) then Some(OrAll(fs.value)) else None
    case Str(s) => FromString(names, s)
    case _ => Some(0)
  }

  // Reading the text of a value that is not a string is not defined.
  predicate FlagsWellTyped(j: Json) {
    j.Arr? ==> forall i :: 0 <= i < |j.items| ==> j.items[i].Str?
  }

  method CombineListed(names: seq<string>, items: seq<Json>, res: JsonRes) returns (flags: Option<nat>)
    requires forall i :: 0 <= i < |items| ==> items[i].Str?
    modifies res`success, res`errors
    ensures flags == CombinedFlags(names, true, Arr(items))
    ensures res.View() == if flags.None? then WithError(old(res.View()), 301) else old(res.View())
  {
    var flagset := 0;
    ghost var fs := [];
    for i := 0 to |items|
      invariant res.View() == old(res.View())
      invariant ListedFlags(names, items[..i]) == Some(fs) && flagset == OrAll(fs)
    {
      assert items[..i + 1][..i] == items[..i];
      var v := FromString(names, items[i].s);
      if v.None? {
        assert items[i].s !in names;
        res.Error(301);
        return None;
      }
      assert (fs + [v.value])[..|fs|] == fs;
      fs := fs + [v.value];
      flagset := BitOr(flagset, v.value);
    }
    assert items[..|items|] == items;
    return Some(flagset);
  }

  /** A list of flags that do not combine: none, or the first and only one. */
  method SingleListed(names: seq<string>, items: seq<Json>, res: JsonRes) returns (flags: Option<nat>)
    requires forall i :: 0 <= i < |items| ==> items[i].Str?
    modifies res`success, res`errors
    ensures flags == CombinedFlags(names, false, Arr(items))
    ensures res.View() == if flags.None? then WithError(old(res.View()), 301) else old(res.View())
  {
    if |items| > 1 {
      res.Error(301);
      return None;
    }
    if items == [] {
      return Some(0);
    }
    flags := FromString(names, items[0].s);
    OneListed(names, items);
    if flags.None? { res.Error(301); }
  }

  lemma OneListed(names: seq<string>, items: seq<Json>)
    requires |items| == 1 && items[0].Str?
    ensures CombinedFlags(names, false, Arr(items)) == FromString(names, items[0].s)
  {
    var fs := ListedFlags(names, items);
    if fs.Some? {
      assert FromString(names, items[0].s) == Some(fs.value[0]);
      OrAllOfOne(fs.value);
    }
  }

  lemma OrAllOfOne(fs: seq<nat>)
    requires |fs| == 1
    ensures OrAll(fs) == fs[0]
  {
    assert fs[..0] == [];
    forall i: nat
      ensures Bit(OrAll(fs), i) <==> Bit(fs[0], i)
    {
      OrBits(0, fs[0], i);
      ZeroHasNoBits(i);
    }
    SameBitsEqual(OrAll(fs), fs[0]);
  }

  method GetCombinedFlags(names: seq<string>, combine: bool, j: Json, res: JsonRes) returns (flags: Option<nat>)
    requires FlagsWellTyped(j)
    modifies res`success, res`errors
    ensures flags == CombinedFlags(names, combine, j)
    ensures res.View() == if flags.None? then WithError(old(res.View()), 301) else old(res.View())
  {
    if j.Arr? {
      if combine {
        flags := CombineListed(names, j.items, res);
      } else {
        flags := SingleListed(names, j.items, res);
      }
    } else if j.Str? {
      flags := FromString(names, j.s);
      if flags.None? { res.Error(301); }
    } else {
      flags := Some(0);
    }
  }

  // ---------------------------------------------------------------- power management

  datatype Prereq = MustRun | MustBePaused | MustBeActive | MustBeInactive

  // `flags` is the table of flag names, for the verbs that take flags; all of these combine.
  datatype PowerAction = PowerAction(tag: string, flags: Option<seq<string>>, errc: int, msg: string, prereq: Prereq)

  const SHUTDOWN_FLAGS: seq<string> := ["acpi_power_btn", "guest_agent", "initctl", "signal", "paravirt"]
  const DESTROY_FLAGS: seq<string> := ["graceful"]
  const CREATE_FLAGS: seq<string> := ["paused", "autodestroy", "bypass_cache", "force_boot", "validate"]

  const POWER: seq<PowerAction> := [
    PowerAction("shutdown", Some(SHUTDOWN_FLAGS), 200, "Domain is being shutdown", MustRun),
    PowerAction("destroy", Some(DESTROY_FLAGS), 209, "Domain destroyed", MustBeActive),
    PowerAction("start", Some(CREATE_FLAGS), 202, "Domain started", MustBeInactive),
    PowerAction("reboot", Some(SHUTDOWN_FLAGS), 213, "Domain is being rebooted", MustRun),
    PowerAction("reset", None, 214, "Domain was reset", MustBeActive),
    PowerAction("suspend", None, 215, "Domain suspended", MustRun),
    PowerAction("resume", None, 212, "Domain resumed", MustBePaused)
  ]

  /** A C string ends at its first NUL. */
  function CString(s: string): (t: string)
    ensures t <= s && '\0' !in t && (|t| < |s| ==> s[|t|] == '\0')
  {
    if s == "" || s[0] == '\0' then "" else [s[0]] + CString(s[1..])
  }

  /** The requested verb and flags, if the value names a request at all. */
  function Request(val: Json): Option<(string, Option<Json>)>
    requires PowerWellTyped(val)
  {
    match val
    case Str(s) => Some((CString(s), None))
    case Obj(_) =>
      (match val.FindMember("request")
       case None => None
       case Some(req) => Some((CString(req.s), val.FindMember("type"))))
    case _ => None
  }

  // The request has to be a string, and listed flags too.
  predicate PowerWellTyped(val: Json) {
    val.Obj? && val.FindMember("request").Some? ==>
      val.FindMember("request").value.Str?
      && (val.FindMember("type").Some? ==> FlagsWellTyped(val.FindMember("type").value))
  }

  type Effect = (Response, World, DependsOutcome)

  function Fail(r: Response, w: World, code: int): Effect {
    (WithError(r, code), w, FAILURE)
  }

  /** The world after the prerequisite has been looked up, and the error code if it does not hold. */
  function Prerequisite(w: World, p: Prereq, state: DomState): (World, Option<int>) {
    match p
    case MustRun => (w, if state != RUNNING then Some(201) else None)
    case MustBePaused => (w, if state != PAUSED then Some(211) else None)
    case MustBeActive => (Called(w, Active(Answer(w).active)), if !Answer(w).active then Some(210) else None)
    case MustBeInactive => (Called(w, Active(Answer(w).active)), if Answer(w).active then Some(203) else None)
  }

  function PowerCall(r: Response, w: World, a: PowerAction, flags: Option<nat>): Effect {
    var ok := Answer(w).ok;
    var w' := Called(w, Mutation(Power(a.tag, flags), ok));
    if ok then (r.(messages := r.messages + [Obj([(a.tag, Str(a.msg))])]), w', SUCCESS) else Fail(r, w', a.errc)
  }

  function PowerAct(r: Response, w: World, a: PowerAction, state: DomState, flag: Option<Json>): Effect
    requires flag.Some? ==> FlagsWellTyped(flag.value)
  {
    var (w', err) := Prerequisite(w, a.prereq, state);
    if err.Some? then Fail(r, w', err.value)
    else if flag.None? then PowerCall(r, w', a, None)
    else if a.flags.None? then Fail(r, w', 301)
    else
      var flags := CombinedFlags(a.flags.value, true, flag.value);
      if flags.None? then Fail(r, w', 301) else PowerCall(r, w', a, flags)
  }

  function FindPower(table: seq<PowerAction>, tag: string): (a: Option<PowerAction>)
    ensures a.Some? ==> a.value in table && a.value.tag == tag
    ensures a.None? ==> forall b :: b in table ==> b.tag != tag
  {
    if table == [] then None
    else if table[0].tag == tag then Some(table[0])
    else FindPower(table[1..], tag)
  }

  /** The first action of the table whose tag is requested decides. */
  function PowerScope(table: seq<PowerAction>, r: Response, w: World, req: string, flag: Option<Json>, state: DomState): Effect
    requires flag.Some? ==> FlagsWellTyped(flag.value)
  {
    match FindPower(table, req)
    case None => Fail(r, w, 300)
    case Some(a) => PowerAct(r, w, a, state, flag)
  }

  function PowerMgt(r: Response, w: World, val: Json): Effect
    requires PowerWellTyped(val)
  {
    match Request(val)
    case None => Fail(r, w, 300)
    case Some((req, flag)) =>
      var state := Answer(w).state;
      PowerScope(POWER, r, Called(w, Info(state)), req, flag, state)
  }

  /** The prerequisite of a power action, which reports the error itself. */
  method CheckPrerequisite(p: Prereq, state: DomState, res: JsonRes, dom: Domain) returns (ok: bool)
    modifies res`success, res`errors, dom
    ensures dom.View() == Prerequisite(old(dom.View()), p, state).0
    ensures var err := Prerequisite(old(dom.View()), p, state).1;
            (ok <==> err.None?) && res.View() == if ok then old(res.View()) else WithError(old(res.View()), err.value)
  {
    ok := true;
    match p {
      case MustRun =>
        if state != RUNNING { res.Error(201); ok := false; }
      case MustBePaused =>
        if state != PAUSED { res.Error(211); ok := false; }
      case MustBeActive =>
        var active := dom.IsActive();
        if !active { res.Error(210); ok := false; }
      case MustBeInactive =>
        var active := dom.IsActive();
        if active { res.Error(203); ok := false; }
    }
  }

  /** The call itself, with its error or its message. */
  method CallPower(a: PowerAction, flags: Option<nat>, res: JsonRes, dom: Domain) returns (o: DependsOutcome)
    modifies res, dom
    ensures (res.View(), dom.View(), o) == PowerCall(old(res.View()), old(dom.View()), a, flags)
  {
    var ok := dom.Mutate(Power(a.tag, flags));
    if !ok {
      res.Error(a.errc);
      return FAILURE;
    }
    res.Message(Obj([(a.tag, Str(a.msg))]));
    return SUCCESS;
  }

  /** One closure of the power table: skips unless the request is its own. */
  method RunPowerAction(a: PowerAction, req: string, flag: Option<Json>, state: DomState, res: JsonRes, dom: Domain) returns (o: DependsOutcome)
    requires flag.Some? ==> FlagsWellTyped(flag.value)
    modifies res, dom
    ensures req != a.tag ==> o == SKIPPED && res.View() == old(res.View()) && dom.View() == old(dom.View())
    ensures req == a.tag ==> (res.View(), dom.View(), o) == PowerAct(old(res.View()), old(dom.View()), a, state, flag)
  {
    if req != a.tag {
      return SKIPPED;
    }
    var holds := CheckPrerequisite(a.prereq, state, res, dom);
    if !holds {
      return FAILURE;
    }
    var flagset := None;
    if flag.Some? {
      if a.flags.None? {
        res.Error(301);
        return FAILURE;
      }
      flagset := GetCombinedFlags(a.flags.value, true, flag.value, res);
      if flagset.None? {
        return FAILURE;
      }
    }
    o := CallPower(a, flagset, res, dom);
  }

  /** Tries the closures in order until one does not skip; the last one reports a bad request. */
  method ActionScope(table: seq<PowerAction>, req: string, flag: Option<Json>, state: DomState, res: JsonRes, dom: Domain) returns (o: DependsOutcome)
    requires flag.Some? ==> FlagsWellTyped(flag.value)
    modifies res, dom
    ensures (res.View(), dom.View(), o) == PowerScope(table, old(res.View()), old(dom.View()), req, flag, state)
  {
    for i := 0 to |table|
      invariant res.View() == old(res.View()) && dom.View() == old(dom.View())
      invariant FindPower(table, req) == FindPower(table[i..], req)
    {
      assert table[i..][1..] == table[i + 1..];
      o := RunPowerAction(table[i], req, flag, state, res, dom);
      if o != SKIPPED {
        return;
      }
      PowerActDecides(old(res.View()), old(dom.View()), table[i], state, flag);
    }
    res.Error(300);
    return FAILURE;
  }

  lemma PowerActDecides(r: Response, w: World, a: PowerAction, state: DomState, flag: Option<Json>)
    requires flag.Some? ==> FlagsWellTyped(flag.value)
    ensures PowerAct(r, w, a, state, flag).2 != SKIPPED
  {
  }

  method PowerManagement(val: Json, res: JsonRes, dom: Domain) returns (o: DependsOutcome)
    requires PowerWellTyped(val)
    modifies res, dom
    ensures (res.View(), dom.View(), o) == PowerMgt(old(res.View()), old(dom.View()), val)
  {
    var req, flag := "", None;
    if val.Str? {
      req := CString(val.s);
    } else if val.Obj? {
      var itReq := val.FindMember("request");
      if itReq.None? {
        res.Error(300);
        return FAILURE;
      }
      flag := val.FindMember("type");
      req := CString(itReq.value.s);
    } else {
      res.Error(300);
      return FAILURE;
    }
    var state := dom.GetInfo();
    o := ActionScope(POWER, req, flag, state, res, dom);
  }

  // ---------------------------------------------------------------- the action table

  /** A handler that checks the type of its value and makes one call. */
  function Simple(r: Response, w: World, m: Option<Mutator>, errc: int): Effect {
    if m.None? then Fail(r, w, 0)
    else
      var w' := Called(w, Mutation(m.value, Answer(w).ok));
      if Answer(w).ok then (r, w', SUCCESS) else Fail(r, w', errc)
  }

  method SimpleAction(m: Option<Mutator>, errc: int, res: JsonRes, dom: Domain) returns (o: DependsOutcome)
    modifies res`success, res`errors, dom
    ensures (res.View(), dom.View(), o) == Simple(old(res.View()), old(dom.View()), m, errc)
  {
    if m.None? {
      res.Error(0);
      return FAILURE;
    }
    var ok := dom.Mutate(m.value);
    if !ok {
      res.Error(errc);
      return FAILURE;
    }
    return SUCCESS;
  }

  const KEYS: seq<string> := ["power_mgt", "name", "memory", "max_memory", "autostart", "send_signal", "send_keys"]

  function NameArg(val: Json): Option<Mutator> {
    if val.Str? then Some(Rename(CString(val.s))) else None
  }

  function MemoryArg(val: Json): Option<Mutator> {
    if val.IsInt() then Some(SetMemory(val.n)) else None
  }

  function MaxMemoryArg(val: Json): Option<Mutator> {
    if val.IsInt() then Some(SetMaxMemory(val.n)) else None
  }

  function AutoStartArg(val: Json): Option<Mutator> {
    if val.Bool? then Some(SetAutoStart(val.b)) else None
  }

  const SIGNALS: seq<string> :=
    ["nop", "hup", "int", "quit", "ill", "trap", "abrt", "bus", "fpe", "kill", "usr1", "segv", "usr2", "pipe", "alrm", "term", "stkflt"] +
    ["chld", "cont", "stop", "tstp", "ttin", "ttou", "urg", "xcpu", "xfsz", "vtalrm", "prof", "winch", "poll", "pwr", "sys", "rt0", "rt1"] +
    ["rt2", "rt3", "rt4", "rt5", "rt6", "rt7", "rt8", "rt9", "rt10", "rt11", "rt12", "rt13", "rt14", "rt15", "rt16", "rt17", "rt18"] +
    ["rt19", "rt20", "rt21", "rt22", "rt23", "rt24", "rt25", "rt26", "rt27", "rt28", "rt29", "rt30", "rt31", "rt32"]

  const KEYCODE_SETS: seq<string> := ["linux", "xt", "atset1", "atset2", "atset3", "osx", ""]

  function SignalArgs(val: Json): Option<Mutator>
    requires val.Obj?
  {
    var pid, signal := Param(Int64, val, "pid"), Param(Enum(SIGNALS), val, "signal");
    if pid.Some? && signal.Some? then Some(SendSignal(pid.value, signal.value)) else None
  }

  /** The first parameter that cannot be read is an error, and not only missing or an unknown name. */
  predicate SignalComplains(val: Json)
    requires val.Obj?
  {
    if Param(Int64, val, "pid").None? then ParamComplains(Int64, val, "pid") else ParamComplains(Enum(SIGNALS), val, "signal")
  }

  /** Sending a signal: what libvirt answers is not looked at. */
  function Signalled(r: Response, w: World, val: Json): Effect {
    if !val.Obj? then Fail(r, w, 0)
    else
      match SignalArgs(val)
      case None => (Complained(r, SignalComplains(val)), w, FAILURE)
      case Some(m) => (r, Called(w, Mutation(m, Answer(w).ok)), SUCCESS)
  }

  method SendProcessSignal(val: Json, res: JsonRes, dom: Domain) returns (o: DependsOutcome)
    modifies res`success, res`errors, dom
    ensures (res.View(), dom.View(), o) == Signalled(old(res.View()), old(dom.View()), val)
  {
    if !val.Obj? {
      res.Error(0);
      return FAILURE;
    }
    var pid := ExtractParam(Int64, val, "pid", res);
    if pid.None? {
      return FAILURE;
    }
    var signal := ExtractParam(Enum(SIGNALS), val, "signal", res);
    if signal.None? {
      return FAILURE;
    }
    var _ := dom.Mutate(SendSignal(pid.value, signal.value));
    return SUCCESS;
  }

  function KeysArgs(val: Json): Option<Mutator>
    requires val.Obj?
  {
    var codeset, holdtime := Param(Enum(KEYCODE_SETS), val, "keycode_set"), Param(Uint32, val, "hold_time");
    var keys := UintsParam(val, "keys");
    if codeset.Some? && holdtime.Some? && keys.Some? then Some(SendKey(codeset.value, holdtime.value, keys.value)) else None
  }

  predicate KeysComplain(val: Json)
    requires val.Obj?
  {
    if Param(Enum(KEYCODE_SETS), val, "keycode_set").None? then ParamComplains(Enum(KEYCODE_SETS), val, "keycode_set")
    else if Param(Uint32, val, "hold_time").None? then ParamComplains(Uint32, val, "hold_time")
    else UintsComplain(val, "keys")
  }

  /** Sending keys: a bad parameter is one more error, and a call that fails is none. */
  function KeysSent(r: Response, w: World, val: Json): Effect {
    if !val.Obj? then Fail(r, w, 0)
    else
      match KeysArgs(val)
      case None => Fail(Complained(r, KeysComplain(val)), w, 0)
      case Some(m) => (r, Called(w, Mutation(m, Answer(w).ok)), if Answer(w).ok then SUCCESS else FAILURE)
  }

  method SendKeys(val: Json, res: JsonRes, dom: Domain) returns (o: DependsOutcome)
    modifies res`success, res`errors, dom
    ensures (res.View(), dom.View(), o) == KeysSent(old(res.View()), old(dom.View()), val)
  {
    if !val.Obj? {
      res.Error(0);
      return FAILURE;
    }
    var codeset := ExtractParam(Enum(KEYCODE_SETS), val, "keycode_set", res);
    if codeset.None? {
      res.Error(0);
      return FAILURE;
    }
    var holdtime := ExtractParam(Uint32, val, "hold_time", res);
    if holdtime.None? {
      res.Error(0);
      return FAILURE;
    }
    var keys := ExtractUintsParam(val, "keys", res);
    if keys.None? {
      res.Error(0);
      return FAILURE;
    }
    var ok := dom.Mutate(SendKey(codeset.value, holdtime.value, keys.value));
    return if ok then SUCCESS else FAILURE;
  }

  // An action is a non-empty object, named by its first member.
  predicate WellTyped(action: Json) {
    action.Obj? && |action.members| > 0 && (action.members[0].0 == "power_mgt" ==> PowerWellTyped(action.members[0].1))
  }

  predicate IsPower(action: Json) {
    action.Obj? && |action.members| > 0 && action.members[0].0 == "power_mgt"
  }

  // The actions that read their parameters by type.
  predicate IsSend(action: Json) {
    action.Obj? && |action.members| > 0 && action.members[0].0 in ["send_signal", "send_keys"]
  }

  /** What altering a domain does; `other` stands for what happens to an action it is not defined for. */
  function Altered(other: Handler<World>, r: Response, w: World, action: Json): Effect {
    if !WellTyped(action) then other(r, w, action)
    else
      var (name, val) := action.members[0];
      if name == "power_mgt" then PowerMgt(r, w, val)
      else if name == "name" then Simple(r, w, NameArg(val), 205)
      else if name == "memory" then Simple(r, w, MemoryArg(val), 206)
      else if name == "max_memory" then Simple(r, w, MaxMemoryArg(val), 207)
      else if name == "autostart" then Simple(r, w, AutoStartArg(val), 208)
      else if name == "send_signal" then Signalled(r, w, val)
      else if name == "send_keys" then KeysSent(r, w, val)
      else Fail(r, w, 123)
  }

  /** The table has one handler for each name. */
  lemma AlteredAt(other: Handler<World>, r: Response, w: World, action: Json)
    requires WellTyped(action)
    ensures var (name, val) := action.members[0];
            var idx := IndexOf(KEYS, name);
            && (idx == 0 <==> name == "power_mgt")
            && Altered(other, r, w, action) ==
               (match idx
                case 0 => PowerMgt(r, w, val)
                case 1 => Simple(r, w, NameArg(val), 205)
                case 2 => Simple(r, w, MemoryArg(val), 206)
                case 3 => Simple(r, w, MaxMemoryArg(val), 207)
                case 4 => Simple(r, w, AutoStartArg(val), 208)
                case 5 => Signalled(r, w, val)
                case 6 => KeysSent(r, w, val)
                case _ => Fail(r, w, 123))
  {
    var name := action.members[0].0;
    assert IndexOf(KEYS, name) == 7 ==> name !in KEYS;
  }

  method Alter(action: Json, res: JsonRes, dom: Domain, ghost other: Handler<World>) returns (o: DependsOutcome)
    requires WellTyped(action)
    modifies res, dom
    ensures (res.View(), dom.View(), o) == Altered(other, old(res.View()), old(dom.View()), action)
  {
    var (name, val) := action.members[0];
    AlteredAt(other, res.View(), dom.View(), action);
    var idx := IndexOf(KEYS, name);
    match idx {
      case 0 => o := PowerManagement(val, res, dom);
      case 1 => o := SimpleAction(NameArg(val), 205, res, dom);
      case 2 => o := SimpleAction(MemoryArg(val), 206, res, dom);
      case 3 => o := SimpleAction(MaxMemoryArg(val), 207, res, dom);
      case 4 => o := SimpleAction(AutoStartArg(val), 208, res, dom);
      case 5 => o := SendProcessSignal(val, res, dom);
      case 6 => o := SendKeys(val, res, dom);
      case _ =>
        res.Error(123);
        o := FAILURE;
    }
  }
}
