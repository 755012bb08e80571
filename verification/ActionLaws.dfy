/** What each domain action does, told without the handlers' own tables and functions. */
module ActionLaws {
  import opened Options
  import opened Json
  import opened JsonParams
  import opened Depends
  import opened Bits
  import opened EnumSets
  import opened DomainActions

  // ---------------------------------------------------------------- flags

  /** The value names the flag, by itself or in a list. */
  ghost predicate Names(j: Json, name: string) {
    (j.Str? && j.s == name) || (j.Arr? && exists k :: 0 <= k < |j.items| && j.items[k] == Str(name))
  }

  /** Every name in the value is known; a value that is neither text nor list has none. */
  ghost predicate Readable(names: seq<string>, j: Json) {
    && (j.Str? ==> j.s in names)
    && (j.Arr? ==> forall k :: 0 <= k < |j.items| ==> j.items[k].Str? && j.items[k].s in names)
  }

  /** The set has exactly the flags that are named. */
  ghost predicate UnionOf(names: seq<string>, j: Json, u: nat) {
    forall i: nat :: Bit(u, i) <==> i < |names| && Names(j, names[i])
  }

  /** Flags are read exactly when every name is known, and of flags that do not combine one at most is listed. */
  lemma CombinedFlagsIff(names: seq<string>, combine: bool, j: Json)
    requires FlagsWellTyped(j) && Distinct(names)
    ensures CombinedFlags(names, combine, j).Some? <==> Readable(names, j) && (j.Arr? && !combine ==> |j.items| <= 1)
    ensures CombinedFlags(names, combine, j).Some? ==> UnionOf(names, j, CombinedFlags(names, combine, j).value)
  {
    match j
    case Arr(items) =>
      var fs := ListedFlags(names, items);
      if fs.Some? { ListedUnion(names, items, fs.value); }
    case Str(s) =>
      if s in names { NameUnion(names, s); }
    case _ =>
      forall i: nat ensures !Bit(0, i) { ZeroHasNoBits(i); }
  }

  lemma NameBit(names: seq<string>, s: string, i: nat)
    requires Distinct(names) && s in names
    ensures FromString(names, s).Some?
    ensures Bit(FromString(names, s).value, i) <==> i < |names| && names[i] == s
  {
    var k := IndexOf(names, s);
    assert k < |names|;
    Pow2Bits(k, i);
  }

  lemma NameUnion(names: seq<string>, s: string)
    requires Distinct(names) && s in names
    ensures FromString(names, s).Some? && UnionOf(names, Str(s), FromString(names, s).value)
  {
    forall i: nat
      ensures FromString(names, s).Some? && (Bit(FromString(names, s).value, i) <==> i < |names| && Names(Str(s), names[i]))
    {
      NameBit(names, s, i);
    }
  }

  lemma ListedUnion(names: seq<string>, items: seq<Json>, fs: seq<nat>)
    requires Distinct(names) && (forall k :: 0 <= k < |items| ==> items[k].Str?) && ListedFlags(names, items) == Some(fs)
    ensures UnionOf(names, Arr(items), OrAll(fs))
  {
    forall i: nat
      ensures Bit(OrAll(fs), i) <==> i < |names| && Names(Arr(items), names[i])
    {
      OrAllBits(fs, i);
      ListedBit(names, items, fs, i);
    }
  }

  lemma ListedBit(names: seq<string>, items: seq<Json>, fs: seq<nat>, i: nat)
    requires Distinct(names) && (forall k :: 0 <= k < |items| ==> items[k].Str?) && ListedFlags(names, items) == Some(fs)
    ensures InSome(fs, i) <==> i < |names| && Names(Arr(items), names[i])
  {
    forall k | 0 <= k < |items|
      ensures Bit(fs[k], i) <==> i < |names| && items[k] == Str(names[i])
    {
      assert FromString(names, items[k].s) == Some(fs[k]);
      NameBit(names, items[k].s, i);
    }
  }

  // ---------------------------------------------------------------- power management

  /** The text up to its first NUL, which is where a C string ends. */
  ghost predicate UpToNul(s: string, t: string) {
    t <= s && '\0' !in t && (|t| < |s| ==> s[|t|] == '\0')
  }

  lemma UpToNulIsCString(s: string, t: string)
    ensures UpToNul(s, t) <==> t == CString(s)
  {
    var c := CString(s);
    if UpToNul(s, t) {
      assert forall i :: 0 <= i < |t| ==> s[i] == t[i];
      assert forall i :: 0 <= i < |c| ==> s[i] == c[i];
      assert |t| == |c|;
    }
  }

  /** The value requests a verb, with or without a type: it is the verb, or an object that holds both. */
  ghost predicate Asks(val: Json, verb: string, kind: Option<Json>) {
    || (val.Str? && UpToNul(val.s, verb) && kind == None)
    || (val.Obj? && kind == val.FindMember("type") &&
        var req := val.FindMember("request"); req.Some? && req.value.Str? && UpToNul(req.value.s, verb))
  }

  lemma AsksIff(val: Json, verb: string, kind: Option<Json>)
    requires PowerWellTyped(val)
    ensures Asks(val, verb, kind) <==> Request(val) == Some((verb, kind))
  {
    if val.Str? {
      UpToNulIsCString(val.s, verb);
    } else if val.Obj? && val.FindMember("request").Some? {
      UpToNulIsCString(val.FindMember("request").value.s, verb);
    }
  }

  /** The seven verbs: the flags they take, the code of a failed call, the message, and when they may be called. */
  ghost predicate Verb(verb: string, flags: Option<seq<string>>, errc: int, msg: string, prereq: Prereq) {
    || (verb == "shutdown" && flags == Some(["acpi_power_btn", "guest_agent", "initctl", "signal", "paravirt"])
        && errc == 200 && msg == "Domain is being shutdown" && prereq == MustRun)
    || (verb == "destroy" && flags == Some(["graceful"]) && errc == 209 && msg == "Domain destroyed" && prereq == MustBeActive)
    || (verb == "start" && flags == Some(["paused", "autodestroy", "bypass_cache", "force_boot", "validate"])
        && errc == 202 && msg == "Domain started" && prereq == MustBeInactive)
    || (verb == "reboot" && flags == Some(["acpi_power_btn", "guest_agent", "initctl", "signal", "paravirt"])
        && errc == 213 && msg == "Domain is being rebooted" && prereq == MustRun)
    || (verb == "reset" && flags == None && errc == 214 && msg == "Domain was reset" && prereq == MustBeActive)
    || (verb == "suspend" && flags == None && errc == 215 && msg == "Domain suspended" && prereq == MustRun)
    || (verb == "resume" && flags == None && errc == 212 && msg == "Domain resumed" && prereq == MustBePaused)
  }

  ghost predicate IsVerb(verb: string) {
    || verb == "shutdown" || verb == "destroy" || verb == "start" || verb == "reboot"
    || verb == "reset" || verb == "suspend" || verb == "resume"
  }

  ghost predicate Meets(prereq: Prereq, state: DomState, active: bool) {
    match prereq
    case MustRun => state == RUNNING
    case MustBePaused => state == PAUSED
    case MustBeActive => active
    case MustBeInactive => !active
  }

  ghost function Unmet(prereq: Prereq): int {
    match prereq
    case MustRun => 201
    case MustBePaused => 211
    case MustBeActive => 210
    case MustBeInactive => 203
  }

  lemma {:induction false} FindPowerAt(table: seq<PowerAction>, i: nat)
    requires i < |table| && forall j :: 0 <= j < i ==> table[j].tag != table[i].tag
    ensures FindPower(table, table[i].tag) == Some(table[i])
  {
    if i > 0 {
      assert forall j :: 0 <= j < |table| - 1 ==> table[1..][j] == table[j + 1];
      FindPowerAt(table[1..], i - 1);
    }
  }

  lemma TagsDiffer(i: nat, j: nat)
    requires i < j < |POWER|
    ensures POWER[i].tag != POWER[j].tag
  {
    assert POWER[0].tag[2] == 'u' && POWER[1].tag[2] == 's' && POWER[2].tag[2] == 'a' && POWER[3].tag[2] == 'b';
    assert POWER[4].tag[2] == 's' && POWER[5].tag[2] == 's' && POWER[6].tag[2] == 's';
    assert POWER[1].tag[1] == 'e' && POWER[4].tag[1] == 'e' && POWER[5].tag[1] == 'u' && POWER[6].tag[1] == 'e';
    assert POWER[1].tag[0] == 'd' && POWER[4].tag[0] == 'r' && POWER[6].tag[0] == 'r';
    assert POWER[4].tag[3] == 'e' && POWER[6].tag[3] == 'u';
  }

  /** The table has the seven verbs. */
  lemma VerbInTable(verb: string, flags: Option<seq<string>>, errc: int, msg: string, prereq: Prereq)
    requires Verb(verb, flags, errc, msg, prereq)
    ensures FindPower(POWER, verb) == Some(PowerAction(verb, flags, errc, msg, prereq))
  {
    var i := if verb == "shutdown" then 0 else if verb == "destroy" then 1 else if verb == "start" then 2
             else if verb == "reboot" then 3 else if verb == "reset" then 4 else if verb == "suspend" then 5 else 6;
    assert POWER[i] == PowerAction(verb, flags, errc, msg, prereq);
    forall j | 0 <= j < i
      ensures POWER[j].tag != POWER[i].tag
    {
      TagsDiffer(j, i);
    }
    FindPowerAt(POWER, i);
  }

  lemma Tags()
    ensures |POWER| == 7
    ensures POWER[0].tag == "shutdown" && POWER[1].tag == "destroy" && POWER[2].tag == "start" && POWER[3].tag == "reboot"
    ensures POWER[4].tag == "reset" && POWER[5].tag == "suspend" && POWER[6].tag == "resume"
  {
  }

  lemma VerbIndex(verb: string) returns (i: nat)
    requires IsVerb(verb)
    ensures i < |POWER| && POWER[i].tag == verb && POWER[i] in POWER
  {
    Tags();
    i := if verb == "shutdown" then 0 else if verb == "destroy" then 1 else if verb == "start" then 2
         else if verb == "reboot" then 3 else if verb == "reset" then 4 else if verb == "suspend" then 5 else 6;
  }

  lemma EntryIsVerb(a: PowerAction)
    requires a in POWER
    ensures IsVerb(a.tag) && Verb(a.tag, a.flags, a.errc, a.msg, a.prereq)
  {
    var i :| 0 <= i < |POWER| && POWER[i] == a;
    assert 0 <= i < 7;
  }

  lemma OnlyVerbsInTable(verb: string)
    ensures FindPower(POWER, verb).Some? <==> IsVerb(verb)
  {
    if FindPower(POWER, verb).Some? {
      EntryIsVerb(FindPower(POWER, verb).value);
    }
    if IsVerb(verb) {
      var i := VerbIndex(verb);
    }
  }

  lemma FlagNamesDistinct(verb: string, flags: seq<string>, errc: int, msg: string, prereq: Prereq)
    requires Verb(verb, Some(flags), errc, msg, prereq)
    ensures Distinct(flags)
  {
    assert "acpi_power_btn"[0] == 'a' && "guest_agent"[0] == 'g' && "initctl"[0] == 'i' && "signal"[0] == 's' && "paravirt"[0] == 'p';
    assert "paused"[0] == 'p' && "autodestroy"[0] == 'a' && "bypass_cache"[0] == 'b' && "force_boot"[0] == 'f' && "validate"[0] == 'v';
  }

  /** What has been asked of the domain before a power call: its state, and whether it is active where that matters. */
  function Looked(w: World, prereq: Prereq): seq<Call> {
    [Info(w.env(|w.log|).state)] +
    if prereq.MustBeActive? || prereq.MustBeInactive? then [Active(w.env(|w.log| + 1).active)] else []
  }

  ghost predicate Ready(w: World, prereq: Prereq) {
    Meets(prereq, w.env(|w.log|).state, w.env(|w.log| + 1).active)
  }

  ghost predicate FlagsGood(flags: Option<seq<string>>, kind: Option<Json>) {
    kind.None? || (flags.Some? && Readable(flags.value, kind.value))
  }

  /**
    A request for a verb: an unmet prerequisite or bad flags are an error and no call; otherwise the
    call is made, with no flags unless a type is given, and with the union of those named if it is. It
    is a message if it succeeds and the verb's own error if it fails.
  */
  lemma PowerVerbLaw(r: Response, w: World, val: Json, verb: string, kind: Option<Json>,
                     flags: Option<seq<string>>, errc: int, msg: string, prereq: Prereq) returns (u: Option<nat>)
    requires PowerWellTyped(val) && Asks(val, verb, kind) && Verb(verb, flags, errc, msg, prereq)
    ensures u.Some? <==> kind.Some? && FlagsGood(flags, kind)
    ensures u.Some? ==> UnionOf(flags.value, kind.value, u.value)
    ensures var log := w.log + Looked(w, prereq);
            var ok := w.env(|log|).ok;
            PowerMgt(r, w, val) ==
            if !Ready(w, prereq) then (WithError(r, Unmet(prereq)), w.(log := log), FAILURE)
            else if !FlagsGood(flags, kind) then (WithError(r, 301), w.(log := log), FAILURE)
            else
              (if ok then r.(messages := r.messages + [Obj([(verb, Str(msg))])]) else WithError(r, errc),
               w.(log := log + [Mutation(Power(verb, u), ok)]),
               if ok then SUCCESS else FAILURE)
  {
    AsksIff(val, verb, kind);
    VerbInTable(verb, flags, errc, msg, prereq);
    u := None;
    if kind.Some? && flags.Some? {
      FlagNamesDistinct(verb, flags.value, errc, msg, prereq);
      CombinedFlagsIff(flags.value, true, kind.value);
      u := CombinedFlags(flags.value, true, kind.value);
    }
    PowerMgtOf(r, w, val, PowerAction(verb, flags, errc, msg, prereq), kind);
    PowerActOf(r, w, PowerAction(verb, flags, errc, msg, prereq), kind, u);
  }

  lemma PowerMgtOf(r: Response, w: World, val: Json, a: PowerAction, kind: Option<Json>)
    requires PowerWellTyped(val) && Request(val) == Some((a.tag, kind)) && FindPower(POWER, a.tag) == Some(a)
    ensures kind.Some? ==> FlagsWellTyped(kind.value)
    ensures PowerMgt(r, w, val) == PowerAct(r, Called(w, Info(w.env(|w.log|).state)), a, w.env(|w.log|).state, kind)
  {
  }

  /** The flags have been read as `u`. */
  lemma PowerActOf(r: Response, w: World, a: PowerAction, kind: Option<Json>, u: Option<nat>)
    requires kind.Some? ==> FlagsWellTyped(kind.value)
    requires u == if kind.Some? && a.flags.Some? then CombinedFlags(a.flags.value, true, kind.value) else None
    ensures var log := w.log + Looked(w, a.prereq);
            var ok := w.env(|log|).ok;
            PowerAct(r, Called(w, Info(w.env(|w.log|).state)), a, w.env(|w.log|).state, kind) ==
            if !Ready(w, a.prereq) then (WithError(r, Unmet(a.prereq)), w.(log := log), FAILURE)
            else if kind.Some? && u.None? then (WithError(r, 301), w.(log := log), FAILURE)
            else
              (if ok then r.(messages := r.messages + [Obj([(a.tag, Str(a.msg))])]) else WithError(r, a.errc),
               w.(log := log + [Mutation(Power(a.tag, u), ok)]),
               if ok then SUCCESS else FAILURE)
  {
    PowerActLog(w, a.prereq);
  }

  lemma PowerActLog(w: World, prereq: Prereq)
    ensures var w1 := Called(w, Info(w.env(|w.log|).state));
            var (w2, err) := Prerequisite(w1, prereq, w.env(|w.log|).state);
            && w2 == w.(log := w.log + Looked(w, prereq))
            && err == if Ready(w, prereq) then None else Some(Unmet(prereq))
  {
    var log := w.log + [Info(w.env(|w.log|).state)];
    assert log + [Active(w.env(|w.log| + 1).active)] == w.log + ([Info(w.env(|w.log|).state)] + [Active(w.env(|w.log| + 1).active)]);
    assert w.log + ([Info(w.env(|w.log|).state)] + []) == log;
  }

  /** Anything else is error 300, and changes nothing. */
  lemma NoVerbLaw(r: Response, w: World, val: Json)
    requires PowerWellTyped(val) && forall verb, kind :: Asks(val, verb, kind) ==> !IsVerb(verb)
    ensures var (r', w', o) := PowerMgt(r, w, val);
            && r' == WithError(r, 300) && o == FAILURE
            && (w' == w || w' == w.(log := w.log + [Info(w.env(|w.log|).state)]))
            && (w' == w <==> !exists verb, kind :: Asks(val, verb, kind))
  {
    if Request(val).Some? {
      var (verb, kind) := Request(val).value;
      AsksIff(val, verb, kind);
      OnlyVerbsInTable(verb);
    }
    forall verb, kind | Asks(val, verb, kind)
      ensures Request(val).Some?
    {
      AsksIff(val, verb, kind);
    }
    assert w.log != w.log + [Info(w.env(|w.log|).state)];
  }

  ghost predicate Changed(w: World, w': World) {
    exists i :: |w.log| <= i < |w'.log| && w'.log[i].Mutation?
  }

  /** The value requests one of the verbs, which may be called, with flags that it takes and knows. */
  ghost predicate Grants(w: World, val: Json, verb: string, kind: Option<Json>,
                         flags: Option<seq<string>>, errc: int, msg: string, prereq: Prereq)
  {
    && Asks(val, verb, kind) && Verb(verb, flags, errc, msg, prereq)
    && Ready(w, prereq) && FlagsGood(flags, kind)
  }

  /** The domain is changed exactly when such a request is made. */
  lemma PowerChangeIff(r: Response, w: World, val: Json)
    requires PowerWellTyped(val)
    ensures Changed(w, PowerMgt(r, w, val).1) <==>
            exists verb, kind, flags, errc, msg, prereq :: Grants(w, val, verb, kind, flags, errc, msg, prereq)
  {
    if verb, kind, flags, errc, msg, prereq :| Asks(val, verb, kind) && Verb(verb, flags, errc, msg, prereq) {
      VerbChangeIff(r, w, val, verb, kind, flags, errc, msg, prereq);
      if !(Ready(w, prereq) && FlagsGood(flags, kind)) {
        forall verb', kind', flags', errc', msg', prereq' | Grants(w, val, verb', kind', flags', errc', msg', prereq')
          ensures false
        {
          SameVerb(val, verb, kind, flags, errc, msg, prereq, verb', kind', flags', errc', msg', prereq');
        }
      } else {
        assert Grants(w, val, verb, kind, flags, errc, msg, prereq);
      }
    } else {
      forall verb, kind | Asks(val, verb, kind)
        ensures !IsVerb(verb)
      {
        if IsVerb(verb) { SomeVerb(val, verb, kind); }
      }
      NoVerbLaw(r, w, val);
    }
  }

  lemma VerbChangeIff(r: Response, w: World, val: Json, verb: string, kind: Option<Json>,
                      flags: Option<seq<string>>, errc: int, msg: string, prereq: Prereq)
    requires PowerWellTyped(val) && Asks(val, verb, kind) && Verb(verb, flags, errc, msg, prereq)
    ensures Changed(w, PowerMgt(r, w, val).1) <==> Ready(w, prereq) && FlagsGood(flags, kind)
  {
    var w' := PowerMgt(r, w, val).1;
    var u := PowerVerbLaw(r, w, val, verb, kind, flags, errc, msg, prereq);
    if Ready(w, prereq) && FlagsGood(flags, kind) {
      assert w'.log[|w'.log| - 1].Mutation?;
    }
  }

  lemma SameVerb(val: Json, verb: string, kind: Option<Json>, flags: Option<seq<string>>, errc: int, msg: string, prereq: Prereq,
                 verb': string, kind': Option<Json>, flags': Option<seq<string>>, errc': int, msg': string, prereq': Prereq)
    requires PowerWellTyped(val)
    requires Asks(val, verb, kind) && Verb(verb, flags, errc, msg, prereq)
    requires Asks(val, verb', kind') && Verb(verb', flags', errc', msg', prereq')
    ensures verb == verb' && kind == kind' && flags == flags' && prereq == prereq'
  {
    AsksIff(val, verb, kind);
    AsksIff(val, verb', kind');
    VerbInTable(verb, flags, errc, msg, prereq);
    VerbInTable(verb', flags', errc', msg', prereq');
  }

  lemma SomeVerb(val: Json, verb: string, kind: Option<Json>)
    requires Asks(val, verb, kind) && IsVerb(verb)
    ensures exists flags, errc, msg, prereq :: Asks(val, verb, kind) && Verb(verb, flags, errc, msg, prereq)
  {
    var i := VerbIndex(verb);
    EntryIsVerb(POWER[i]);
  }

  // ---------------------------------------------------------------- names, memory and autostart

  ghost predicate First(action: Json, name: string, val: Json) {
    action.Obj? && |action.members| > 0 && action.members[0] == (name, val)
  }

  /** One call, whose failure is an error. */
  ghost function Attempt(r: Response, w: World, m: Mutator, code: int): Effect {
    var ok := w.env(|w.log|).ok;
    (if ok then r else r.(success := false, errors := r.errors + [code]),
     w.(log := w.log + [Mutation(m, ok)]),
     if ok then SUCCESS else FAILURE)
  }

  /** An error and nothing else. */
  ghost function Refusal(r: Response, w: World, code: int): Effect {
    (r.(success := false, errors := r.errors + [code]), w, FAILURE)
  }

  /** A domain is renamed to the text up to its first NUL. */
  lemma NameLaw(other: Handler<World>, r: Response, w: World, action: Json, val: Json, name: string)
    requires First(action, "name", val) && (val.Str? ==> UpToNul(val.s, name))
    ensures Altered(other, r, w, action) == if val.Str? then Attempt(r, w, Rename(name), 205) else Refusal(r, w, 0)
  {
    AlteredAt(other, r, w, action);
    if val.Str? { UpToNulIsCString(val.s, name); }
  }

  /** The memory is set to a number that fits in 32 bits. */
  lemma MemoryLaw(other: Handler<World>, r: Response, w: World, action: Json, val: Json)
    requires First(action, "memory", val)
    ensures Altered(other, r, w, action) ==
            if val.Int? && -0x8000_0000 <= val.n <= 0x7fff_ffff then Attempt(r, w, SetMemory(val.n), 206) else Refusal(r, w, 0)
  {
    AlteredAt(other, r, w, action);
  }

  lemma MaxMemoryLaw(other: Handler<World>, r: Response, w: World, action: Json, val: Json)
    requires First(action, "max_memory", val)
    ensures Altered(other, r, w, action) ==
            if val.Int? && -0x8000_0000 <= val.n <= 0x7fff_ffff then Attempt(r, w, SetMaxMemory(val.n), 207) else Refusal(r, w, 0)
  {
    AlteredAt(other, r, w, action);
  }

  lemma AutoStartLaw(other: Handler<World>, r: Response, w: World, action: Json, val: Json)
    requires First(action, "autostart", val)
    ensures Altered(other, r, w, action) == if val.Bool? then Attempt(r, w, SetAutoStart(val.b), 208) else Refusal(r, w, 0)
  {
    AlteredAt(other, r, w, action);
  }

  /** The names of all actions; any other is an error. */
  lemma UnknownActionLaw(other: Handler<World>, r: Response, w: World, action: Json, name: string, val: Json)
    requires First(action, name, val)
    requires name !in ["power_mgt", "name", "memory", "max_memory", "autostart", "send_signal", "send_keys"]
    ensures Altered(other, r, w, action) == Refusal(r, w, 123)
  {
    assert WellTyped(action);
  }

  /** A power action is the power handler's. */
  lemma PowerActionLaw(other: Handler<World>, r: Response, w: World, action: Json, val: Json)
    requires First(action, "power_mgt", val) && PowerWellTyped(val)
    ensures Altered(other, r, w, action) == PowerMgt(r, w, val)
  {
  }

  // ---------------------------------------------------------------- signals and keys

  ghost predicate Has(val: Json, name: string, j: Json)
    requires val.Obj?
  {
    val.FindMember(name) == Some(j)
  }

  ghost predicate PidIs(val: Json, pid: int)
    requires val.Obj?
  {
    Has(val, "pid", Int(pid)) && -0x8000_0000_0000_0000 <= pid <= 0x7fff_ffff_ffff_ffff
  }

  ghost predicate NameAt(val: Json, member: string, names: seq<string>, i: int)
    requires val.Obj?
  {
    0 <= i < |names| && Has(val, member, Str(names[i])) && forall j :: 0 <= j < i ==> names[j] != names[i]
  }

  ghost predicate UintIs(val: Json, member: string, n: int)
    requires val.Obj?
  {
    Has(val, member, Int(n)) && 0 <= n <= 0xffff_ffff
  }

  ghost predicate KeysAre(val: Json, ns: seq<int>)
    requires val.Obj?
  {
    && val.FindMember("keys").Some? && val.FindMember("keys").value.Arr?
    && var items := val.FindMember("keys").value.items;
       |items| == |ns| && forall i :: 0 <= i < |ns| ==> items[i] == Int(ns[i]) && 0 <= ns[i] <= 0xffff_ffff
  }

  lemma EnumParamIff(val: Json, member: string, names: seq<string>, i: int)
    requires val.Obj?
    ensures Param(Enum(names), val, member) == Some(i) <==> NameAt(val, member, names, i)
  {
    if val.FindMember(member).Some? && val.FindMember(member).value.Str? {
      var s := val.FindMember(member).value.s;
      var k := IndexOf(names, s);
      assert NameAt(val, member, names, i) ==> names[i] == s;
    }
  }

  /** A signal is sent with its pid and the position of its name; what libvirt answers makes no difference. */
  lemma SignalSentLaw(other: Handler<World>, r: Response, w: World, action: Json, val: Json, pid: int, signal: int)
    requires First(action, "send_signal", val) && val.Obj? && PidIs(val, pid) && NameAt(val, "signal", SIGNALS, signal)
    ensures Altered(other, r, w, action)
            == (r, w.(log := w.log + [Mutation(SendSignal(pid, signal), w.env(|w.log|).ok)]), SUCCESS)
  {
    SignalAction(other, r, w, action, val);
    EnumParamIff(val, "signal", SIGNALS, signal);
  }

  lemma SignalAction(other: Handler<World>, r: Response, w: World, action: Json, val: Json)
    requires First(action, "send_signal", val)
    ensures Altered(other, r, w, action) == Signalled(r, w, val)
  {
    AlteredAt(other, r, w, action);
  }

  /** The positions of the names are the numbers that POSIX and Linux give the signals. */
  lemma SignalNumbers()
    ensures |SIGNALS| == 65 && SIGNALS[1] == "hup" && SIGNALS[2] == "int" && SIGNALS[3] == "quit" && SIGNALS[6] == "abrt"
    ensures SIGNALS[9] == "kill" && SIGNALS[14] == "alrm" && SIGNALS[15] == "term" && SIGNALS[17] == "chld"
    ensures SIGNALS[18] == "cont" && SIGNALS[19] == "stop" && SIGNALS[32] == "rt0" && SIGNALS[64] == "rt32"
  {
  }

  /** Otherwise it is not: an error for the first parameter of the wrong type, none for one that is missing or unknown. */
  lemma SignalRefusedLaw(other: Handler<World>, r: Response, w: World, action: Json, val: Json)
    requires First(action, "send_signal", val)
    requires val.Obj? ==> forall pid, signal :: !(PidIs(val, pid) && NameAt(val, "signal", SIGNALS, signal))
    ensures Altered(other, r, w, action) ==
            if val.Obj? && (if exists pid :: PidIs(val, pid)
                            then val.FindMember("signal").None? || val.FindMember("signal").value.Str?
                            else val.FindMember("pid").None?)
            then (r, w, FAILURE) else Refusal(r, w, 0)
  {
    SignalAction(other, r, w, action, val);
    if val.Obj? {
      var pid, signal := Param(Int64, val, "pid"), Param(Enum(SIGNALS), val, "signal");
      if pid.Some? { assert PidIs(val, pid.value); }
      if signal.Some? { EnumParamIff(val, "signal", SIGNALS, signal.value); }
    }
  }

  /** Keys are sent with the position of the code set, the hold time and the codes; a failed call is no error. */
  lemma KeysSentLaw(other: Handler<World>, r: Response, w: World, action: Json, val: Json, codeset: int, holdtime: int, ns: seq<int>)
    requires First(action, "send_keys", val) && val.Obj? && NameAt(val, "keycode_set", KEYCODE_SETS, codeset)
    requires UintIs(val, "hold_time", holdtime) && KeysAre(val, ns)
    ensures var ok := w.env(|w.log|).ok;
            Altered(other, r, w, action)
            == (r, w.(log := w.log + [Mutation(SendKey(codeset, holdtime, ns), ok)]), if ok then SUCCESS else FAILURE)
  {
    KeysAction(other, r, w, action, val);
    EnumParamIff(val, "keycode_set", KEYCODE_SETS, codeset);
    KeysAreUints(val, ns);
  }

  lemma KeysAction(other: Handler<World>, r: Response, w: World, action: Json, val: Json)
    requires First(action, "send_keys", val)
    ensures Altered(other, r, w, action) == KeysSent(r, w, val)
  {
    AlteredAt(other, r, w, action);
  }

  lemma KeysAreUints(val: Json, ns: seq<int>)
    requires val.Obj?
    ensures KeysAre(val, ns) <==> UintsParam(val, "keys") == Some(ns)
  {
    if KeysAre(val, ns) {
      assert Uints(val.FindMember("keys").value).value == ns;
    }
  }

  /** Otherwise they are not: two errors if the first bad parameter has the wrong type, and one if not. */
  lemma KeysRefusedLaw(other: Handler<World>, r: Response, w: World, action: Json, val: Json)
    requires First(action, "send_keys", val)
    requires val.Obj? ==> forall codeset, holdtime, ns ::
               !(NameAt(val, "keycode_set", KEYCODE_SETS, codeset) && UintIs(val, "hold_time", holdtime) && KeysAre(val, ns))
    ensures Altered(other, r, w, action) ==
            if val.Obj? && KeysMistyped(val) then Refusal(Refusal(r, w, 0).0, w, 0) else Refusal(r, w, 0)
  {
    KeysAction(other, r, w, action, val);
    if val.Obj? { KeysRefused(val); }
  }

  lemma KeysRefused(val: Json)
    requires val.Obj?
    requires forall codeset, holdtime, ns ::
               !(NameAt(val, "keycode_set", KEYCODE_SETS, codeset) && UintIs(val, "hold_time", holdtime) && KeysAre(val, ns))
    ensures KeysArgs(val).None? && (KeysComplain(val) <==> KeysMistyped(val))
  {
    var codeset, holdtime, ns := Param(Enum(KEYCODE_SETS), val, "keycode_set"), Param(Uint32, val, "hold_time"), UintsParam(val, "keys");
    forall i
      ensures NameAt(val, "keycode_set", KEYCODE_SETS, i) <==> codeset == Some(i)
    {
      EnumParamIff(val, "keycode_set", KEYCODE_SETS, i);
    }
    if holdtime.Some? { assert UintIs(val, "hold_time", holdtime.value); }
    forall more
      ensures KeysAre(val, more) <==> ns == Some(more)
    {
      KeysAreUints(val, more);
    }
  }

  /** The first parameter for keys that is no good is there, and of the wrong type. */
  ghost predicate KeysMistyped(val: Json)
    requires val.Obj?
  {
    var codeset, holdtime, keys := val.FindMember("keycode_set"), val.FindMember("hold_time"), val.FindMember("keys");
    if !exists i :: NameAt(val, "keycode_set", KEYCODE_SETS, i) then codeset.Some? && !codeset.value.Str?
    else if !exists n :: UintIs(val, "hold_time", n) then holdtime.Some?
    else keys.Some? && !exists ns :: KeysAre(val, ns)
  }
}
