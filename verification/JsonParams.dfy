/** Reading typed parameters out of a JSON value. */
module JsonParams {
  import opened Options
  import opened Json
  import opened EnumSets

  // What is asked for. The name of an enum stands for its position in a table.
  datatype Tag = Int64 | Uint32 | Enum(names: seq<string>)

  /** What a value of the right type is read as. */
  function Scalar(tag: Tag, j: Json): Option<int> {
    match tag
    case Int64 => if j.IsInt64() then Some(j.n) else None
    case Uint32 => if j.IsUint() then Some(j.n) else None
    case Enum(names) => if j.Str? && IndexOf(names, j.s) < |names| then Some(IndexOf(names, j.s)) else None
  }

  /** A value that cannot be read is an error, except for a text that names nothing. */
  predicate Complains(tag: Tag, j: Json) {
    match tag
    case Enum(_) => !j.Str?
    case _ => Scalar(tag, j).None?
  }

  predicate IsUints(j: Json) {
    j.Arr? && forall i :: 0 <= i < |j.items| ==> j.items[i].IsUint()
  }

  function Uints(j: Json): (ns: Option<seq<int>>)
    ensures ns.Some? <==> IsUints(j)
    ensures ns.Some? ==> |ns.value| == |j.items| && forall i :: 0 <= i < |j.items| ==> j.items[i] == Int(ns.value[i])
  {
    if IsUints(j) then Some(seq(|j.items|, i requires 0 <= i < |j.items| => j.items[i].n)) else None
  }

  /** The named parameter, if it is there and can be read. */
  function Param(tag: Tag, val: Json, name: string): Option<int>
    requires val.Obj?
  {
    match val.FindMember(name)
    case None => None
    case Some(j) => Scalar(tag, j)
  }

  /** The named parameter is there, and reading it is an error. */
  predicate ParamComplains(tag: Tag, val: Json, name: string)
    requires val.Obj?
  {
    val.FindMember(name).Some? && Complains(tag, val.FindMember(name).value)
  }

  function UintsParam(val: Json, name: string): Option<seq<int>>
    requires val.Obj?
  {
    match val.FindMember(name)
    case None => None
    case Some(j) => Uints(j)
  }

  predicate UintsComplain(val: Json, name: string)
    requires val.Obj?
  {
    val.FindMember(name).Some? && !IsUints(val.FindMember(name).value)
  }

  function Complained(r: Response, complains: bool): Response {
    if complains then WithError(r, 0) else r
  }

  method ExtractParamVal(tag: Tag, j: Json, res: JsonRes) returns (r: Option<int>)
    modifies res`success, res`errors
    ensures r == Scalar(tag, j)
    ensures res.View() == Complained(old(res.View()), Complains(tag, j))
  {
    match tag {
      case Int64 =>
        if !j.IsInt() && !j.IsInt64() { res.Error(0); return None; }
        return Some(j.n);
      case Uint32 =>
        if !j.IsUint() { res.Error(0); return None; }
        return Some(j.n);
      case Enum(names) =>
        if !j.Str? { res.Error(0); return None; }
        var i := IndexOf(names, j.s);
        return if i == |names| then None else Some(i);
    }
  }

  /** A list is read element by element, up to the first that is of another type. */
  method ExtractUints(j: Json, res: JsonRes) returns (ns: Option<seq<int>>)
    modifies res`success, res`errors
    ensures ns == Uints(j)
    ensures res.View() == Complained(old(res.View()), !IsUints(j))
  {
    if !j.Arr? {
      res.Error(0);
      return None;
    }
    var vals := [];
    for i := 0 to |j.items|
      invariant res.View() == old(res.View())
      invariant |vals| == i && forall k :: 0 <= k < i ==> j.items[k].IsUint() && vals[k] == j.items[k].n
    {
      var r := ExtractParamVal(Uint32, j.items[i], res);
      if r.None? {
        return None;
      }
      vals := vals + [r.value];
    }
    assert vals == Uints(j).value;
    return Some(vals);
  }

  method ExtractParam(tag: Tag, val: Json, name: string, res: JsonRes) returns (r: Option<int>)
    requires val.Obj?
    modifies res`success, res`errors
    ensures r == Param(tag, val, name)
    ensures res.View() == Complained(old(res.View()), ParamComplains(tag, val, name))
  {
    var el := val.FindMember(name);
    if el.None? {
      return None;
    }
    r := ExtractParamVal(tag, el.value, res);
  }

  method ExtractUintsParam(val: Json, name: string, res: JsonRes) returns (ns: Option<seq<int>>)
    requires val.Obj?
    modifies res`success, res`errors
    ensures ns == UintsParam(val, name)
    ensures res.View() == Complained(old(res.View()), UintsComplain(val, name))
  {
    var el := val.FindMember(name);
    if el.None? {
      return None;
    }
    ns := ExtractUints(el.value, res);
  }
}
