/** JSON values as far as the handlers look at them, and the response document. */
module Json {
  import opened Options

  // `Real` is any number that is not an integer.
  datatype Json =
    | Null
    | Bool(b: bool)
    | Int(n: int)
    | Real(r: real)
    | Str(s: string)
    | Arr(items: seq<Json>)
    | Obj(members: seq<(string, Json)>)
  {
    /** The number fits in a 32-bit signed integer. */
    predicate IsInt() {
      Int? && -0x8000_0000 <= n < 0x8000_0000
    }

    predicate IsInt64() {
      Int? && -0x8000_0000_0000_0000 <= n < 0x8000_0000_0000_0000
    }

    predicate IsUint() {
      Int? && 0 <= n < 0x1_0000_0000
    }

    /** The first member with a name. */
    function FindMember(name: string): (r: Option<Json>)
      requires Obj?
      ensures r.None? <==> forall i :: 0 <= i < |members| ==> members[i].0 != name
      ensures r.Some? ==> exists i :: 0 <= i < |members| && members[i] == (name, r.value)
                                      && forall j :: 0 <= j < i ==> members[j].0 != name
    {
      FirstMember(members, name)
    }
  }

  function FirstMember(members: seq<(string, Json)>, name: string): (r: Option<Json>)
    ensures r.None? <==> forall i :: 0 <= i < |members| ==> members[i].0 != name
    ensures r.Some? ==> exists i :: 0 <= i < |members| && members[i] == (name, r.value)
                                    && forall j :: 0 <= j < i ==> members[j].0 != name
    decreases |members|
  {
    if members == [] then None
    else if members[0].0 == name then Some(members[0].1)
    else
      var rest := members[1..];
      var r := FirstMember(rest, name);
      assert forall i :: 0 < i < |members| ==> members[i] == rest[i - 1];
      assert forall i :: 0 <= i < |rest| ==> rest[i] == members[i + 1];
      r
  }

  // The response: errors are kept as their codes.
  datatype Response = Response(results: seq<Json>, success: bool, errors: seq<int>, messages: seq<Json>)

  /** The response after one more error. */
  function WithError(r: Response, code: int): Response {
    r.(success := false, errors := r.errors + [code])
  }

  /** The success member tells the truth. */
  predicate Truthful(r: Response) {
    r.success <==> r.errors == []
  }

  class JsonRes {
    var results: seq<Json>
    var success: bool
    var errors: seq<int>
    var messages: seq<Json>

    ghost function View(): Response
      reads this
    {
      Response(results, success, errors, messages)
    }

    constructor ()
      ensures View() == Response([], true, [], []) && Truthful(View())
    {
      results, success, errors, messages := [], true, [], [];
    }

    method Result(val: Json)
      modifies this`results
      ensures View() == old(View()).(results := old(results) + [val])
    {
      results := results + [val];
    }

    method Message(val: Json)
      modifies this`messages
      ensures View() == old(View()).(messages := old(messages) + [val])
    {
      messages := messages + [val];
    }

    method Error(code: int)
      modifies this`success, this`errors
      ensures View() == WithError(old(View()), code) && Truthful(View())
    {
      success := false;
      errors := errors + [code];
    }
  }
}
