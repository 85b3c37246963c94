/** The users list of the home page and the handlers that replace it:
    create (prepend a row with a fresh or given id), edit (merge the edited
    values into every row with that id) and delete (drop every row with
    that id). */
module Home {
  import opened Js
  import Seqs

  /** A user row. */
  type User = map<string, Value>

  /** `u.id || 0` as a number; None stands for NaN. */
  function IdNumber(u: User): Option<int> {
    ToNumber(Or(Get(u, "id"), Num(0)))
  }

  /** `Math.max(...users.map(u => u.id || 0))`, or 0 for no users; None
      stands for NaN, which any NaN argument produces. */
  function MaxId(users: seq<User>): (r: Option<int>)
    ensures |users| == 0 ==> r == Some(0)
    ensures r.None? <==> exists i :: 0 <= i < |users| && IdNumber(users[i]).None?
    ensures r.Some? ==> forall i :: 0 <= i < |users| ==> IdNumber(users[i]).value <= r.value
    ensures r.Some? && |users| > 0 ==> exists i :: 0 <= i < |users| && IdNumber(users[i]) == r
  {
    if |users| == 0 then Some(0)
    else if |users| == 1 then IdNumber(users[0])
    else
      var init := users[..|users| - 1];
      var last := IdNumber(users[|users| - 1]);
      var m := MaxId(init);
      assert forall i :: 0 <= i < |init| ==> init[i] == users[i];
      if m.None? || last.None? then None
      else Some(if m.value < last.value then last.value else m.value)
  }

  /** `values.id && Number(values.id)` is truthy: the given id reads as a
      non-zero number. */
  predicate UsesGivenId(values: map<string, Value>) {
    var n := ToNumber(Get(values, "id"));
    Truthy(Get(values, "id")) && n.Some? && n.value != 0
  }

  /** The id of a created row: `Number(values.id)` when `values.id` and
      that number are truthy, else one more than the largest id. */
  function NewId(values: map<string, Value>, users: seq<User>): (r: Value)
    ensures var n := ToNumber(Get(values, "id"));
      Truthy(Get(values, "id")) && n.Some? && n.value != 0 ==> r == Num(n.value)
    ensures var n := ToNumber(Get(values, "id"));
      !(Truthy(Get(values, "id")) && n.Some? && n.value != 0) ==>
        r == (if MaxId(users).Some? then Num(MaxId(users).value + 1) else NaN)
  {
    var given := Get(values, "id");
    var n := ToNumber(given);
    if Truthy(given) && n.Some? && n.value != 0 then Num(n.value)
    else
      var m := MaxId(users);
      if m.Some? then Num(m.value + 1) else NaN
  }

  /** Without a usable given id, the first user gets id 1. */
  lemma FirstIdIsOne(values: map<string, Value>)
    requires !UsesGivenId(values)
    ensures NewId(values, []) == Num(1)
  {
  }

  /** Without a usable given id, the new id is one more than every numeric
      id and equal to one of them plus one. */
  lemma GeneratedIdFollowsMax(values: map<string, Value>, users: seq<User>)
    requires !UsesGivenId(values)
    requires |users| > 0
    requires forall i :: 0 <= i < |users| ==> IdNumber(users[i]).Some?
    ensures NewId(values, users).Num?
    ensures forall i :: 0 <= i < |users| ==> IdNumber(users[i]).value < NewId(values, users).n
    ensures exists i :: 0 <= i < |users| && IdNumber(users[i]).value + 1 == NewId(values, users).n
  {
  }

  /** The row `handleCreate` builds: missing text fields become "", a
      missing status "Active". */
  function NewRow(values: map<string, Value>, users: seq<User>): (r: User)
    ensures r.Keys == {"id", "firstname", "lastname", "email", "mobile", "country", "status"}
    ensures r["id"] == NewId(values, users)
    ensures forall k :: k in {"firstname", "lastname", "email", "mobile", "country"} ==>
      r[k] == (if Truthy(Get(values, k)) then Get(values, k) else Str(""))
    ensures r["status"] == (if Truthy(Get(values, "status")) then Get(values, "status") else Str("Active"))
  {
    map[
      "id" := NewId(values, users),
      "firstname" := Or(Get(values, "firstname"), Str("")),
      "lastname" := Or(Get(values, "lastname"), Str("")),
      "email" := Or(Get(values, "email"), Str("")),
      "mobile" := Or(Get(values, "mobile"), Str("")),
      "country" := Or(Get(values, "country"), Str("")),
      "status" := Or(Get(values, "status"), Str("Active"))]
  }

  /** A generated id is new: it is strictly equal to no existing id. */
  lemma GeneratedIdIsFresh(values: map<string, Value>, users: seq<User>)
    requires !UsesGivenId(values)
    ensures forall i :: 0 <= i < |users| ==> !StrictEquals(Get(users[i], "id"), NewId(values, users))
  {
    forall i | 0 <= i < |users|
      ensures !StrictEquals(Get(users[i], "id"), NewId(values, users))
    {
      var id := Get(users[i], "id");
      if id.Num? && MaxId(users).Some? {
        assert IdNumber(users[i]) == Some(id.n);
      }
    }
  }

  /** `{ ...u, ...values }` for the rows whose id is `Number(values.id)`. */
  predicate EditTarget(u: User, values: map<string, Value>) {
    StrictEquals(Get(u, "id"), NumberValue(ToNumber(Get(values, "id"))))
  }

  function Edited(users: seq<User>, values: map<string, Value>): (r: seq<User>)
    ensures |r| == |users|
    ensures forall i :: 0 <= i < |users| && EditTarget(users[i], values) ==> r[i] == users[i] + values
    ensures forall i :: 0 <= i < |users| && !EditTarget(users[i], values) ==> r[i] == users[i]
  {
    seq(|users|, i requires 0 <= i < |users| => if EditTarget(users[i], values) then users[i] + values else users[i])
  }

  /** Applying the same edit twice is applying it once. */
  lemma EditIdempotent(users: seq<User>, values: map<string, Value>)
    ensures Edited(Edited(users, values), values) == Edited(users, values)
  {
    var once := Edited(users, values);
    forall i | 0 <= i < |users|
      ensures Edited(once, values)[i] == once[i]
    {
      if EditTarget(users[i], values) && EditTarget(once[i], values) {
        assert once[i] + values == users[i] + values + values;
        assert users[i] + values + values == users[i] + values;
      }
    }
  }

  /** The rows `handleDeleteRow` keeps: every row whose id is not `===`
      the deleted one, in their order. */
  function Deleted(users: seq<User>, id: Value): (r: seq<User>)
    ensures forall u :: u in r <==> u in users && !StrictEquals(Get(u, "id"), id)
    ensures forall u ::
              multiset(r)[u] == if StrictEquals(Get(u, "id"), id) then 0 else multiset(users)[u]
    ensures Seqs.IsSubsequence(r, users)
  {
    var keep := (u: User) => !StrictEquals(Get(u, "id"), id);
    Seqs.FilterMembershipAll(users, keep);
    Seqs.FilterCountAll(users, keep);
    Seqs.FilterIsSubsequence(users, keep);
    Seqs.Filter(users, keep)
  }

  /** A NaN id matches no row, so nothing is deleted. */
  lemma DeleteNaNKeepsAll(users: seq<User>)
    ensures Deleted(users, NaN) == users
  {
    Seqs.FilterKeepsAll(users, (u: User) => !StrictEquals(Get(u, "id"), NaN));
  }

  class UserStore {
    var users: seq<User>

    constructor (initial: seq<User>)
      ensures users == initial
    {
      users := initial;
    }

    /** `handleCreate`: one row in front, the others unchanged. */
    method HandleCreate(values: map<string, Value>)
      modifies this
      ensures users == [NewRow(values, old(users))] + old(users)
    {
      users := [NewRow(values, users)] + users;
    }

    /** `handleEditRow`: without a truthy id nothing changes. A payload that
        is not an object has no id. */
    method HandleEditRow(payload: Value)
      modifies this
      ensures !(payload.Obj? && Truthy(Get(payload.props, "id"))) ==> users == old(users)
      ensures payload.Obj? && Truthy(Get(payload.props, "id")) ==> users == Edited(old(users), payload.props)
    {
      var values := Or(payload, Obj(map[]));
      if !Truthy(Prop(values, "id")) {
        return;
      }
      users := Edited(users, values.props);
    }

    /** `handleDeleteRow`: a declined confirmation changes nothing. */
    method HandleDeleteRow(row: User, confirmed: bool)
      modifies this
      ensures !confirmed ==> users == old(users)
      ensures confirmed ==> users == Deleted(old(users), Get(row, "id"))
    {
      if !confirmed {
        return;
      }
      users := Deleted(users, Get(row, "id"));
    }
  }
}
