/**
  The part of the `URLSearchParams` interface (section 6.2 of the WHATWG URL
  Standard) that the tag filter relies on, over the query as an ordered list of
  name/value pairs. Serialisation and percent-encoding are not modelled.
 */
module SearchParams {
  import opened Wrappers

  datatype Param = Param(name: string, value: string)

  /** `getAll(name)`: the values of every pair named `name`, in list order. */
  function GetAll(q: seq<Param>, name: string): (vs: seq<string>)
    ensures forall v :: v in vs <==> Param(name, v) in q
  {
    if q == [] then []
    else if q[0].name == name then [q[0].value] + GetAll(q[1..], name)
    else GetAll(q[1..], name)
  }

  /** `get(name)`: the value of the first pair named `name`, or null when there is none. */
  function Get(q: seq<Param>, name: string): (r: Option<string>)
    ensures r.None? ==> forall i :: 0 <= i < |q| ==> q[i].name != name
    ensures r.Some? ==> exists i :: 0 <= i < |q| && q[i] == Param(name, r.value) &&
                                    forall j :: 0 <= j < i ==> q[j].name != name
  {
    if q == [] then None
    else if q[0].name == name then Some(q[0].value)
    else
      var r := Get(q[1..], name);
      if r.Some? then
        ghost var i :| 0 <= i < |q[1..]| && q[1..][i] == Param(name, r.value) &&
                       forall j :: 0 <= j < i ==> q[1..][j].name != name;
        assert q[i + 1] == Param(name, r.value);
        r
      else r
  }

  /** `delete(name)`: removes every pair named `name`, keeping the others in order. */
  function Delete(q: seq<Param>, name: string): (r: seq<Param>)
    ensures forall p :: p in r <==> p in q && p.name != name
  {
    if q == [] then []
    else if q[0].name == name then Delete(q[1..], name)
    else [q[0]] + Delete(q[1..], name)
  }

  /**
    `set(name, value)`: when a pair named `name` exists, the first one takes
    `value` and the others are removed; otherwise the pair is appended.
   */
  function Set(q: seq<Param>, name: string, value: string): (r: seq<Param>)
    ensures Param(name, value) in r
    ensures forall p :: p in r && p.name == name ==> p.value == value
  {
    if q == [] then [Param(name, value)]
    else if q[0].name == name then [Param(name, value)] + Delete(q[1..], name)
    else [q[0]] + Set(q[1..], name, value)
  }

  /** `get` observes the head of `getAll`. */
  lemma {:induction false} GetIsFirstOfGetAll(q: seq<Param>, name: string)
    ensures Get(q, name) == if GetAll(q, name) == [] then None else Some(GetAll(q, name)[0])
  {
    if q != [] && q[0].name != name {
      GetIsFirstOfGetAll(q[1..], name);
    }
  }

  /** After `delete(name)` no pair named `name` is left. */
  lemma {:induction false} GetAllDeleteSame(q: seq<Param>, name: string)
    ensures GetAll(Delete(q, name), name) == []
  {
    if q != [] {
      GetAllDeleteSame(q[1..], name);
    }
  }

  /** `delete(name)` leaves the pairs of every other name as they were. */
  lemma {:induction false} GetAllDeleteOther(q: seq<Param>, name: string, other: string)
    requires other != name
    ensures GetAll(Delete(q, name), other) == GetAll(q, other)
  {
    if q != [] {
      GetAllDeleteOther(q[1..], name, other);
    }
  }

  /** After `set(name, value)` exactly one pair is named `name`, holding `value`. */
  lemma {:induction false} GetAllSetSame(q: seq<Param>, name: string, value: string)
    ensures GetAll(Set(q, name, value), name) == [value]
  {
    if q != [] {
      if q[0].name == name {
        GetAllDeleteSame(q[1..], name);
      } else {
        GetAllSetSame(q[1..], name, value);
      }
    }
  }

  /** `set(name, value)` leaves the pairs of every other name as they were. */
  lemma {:induction false} GetAllSetOther(q: seq<Param>, name: string, value: string, other: string)
    requires other != name
    ensures GetAll(Set(q, name, value), other) == GetAll(q, other)
  {
    if q != [] {
      if q[0].name == name {
        GetAllDeleteOther(q[1..], name, other);
      } else {
        GetAllSetOther(q[1..], name, value, other);
      }
    }
  }

  /** `get` reads back what `set` stored. */
  lemma GetSetSame(q: seq<Param>, name: string, value: string)
    ensures Get(Set(q, name, value), name) == Some(value)
  {
  }

  /** `get` finds nothing after `delete`. */
  lemma GetDeleteSame(q: seq<Param>, name: string)
    ensures Get(Delete(q, name), name) == None
  {
  }

  /**
    Outside the pairs named `name`, `set(name, value)` changes nothing, not even
    the order: dropping `name` from both lists leaves the same list.
   */
  lemma {:induction false} SetTouchesOnlyItsName(q: seq<Param>, name: string, value: string)
    ensures Delete(Set(q, name, value), name) == Delete(q, name)
  {
    if q != [] {
      if q[0].name == name {
        DeleteTwice(q[1..], name);
      } else {
        SetTouchesOnlyItsName(q[1..], name, value);
      }
    }
  }

  /** `delete` keeps the remaining pairs in their relative order, across names. */
  lemma {:induction false} DeleteAppend(a: seq<Param>, b: seq<Param>, name: string)
    ensures Delete(a + b, name) == Delete(a, name) + Delete(b, name)
  {
    if a != [] {
      assert (a + b)[1..] == a[1..] + b;
      DeleteAppend(a[1..], b, name);
    } else {
      assert a + b == b;
    }
  }

  /** `delete` of a name no pair has leaves the list as it was. */
  lemma {:induction false} DeleteAbsent(q: seq<Param>, name: string)
    requires forall i :: 0 <= i < |q| ==> q[i].name != name
    ensures Delete(q, name) == q
  {
    if q != [] {
      DeleteAbsent(q[1..], name);
    }
  }

  /**
    When the first pair named `name` sits at index `k`, `set` stores the new
    value in its place and drops the later pairs of that name.
   */
  lemma {:induction false} SetReplacesFirst(q: seq<Param>, name: string, value: string, k: nat)
    requires k < |q| && q[k].name == name
    requires forall j :: 0 <= j < k ==> q[j].name != name
    ensures Set(q, name, value) == q[..k] + [Param(name, value)] + Delete(q[k + 1..], name)
  {
    if k > 0 {
      SetReplacesFirst(q[1..], name, value, k - 1);
      assert q[1..][..k - 1] == q[1..k];
      assert q[1..][k - 1 + 1..] == q[k + 1..];
      assert q[..k] == [q[0]] + q[1..k];
    }
  }

  /** When no pair is named `name`, `set` appends the new pair at the end. */
  lemma {:induction false} SetAppendsWhenAbsent(q: seq<Param>, name: string, value: string)
    requires forall i :: 0 <= i < |q| ==> q[i].name != name
    ensures Set(q, name, value) == q + [Param(name, value)]
  {
    if q != [] {
      SetAppendsWhenAbsent(q[1..], name, value);
      assert q == [q[0]] + q[1..];
    }
  }

  /** `delete` is idempotent. */
  lemma {:induction false} DeleteTwice(q: seq<Param>, name: string)
    ensures Delete(Delete(q, name), name) == Delete(q, name)
  {
    if q != [] {
      DeleteTwice(q[1..], name);
    }
  }

  /** `set` with the same pair twice gives the list it gave once. */
  lemma {:induction false} SetTwice(q: seq<Param>, name: string, value: string)
    ensures Set(Set(q, name, value), name, value) == Set(q, name, value)
  {
    if q != [] {
      if q[0].name == name {
        DeleteTwice(q[1..], name);
      } else {
        SetTwice(q[1..], name, value);
      }
    }
  }
}
