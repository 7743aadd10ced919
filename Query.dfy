/** The query string `fetchUsers` builds from the debounced filter and the
    sort (src/entities/user/model/UserContext.tsx, the URLSearchParams
    block), and how a server reads it back. */
module Query {
  import opened Types

  /** A filter value is sent only when it is truthy, that is non-empty
      (white space counts: the value is not trimmed). */
  function OptionalParam(key: string, value: string): seq<Param>
  {
    if value != "" then [(key, value)] else []
  }

  /** The parameters in the order they are appended. */
  function QueryParams(f: Filter, s: Sort): seq<Param>
  {
    OptionalParam("name", f.name) + OptionalParam("email", f.email) + OptionalParam("phone", f.phone)
    + [("sortBy", SortFieldName(s.field)), ("order", SortOrderName(s.order))]
  }

  /** The URLSearchParams buffer, filled one `append` at a time. */
  method BuildParams(f: Filter, s: Sort) returns (params: seq<Param>)
    ensures params == QueryParams(f, s)
  {
    params := [];
    if f.name != "" {
      params := params + [("name", f.name)];
    }
    if f.email != "" {
      params := params + [("email", f.email)];
    }
    if f.phone != "" {
      params := params + [("phone", f.phone)];
    }
    params := params + [("sortBy", SortFieldName(s.field))];
    params := params + [("order", SortOrderName(s.order))];
  }

  /** Position of each key in the fixed append order. */
  function KeyRank(key: string): int
  {
    if key == "name" then 0
    else if key == "email" then 1
    else if key == "phone" then 2
    else if key == "sortBy" then 3
    else if key == "order" then 4
    else 5
  }

  /** `URLSearchParams.get`: the value of the first entry with that key. A
      missing key, for which `get` gives `null`, is read as the empty string,
      which the endpoint treats as no constraint. */
  function Lookup(q: seq<Param>, key: string): string
  {
    if q == [] then ""
    else if q[0].0 == key then q[0].1
    else Lookup(q[1..], key)
  }

  /** How the list endpoint reads the query: absent filter keys mean "no
      constraint"; `sortBy` and `order` must name a known field and order. */
  function DecodeQuery(q: seq<Param>): Option<(Filter, Sort)>
  {
    var field := ParseSortField(Lookup(q, "sortBy"));
    var order := ParseSortOrder(Lookup(q, "order"));
    if field.Some? && order.Some? then
      Some((Filter(Lookup(q, "name"), Lookup(q, "email"), Lookup(q, "phone")), Sort(field.value, order.value)))
    else None
  }

  /** Each filter key is present exactly when its value is non-empty, and
      then carries that value. */
  lemma QueryParamsFilterKeys(f: Filter, s: Sort)
    ensures var q := QueryParams(f, s);
      && (forall v :: ("name", v) in q <==> f.name != "" && v == f.name)
      && (forall v :: ("email", v) in q <==> f.email != "" && v == f.email)
      && (forall v :: ("phone", v) in q <==> f.phone != "" && v == f.phone)
  {
  }

  /** `sortBy` and `order` always close the query, after the filter entries. */
  lemma QueryParamsTail(f: Filter, s: Sort)
    ensures var q := QueryParams(f, s);
      && |q| == 2 + |OptionalParam("name", f.name)| + |OptionalParam("email", f.email)| + |OptionalParam("phone", f.phone)|
      && q[|q| - 2] == ("sortBy", SortFieldName(s.field))
      && q[|q| - 1] == ("order", SortOrderName(s.order))
  {
  }

  /** The keys appear in the order name, email, phone, sortBy, order. */
  lemma QueryParamsOrder(f: Filter, s: Sort)
    ensures var q := QueryParams(f, s);
      forall i, j :: 0 <= i < j < |q| ==> KeyRank(q[i].0) < KeyRank(q[j].0)
  {
    var n := OptionalParam("name", f.name);
    var e := OptionalParam("email", f.email);
    var p := OptionalParam("phone", f.phone);
    var t := [("sortBy", SortFieldName(s.field)), ("order", SortOrderName(s.order))];
    var q := n + e + p + t;
    assert QueryParams(f, s) == q;
    forall i | 0 <= i < |q|
      ensures KeyRank(q[i].0) == if i < |n| then 0
        else if i < |n| + |e| then 1
        else if i < |n| + |e| + |p| then 2
        else if i < |q| - 1 then 3 else 4
    {
      if i < |n| {
        assert q[i] == n[i];
      } else if i < |n| + |e| {
        assert q[i] == e[i - |n|];
      } else if i < |n| + |e| + |p| {
        assert q[i] == p[i - |n| - |e|];
      } else {
        assert q[i] == t[i - |n| - |e| - |p|];
      }
    }
  }

  lemma LookupOptional(k: string, v: string, rest: seq<Param>, key: string)
    ensures Lookup(OptionalParam(k, v) + rest, key) == if key == k && v != "" then v else Lookup(rest, key)
  {
    if v == "" {
      assert OptionalParam(k, v) + rest == rest;
    } else {
      assert (OptionalParam(k, v) + rest)[1..] == rest;
    }
  }

  /** The value a key has in the query built from `f` and `s`. */
  lemma {:induction false} LookupQuery(f: Filter, s: Sort, key: string)
    ensures Lookup(QueryParams(f, s), key) ==
      if key == "name" then f.name
      else if key == "email" then f.email
      else if key == "phone" then f.phone
      else if key == "sortBy" then SortFieldName(s.field)
      else if key == "order" then SortOrderName(s.order)
      else ""
  {
    var tail := [("sortBy", SortFieldName(s.field)), ("order", SortOrderName(s.order))];
    assert tail[1..] == [tail[1]] && tail[1..][1..] == [];
    assert Lookup(tail[1..], key) == if key == "order" then SortOrderName(s.order) else "";
    var p := OptionalParam("phone", f.phone) + tail;
    var e := OptionalParam("email", f.email) + p;
    assert QueryParams(f, s) == OptionalParam("name", f.name) + e;
    LookupOptional("name", f.name, e, key);
    LookupOptional("email", f.email, p, key);
    LookupOptional("phone", f.phone, tail, key);
  }

  /** Reading the query back yields exactly the filter and sort it was built from. */
  lemma QueryRoundTrip(f: Filter, s: Sort)
    ensures DecodeQuery(QueryParams(f, s)) == Some((f, s))
  {
    LookupQuery(f, s, "name");
    LookupQuery(f, s, "email");
    LookupQuery(f, s, "phone");
    LookupQuery(f, s, "sortBy");
    LookupQuery(f, s, "order");
  }
}
