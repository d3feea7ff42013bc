/** The agent's vendor lookup and the cost-against-limit check. The vendor list
    is a parameter here; reading it from disk and serialising the matches are
    outside the model. */
module Tools {
  import opened Text

  datatype Vendor = Vendor(name: string, product: string, price: real)

  /** The filter condition: the lower-cased query occurs in the lower-cased product. */
  predicate Matches(v: Vendor, query: string) {
    Contains(Lower(v.product), Lower(query))
  }

  /** `xs` can be obtained from `ys` by deleting elements, keeping the order. */
  predicate IsSubsequence<T(==)>(xs: seq<T>, ys: seq<T>)
    decreases |ys|
  {
    if |xs| == 0 then true
    else if |ys| == 0 then false
    else if xs[0] == ys[0] then IsSubsequence(xs[1..], ys[1..])
    else IsSubsequence(xs, ys[1..])
  }

  /** The vendors whose product matches the query, in list order. */
  function SearchVendors(vendors: seq<Vendor>, query: string): (r: seq<Vendor>)
    ensures forall v :: v in r ==> v in vendors && Matches(v, query)
    ensures forall v :: v in vendors && Matches(v, query) ==> v in r
    ensures forall v :: multiset(r)[v] == if Matches(v, query) then multiset(vendors)[v] else 0
    ensures IsSubsequence(r, vendors)
    decreases |vendors|
  {
    if |vendors| == 0 then []
    else
      var rest := SearchVendors(vendors[1..], query);
      assert vendors == [vendors[0]] + vendors[1..];
      if Matches(vendors[0], query) then [vendors[0]] + rest
      else
        assert |rest| > 0 ==> rest[0] != vendors[0];
        rest
  }

  /** Every string contains the empty string. */
  lemma ContainsEmpty(s: string)
    ensures Contains(s, "")
  {
    assert OccursAt(s, "", 0);
  }

  /** An empty query keeps the whole list. */
  lemma {:induction false} EmptyQueryKeepsAll(vendors: seq<Vendor>)
    ensures SearchVendors(vendors, "") == vendors
    decreases |vendors|
  {
    if |vendors| > 0 {
      ContainsEmpty(Lower(vendors[0].product));
      assert Lower("") == "";
      EmptyQueryKeepsAll(vendors[1..]);
      assert vendors == [vendors[0]] + vendors[1..];
    }
  }

  /** The filter ignores the case of the query and of the products. */
  lemma QueryCaseIgnored(vendors: seq<Vendor>, query: string)
    ensures SearchVendors(vendors, Upper(query)) == SearchVendors(vendors, query)
  {
    assert Lower(Upper(query)) == Lower(query);
    assert forall v :: Matches(v, Upper(query)) == Matches(v, query);
    SameFilter(vendors, Upper(query), query);
  }

  lemma {:induction false} SameFilter(vendors: seq<Vendor>, q1: string, q2: string)
    requires forall v :: Matches(v, q1) == Matches(v, q2)
    ensures SearchVendors(vendors, q1) == SearchVendors(vendors, q2)
    decreases |vendors|
  {
    if |vendors| > 0 {
      SameFilter(vendors[1..], q1, q2);
    }
  }

  /** The result of `check_approval_tool`: `PAUSE` with the figures quoted in
      its message, or `OK`. */
  datatype Approval = Pause(cost: real, limit: real) | WithinLimit {
    function Status(): string {
      match this
      case Pause(_, _) => "PAUSE"
      case WithinLimit => "OK"
    }
  }

  /** Costs strictly above the limit need approval; a cost equal to the limit
      does not. */
  function CheckApproval(cost: real, limit: real): (r: Approval)
    ensures r.Status() == "PAUSE" <==> cost > limit
    ensures r.Status() == "OK" <==> cost <= limit
    ensures r.Pause? ==> r.cost == cost && r.limit == limit
  {
    if cost > limit then Pause(cost, limit) else WithinLimit
  }
}
