/** Ascending listings: what sorting and removing repetitions gives, and why the order of arrival does not matter. */
module Listings {

  /** A strict total order. */
  ghost predicate StrictOrder<T(!new)>(lt: (T, T) -> bool) {
    && (forall a :: !lt(a, a))
    && (forall a, b :: a == b || lt(a, b) || lt(b, a))
    && (forall a, b, c :: lt(a, b) && lt(b, c) ==> lt(a, c))
  }

  predicate Ascending<T>(s: seq<T>, lt: (T, T) -> bool) {
    forall i, j :: 0 <= i < j < |s| ==> lt(s[i], s[j])
  }

  function Inserted<T(==,!new)>(s: seq<T>, x: T, lt: (T, T) -> bool): (r: seq<T>)
    ensures forall y :: y in r <==> y == x || y in s
  {
    if s == [] then [x]
    else if x == s[0] then s
    else if lt(x, s[0]) then [x] + s
    else [s[0]] + Inserted(s[1..], x, lt)
  }

  /** Sorted, with equal entries kept once. */
  function Listing<T(==,!new)>(s: seq<T>, lt: (T, T) -> bool): (r: seq<T>)
    ensures forall y :: y in r <==> y in s
  {
    if s == [] then [] else Inserted(Listing(s[1..], lt), s[0], lt)
  }

  lemma {:induction false} InsertedAscending<T(!new)>(s: seq<T>, x: T, lt: (T, T) -> bool)
    requires StrictOrder(lt) && Ascending(s, lt)
    ensures Ascending(Inserted(s, x, lt), lt)
  {
    if s == [] || x == s[0] || lt(x, s[0]) {
    } else {
      InsertedAscending(s[1..], x, lt);
      var rest := Inserted(s[1..], x, lt);
      forall j | 0 <= j < |rest| ensures lt(s[0], rest[j]) {
        assert rest[j] in rest;
      }
    }
  }

  lemma {:induction false} ListingAscending<T(!new)>(s: seq<T>, lt: (T, T) -> bool)
    requires StrictOrder(lt)
    ensures Ascending(Listing(s, lt), lt)
  {
    if s == [] {
    } else {
      ListingAscending(s[1..], lt);
      InsertedAscending(Listing(s[1..], lt), s[0], lt);
    }
  }

  lemma HasElement<T(!new)>(s: seq<T>)
    requires s != []
    ensures exists x :: x in s
  {
    assert s[0] in s;
  }

  lemma HeadIsLeast<T(!new)>(s: seq<T>, x: T, lt: (T, T) -> bool)
    requires Ascending(s, lt) && x in s
    ensures s[0] in s && (x == s[0] || lt(s[0], x))
  {
  }

  /** Ascending listings of the same entries are the same listing. */
  lemma {:induction false} AscendingUnique<T(!new)>(s: seq<T>, t: seq<T>, lt: (T, T) -> bool)
    requires StrictOrder(lt) && Ascending(s, lt) && Ascending(t, lt)
    requires forall x :: x in s <==> x in t
    ensures s == t
  {
    if s == [] {
      if t != [] { HasElement(t); }
    } else {
      HeadIsLeast(s, s[0], lt);
      HeadIsLeast(t, s[0], lt);
      HeadIsLeast(s, t[0], lt);
      forall x ensures x in s[1..] <==> x in t[1..] {
        SameRest(s, t, x, lt);
        SameRest(t, s, x, lt);
      }
      AscendingUnique(s[1..], t[1..], lt);
    }
  }

  lemma SameRest<T(!new)>(s: seq<T>, t: seq<T>, x: T, lt: (T, T) -> bool)
    requires StrictOrder(lt) && Ascending(s, lt) && s != [] && t != [] && s[0] == t[0]
    requires forall y :: y in s <==> y in t
    ensures x in s[1..] ==> x in t[1..]
  {
    if x in s[1..] {
      var i :| 0 <= i < |s[1..]| && s[1..][i] == x;
      assert s[i + 1] == x && lt(s[0], x);
      assert x in t;
      var j :| 0 <= j < |t| && t[j] == x;
      assert t[1..][j - 1] == x;
    }
  }

  lemma ListingIgnoresOrder<T(!new)>(s: seq<T>, t: seq<T>, lt: (T, T) -> bool)
    requires StrictOrder(lt) && forall x :: x in s <==> x in t
    ensures Listing(s, lt) == Listing(t, lt)
  {
    ListingAscending(s, lt);
    ListingAscending(t, lt);
    AscendingUnique(Listing(s, lt), Listing(t, lt), lt);
  }
}
