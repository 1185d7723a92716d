/** Choosing from sets of identifiers, and filtering sequences. */
module Collections {

  /** The least element of a nonempty set: `ORDER BY id` takes rows in this order. */
  function Least(ids: set<nat>): (least: nat)
    requires ids != {}
    ensures least in ids && forall x :: x in ids ==> least <= x
  {
    LeastExists(ids);
    var x :| x in ids && forall y :: y in ids ==> x <= y;
    x
  }

  lemma LeastExists(ids: set<nat>)
    requires ids != {}
    ensures exists x :: x in ids && forall y :: y in ids ==> x <= y
  {
    var x :| x in ids;
    LeastBelow(ids, x);
  }

  lemma {:induction false} LeastBelow(ids: set<nat>, x: nat)
    requires x in ids
    ensures exists least :: least in ids && forall y :: y in ids ==> least <= y
  {
    if y :| y in ids && y < x {
      LeastBelow(ids, y);
    } else {
      assert forall y :: y in ids ==> x <= y;
    }
  }

  /** An identifier no row has, as a random one is taken to be: one above them all. */
  function Fresh(ids: set<nat>): (id: nat)
    ensures id !in ids && forall x :: x in ids ==> x < id
  {
    if ids == {} then 0
    else
      var least := Least(ids);
      var rest := Fresh(ids - {least});
      assert forall x :: x in ids ==> x == least || x in ids - {least};
      if rest > least then rest else least + 1
  }

  /** The elements to keep, in order. */
  function Kept<T(!new)>(s: seq<T>, keep: T -> bool): (k: seq<T>)
    ensures |k| <= |s| && forall x :: x in k <==> x in s && keep(x)
  {
    if s == [] then [] else Kept(s[..|s| - 1], keep) + (if keep(s[|s| - 1]) then [s[|s| - 1]] else [])
  }

  lemma {:induction false} KeptAll<T(!new)>(s: seq<T>, keep: T -> bool)
    requires forall x :: x in s ==> keep(x)
    ensures Kept(s, keep) == s
  {
    if s == [] {
      assert Kept(s, keep) == [];
    } else {
      var init, last := s[..|s| - 1], s[|s| - 1];
      assert s == init + [last] && last in s;
      KeptAll(init, keep);
    }
  }
}
