/** JavaScript `Set` (and the key set of a `Map`) remember insertion order.
    They are modelled as a sequence without duplicates. */
module OrderedSet {

  /** No element occurs twice. */
  predicate NoDups<T(==)>(s: seq<T>) {
    forall i, j :: 0 <= i < j < |s| ==> s[i] != s[j]
  }

  /** The members of the set, forgetting order. */
  function Elems<T(==)>(s: seq<T>): set<T> {
    set x | x in s
  }

  /** `Set.prototype.add`: appends `x` unless it is already a member. */
  function Add<T(==)>(s: seq<T>, x: T): (r: seq<T>)
    ensures Elems(r) == Elems(s) + {x}
    ensures NoDups(s) ==> NoDups(r)
    ensures x in s ==> r == s
    ensures x !in s ==> r == s + [x]
  {
    if x in s then s else s + [x]
  }

  /** `Set.prototype.size` is the length of the duplicate-free sequence. */
  lemma {:induction false} NoDupsCardinality<T>(s: seq<T>)
    requires NoDups(s)
    ensures |Elems(s)| == |s|
  {
    if |s| > 0 {
      var init := s[..|s| - 1];
      var last := s[|s| - 1];
      assert NoDups(init);
      NoDupsCardinality(init);
      assert s == init + [last];
      assert last !in init;
      assert Elems(s) == Elems(init) + {last};
    }
  }
}
