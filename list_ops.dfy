/** The Python list operations the macro editor relies on, as functions on
    sequences: lookup by identity, removal of one entry, and exchange of two. */
module ListOps {

  /** No entry occurs twice: the editor's lines are distinct objects. */
  ghost predicate Distinct<T>(s: seq<T>)
  {
    forall i, j :: 0 <= i < |s| && 0 <= j < |s| && i != j ==> s[i] != s[j]
  }

  /** Position of the first occurrence of `x`, as Python's `list.index`
      computes it (which raises when `x` is absent, hence the precondition). */
  function IndexOf<T(==)>(s: seq<T>, x: T): (i: nat)
    requires x in s
    ensures i < |s| && s[i] == x
    ensures forall j :: 0 <= j < i ==> s[j] != x
  {
    if s[0] == x then 0 else 1 + IndexOf(s[1..], x)
  }

  /** In a list of distinct entries, the entry at position `i` is found at `i`. */
  lemma IndexOfDistinct<T>(s: seq<T>, i: nat)
    requires Distinct(s) && i < |s|
    ensures IndexOf(s, s[i]) == i
  {
  }

  /** The list with the entry at position `i` taken out. */
  function RemoveAt<T>(s: seq<T>, i: nat): (r: seq<T>)
    requires i < |s|
    ensures |r| == |s| - 1
    ensures multiset(r) + multiset{s[i]} == multiset(s)
  {
    assert s == s[..i] + [s[i]] + s[i + 1..];
    s[..i] + s[i + 1..]
  }

  /** Removal shortens the list by one, keeps every other entry in its relative
      order, and the removed entry together with the rest is the original multiset. */
  lemma RemoveAtSpec<T>(s: seq<T>, i: nat)
    requires i < |s|
    ensures |RemoveAt(s, i)| == |s| - 1
    ensures forall j :: 0 <= j < i ==> RemoveAt(s, i)[j] == s[j]
    ensures forall j :: i <= j < |s| - 1 ==> RemoveAt(s, i)[j] == s[j + 1]
    ensures multiset(RemoveAt(s, i)) + multiset{s[i]} == multiset(s)
  {
  }

  /** Removing an entry from a list of distinct entries keeps it distinct and
      leaves no trace of that entry. */
  lemma RemoveAtDistinct<T>(s: seq<T>, i: nat)
    requires Distinct(s) && i < |s|
    ensures Distinct(RemoveAt(s, i))
    ensures s[i] !in RemoveAt(s, i)
  {
  }

  /** The list with the entries at `i` and `j` exchanged. */
  function Swapped<T>(s: seq<T>, i: nat, j: nat): (r: seq<T>)
    requires i < |s| && j < |s|
    ensures |r| == |s| && r[i] == s[j] && r[j] == s[i]
  {
    s[i := s[j]][j := s[i]]
  }

  /** Exchanging two entries puts each where the other was, leaves every other
      position untouched and yields a permutation of the list. */
  lemma SwappedSpec<T>(s: seq<T>, i: nat, j: nat)
    requires i < |s| && j < |s|
    ensures |Swapped(s, i, j)| == |s|
    ensures Swapped(s, i, j)[i] == s[j] && Swapped(s, i, j)[j] == s[i]
    ensures forall k :: 0 <= k < |s| && k != i && k != j ==> Swapped(s, i, j)[k] == s[k]
    ensures multiset(Swapped(s, i, j)) == multiset(s)
  {
  }

  /** Exchanging the same two entries again restores the list: moving a line
      down and then back up undoes the move. */
  lemma SwappedTwice<T>(s: seq<T>, i: nat, j: nat)
    requires i < |s| && j < |s|
    ensures Swapped(Swapped(s, i, j), j, i) == s
  {
  }

  /** Exchanging two entries of a list of distinct entries keeps it distinct. */
  lemma SwappedDistinct<T>(s: seq<T>, i: nat, j: nat)
    requires Distinct(s) && i < |s| && j < |s|
    ensures Distinct(Swapped(s, i, j))
  {
  }
}
