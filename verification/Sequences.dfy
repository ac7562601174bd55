/** Sequence vocabulary shared by the list, the storage and the queues. */
module Sequences {

  ghost predicate Distinct<T>(s: seq<T>) {
    forall i, j :: 0 <= i < j < |s| ==> s[i] != s[j]
  }

  /** The first position of x in s, or |s| when x does not occur. */
  function FirstIndex<T(==)>(s: seq<T>, x: T): (k: nat)
    ensures k <= |s|
    ensures k < |s| <==> x in s
    ensures k < |s| ==> s[k] == x
    ensures forall i :: 0 <= i < k ==> s[i] != x
  {
    if s == [] then 0
    else if s[0] == x then 0
    else
      FirstIndex(s[1..], x) + 1
  }

  lemma FirstIndexIs<T>(s: seq<T>, x: T, k: nat)
    requires k <= |s| && (k < |s| ==> s[k] == x)
    requires forall i :: 0 <= i < k ==> s[i] != x
    ensures FirstIndex(s, x) == k
  {
    var j := FirstIndex(s, x);
    assert j < |s| ==> s[j] == x;
    assert k < |s| ==> x in s;
  }

  function RemoveAt<T>(s: seq<T>, k: nat): (r: seq<T>)
    requires k < |s|
    ensures |r| == |s| - 1
  {
    s[..k] + s[k + 1..]
  }

  /** What removing one entry by value is meant to do. */
  function RemoveFirst<T(==)>(s: seq<T>, x: T): seq<T> {
    if x in s then RemoveAt(s, FirstIndex(s, x)) else s
  }

  /**
   * What removeList leaves reachable from the head: it decides whether the match is
   * the head or the tail by comparing values, not positions.
   */
  function ListRemove<T(==)>(s: seq<T>, x: T): (r: seq<T>)
    ensures x in s ==> |r| < |s|
  {
    if x !in s then s
    else if s[0] == x then s[1..]
    else if s[|s| - 1] == x then s[..FirstIndex(s, x)]
    else RemoveAt(s, FirstIndex(s, x))
  }

  /** The guard under which removeList loses more than the entry it was asked for. */
  predicate TailHidesEarlierMatch<T(==)>(s: seq<T>, x: T) {
    x in s && s[0] != x && s[|s| - 1] == x && FirstIndex(s, x) < |s| - 1
  }

  /** Removing by value meets its intention exactly when the tail hides no earlier match. */
  lemma ListRemoveExact<T>(s: seq<T>, x: T)
    ensures ListRemove(s, x) == RemoveFirst(s, x) <==> !TailHidesEarlierMatch(s, x)
    ensures |ListRemove(s, x)| == (if x in s then |s| - 1 else |s|) <==> !TailHidesEarlierMatch(s, x)
  {
    if x in s {
      var k := FirstIndex(s, x);
      if s[0] == x {
        assert ListRemove(s, x) == RemoveFirst(s, x);
      } else if s[|s| - 1] == x {
        if k == |s| - 1 {
          assert ListRemove(s, x) == RemoveFirst(s, x);
        } else {
          assert |ListRemove(s, x)| == k < |s| - 1;
        }
      }
    }
  }

  /** When the tail hides an earlier match, nothing is left but what stands before the first match. */
  lemma TailLosesRest<T>(s: seq<T>, x: T)
    requires TailHidesEarlierMatch(s, x)
    ensures var r := ListRemove(s, x); r < s && x !in r && s[|r|] == x
  {
  }

  /** A concrete list on which removeList drops three entries instead of one. */
  lemma ListRemoveLosesEntries()
    ensures ListRemove(["a", "b", "c", "b"], "b") == ["a"]
    ensures RemoveFirst(["a", "b", "c", "b"], "b") == ["a", "c", "b"]
  {
    var s := ["a", "b", "c", "b"];
    assert "a"[0] != "b"[0];
    assert s[0] == "a" && s[1] == "b";
    assert FirstIndex(s, "b") == 1;
  }

  lemma RemoveAtDistinct<T>(s: seq<T>, k: nat)
    requires Distinct(s) && k < |s|
    ensures Distinct(RemoveAt(s, k)) && s[k] !in RemoveAt(s, k)
    ensures forall y :: y in RemoveAt(s, k) <==> y in s && y != s[k]
  {
    assert s == s[..k] + [s[k]] + s[k + 1..];
  }

  /** With distinct entries the removal is exact: one entry goes, the rest keep their order. */
  lemma ListRemoveDistinct<T>(s: seq<T>, x: T)
    requires Distinct(s)
    ensures ListRemove(s, x) == RemoveFirst(s, x)
    ensures Distinct(ListRemove(s, x)) && x !in ListRemove(s, x)
    ensures forall y :: y in ListRemove(s, x) <==> y in s && y != x
    ensures |ListRemove(s, x)| == (if x in s then |s| - 1 else |s|)
  {
    ListRemoveExact(s, x);
    if x in s {
      RemoveAtDistinct(s, FirstIndex(s, x));
    }
  }

  lemma DistinctAppend<T>(s: seq<T>, x: T)
    requires Distinct(s) && x !in s
    ensures Distinct(s + [x])
  {
  }

  /** Removing by position is removing by value when entries are distinct. */
  lemma RemoveAtIsListRemove<T>(s: seq<T>, k: nat)
    requires Distinct(s) && k < |s|
    ensures ListRemove(s, s[k]) == RemoveAt(s, k)
  {
    ListRemoveDistinct(s, s[k]);
  }
}
