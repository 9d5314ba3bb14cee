/**
 Ascending order of a finite set of session identifiers: the order in which
 an ordered map visits its keys.
 */
module OrderedKeys {

  /** A set other than the empty one has an element. */
  lemma NonEmptyHasElement(ks: set<int>)
    requires ks != {}
    ensures exists k :: k in ks
  {
    if forall k :: k !in ks {
      assert false;
    }
  }

  /** The least element of a non-empty set. */
  ghost function MinKey(ks: set<int>): (m: int)
    requires ks != {}
    ensures m in ks
    ensures forall k :: k in ks ==> m <= k
  {
    NonEmptyHasElement(ks);
    var x :| x in ks;
    var rest := ks - {x};
    if rest == {} then
      assert ks == {x};
      x
    else
      var y := MinKey(rest);
      assert forall k :: k in ks ==> k == x || k in rest;
      if x <= y then x else y
  }

  /** The elements of `ks`, each once, in strictly ascending order. */
  ghost function SortedKeys(ks: set<int>): (r: seq<int>)
    ensures |r| == |ks|
    ensures forall k :: k in r <==> k in ks
    ensures forall i, j :: 0 <= i < j < |r| ==> r[i] < r[j]
  {
    if ks == {} then []
    else
      var m := MinKey(ks);
      var rest := ks - {m};
      var tail := SortedKeys(rest);
      LeastFirst(ks, m, rest, tail);
      [m] + tail
  }

  /** Putting the least element before an ascending listing of the others gives an ascending listing of all. */
  lemma LeastFirst(ks: set<int>, m: int, rest: set<int>, tail: seq<int>)
    requires m in ks && rest == ks - {m}
    requires forall k :: k in ks ==> m <= k
    requires |tail| == |rest|
    requires forall k :: k in tail <==> k in rest
    requires forall i, j :: 0 <= i < j < |tail| ==> tail[i] < tail[j]
    ensures |[m] + tail| == |ks|
    ensures forall k :: k in [m] + tail <==> k in ks
    ensures forall i, j :: 0 <= i < j < |[m] + tail| ==> ([m] + tail)[i] < ([m] + tail)[j]
  {
    var r := [m] + tail;
    assert |rest| == |ks| - 1;
    forall j | 0 <= j < |tail| ensures m < tail[j] {
      assert tail[j] in tail;
      assert tail[j] in rest;
    }
    forall i, j | 0 <= i < j < |r| ensures r[i] < r[j] {
      assert r[j] == tail[j - 1];
      if i > 0 {
        assert r[i] == tail[i - 1];
      }
    }
    forall k ensures k in r <==> k in ks {
      assert k in r <==> k == m || k in tail;
    }
  }

  /** Any least element is the one MinKey chooses, and the one SortedKeys puts first. */
  lemma MinKeyUnique(ks: set<int>, k: int)
    requires k in ks
    requires forall j :: j in ks ==> k <= j
    ensures k == MinKey(ks)
    ensures SortedKeys(ks) == [k] + SortedKeys(ks - {k})
  {
  }
}
