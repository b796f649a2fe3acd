/**
 * std::remove_if as the engine uses it: WITHOUT the follow-up erase.
 *
 * remove_if moves the elements that are not marked to the front, keeping
 * their order, and leaves the length of the container unchanged. The
 * positions from k on (k = number of unmarked elements) keep whatever the
 * algorithm left there: the usual implementation (find the first marked
 * element, then move every later unmarked element down) leaves a marked
 * element that was never overwritten, or the moved-from husk of an unmarked
 * element that was moved down. `hollow` says what moving leaves behind
 * (a null pointer for a std::unique_ptr).
 */
module StdAlgorithms {

  /** The unmarked elements of s, in their original order. */
  function Kept<T>(s: seq<T>, marked: seq<bool>): (r: seq<T>)
    requires |marked| == |s|
    ensures |r| <= |s|
    decreases |s|
  {
    if |s| == 0 then []
    else Kept(s[..|s| - 1], marked[..|s| - 1]) + (if marked[|s| - 1] then [] else [s[|s| - 1]])
  }

  /** The container after remove_if (no erase). */
  function AfterRemoveIf<T>(s: seq<T>, marked: seq<bool>, hollow: T -> T): (r: seq<T>)
    requires |marked| == |s|
    ensures |r| == |s|
  {
    var kept := Kept(s, marked);
    kept + seq(|s| - |kept|, i requires 0 <= i < |s| - |kept| =>
                 if marked[|kept| + i] then s[|kept| + i] else hollow(s[|kept| + i]))
  }

  lemma {:induction false} KeptNoneMarked<T>(s: seq<T>, marked: seq<bool>)
    requires |marked| == |s|
    requires forall i :: 0 <= i < |s| ==> !marked[i]
    ensures Kept(s, marked) == s
    decreases |s|
  {
    if |s| > 0 {
      KeptNoneMarked(s[..|s| - 1], marked[..|s| - 1]);
      assert s[..|s| - 1] + [s[|s| - 1]] == s;
    }
  }

  lemma {:induction false} KeptAllMarked<T>(s: seq<T>, marked: seq<bool>)
    requires |marked| == |s|
    requires forall i :: 0 <= i < |s| ==> marked[i]
    ensures Kept(s, marked) == []
    decreases |s|
  {
    if |s| > 0 {
      KeptAllMarked(s[..|s| - 1], marked[..|s| - 1]);
    }
  }

  /** Kept grows by one step of the scan. */
  lemma KeptSnoc<T>(s: seq<T>, marked: seq<bool>, j: nat)
    requires |marked| == |s| && j < |s|
    ensures Kept(s[..j + 1], marked[..j + 1]) ==
            Kept(s[..j], marked[..j]) + (if marked[j] then [] else [s[j]])
  {
    assert s[..j + 1][..j] == s[..j];
    assert marked[..j + 1][..j] == marked[..j];
  }

  /** remove_if keeps the length, and its first k entries are exactly the unmarked ones in order. */
  lemma RemoveIfCompacts<T>(s: seq<T>, marked: seq<bool>, hollow: T -> T)
    requires |marked| == |s|
    ensures var r := AfterRemoveIf(s, marked, hollow);
            |r| == |s| && r[..|Kept(s, marked)|] == Kept(s, marked)
  {
  }

  /**
   * Every entry past the kept prefix is either an original marked element
   * left in place, or the husk of an unmarked element that was moved down.
   */
  lemma RemoveIfTail<T>(s: seq<T>, marked: seq<bool>, hollow: T -> T, j: nat)
    requires |marked| == |s|
    requires |Kept(s, marked)| <= j < |s|
    ensures var r := AfterRemoveIf(s, marked, hollow);
            (marked[j] && r[j] == s[j]) || (!marked[j] && r[j] == hollow(s[j]))
  {
  }

  /** When every element is marked, remove_if leaves the container as it was. */
  lemma RemoveIfAllMarked<T>(s: seq<T>, marked: seq<bool>, hollow: T -> T)
    requires |marked| == |s|
    requires forall i :: 0 <= i < |s| ==> marked[i]
    ensures AfterRemoveIf(s, marked, hollow) == s
  {
    KeptAllMarked(s, marked);
  }

  /** When no element is marked, remove_if leaves the container as it was. */
  lemma RemoveIfNoneMarked<T>(s: seq<T>, marked: seq<bool>, hollow: T -> T)
    requires |marked| == |s|
    requires forall i :: 0 <= i < |s| ==> !marked[i]
    ensures AfterRemoveIf(s, marked, hollow) == s
  {
    KeptNoneMarked(s, marked);
  }

  /** If no unmarked element follows a marked one, Kept is the part before the first mark. */
  lemma {:induction false} KeptMarkedSuffix<T>(s: seq<T>, marked: seq<bool>, m: nat)
    requires |marked| == |s| && m <= |s|
    requires forall i :: 0 <= i < m ==> !marked[i]
    requires forall i :: m <= i < |s| ==> marked[i]
    ensures Kept(s, marked) == s[..m]
    decreases |s|
  {
    if |s| == m {
      KeptNoneMarked(s, marked);
      assert s[..m] == s;
    } else {
      KeptMarkedSuffix(s[..|s| - 1], marked[..|s| - 1], m);
      assert s[..|s| - 1][..m] == s[..m];
    }
  }

  /**
   * When the marked elements all come after the unmarked ones, remove_if
   * moves nothing: the container is left as it was.
   */
  lemma RemoveIfMarkedSuffix<T>(s: seq<T>, marked: seq<bool>, hollow: T -> T, m: nat)
    requires |marked| == |s| && m <= |s|
    requires forall i :: 0 <= i < m ==> !marked[i]
    requires forall i :: m <= i < |s| ==> marked[i]
    ensures AfterRemoveIf(s, marked, hollow) == s
  {
    KeptMarkedSuffix(s, marked, m);
    var r := AfterRemoveIf(s, marked, hollow);
    forall p | 0 <= p < |s|
      ensures r[p] == s[p]
    {
      if p < m {
        assert r[p] == s[..m][p];
      }
    }
  }

  /** What holds after the scan has looked at s[..j] and written k survivors. */
  ghost predicate Scanned<T>(s: seq<T>, marked: seq<bool>, hollow: T -> T, r: seq<T>, k: nat, j: nat)
    requires |marked| == |s|
  {
    k < j <= |s| && |r| == |s| &&
    r[..k] == Kept(s[..j], marked[..j]) &&
    (forall p :: k <= p < j ==> r[p] == (if marked[p] then s[p] else hollow(s[p]))) &&
    r[j..] == s[j..]
  }

  lemma ScanStart<T>(s: seq<T>, marked: seq<bool>, hollow: T -> T, f: nat)
    requires |marked| == |s| && f < |s| && marked[f]
    requires forall p :: 0 <= p < f ==> !marked[p]
    ensures Scanned(s, marked, hollow, s, f, f + 1)
  {
    KeptNoneMarked(s[..f], marked[..f]);
    KeptSnoc(s, marked, f);
  }

  lemma ScanStep<T>(s: seq<T>, marked: seq<bool>, hollow: T -> T, r: seq<T>, k: nat, j: nat)
    requires |marked| == |s| && j < |s|
    requires Scanned(s, marked, hollow, r, k, j)
    ensures !marked[j] ==> Scanned(s, marked, hollow, r[k := s[j]][j := hollow(s[j])], k + 1, j + 1)
    ensures marked[j] ==> Scanned(s, marked, hollow, r, k, j + 1)
  {
    KeptSnoc(s, marked, j);
    assert r[j] == r[j..][0];
    if !marked[j] {
      var r' := r[k := s[j]][j := hollow(s[j])];
      assert r'[..k + 1] == r[..k] + [s[j]];
      assert r'[j + 1..] == r[j + 1..];
      assert r[j + 1..] == r[j..][1..];
    } else {
      assert r[j + 1..] == r[j..][1..];
    }
  }

  lemma ScanEnd<T>(s: seq<T>, marked: seq<bool>, hollow: T -> T, r: seq<T>, k: nat)
    requires |marked| == |s|
    requires Scanned(s, marked, hollow, r, k, |s|)
    ensures k == |Kept(s, marked)|
    ensures r == AfterRemoveIf(s, marked, hollow)
  {
    assert s[..|s|] == s && marked[..|s|] == marked;
    var spec := AfterRemoveIf(s, marked, hollow);
    forall p | 0 <= p < |r|
      ensures r[p] == spec[p]
    {
      if p < k {
        assert r[p] == r[..k][p];
      }
    }
  }

  /**
   * The algorithm: find the first marked element, then move every later
   * unmarked element down to the next free slot. Returns the new contents
   * and the iterator (index) remove_if returns.
   */
  method RemoveIf<T>(s: seq<T>, marked: seq<bool>, hollow: T -> T) returns (r: seq<T>, k: nat)
    requires |marked| == |s|
    ensures k == |Kept(s, marked)|
    ensures r == AfterRemoveIf(s, marked, hollow)
  {
    var f := 0;
    while f < |s| && !marked[f]
      invariant 0 <= f <= |s|
      invariant forall p :: 0 <= p < f ==> !marked[p]
    {
      f := f + 1;
    }
    if f == |s| {
      RemoveIfNoneMarked(s, marked, hollow);
      KeptNoneMarked(s, marked);
      return s, |s|;
    }
    ScanStart(s, marked, hollow, f);
    r, k := s, f;
    var j := f + 1;
    while j < |s|
      invariant Scanned(s, marked, hollow, r, k, j)
      decreases |s| - j
    {
      ScanStep(s, marked, hollow, r, k, j);
      if !marked[j] {
        r := r[k := s[j]][j := hollow(s[j])];
        k := k + 1;
      }
      j := j + 1;
    }
    ScanEnd(s, marked, hollow, r, k);
  }
}
