/** Month lists of one client: their sets of distinct values, and the
    in-place `sort_unstable` and `dedup` the handler applies to them before
    counting active months (src/handlers.rs:65-70). */
module MonthLists {

  /** The distinct values of a month list. */
  function Elems(s: seq<nat>): set<nat>
    decreases |s|
  {
    if |s| == 0 then {} else Elems(s[..|s| - 1]) + {s[|s| - 1]}
  }

  lemma {:induction false} ElemsMember(s: seq<nat>, x: nat)
    ensures x in Elems(s) <==> x in s
    decreases |s|
  {
    if |s| > 0 {
      assert s == s[..|s| - 1] + [s[|s| - 1]];
      ElemsMember(s[..|s| - 1], x);
    }
  }

  lemma ElemsAppend(s: seq<nat>, t: seq<nat>)
    ensures Elems(s + t) == Elems(s) + Elems(t)
  {
    forall x ensures x in Elems(s + t) <==> x in Elems(s) + Elems(t) {
      ElemsMember(s + t, x);
      ElemsMember(s, x);
      ElemsMember(t, x);
    }
  }

  lemma ElemsOfMultiset(s: seq<nat>, t: seq<nat>)
    requires multiset(s) == multiset(t)
    ensures Elems(s) == Elems(t)
  {
    forall x ensures x in Elems(s) <==> x in Elems(t) {
      ElemsMember(s, x);
      ElemsMember(t, x);
      assert x in s <==> x in multiset(s);
      assert x in t <==> x in multiset(t);
    }
  }

  /** Appending a value already in the list adds no distinct value. */
  lemma ElemsSnocSeen(s: seq<nat>, x: nat)
    requires x in s
    ensures Elems(s + [x]) == Elems(s)
  {
    ElemsAppend(s, [x]);
    assert Elems([x]) == {x};
    ElemsMember(s, x);
  }

  lemma {:induction false} ElemsBound(s: seq<nat>)
    ensures |Elems(s)| <= |s|
    decreases |s|
  {
    if |s| > 0 {
      var init := s[..|s| - 1];
      assert s == init + [s[|s| - 1]];
      ElemsAppend(init, [s[|s| - 1]]);
      assert Elems([s[|s| - 1]]) == {s[|s| - 1]};
      ElemsBound(init);
    }
  }

  /** A strictly increasing list has as many distinct values as entries. */
  lemma {:induction false} StrictlyIncreasingDistinct(s: seq<nat>)
    requires StrictlyIncreasing(s)
    ensures |Elems(s)| == |s|
    decreases |s|
  {
    if |s| > 0 {
      var init := s[..|s| - 1];
      assert s == init + [s[|s| - 1]];
      ElemsAppend(init, [s[|s| - 1]]);
      assert Elems([s[|s| - 1]]) == {s[|s| - 1]};
      assert s[|s| - 1] !in Elems(init) by {
        ElemsMember(init, s[|s| - 1]);
        forall j | 0 <= j < |init| ensures init[j] != s[|s| - 1] {
          assert s[j] < s[|s| - 1];
        }
      }
      StrictlyIncreasingDistinct(init);
    }
  }

  predicate StrictlyIncreasing(s: seq<nat>) {
    forall i, j :: 0 <= i < j < |s| ==> s[i] < s[j]
  }

  /** The first `n` entries are in ascending order. */
  predicate SortedUpTo(s: seq<nat>, n: nat)
    requires n <= |s|
  {
    forall k, l :: 0 <= k < l < n ==> s[k] <= s[l]
  }

  predicate Sorted(s: seq<nat>) {
    SortedUpTo(s, |s|)
  }

  /** The state inside one insertion step: the first `i + 1` entries are in
      order except for position `j`, which holds the value being inserted
      and is smaller than everything after it. */
  predicate Inserting(s: seq<nat>, i: nat, j: nat)
    requires j <= i < |s|
  {
    && (forall k, l :: 0 <= k < l <= i && k != j && l != j ==> s[k] <= s[l])
    && (forall l :: j < l <= i ==> s[j] < s[l])
  }

  /** Swapping the inserted value with a larger left neighbour moves the gap
      one place to the left. */
  lemma SwapStep(s: seq<nat>, i: nat, j: nat)
    requires 0 < j <= i < |s| && Inserting(s, i, j) && s[j - 1] > s[j]
    ensures Inserting(s[j - 1 := s[j]][j := s[j - 1]], i, j - 1)
  {
    var t := s[j - 1 := s[j]][j := s[j - 1]];
    forall k, l | 0 <= k < l <= i && k != j - 1 && l != j - 1
      ensures t[k] <= t[l]
    {
      if l == j {
        assert t[k] == s[k] && t[l] == s[j - 1];
      } else if k == j {
        assert t[k] == s[j - 1] && t[l] == s[l];
      }
    }
  }

  /** Once the inserted value is no smaller than its left neighbour, the first
      `i + 1` entries are in order. */
  lemma InsertDone(s: seq<nat>, i: nat, j: nat)
    requires j <= i < |s| && Inserting(s, i, j) && (j == 0 || s[j - 1] <= s[j])
    ensures SortedUpTo(s, i + 1)
  {
    forall k, l | 0 <= k < l <= i ensures s[k] <= s[l] {
      if l == j && k < j - 1 {
        assert s[k] <= s[j - 1];
      }
    }
  }

  /** `months.sort_unstable()`: an insertion sort in place. On natural
      numbers every sorted permutation is the same list, so the choice of
      algorithm is not observable. */
  method SortUnstable(a: array<nat>)
    modifies a
    ensures Sorted(a[..])
    ensures multiset(a[..]) == multiset(old(a[..]))
  {
    var i := 0;
    while i < a.Length
      invariant 0 <= i <= a.Length
      invariant SortedUpTo(a[..], i)
      invariant multiset(a[..]) == multiset(old(a[..]))
    {
      var j := i;
      while j > 0 && a[j - 1] > a[j]
        invariant 0 <= j <= i
        invariant Inserting(a[..], i, j)
        invariant multiset(a[..]) == multiset(old(a[..]))
      {
        SwapStep(a[..], i, j);
        a[j - 1], a[j] := a[j], a[j - 1];
        j := j - 1;
      }
      InsertDone(a[..], i, j);
      i := i + 1;
    }
  }

  /** One step of `dedup` on a sorted list: the next value is kept exactly
      when it differs from the last kept one, and either way the kept values
      stay strictly increasing and cover the values read. */
  lemma DedupStep(kept: seq<nat>, orig: seq<nat>, r: nat)
    requires Sorted(orig) && 0 < r < |orig|
    requires |kept| > 0 && StrictlyIncreasing(kept) && kept[|kept| - 1] == orig[r - 1]
    requires Elems(kept) == Elems(orig[..r])
    ensures orig[r] != kept[|kept| - 1] ==>
      StrictlyIncreasing(kept + [orig[r]]) && Elems(kept + [orig[r]]) == Elems(orig[..r + 1])
    ensures orig[r] == kept[|kept| - 1] ==> Elems(kept) == Elems(orig[..r + 1])
  {
    assert orig[..r + 1] == orig[..r] + [orig[r]];
    ElemsAppend(orig[..r], [orig[r]]);
    ElemsAppend(kept, [orig[r]]);
    assert orig[r - 1] <= orig[r];
    ElemsMember(kept, kept[|kept| - 1]);
  }

  /** `months.dedup()` on a sorted list: keeps the first of each run of equal
      values, moving the kept values to the front; `len` is the new length. */
  method Dedup(a: array<nat>) returns (len: nat)
    requires Sorted(a[..])
    modifies a
    ensures len <= a.Length
    ensures StrictlyIncreasing(a[..len])
    ensures Elems(a[..len]) == Elems(old(a[..]))
  {
    ghost var orig := a[..];
    if a.Length == 0 {
      return 0;
    }
    len := 1;
    var r := 1;
    assert a[..1] == orig[..1];
    while r < a.Length
      invariant 1 <= len <= r <= a.Length
      invariant StrictlyIncreasing(a[..len])
      invariant Elems(a[..len]) == Elems(orig[..r])
      invariant a[len - 1] == orig[r - 1]
      invariant forall j :: r <= j < a.Length ==> a[j] == orig[j]
    {
      ghost var kept := a[..len];
      DedupStep(kept, orig, r);
      if a[r] != a[len - 1] {
        a[len] := a[r];
        assert a[..len + 1] == kept + [orig[r]];
        len := len + 1;
      }
      r := r + 1;
    }
    assert orig[..a.Length] == orig;
  }
}
