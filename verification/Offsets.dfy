/** The merger's stack of referred-to offsets, once collected: sorted with the smallest on top, and
    without repetitions. */
module Offsets {
  import opened QuickSort

  ghost predicate StrictlyDown(s: seq<nat>) {
    forall i, j :: 0 <= i < j < |s| ==> s[i] > s[j]
  }

  function Greater(): (nat, nat) -> bool {
    (x, y) => x > y
  }

  lemma GreaterIsStrictWeak()
    ensures StrictWeak(Greater())
  {
  }

  /** Keeps one of each run of equal elements, in place; how many are left. */
  method Dedupe(a: array<nat>) returns (n: nat)
    requires a.Length > 0
    modifies a
    ensures 0 < n <= a.Length
    ensures forall x :: x in a[..n] <==> x in old(a[..])
    ensures Sorted(Greater(), old(a[..])) ==> StrictlyDown(a[..n])
  {
    var i, j := 0, 0;
    while i < a.Length
      invariant 0 <= j <= i <= a.Length && j < a.Length && (i > 0 ==> j < i)
      invariant forall k :: i <= k < a.Length ==> a[k] == old(a[k])
      invariant a[0] == old(a[0])
      invariant forall x :: x in a[..j + 1] <==> x in old(a[..i]) || x == old(a[0])
      invariant Sorted(Greater(), old(a[..])) ==> StrictlyDown(a[..j + 1]) && (i > 0 ==> a[j] == old(a[i - 1]))
    {
      ghost var kept, seen := a[..j + 1], old(a[..i]);
      assert old(a[..i + 1]) == seen + [old(a[i])];
      if a[j] != a[i] {
        j := j + 1;
        a[j] := a[i];
        assert a[..j + 1] == kept + [old(a[i])];
      } else {
        assert old(a[i]) in kept by { assert a[j] == a[..j + 1][j]; }
      }
      i := i + 1;
    }
    assert old(a[..i]) == old(a[..]);
    assert old(a[0]) in old(a[..]);
    n := j + 1;
  }

  /** The stack as the merging pass wants it.  Element counts are kept in 32 bits. */
  method SortOffsets(s: seq<nat>) returns (r: seq<nat>)
    requires |s| > 0
    ensures |s| < UNSIGNED ==> StrictlyDown(r) && forall x :: x in r <==> x in s
  {
    var n := |s| % UNSIGNED;
    var a := new nat[n](i requires 0 <= i < n => s[i]);
    assert n == |s| ==> a[..] == s;
    GreaterIsStrictWeak();
    QSort(a, Greater());
    var b := new nat[|s|](i requires 0 <= i < |s| reads a => if i < n then a[i] else s[i]);
    if n == |s| {
      assert a[..] == b[..];
    }
    ghost var sorted := b[..];
    var k := Dedupe(b);
    r := b[..k];
    if n == |s| {
      forall x
        ensures x in sorted <==> x in s
      {
        assert x in sorted <==> x in multiset(sorted);
        assert x in s <==> x in multiset(s);
      }
    }
  }
}
