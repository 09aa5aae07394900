/** Deleting from a Go slice while ranging over it: `range` walks the length and backing
    array the slice had at the start, while each deletion shifts the array in place and
    shortens the slice. */
module RangeRemoval {

  /** What stays live: after a deletion the element that moved into the hole is not looked at. */
  function Kept<T(==)>(s: seq<T>, p: nat, x: T): seq<T>
    decreases |s| - p
  {
    if p >= |s| then []
    else if s[p] != x then [s[p]] + Kept(s, p + 1, x)
    else if p + 1 < |s| then [s[p + 1]] + Kept(s, p + 2, x)
    else []
  }

  /** The last element is to go and so is an earlier one: the walk reaches a stale copy of
      the last element beyond the shortened slice, and slices out of range. */
  predicate Panics<T(==)>(s: seq<T>, x: T) {
    s != [] && s[|s| - 1] == x && x in s[..|s| - 1]
  }

  function Without<T(==,!new)>(s: seq<T>, x: T): (r: seq<T>)
    ensures x !in r
    ensures forall y :: y != x ==> (y in r <==> y in s)
  {
    if s == [] then []
    else if s[0] == x then Without(s[1..], x)
    else [s[0]] + Without(s[1..], x)
  }

  predicate Adjacent<T(==)>(s: seq<T>, x: T) {
    exists i :: 0 <= i < |s| - 1 && s[i] == x && s[i + 1] == x
  }

  /** The in-place shift behind `append(pvc[:k], pvc[k+1:]...)`. */
  method ShiftLeft<T>(a: array<T>, k: nat, len: nat, ghost n: nat)
    requires k < len <= n <= a.Length
    modifies a
    ensures a[..n] == old(a[..n])[..k] + old(a[..n])[k + 1..len] + old(a[..n])[len - 1..]
  {
    for i := k to len - 1
      invariant forall j :: 0 <= j < k || len - 1 <= j < a.Length ==> a[j] == old(a[j])
      invariant forall j :: k <= j < i ==> a[j] == old(a[j + 1])
      invariant forall j :: i <= j < len ==> a[j] == old(a[j])
    {
      a[i] := a[i + 1];
    }
  }

  /** The walk before iteration `k`, seen on the cells `b` the slice started with: `kept`
      is settled, `s[p..]` follows it if anything is left to look at, and every cell beyond
      the shortened slice still holds the original last element. */
  ghost predicate Walk<T>(s: seq<T>, x: T, b: seq<T>, k: nat, len: nat, p: nat, kept: seq<T>) {
    && |b| == |s| && len <= |s| && k <= |s|
    && kept + Kept(s, p, x) == Kept(s, 0, x)
    && (forall j :: len <= j < |s| ==> b[j] == s[|s| - 1])
    && (p < |s| ==> |kept| == k && len - k == |s| - p && b[..len] == kept + s[p..])
    && (p >= |s| ==> len == |kept| <= k && b[..len] == kept)
  }

  /** `hit` is an element deleted so far, if there is one; a walk that runs past the live
      part has deleted one that was not the last. */
  ghost predicate Hits<T>(s: seq<T>, x: T, k: nat, len: nat, p: nat, hit: nat) {
    && (len < |s| ==> hit < |s| && hit < p && s[hit] == x)
    && (len >= |s| ==> forall i :: 0 <= i < p && i < |s| ==> s[i] != x)
    && (p >= |s| && k < |s| ==> hit < |s| - 1 && s[hit] == x)
    && (p >= |s| && Panics(s, x) ==> k < |s|)
  }

  /** Where the walk goes on after deleting `s[p]`, and what is settled by then. */
  ghost function AfterDeletion<T>(s: seq<T>, p: nat): nat {
    if p + 1 < |s| then p + 2 else p + 1
  }

  ghost function KeptAfter<T>(s: seq<T>, p: nat, kept: seq<T>): seq<T> {
    if p + 1 < |s| then kept + [s[p + 1]] else kept
  }

  lemma WalkStarts<T>(s: seq<T>, x: T)
    ensures Walk(s, x, s, 0, |s|, 0, []) && Hits(s, x, 0, |s|, 0, 0)
  {
  }

  lemma WalkPasses<T>(s: seq<T>, x: T, b: seq<T>, k: nat, len: nat, p: nat, kept: seq<T>)
    requires Walk(s, x, b, k, len, p, kept) && k < |s| && b[k] != x && p < |s|
    ensures s[p] != x
    ensures Walk(s, x, b, k + 1, len, p + 1, kept + [s[p]])
  {
  }

  /** Where the walk sees the element, and what it means when that is out of range. */
  lemma WalkMatches<T>(s: seq<T>, x: T, b: seq<T>, k: nat, len: nat, p: nat, kept: seq<T>, hit: nat)
    requires Walk(s, x, b, k, len, p, kept) && Hits(s, x, k, len, p, hit) && k < |s| && b[k] == x
    ensures k + 1 > len ==> Panics(s, x)
    ensures k + 1 <= len ==> p < |s| && s[p] == x
  {
  }

  lemma HitsPasses<T>(s: seq<T>, x: T, k: nat, len: nat, p: nat, hit: nat)
    requires Hits(s, x, k, len, p, hit) && k < |s|
    requires if p < |s| then s[p] != x && len - k == |s| - p else s[|s| - 1] != x
    ensures Hits(s, x, k + 1, len, if p < |s| then p + 1 else p, hit)
  {
  }

  lemma HitsDeletes<T>(s: seq<T>, x: T, k: nat, len: nat, p: nat, hit: nat)
    requires Hits(s, x, k, len, p, hit) && k < len <= |s| && p < |s| && s[p] == x && len - k == |s| - p
    ensures Hits(s, x, k + 1, len - 1, AfterDeletion(s, p), if p + 1 == |s| && len < |s| then hit else p)
  {
  }

  lemma ShiftedCells<T>(b: seq<T>, b': seq<T>, k: nat, len: nat)
    requires k < len <= |b|
    requires b' == b[..k] + b[k + 1..len] + b[len - 1..]
    ensures |b'| == |b|
    ensures b'[..len - 1] == b[..k] + b[k + 1..len]
    ensures forall j :: len - 1 <= j < |b| ==> b'[j] == b[j]
  {
  }

  /** One deletion: the live part loses `s[p]` and passes over its successor unseen. */
  lemma WalkDeletes<T>(s: seq<T>, x: T, b: seq<T>, b': seq<T>, k: nat, len: nat, p: nat, kept: seq<T>)
    requires Walk(s, x, b, k, len, p, kept) && p < |s| && s[p] == x && k < len
    requires b' == b[..k] + b[k + 1..len] + b[len - 1..]
    ensures Walk(s, x, b', k + 1, len - 1, AfterDeletion(s, p), KeptAfter(s, p, kept))
  {
    var n := |s|;
    var live := b[..len];
    ShiftedCells(b, b', k, len);
    assert b[..k] == live[..k] == kept;
    assert b[k + 1..len] == live[k + 1..] == s[p + 1..];
    assert b[len - 1] == live[len - 1] == s[n - 1];
    if p + 1 < n {
      var q := s[p + 1];
      assert kept + ([q] + Kept(s, p + 2, x)) == (kept + [q]) + Kept(s, p + 2, x);
      assert kept + s[p + 1..] == (kept + [q]) + s[p + 2..];
      if p + 2 == n {
        assert s[p + 2..] == [];
      }
    } else {
      assert kept + [] == kept;
      assert s[p + 1..] == [];
    }
  }

  lemma WalkEnds<T>(s: seq<T>, x: T, b: seq<T>, len: nat, p: nat, kept: seq<T>)
    requires Walk(s, x, b, |s|, len, p, kept)
    ensures b[..len] == Kept(s, 0, x)
  {
  }

  /** The removal loop on the live part `a[..n]` of a slice: it panics exactly when
      `Panics` says, and otherwise leaves `Kept` live. */
  method RemoveWhileRanging<T(==)>(a: array<T>, n: nat, x: T) returns (len: nat, panicked: bool)
    requires n <= a.Length
    modifies a
    ensures panicked <==> Panics(old(a[..n]), x)
    ensures !panicked ==> len <= n && a[..len] == Kept(old(a[..n]), 0, x)
  {
    ghost var s := a[..n];
    ghost var kept: seq<T> := [];
    ghost var p: nat, hit: nat := 0, 0;
    len := n;
    WalkStarts(s, x);
    for k := 0 to n
      invariant Walk(s, x, a[..n], k, len, p, kept)
      invariant Hits(s, x, k, len, p, hit)
    {
      ghost var b := a[..n];
      if a[k] == x {
        WalkMatches(s, x, b, k, len, p, kept, hit);
        if k + 1 > len {
          return len, true;
        }
        ShiftLeft(a, k, len, n);
        HitsDeletes(s, x, k, len, p, hit);
        WalkDeletes(s, x, b, a[..n], k, len, p, kept);
        kept, hit, p := KeptAfter(s, p, kept), if p + 1 == n && len < n then hit else p, AfterDeletion(s, p);
        len := len - 1;
      } else if p < n {
        WalkPasses(s, x, b, k, len, p, kept);
        HitsPasses(s, x, k, len, p, hit);
        kept, p := kept + [s[p]], p + 1;
      } else {
        HitsPasses(s, x, k, len, p, hit);
      }
    }
    WalkEnds(s, x, a[..n], len, p, kept);
    assert a[..n][..len] == a[..len];
    panicked := false;
  }

  lemma {:induction false} KeptWithoutIff<T(!new)>(s: seq<T>, p: nat, x: T)
    requires p <= |s|
    ensures Kept(s, p, x) == Without(s[p..], x) <==> !Adjacent(s[p..], x)
    decreases |s| - p
  {
    var t := s[p..];
    if p < |s| {
      var u := s[p + 1..];
      assert t == [s[p]] + u;
      if s[p] != x {
        KeptWithoutIff(s, p + 1, x);
        assert Adjacent(t, x) ==> Adjacent(u, x) by {
          if i :| 0 <= i < |t| - 1 && t[i] == x && t[i + 1] == x {
            assert u[i - 1] == x && u[i] == x;
          }
        }
        assert Adjacent(u, x) ==> Adjacent(t, x) by {
          if i :| 0 <= i < |u| - 1 && u[i] == x && u[i + 1] == x {
            assert t[i + 1] == x && t[i + 2] == x;
          }
        }
        assert ([s[p]] + Kept(s, p + 1, x))[1..] == Kept(s, p + 1, x);
        assert ([s[p]] + Without(u, x))[1..] == Without(u, x);
      } else if p + 1 < |s| {
        var v := s[p + 2..];
        assert u == [s[p + 1]] + v;
        if s[p + 1] == x {
          assert t[0] == x && t[1] == x;
          assert Kept(s, p, x)[0] == x;
        } else {
          KeptWithoutIff(s, p + 2, x);
          assert Adjacent(t, x) ==> Adjacent(v, x) by {
            if i :| 0 <= i < |t| - 1 && t[i] == x && t[i + 1] == x {
              assert v[i - 2] == x && v[i - 1] == x;
            }
          }
          assert Adjacent(v, x) ==> Adjacent(t, x) by {
            if i :| 0 <= i < |v| - 1 && v[i] == x && v[i + 1] == x {
              assert t[i + 2] == x && t[i + 3] == x;
            }
          }
          assert ([s[p + 1]] + Kept(s, p + 2, x))[1..] == Kept(s, p + 2, x);
          assert ([s[p + 1]] + Without(v, x))[1..] == Without(v, x);
        }
      }
    }
  }

  /** Exactly when the loop does its job, removing every copy and nothing else: no two
      copies side by side, and not a copy in last place besides an earlier one. */
  lemma RemovalCorrectIff<T(!new)>(s: seq<T>, x: T)
    ensures (!Panics(s, x) && Kept(s, 0, x) == Without(s, x))
            <==> (!Adjacent(s, x) && !(s != [] && s[|s| - 1] == x && x in s[..|s| - 1]))
  {
    KeptWithoutIff(s, 0, x);
    assert s[0..] == s;
  }

  lemma TwoCopies<T>(s: seq<T>, x: T, i: nat, j: nat)
    requires i < j < |s| && s[i] == x && s[j] == x
    ensures multiset(s)[x] >= 2
  {
    assert s == s[..i] + [x] + s[i + 1..j] + [x] + s[j + 1..];
  }

  /** A single copy is removed without a panic, whatever its position. */
  lemma SingleCopyRemoved<T(!new)>(s: seq<T>, x: T)
    requires multiset(s)[x] <= 1
    ensures !Panics(s, x) && Kept(s, 0, x) == Without(s, x)
  {
    if Panics(s, x) {
      var i :| 0 <= i < |s| - 1 && s[i] == x;
      TwoCopies(s, x, i, |s| - 1);
    }
    if Adjacent(s, x) {
      var i :| 0 <= i < |s| - 1 && s[i] == x && s[i + 1] == x;
      TwoCopies(s, x, i, i + 1);
    }
    RemovalCorrectIff(s, x);
  }

  lemma {:induction false} WithoutCounts<T(!new)>(s: seq<T>, x: T, y: T)
    ensures multiset(Without(s, x))[y] == if y == x then 0 else multiset(s)[y]
  {
    if s != [] {
      assert s == [s[0]] + s[1..];
      WithoutCounts(s[1..], x, y);
    }
  }
}
