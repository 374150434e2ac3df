/**
 * The order of a manifest's media table: `mediaCmp` (`strings.Compare` on the paths), what it
 * means for the table to be sorted, and the stable sort that `slices.SortStableFunc` performs.
 *
 * `SortStable` is insertion sort, each entry placed after every entry not greater than it.
 * `StableSortUnique` shows that a sorted sequence that keeps the order of equal-path entries is
 * determined by its input, so this definition is the result of any stable sort, the merging
 * one of the Go library included.
 */
module MediaOrder {
  import opened Outcomes
  import opened GoLib
  import opened MedhashTypes

  /** `mediaCmp`. */
  function MediaCmp(a: Media, b: Media): int {
    Compare(a.path, b.path)
  }

  /** `mediaCmp` is a total preorder that identifies exactly the entries with equal paths. */
  lemma MediaCmpOrder(a: Media, b: Media, c: Media)
    ensures MediaCmp(a, b) == 0 <==> a.path == b.path
    ensures MediaCmp(a, b) == -MediaCmp(b, a)
    ensures MediaCmp(a, b) <= 0 || MediaCmp(b, a) <= 0
    ensures MediaCmp(a, b) <= 0 && MediaCmp(b, c) <= 0 ==> MediaCmp(a, c) <= 0
  {
    CompareAntisymmetric(a.path, b.path);
    if MediaCmp(a, b) <= 0 && MediaCmp(b, c) <= 0 {
      CompareTransitive(a.path, b.path, c.path);
    }
  }

  /** A strict step followed by a non-strict one is strict. */
  lemma MediaCmpStrict(a: Media, b: Media, c: Media)
    requires MediaCmp(a, b) <= 0 && MediaCmp(b, c) < 0
    ensures MediaCmp(a, c) < 0
  {
    MediaCmpOrder(a, b, c);
    CompareAntisymmetric(b.path, c.path);
  }

  predicate Sorted(s: seq<Media>) {
    forall i, j :: 0 <= i < j < |s| ==> MediaCmp(s[i], s[j]) <= 0
  }

  /** The entries of `s` with path `p`, in order. */
  function WithPath(s: seq<Media>, p: string): seq<Media> {
    if |s| == 0 then []
    else WithPath(s[..|s| - 1], p) + (if s[|s| - 1].path == p then [s[|s| - 1]] else [])
  }

  /** `s` with `m` placed after every entry not greater than it. */
  function Insert(s: seq<Media>, m: Media): seq<Media> {
    if |s| == 0 then [m]
    else if MediaCmp(s[|s| - 1], m) <= 0 then s + [m]
    else Insert(s[..|s| - 1], m) + [s[|s| - 1]]
  }

  /** `slices.SortStableFunc(s, mediaCmp)`. */
  function SortStable(s: seq<Media>): seq<Media> {
    if |s| == 0 then [] else Insert(SortStable(s[..|s| - 1]), s[|s| - 1])
  }

  // ---------------------------------------------------------------- insertion

  lemma {:induction false} InsertPermutes(s: seq<Media>, m: Media)
    ensures multiset(Insert(s, m)) == multiset(s) + multiset{m}
    ensures |Insert(s, m)| == |s| + 1
  {
    if |s| > 0 && MediaCmp(s[|s| - 1], m) > 0 {
      InsertPermutes(s[..|s| - 1], m);
      assert s == s[..|s| - 1] + [s[|s| - 1]];
    }
  }

  lemma {:induction false} InsertSorted(s: seq<Media>, m: Media)
    requires Sorted(s)
    ensures Sorted(Insert(s, m))
  {
    if |s| == 0 {
    } else if MediaCmp(s[|s| - 1], m) <= 0 {
      var r := s + [m];
      forall i, j | 0 <= i < j < |r| ensures MediaCmp(r[i], r[j]) <= 0 {
        if j == |s| && i < |s| - 1 {
          MediaCmpOrder(s[i], s[|s| - 1], m);
        }
      }
    } else {
      var init, last := s[..|s| - 1], s[|s| - 1];
      InsertSorted(init, m);
      InsertPermutes(init, m);
      var ins := Insert(init, m);
      forall k | 0 <= k < |ins| ensures MediaCmp(ins[k], last) <= 0 {
        assert ins[k] in multiset(ins);
        if ins[k] == m {
          MediaCmpOrder(m, last, last);
        } else {
          assert ins[k] in multiset(init);
          var i :| 0 <= i < |init| && init[i] == ins[k];
          assert s[i] == init[i];
        }
      }
      var r := ins + [last];
      forall i, j | 0 <= i < j < |r| ensures MediaCmp(r[i], r[j]) <= 0 {
        if j < |ins| {
          assert r[i] == ins[i] && r[j] == ins[j];
        }
      }
    }
  }

  lemma {:induction false} InsertWithPath(s: seq<Media>, m: Media, p: string)
    ensures WithPath(Insert(s, m), p) == WithPath(s, p) + (if m.path == p then [m] else [])
  {
    if |s| == 0 {
      assert WithPath([m], p) == WithPath([], p) + (if m.path == p then [m] else []);
    } else if MediaCmp(s[|s| - 1], m) <= 0 {
      WithPathSnoc(s, m, p);
    } else {
      var init, last := s[..|s| - 1], s[|s| - 1];
      var ins := Insert(init, m);
      assert Insert(s, m) == ins + [last];
      assert WithPath(ins, p) == WithPath(init, p) + (if m.path == p then [m] else []) by {
        InsertWithPath(init, m, p);
      }
      WithPathSnoc(ins, last, p);
      assert last.path != m.path by {
        MediaCmpOrder(last, m, m);
      }
    }
  }

  /** One more entry at the end: it is selected after the others when it has the path. */
  lemma WithPathSnoc(s: seq<Media>, x: Media, p: string)
    ensures WithPath(s + [x], p) == WithPath(s, p) + (if x.path == p then [x] else [])
  {
    assert (s + [x])[..|s|] == s;
  }

  /** Where the entries from index `j` on are all greater than `m` and the one before is not. */
  lemma {:induction false} InsertAt(s: seq<Media>, m: Media, j: nat)
    requires j <= |s|
    requires forall k :: j <= k < |s| ==> MediaCmp(s[k], m) > 0
    requires j == 0 || MediaCmp(s[j - 1], m) <= 0
    ensures Insert(s, m) == s[..j] + [m] + s[j..]
  {
    if |s| == 0 {
    } else if j == |s| {
      assert s[..j] == s;
    } else {
      var init := s[..|s| - 1];
      InsertAt(init, m, j);
      assert init[..j] == s[..j];
      assert init[j..] + [s[|s| - 1]] == s[j..];
    }
  }

  // ---------------------------------------------------------------- the stable sort

  /** The sort orders its input by path. */
  lemma {:induction false} SortStableSorted(s: seq<Media>)
    ensures Sorted(SortStable(s))
  {
    if |s| > 0 {
      SortStableSorted(s[..|s| - 1]);
      InsertSorted(SortStable(s[..|s| - 1]), s[|s| - 1]);
    }
  }

  /** The sort is a permutation of its input. */
  lemma {:induction false} SortStablePermutes(s: seq<Media>)
    ensures multiset(SortStable(s)) == multiset(s)
    ensures |SortStable(s)| == |s|
  {
    if |s| > 0 {
      var init, last := s[..|s| - 1], s[|s| - 1];
      var sorted := SortStable(init);
      assert multiset(sorted) == multiset(init) && |sorted| == |init| by {
        SortStablePermutes(init);
      }
      assert multiset(Insert(sorted, last)) == multiset(sorted) + multiset{last} && |Insert(sorted, last)| == |sorted| + 1 by {
        InsertPermutes(sorted, last);
      }
      assert multiset(s) == multiset(init) + multiset{last} by {
        assert s == init + [last];
      }
      assert SortStable(s) == Insert(sorted, last);
    }
  }

  /** The sort is stable: the entries of each path keep their order. */
  lemma {:induction false} SortStableKeepsOrder(s: seq<Media>, p: string)
    ensures WithPath(SortStable(s), p) == WithPath(s, p)
  {
    if |s| > 0 {
      SortStableKeepsOrder(s[..|s| - 1], p);
      InsertWithPath(SortStable(s[..|s| - 1]), s[|s| - 1], p);
    }
  }

  /** A sorted table is left as it is. */
  lemma {:induction false} SortStableOfSorted(s: seq<Media>)
    requires Sorted(s)
    ensures SortStable(s) == s
  {
    if |s| > 0 {
      var init := s[..|s| - 1];
      assert Sorted(init);
      SortStableOfSorted(init);
      if |init| > 0 {
        assert MediaCmp(init[|init| - 1], s[|s| - 1]) <= 0;
      }
      assert init + [s[|s| - 1]] == s;
    }
  }

  /** Appending to a sorted table and sorting inserts the new entry after its equals. */
  lemma AppendThenSort(s: seq<Media>, m: Media)
    requires Sorted(s)
    ensures SortStable(s + [m]) == Insert(s, m)
  {
    assert (s + [m])[..|s|] == s;
    SortStableOfSorted(s);
  }

  // ---------------------------------------------------------------- uniqueness

  lemma WithPathLast(s: seq<Media>)
    requires |s| > 0
    ensures var p := s[|s| - 1].path;
      |WithPath(s, p)| > 0 && WithPath(s, p)[|WithPath(s, p)| - 1] == s[|s| - 1]
  {
  }

  lemma {:induction false} WithPathMember(s: seq<Media>, p: string)
    requires |WithPath(s, p)| > 0
    ensures exists k :: 0 <= k < |s| && s[k].path == p
  {
    var init := s[..|s| - 1];
    if s[|s| - 1].path != p {
      WithPathMember(init, p);
      var k :| 0 <= k < |init| && init[k].path == p;
      assert s[k] == init[k];
    }
  }

  /** In a sorted table, an entry with some path means the last path is not smaller. */
  lemma LastIsGreatest(s: seq<Media>, p: string, m: Media)
    requires Sorted(s) && |WithPath(s, p)| > 0 && m.path == p
    ensures MediaCmp(m, s[|s| - 1]) <= 0
  {
    WithPathMember(s, p);
    var k :| 0 <= k < |s| && s[k].path == p;
    assert MediaCmp(s[k], s[|s| - 1]) <= 0;
  }

  /** Two sorted tables with the same entries per path end with the same entry. */
  lemma SameLast(t: seq<Media>, u: seq<Media>)
    requires Sorted(t) && Sorted(u) && |t| > 0 && |u| > 0
    requires forall p :: WithPath(t, p) == WithPath(u, p)
    ensures t[|t| - 1] == u[|u| - 1]
  {
    var a, b := t[|t| - 1], u[|u| - 1];
    WithPathLast(t);
    WithPathLast(u);
    assert WithPath(u, a.path) == WithPath(t, a.path);
    assert WithPath(t, b.path) == WithPath(u, b.path);
    LastIsGreatest(u, a.path, a);
    LastIsGreatest(t, b.path, b);
    MediaCmpOrder(a, b, b);
  }

  /** Removing the same last entry from both keeps the entries per path equal. */
  lemma SameInits(t: seq<Media>, u: seq<Media>, t': seq<Media>, u': seq<Media>)
    requires |t| > 0 && |u| > 0 && t[|t| - 1] == u[|u| - 1]
    requires t' == t[..|t| - 1] && u' == u[..|u| - 1]
    requires forall p :: WithPath(t, p) == WithPath(u, p)
    ensures forall p :: WithPath(t', p) == WithPath(u', p)
  {
    var a := t[|t| - 1];
    forall p ensures WithPath(t', p) == WithPath(u', p) {
      var wt, wu := WithPath(t, p), WithPath(u, p);
      assert wt == WithPath(t', p) + (if a.path == p then [a] else []);
      assert wu == WithPath(u', p) + (if a.path == p then [a] else []);
      assert wt == wu;
      if p == a.path {
        var x, y := WithPath(t', p), WithPath(u', p);
        assert x == (x + [a])[..|x|];
        assert y == (y + [a])[..|y|];
        assert |x| == |y|;
        assert x == y;
      } else {
        assert wt == WithPath(t', p) + [];
        assert wu == WithPath(u', p) + [];
        assert WithPath(t', p) == wt;
        assert WithPath(u', p) == wu;
      }
    }
  }

  /** Tables with the same entries per path are empty together. */
  lemma NonEmptyTogether(t: seq<Media>, u: seq<Media>)
    requires forall p :: WithPath(t, p) == WithPath(u, p)
    ensures |t| > 0 <==> |u| > 0
  {
    if |u| > 0 {
      WithPathLast(u);
      assert |WithPath(t, u[|u| - 1].path)| > 0;
    }
    if |t| > 0 {
      WithPathLast(t);
      assert |WithPath(u, t[|t| - 1].path)| > 0;
    }
  }

  /**
   * Two sorted tables with the same entries per path, in the same order, are equal: a sorted
   * stable permutation is unique.
   */
  lemma {:induction false} SortedSamePathsEqual(t: seq<Media>, u: seq<Media>)
    requires Sorted(t) && Sorted(u)
    requires forall p :: WithPath(t, p) == WithPath(u, p)
    ensures t == u
    decreases |t| + |u|
  {
    NonEmptyTogether(t, u);
    if |t| > 0 {
      SameLast(t, u);
      var t', u' := t[..|t| - 1], u[..|u| - 1];
      SameInits(t, u, t', u');
      assert Sorted(t') && Sorted(u');
      SortedSamePathsEqual(t', u');
      assert t == t' + [t[|t| - 1]] && u == u' + [u[|u| - 1]];
    }
  }

  /** Any sorted table that keeps each path's entries in input order is `SortStable` of the input. */
  lemma StableSortUnique(s: seq<Media>, t: seq<Media>)
    requires Sorted(t)
    requires forall p :: WithPath(t, p) == WithPath(s, p)
    ensures t == SortStable(s)
  {
    SortStableSorted(s);
    forall p ensures WithPath(t, p) == WithPath(SortStable(s), p) {
      SortStableKeepsOrder(s, p);
    }
    SortedSamePathsEqual(t, SortStable(s));
  }

  // ---------------------------------------------------------------- lookup

  /** The index of the first entry with path `p`, if any: the reference for the binary search. */
  function FirstWithPath(s: seq<Media>, p: string): (r: Option<nat>)
    ensures r.Some? ==> r.value < |s| && s[r.value].path == p
    ensures r.Some? ==> forall k :: 0 <= k < r.value ==> s[k].path != p
    ensures r.None? ==> forall k :: 0 <= k < |s| ==> s[k].path != p
  {
    if |s| == 0 then None
    else if s[0].path == p then Some(0)
    else match FirstWithPath(s[1..], p)
      case None => None
      case Some(i) => Some(i + 1)
  }
}
