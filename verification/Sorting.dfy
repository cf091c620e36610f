/** `Array.prototype.sort`: stable, by an order that is total and transitive. */
module Sorting {
  ghost predicate IsOrder<T(!new)>(le: (T, T) -> bool) {
    && (forall a, b :: le(a, b) || le(b, a))
    && (forall a, b, c :: le(a, b) && le(b, c) ==> le(a, c))
  }

  ghost predicate Sorted<T>(s: seq<T>, le: (T, T) -> bool) {
    forall i, j :: 0 <= i < j < |s| ==> le(s[i], s[j])
  }

  /** `x` put after everything that is not greater. */
  function Insert<T>(x: T, s: seq<T>, le: (T, T) -> bool): seq<T> {
    if s == [] || le(s[|s| - 1], x) then s + [x] else Insert(x, s[..|s| - 1], le) + [s[|s| - 1]]
  }

  function Sort<T>(s: seq<T>, le: (T, T) -> bool): seq<T> {
    if s == [] then [] else Insert(s[|s| - 1], Sort(s[..|s| - 1], le), le)
  }

  lemma {:induction false} InsertKeeps<T(!new)>(x: T, s: seq<T>, le: (T, T) -> bool)
    ensures multiset(Insert(x, s, le)) == multiset(s) + multiset{x}
  {
    if s == [] || le(s[|s| - 1], x) {
    } else {
      InsertKeeps(x, s[..|s| - 1], le);
      assert s == s[..|s| - 1] + [s[|s| - 1]];
    }
  }

  lemma InsertMembers<T(!new)>(x: T, s: seq<T>, le: (T, T) -> bool)
    ensures forall y :: y in Insert(x, s, le) ==> y == x || y in s
  {
    var r := Insert(x, s, le);
    InsertKeeps(x, s, le);
    forall y | y in r ensures y == x || y in s {
      assert y in multiset(r);
    }
  }

  lemma {:induction false} InsertMeaning<T(!new)>(x: T, s: seq<T>, le: (T, T) -> bool)
    requires IsOrder(le) && Sorted(s, le)
    ensures Sorted(Insert(x, s, le), le)
    ensures multiset(Insert(x, s, le)) == multiset(s) + multiset{x}
  {
    InsertKeeps(x, s, le);
    if s == [] || le(s[|s| - 1], x) {
    } else {
      var front, last := s[..|s| - 1], s[|s| - 1];
      InsertMeaning(x, front, le);
      InsertMembers(x, front, le);
      var r := Insert(x, front, le);
      forall i | 0 <= i < |r| ensures le(r[i], last) {
        assert r[i] in r;
      }
    }
  }

  /** Sorting keeps every element as often as it was, and puts them in order. */
  lemma {:induction false} SortMeaning<T(!new)>(s: seq<T>, le: (T, T) -> bool)
    requires IsOrder(le)
    ensures Sorted(Sort(s, le), le) && multiset(Sort(s, le)) == multiset(s) && |Sort(s, le)| == |s|
    ensures forall x :: x in Sort(s, le) <==> x in s
  {
    if s != [] {
      var front, last := s[..|s| - 1], s[|s| - 1];
      SortMeaning(front, le);
      InsertMeaning(last, Sort(front, le), le);
      assert s == front + [last];
    }
    var r := Sort(s, le);
    assert |multiset(r)| == |r| && |multiset(s)| == |s|;
    forall x ensures x in r <==> x in s {
      assert x in r <==> x in multiset(r);
      assert x in s <==> x in multiset(s);
    }
  }

  /** Each index below `n` once. */
  ghost predicate Permutes(ps: seq<nat>, n: nat) {
    && |ps| == n && (forall i, j :: 0 <= i < j < n ==> ps[i] != ps[j])
    && forall k: nat :: k in ps <==> k < n
  }

  lemma {:induction false} InsertedAt<T(!new)>(x: T, s: seq<T>, le: (T, T) -> bool) returns (p: nat)
    ensures p <= |s| && Insert(x, s, le) == s[..p] + [x] + s[p..]
  {
    if s == [] || le(s[|s| - 1], x) {
      p := |s|;
      assert s[..p] == s;
    } else {
      p := InsertedAt(x, s[..|s| - 1], le);
      assert s == s[..|s| - 1] + [s[|s| - 1]];
    }
  }

  lemma PermutesMore(ps: seq<nat>, n: nat, p: nat)
    requires Permutes(ps, n) && p <= n
    ensures Permutes(ps[..p] + [n] + ps[p..], n + 1)
  {
    assert forall i :: 0 <= i < n ==> ps[i] in ps;
    DistinctMore(ps, n, p);
    var qs := ps[..p] + [n] + ps[p..];
    assert ps == ps[..p] + ps[p..];
    forall k: nat ensures k in qs <==> k in ps || k == n {
    }
  }

  lemma DistinctMore(ps: seq<nat>, n: nat, p: nat)
    requires p <= |ps| == n && forall i :: 0 <= i < n ==> ps[i] < n
    requires forall i, j :: 0 <= i < j < n ==> ps[i] != ps[j]
    ensures var qs := ps[..p] + [n] + ps[p..]; forall i, j :: 0 <= i < j <= n ==> qs[i] != qs[j]
  {
    var qs := ps[..p] + [n] + ps[p..];
    forall i, j | 0 <= i < j <= n ensures qs[i] != qs[j] {
      if i == p {
        assert qs[j] == ps[j - 1];
      } else if i < p {
        assert qs[i] == ps[i] && (j < p ==> qs[j] == ps[j]) && (j > p ==> qs[j] == ps[j - 1]);
      } else {
        assert qs[i] == ps[i - 1] && qs[j] == ps[j - 1];
      }
    }
  }

  /** Where each element of the sorted list was. */
  lemma {:induction false} SortPermutes<T(!new)>(s: seq<T>, le: (T, T) -> bool) returns (ps: seq<nat>)
    ensures |Sort(s, le)| == |s| && Permutes(ps, |s|)
    ensures forall i :: 0 <= i < |s| ==> ps[i] < |s| && Sort(s, le)[i] == s[ps[i]]
  {
    if s == [] {
      ps := [];
    } else {
      var n := |s| - 1;
      var before := SortPermutes(s[..n], le);
      var p := InsertedAt(s[n], Sort(s[..n], le), le);
      ps := before[..p] + [n] + before[p..];
      PermutesMore(before, n, p);
      ElementsMoved(s, Sort(s[..n], le), before, p);
    }
  }

  lemma ElementsMoved<T>(s: seq<T>, sorted: seq<T>, ps: seq<nat>, p: nat)
    requires s != [] && |sorted| == |ps| == |s| - 1 && p <= |sorted|
    requires forall i :: 0 <= i < |sorted| ==> ps[i] < |s| - 1 && sorted[i] == s[..|s| - 1][ps[i]]
    ensures var r, qs := sorted[..p] + [s[|s| - 1]] + sorted[p..], ps[..p] + [|s| - 1] + ps[p..];
            |r| == |qs| == |s| && forall i :: 0 <= i < |s| ==> qs[i] < |s| && r[i] == s[qs[i]]
  {
    var r, qs := sorted[..p] + [s[|s| - 1]] + sorted[p..], ps[..p] + [|s| - 1] + ps[p..];
    forall i | 0 <= i < |s| ensures qs[i] < |s| && r[i] == s[qs[i]] {
      if i < p {
        assert r[i] == sorted[i] && qs[i] == ps[i];
      } else if i > p {
        assert r[i] == sorted[i - 1] && qs[i] == ps[i - 1];
      }
    }
  }

  // ---------- Elements chosen, by their indexes ----------

  ghost predicate Increasing(ks: seq<nat>) {
    forall i, j :: 0 <= i < j < |ks| ==> ks[i] < ks[j]
  }

  /** In order, the indexes chosen among the first `n`. */
  ghost predicate AllOf(ks: seq<nat>, n: nat, chosen: set<nat>) {
    Increasing(ks) && forall k: nat :: k in ks <==> k < n && k in chosen
  }

  /** In order, the first `max` of the indexes chosen. */
  ghost predicate FirstOf(ks: seq<nat>, chosen: set<nat>, max: nat) {
    && Increasing(ks) && |ks| <= max && (forall i :: 0 <= i < |ks| ==> ks[i] in chosen)
    && forall k :: k in chosen && k !in ks ==> |ks| == max && forall i :: 0 <= i < |ks| ==> ks[i] < k
  }

  /** The elements at some indexes. */
  ghost predicate PickedAt<T>(r: seq<T>, xs: seq<T>, ks: seq<nat>) {
    |r| == |ks| && forall i :: 0 <= i < |ks| ==> ks[i] < |xs| && r[i] == xs[ks[i]]
  }

  lemma AllOneMore<T>(r: seq<T>, xs: seq<T>, ks: seq<nat>, chosen: set<nat>)
    requires xs != [] && AllOf(ks, |xs| - 1, chosen) && PickedAt(r, xs[..|xs| - 1], ks)
    ensures var n := |xs| - 1;
            && (n in chosen ==> AllOf(ks + [n], |xs|, chosen) && PickedAt(r + [xs[n]], xs, ks + [n]))
            && (n !in chosen ==> AllOf(ks, |xs|, chosen) && PickedAt(r, xs, ks))
  {
    var n := |xs| - 1;
    assert forall i :: 0 <= i < |ks| ==> ks[i] in ks;
    forall k: nat ensures k in ks + [n] <==> k in ks || k == n {
    }
  }

  lemma FirstOfAll<T>(r: seq<T>, xs: seq<T>, ks: seq<nat>, chosen: set<nat>, max: nat)
    requires AllOf(ks, |xs|, chosen) && PickedAt(r, xs, ks) && forall k :: k in chosen ==> k < |xs|
    ensures |r| <= max ==> FirstOf(ks, chosen, max)
    ensures |r| > max ==> FirstOf(ks[..max], chosen, max) && PickedAt(r[..max], xs, ks[..max])
  {
    assert forall i :: 0 <= i < |ks| ==> ks[i] in ks;
    if |r| > max {
      var first := ks[..max];
      forall i | 0 <= i < max ensures ks[i] in first {
        assert first[i] == ks[i];
      }
      forall k | k in chosen && k !in first ensures forall i :: 0 <= i < |first| ==> first[i] < k {
        assert k in ks;
        var j :| 0 <= j < |ks| && ks[j] == k;
      }
    }
  }
}
