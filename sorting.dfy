/** `hash.sort` as the signer uses it: pairs ordered by their key. */
module Sorting {
  import opened Text
  import opened RubyHash

  /** Keys strictly ascending, so no key appears twice. */
  predicate StrictlySorted<V>(s: seq<(string, V)>) {
    forall i, j | 0 <= i < j < |s| :: Below(s[i].0, s[j].0)
  }

  lemma {:induction false} KeysWitness<V>(h: seq<(string, V)>, k: string)
    requires k in Keys(h)
    ensures exists i :: 0 <= i < |h| && h[i].0 == k
  {
    if h[0].0 != k {
      KeysWitness(h[1..], k);
      var i :| 0 <= i < |h[1..]| && h[1..][i].0 == k;
      assert h[i + 1].0 == k;
    }
  }

  /** Rearranging pairs does not change which keys are present. */
  lemma KeysOfPermutation<V>(a: seq<(string, V)>, b: seq<(string, V)>)
    requires multiset(a) == multiset(b)
    ensures Keys(a) == Keys(b)
  {
    forall k | k in Keys(a) ensures k in Keys(b) {
      KeysWitness(a, k);
      var i :| 0 <= i < |a| && a[i].0 == k;
      assert a[i] in multiset(b);
      var j :| 0 <= j < |b| && b[j] == a[i];
    }
    forall k | k in Keys(b) ensures k in Keys(a) {
      KeysWitness(b, k);
      var i :| 0 <= i < |b| && b[i].0 == k;
      assert b[i] in multiset(a);
      var j :| 0 <= j < |a| && a[j] == b[i];
    }
  }

  /** A key below every key of `s` and below `p.0` is below every key of a rearrangement of `s` and `p`. */
  lemma AllAbove<V>(x: string, s: seq<(string, V)>, p: (string, V), t: seq<(string, V)>)
    requires forall j :: 0 <= j < |s| ==> Below(x, s[j].0)
    requires Below(x, p.0)
    requires multiset(t) == multiset(s) + multiset{p}
    ensures forall j :: 0 <= j < |t| ==> Below(x, t[j].0)
  {
    forall j | 0 <= j < |t| ensures Below(x, t[j].0) {
      assert t[j] in multiset(s) + multiset{p};
      if t[j] != p {
        var m :| 0 <= m < |s| && s[m] == t[j];
      }
    }
  }

  /** A pair whose key is below every key of a sorted list can go in front of it. */
  lemma ConsSorted<V>(x: (string, V), s: seq<(string, V)>)
    requires StrictlySorted(s)
    requires forall j :: 0 <= j < |s| ==> Below(x.0, s[j].0)
    ensures StrictlySorted([x] + s)
  {
    var r := [x] + s;
    forall i, j | 0 <= i < j < |r| ensures Below(r[i].0, r[j].0) {
      assert r[j] == s[j - 1];
      if i > 0 {
        assert r[i] == s[i - 1];
      }
    }
  }

  /** Places `p` among already sorted pairs, before the first larger key. */
  function Insert<V>(p: (string, V), s: seq<(string, V)>): (r: seq<(string, V)>)
    requires StrictlySorted(s)
    requires p.0 !in Keys(s)
    ensures StrictlySorted(r)
    ensures multiset(r) == multiset(s) + multiset{p}
  {
    if s == [] then [p]
    else if Below(s[0].0, p.0) then
      var t := Insert(p, s[1..]);
      AllAbove(s[0].0, s[1..], p, t);
      ConsSorted(s[0], t);
      assert s == [s[0]] + s[1..];
      [s[0]] + t
    else
      BelowTotal(p.0, s[0].0);
      forall j | 0 <= j < |s| ensures Below(p.0, s[j].0) {
        if j > 0 {
          BelowTransitive(p.0, s[0].0, s[j].0);
        }
      }
      ConsSorted(p, s);
      [p] + s
  }

  /** The pairs of a hash in ascending key order (`hash.sort`). */
  function SortByKey<V>(h: Hash<V>): (r: seq<(string, V)>)
    ensures StrictlySorted(r)
    ensures multiset(r) == multiset(h)
    ensures |r| == |h|
  {
    if h == [] then []
    else
      var t: Hash<V> := h[1..];
      var s := SortByKey(t);
      KeysOfPermutation(s, t);
      assert h == [h[0]] + t;
      Insert(h[0], s)
  }

  /** Two strictly sorted lists that contain each other's first pair start with the same pair. */
  lemma SortedHeadsAgree<V>(s: seq<(string, V)>, t: seq<(string, V)>)
    requires StrictlySorted(s) && StrictlySorted(t) && s != [] && t != []
    requires s[0] in t && t[0] in s
    ensures s[0] == t[0]
  {
    if s[0] != t[0] {
      var j :| 0 <= j < |t| && t[j] == s[0];
      var i :| 0 <= i < |s| && s[i] == t[0];
      assert Below(t[0].0, s[0].0);
      assert Below(s[0].0, t[0].0);
      BelowAsymmetric(t[0].0, s[0].0);
    }
  }

  /** When two sorted lists share their first pair, the rest of one lies in the rest of the other. */
  lemma SortedTailsContained<V>(s: seq<(string, V)>, t: seq<(string, V)>)
    requires StrictlySorted(s) && s != [] && t != [] && s[0] == t[0]
    requires forall i :: 0 <= i < |s| ==> s[i] in t
    ensures forall m :: 0 <= m < |s| - 1 ==> s[1..][m] in t[1..]
  {
    forall m | 0 <= m < |s| - 1 ensures s[1..][m] in t[1..] {
      assert s[1..][m] == s[m + 1] && s[m + 1] in t;
      assert Below(s[0].0, s[m + 1].0);
      BelowIrreflexive(s[0].0);
      assert t == [t[0]] + t[1..];
    }
  }

  /** Two strictly sorted lists holding the same pairs are the same list. */
  lemma {:induction false} SortedUnique<V>(s: seq<(string, V)>, t: seq<(string, V)>)
    requires StrictlySorted(s) && StrictlySorted(t)
    requires forall i :: 0 <= i < |s| ==> s[i] in t
    requires forall i :: 0 <= i < |t| ==> t[i] in s
    ensures s == t
  {
    if s != [] {
      assert s[0] in t;
      SortedHeadsAgree(s, t);
      SortedTailsContained(s, t);
      SortedTailsContained(t, s);
      SortedUnique(s[1..], t[1..]);
      assert s == [s[0]] + s[1..] && t == [t[0]] + t[1..];
    }
  }

  /** A hash whose keys already ascend sorts to itself. */
  lemma SortedStays<V>(h: Hash<V>)
    requires StrictlySorted(h)
    ensures SortByKey(h) == h
  {
    var s := SortByKey(h);
    forall i | 0 <= i < |s| ensures s[i] in h {
      assert s[i] in multiset(h);
    }
    forall i | 0 <= i < |h| ensures h[i] in s {
      assert h[i] in multiset(s);
    }
    SortedUnique(s, h);
  }

  /**
    The sorted pairs depend only on what the hash maps each key to, not on
    the order its keys were inserted in.
  */
  lemma SortIgnoresInsertionOrder<V>(h1: Hash<V>, h2: Hash<V>)
    requires forall k :: Lookup(h1, k) == Lookup(h2, k)
    ensures SortByKey(h1) == SortByKey(h2)
  {
    var s1, s2 := SortByKey(h1), SortByKey(h2);
    forall i | 0 <= i < |s1| ensures s1[i] in s2 {
      assert s1[i] in multiset(h1);
      MemberIffGet(h1, s1[i]);
      MemberIffGet(h2, s1[i]);
      assert s1[i] in multiset(s2);
    }
    forall i | 0 <= i < |s2| ensures s2[i] in s1 {
      assert s2[i] in multiset(h2);
      MemberIffGet(h1, s2[i]);
      MemberIffGet(h2, s2[i]);
      assert s2[i] in multiset(s1);
    }
    SortedUnique(s1, s2);
  }
}
