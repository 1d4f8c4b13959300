/**
  Ruby's Hash as the request layer uses it: an association list that
  remembers insertion order and never holds a key twice.
*/
module RubyHash {
  import opened Wrappers

  function Keys<V>(h: seq<(string, V)>): (ks: set<string>)
    ensures forall i :: 0 <= i < |h| ==> h[i].0 in ks
  {
    if h == [] then {} else {h[0].0} + Keys(h[1..])
  }

  predicate DistinctKeys<V>(h: seq<(string, V)>) {
    h == [] || (h[0].0 !in Keys(h[1..]) && DistinctKeys(h[1..]))
  }

  type Hash<V> = h: seq<(string, V)> | DistinctKeys(h) witness []

  /** `{k => v}`: a hash literal with one pair. */
  function Single<V>(k: string, v: V): (r: Hash<V>)
    ensures Lookup(r, k) == Some(v)
    ensures forall k' :: k' != k ==> Lookup(r, k') == None
  {
    var r := [(k, v)];
    assert r[1..] == [] && Keys(r[1..]) == {} && DistinctKeys(r[1..]);
    r
  }

  /** `h[k]`, with None standing for a missing key. */
  function Lookup<V>(h: seq<(string, V)>, k: string): (r: Option<V>)
    ensures r.Some? <==> k in Keys(h)
    ensures r.Some? ==> (k, r.value) in h
  {
    if h == [] then None
    else if h[0].0 == k then Some(h[0].1)
    else Lookup(h[1..], k)
  }

  /** In a hash a pair is present exactly when looking its key up yields its value. */
  lemma {:induction false} MemberIffGet<V>(h: Hash<V>, p: (string, V))
    ensures p in h <==> Lookup(h, p.0) == Some(p.1)
  {
    if h != [] {
      var t: Hash<V> := h[1..];
      MemberIffGet(t, p);
      assert p in h <==> p == h[0] || p in t;
    }
  }

  /** `h[k] = v`: afterwards `k` maps to `v` and every other key is untouched. */
  function Store<V>(h: Hash<V>, k: string, v: V): (r: Hash<V>)
    ensures Lookup(r, k) == Some(v)
    ensures forall k' :: k' != k ==> Lookup(r, k') == Lookup(h, k')
    ensures Keys(r) == Keys(h) + {k}
  {
    if h == [] then
      var r := [(k, v)];
      assert r[1..] == [] && Keys(r[1..]) == {} && DistinctKeys(r[1..]);
      r
    else if h[0].0 == k then
      var r := [(k, v)] + h[1..];
      assert r[1..] == h[1..];
      r
    else
      var t: Hash<V> := h[1..];
      var s := Store(t, k, v);
      var r := [h[0]] + s;
      assert r[1..] == s;
      r
  }

  /** Where `h[k] = v` puts the pair: a new key goes last, an existing key keeps its position. */
  lemma {:induction false} StoreOrder<V>(h: Hash<V>, k: string, v: V)
    ensures k !in Keys(h) ==> Store(h, k, v) == h + [(k, v)]
    ensures k in Keys(h) ==> |Store(h, k, v)| == |h| && forall i :: 0 <= i < |h| ==> Store(h, k, v)[i].0 == h[i].0
  {
    if h != [] && h[0].0 != k {
      var t: Hash<V> := h[1..];
      StoreOrder(t, k, v);
      var s := Store(t, k, v);
      assert Store(h, k, v) == [h[0]] + s;
      if k !in Keys(h) {
        assert h == [h[0]] + t;
      } else {
        forall i | 0 < i < |h| ensures Store(h, k, v)[i].0 == h[i].0 {
          assert Store(h, k, v)[i] == s[i - 1];
        }
      }
    }
  }

  /**
    `a.merge(b)`: every pair of `b`, in order, is stored into `a`, so on a
    shared key `b` wins.
  */
  function Merge<V>(a: Hash<V>, b: Hash<V>): (r: Hash<V>)
    ensures forall k :: Lookup(r, k) == if k in Keys(b) then Lookup(b, k) else Lookup(a, k)
    ensures Keys(r) == Keys(a) + Keys(b)
    decreases |b|
  {
    if b == [] then a
    else
      var t: Hash<V> := b[1..];
      Merge(Store(a, b[0].0, b[0].1), t)
  }

  /** `a`'s keys stay where they were at the front of `a.merge(b)`. */
  lemma {:induction false} MergeKeepsPositions<V>(a: Hash<V>, b: Hash<V>)
    ensures |a| <= |Merge(a, b)|
    ensures forall i :: 0 <= i < |a| ==> Merge(a, b)[i].0 == a[i].0
    decreases |b|
  {
    if b != [] {
      var t: Hash<V> := b[1..];
      var a1 := Store(a, b[0].0, b[0].1);
      StoreOrder(a, b[0].0, b[0].1);
      MergeKeepsPositions(a1, t);
      if b[0].0 !in Keys(a) {
        forall i | 0 <= i < |a| ensures a1[i].0 == a[i].0 {
          assert a1[i] == (a + [(b[0].0, b[0].1)])[i];
        }
      }
    }
  }

  /**
    `h.reject { |k, v| drop(v) }`: the surviving pairs, in their order.
    Stated for any association list; on a hash the result is again a hash
    (`RejectKeepsHash`).
  */
  function Reject<V>(h: seq<(string, V)>, drop: V -> bool): (r: seq<(string, V)>)
    ensures |r| <= |h|
  {
    if h == [] then []
    else if drop(h[0].1) then Reject(h[1..], drop)
    else [h[0]] + Reject(h[1..], drop)
  }

  /** One step of `Reject`, as the proofs below unfold it. */
  lemma RejectUnfold<V>(h: seq<(string, V)>, drop: V -> bool)
    requires h != []
    ensures Reject(h, drop) == (if drop(h[0].1) then [] else [h[0]]) + Reject(h[1..], drop)
  {
  }

  /** No surviving pair carries a dropped value. */
  lemma {:induction false} RejectDropsAll<V>(h: seq<(string, V)>, drop: V -> bool)
    ensures forall i :: 0 <= i < |Reject(h, drop)| ==> !drop(Reject(h, drop)[i].1)
  {
    if h != [] {
      RejectDropsAll(h[1..], drop);
      RejectUnfold(h, drop);
    }
  }

  /** Rejecting adds no key, and a hash stays a hash. */
  lemma {:induction false} RejectKeepsHash<V>(h: seq<(string, V)>, drop: V -> bool)
    ensures Keys(Reject(h, drop)) <= Keys(h)
    ensures DistinctKeys(h) ==> DistinctKeys(Reject(h, drop))
  {
    if h != [] {
      RejectKeepsHash(h[1..], drop);
      var s := Reject(h[1..], drop);
      if !drop(h[0].1) {
        assert ([h[0]] + s)[1..] == s;
      }
    }
  }

  /** Looking a key up after `reject` finds its value unless that value was dropped. */
  lemma {:induction false} RejectLookup<V>(h: seq<(string, V)>, drop: V -> bool, k: string)
    requires DistinctKeys(h)
    ensures Lookup(Reject(h, drop), k)
         == if Lookup(h, k).Some? && drop(Lookup(h, k).value) then None else Lookup(h, k)
  {
    if h != [] {
      RejectLookup(h[1..], drop, k);
      RejectKeepsHash(h[1..], drop);
      var s := Reject(h[1..], drop);
      if !drop(h[0].1) {
        assert ([h[0]] + s)[1..] == s;
      }
    }
  }

  /** Rejecting pairs distributes over concatenation, so the kept pairs keep their order. */
  lemma {:induction false} RejectKeepsOrder<V>(h: seq<(string, V)>, g: seq<(string, V)>, drop: V -> bool)
    ensures Reject(h + g, drop) == Reject(h, drop) + Reject(g, drop)
  {
    if h == [] {
      assert h + g == g;
    } else {
      var x := if drop(h[0].1) then [] else [h[0]];
      assert (h + g)[0] == h[0];
      calc {
        Reject(h + g, drop);
        { RejectUnfold(h + g, drop); }
        x + Reject((h + g)[1..], drop);
        { assert (h + g)[1..] == h[1..] + g; }
        x + Reject(h[1..] + g, drop);
        { RejectKeepsOrder(h[1..], g, drop); }
        x + (Reject(h[1..], drop) + Reject(g, drop));
        (x + Reject(h[1..], drop)) + Reject(g, drop);
        { RejectUnfold(h, drop); }
        Reject(h, drop) + Reject(g, drop);
      }
    }
  }

  /** Applies `f` to every value; keys and order are untouched. */
  function MapValues<V, W>(h: Hash<V>, f: V -> W): (r: Hash<W>)
    ensures |r| == |h|
    ensures forall i :: 0 <= i < |h| ==> r[i] == (h[i].0, f(h[i].1))
    ensures Keys(r) == Keys(h)
    ensures forall k :: Lookup(r, k) == if k in Keys(h) then Some(f(Lookup(h, k).value)) else None
  {
    if h == [] then []
    else
      var t: Hash<V> := h[1..];
      var s := MapValues(t, f);
      var r := [(h[0].0, f(h[0].1))] + s;
      assert r[1..] == s;
      r
  }
}
