/** The values of an integer-keyed map listed in ascending key order.

    A JavaScript `Map` iterates in insertion order. The store only ever inserts a key
    larger than every key present, and re-setting an existing key keeps its place, so
    its insertion order is ascending key order; the lemmas here are what the store's
    proofs of that fact rest on. */
module OrderedMaps {
  import Seqs

  /** Strictly ascending. */
  predicate Increasing(s: seq<int>) {
    forall i, j :: 0 <= i < j < |s| ==> s[i] < s[j]
  }

  /** A set with no members is the empty set. */
  lemma NoMembersEmpty(ks: set<int>)
    ensures (forall y :: y !in ks) ==> ks == {}
  {
    if forall y :: y !in ks {
      var none: set<int> := {};
      assert forall y :: y in ks <==> y in none;
      assert ks == none;
    }
  }

  /** Some element of a non-empty set. */
  lemma Pick(ks: set<int>) returns (x: int)
    requires ks != {}
    ensures x in ks
  {
    NoMembersEmpty(ks);
    x :| x in ks;
  }

  lemma {:induction false} LeastExists(ks: set<int>)
    requires ks != {}
    ensures exists k :: k in ks && forall j :: j in ks ==> k <= j
    decreases |ks|
  {
    var x := Pick(ks);
    if ks != {x} {
      LeastExists(ks - {x});
      var m :| m in ks - {x} && forall j :: j in ks - {x} ==> m <= j;
      var least := if x < m then x else m;
      forall j | j in ks ensures least <= j {
        if j != x { assert j in ks - {x}; }
      }
    } else {
      assert forall j :: j in ks ==> x <= j;
    }
  }

  /** The smallest key of a non-empty key set. */
  function Least(ks: set<int>): (k: int)
    requires ks != {}
    ensures k in ks
    ensures forall j :: j in ks ==> k <= j
  {
    LeastExists(ks);
    var k :| k in ks && forall j :: j in ks ==> k <= j;
    k
  }

  /** The keys in ascending order. */
  function Sorted(ks: set<int>): (r: seq<int>)
    ensures Increasing(r)
    ensures forall k :: k in r <==> k in ks
    ensures |r| == |ks|
    decreases |ks|
  {
    if ks == {} then []
    else
      var k := Least(ks);
      var rest := Sorted(ks - {k});
      assert forall i :: 0 <= i < |rest| ==> k < rest[i] by {
        forall i | 0 <= i < |rest| ensures k < rest[i] {
          assert rest[i] in rest;
        }
      }
      [k] + rest
  }

  /** The values stored under the given keys, in the order of the keys. */
  function Lookup<V>(m: map<int, V>, ks: seq<int>): (r: seq<V>)
    requires forall i :: 0 <= i < |ks| ==> ks[i] in m
    ensures |r| == |ks|
    ensures forall i :: 0 <= i < |ks| ==> r[i] == m[ks[i]]
  {
    seq(|ks|, i requires 0 <= i < |ks| => m[ks[i]])
  }

  /** The values of `m`, in ascending order of their keys. */
  function Values<V>(m: map<int, V>): (r: seq<V>)
    ensures |r| == |m|
    ensures forall i :: 0 <= i < |r| ==> Sorted(m.Keys)[i] in m && r[i] == m[Sorted(m.Keys)[i]]
  {
    var ks := Sorted(m.Keys);
    assert forall i :: 0 <= i < |ks| ==> ks[i] in m by {
      forall i | 0 <= i < |ks| ensures ks[i] in m { assert ks[i] in ks; }
    }
    Lookup(m, ks)
  }

  /** Every value of the map is listed, and nothing else. */
  lemma ValuesComplete<V>(m: map<int, V>)
    ensures forall v :: v in Values(m) <==> v in m.Values
  {
    var ks := Sorted(m.Keys);
    forall v | v in m.Values ensures v in Values(m) {
      var k :| k in m && m[k] == v;
      assert k in ks;
      var i :| 0 <= i < |ks| && ks[i] == k;
      assert Values(m)[i] == v;
    }
  }

  /** The first element of a non-empty sequence is one of its elements. */
  lemma HeadIsElement(b: seq<int>)
    ensures b != [] ==> b[0] in b
  {
  }

  /** Two ascending sequences with the same elements are equal. */
  lemma {:induction false} IncreasingUnique(a: seq<int>, b: seq<int>)
    requires Increasing(a) && Increasing(b)
    requires forall k :: k in a <==> k in b
    ensures a == b
    decreases |a|
  {
    HeadIsElement(a);
    HeadIsElement(b);
    if a != [] && b != [] {
      assert a[0] in a && b[0] in b;
      assert a[0] == b[0] by {
        assert a[0] in b && b[0] in a;
        var i :| 0 <= i < |b| && b[i] == a[0];
        var j :| 0 <= j < |a| && a[j] == b[0];
        assert b[0] <= a[0] && a[0] <= b[0];
      }
      forall k ensures k in a[1..] <==> k in b[1..] {
        if k in a[1..] {
          var i :| 1 <= i < |a| && a[i] == k;
          assert k != b[0] && k in b;
          var j :| 0 <= j < |b| && b[j] == k;
          assert j != 0;
        }
        if k in b[1..] {
          var j :| 1 <= j < |b| && b[j] == k;
          assert k != a[0] && k in a;
          var i :| 0 <= i < |a| && a[i] == k;
          assert i != 0;
        }
      }
      IncreasingUnique(a[1..], b[1..]);
      assert a == [a[0]] + a[1..] && b == [b[0]] + b[1..];
    }
  }

  /** Adding a key above all others puts it last. */
  lemma SortedAddLargest(ks: set<int>, k: int)
    requires forall j :: j in ks ==> j < k
    ensures Sorted(ks + {k}) == Sorted(ks) + [k]
  {
    var s := Sorted(ks) + [k];
    assert Increasing(s) by {
      forall i | 0 <= i < |Sorted(ks)| ensures Sorted(ks)[i] < k {
        assert Sorted(ks)[i] in Sorted(ks);
      }
    }
    IncreasingUnique(Sorted(ks + {k}), s);
  }

  /** Inserting under a key above all others appends its value. */
  lemma ValuesInsertLargest<V>(m: map<int, V>, k: int, v: V)
    requires forall j :: j in m ==> j < k
    ensures Values(m[k := v]) == Values(m) + [v]
  {
    var m' := m[k := v];
    var ks := Sorted(m.Keys);
    assert m'.Keys == m.Keys + {k};
    SortedAddLargest(m.Keys, k);
    assert Sorted(m'.Keys) == ks + [k];
    forall i | 0 <= i < |ks| ensures ks[i] in m && ks[i] != k {
      assert ks[i] in ks;
    }
    LookupExtend(m, ks, k, v);
    assert Values(m) == Lookup(m, ks);
    assert Values(m') == Lookup(m', ks + [k]);
  }

  lemma LookupExtend<V>(m: map<int, V>, ks: seq<int>, k: int, v: V)
    requires forall i :: 0 <= i < |ks| ==> ks[i] in m && ks[i] != k
    ensures Lookup(m[k := v], ks + [k]) == Lookup(m, ks) + [v]
  {
  }

  /** Re-setting an existing key keeps every value in its place and replaces that key's. */
  lemma ValuesReplace<V>(m: map<int, V>, k: int, v: V)
    requires k in m
    ensures |Values(m[k := v])| == |Values(m)|
    ensures forall i :: 0 <= i < |Values(m)| ==>
      Values(m[k := v])[i] == if Sorted(m.Keys)[i] == k then v else Values(m)[i]
  {
    assert m[k := v].Keys == m.Keys;
  }

  /** Where the value of key `k` sits in the listing. */
  lemma PositionOf<V>(m: map<int, V>, k: int) returns (i: nat)
    requires k in m
    ensures i < |Values(m)| && Sorted(m.Keys)[i] == k && Values(m)[i] == m[k]
  {
    var ks := Sorted(m.Keys);
    assert k in ks;
    i :| 0 <= i < |ks| && ks[i] == k;
  }

  /** The value of a key smaller than the one at position `i` is listed before position `i`. */
  lemma SmallerKeyBefore<V>(m: map<int, V>, i: nat, j: int) returns (i': nat)
    requires i < |m| && j in m && j < Sorted(m.Keys)[i]
    ensures i' < i && Values(m)[i'] == m[j]
  {
    i' := PositionOf(m, j);
    assert Increasing(Sorted(m.Keys));
  }

  /** Filtering an ascending sequence leaves it ascending. */
  lemma {:induction false} FilterIncreasing(s: seq<int>, p: int -> bool)
    requires Increasing(s)
    ensures Increasing(Seqs.Filter(s, p))
    decreases |s|
  {
    if s != [] {
      FilterIncreasing(s[1..], p);
      var rest := Seqs.Filter(s[1..], p);
      forall i | 0 <= i < |rest| ensures s[0] < rest[i] {
        assert rest[i] in s[1..];
      }
    }
  }

  /** Removing a key leaves the other keys in their order. */
  lemma SortedRemove(ks: set<int>, k: int, other: int -> bool)
    requires forall j :: other(j) == (j != k)
    ensures Sorted(ks - {k}) == Seqs.Filter(Sorted(ks), other)
  {
    FilterIncreasing(Sorted(ks), other);
    IncreasingUnique(Sorted(ks - {k}), Seqs.Filter(Sorted(ks), other));
  }

  /** Looking up a filtered key sequence gives an order-preserving part of looking up all of it. */
  lemma {:induction false} LookupFiltered<V>(m: map<int, V>, ks: seq<int>, p: int -> bool)
    requires forall i :: 0 <= i < |ks| ==> ks[i] in m
    ensures forall i :: 0 <= i < |Seqs.Filter(ks, p)| ==> Seqs.Filter(ks, p)[i] in m
    ensures Seqs.IsSubsequence(Lookup(m, Seqs.Filter(ks, p)), Lookup(m, ks))
    decreases |ks|
  {
    var f := Seqs.Filter(ks, p);
    forall i | 0 <= i < |f| ensures f[i] in m {
      assert f[i] in ks;
    }
    if ks != [] {
      LookupFiltered(m, ks[1..], p);
      var rest := Seqs.Filter(ks[1..], p);
      assert Lookup(m, ks)[1..] == Lookup(m, ks[1..]);
      if p(ks[0]) {
        assert f == [ks[0]] + rest;
        assert Lookup(m, f)[1..] == Lookup(m, rest);
      }
    }
  }

  /** The values left after removing a key are those of the original map at the remaining keys. */
  lemma ValuesWithout<V>(m: map<int, V>, k: int)
    ensures forall i :: 0 <= i < |Sorted(m.Keys - {k})| ==> Sorted(m.Keys - {k})[i] in m
    ensures Values(m - {k}) == Lookup(m, Sorted(m.Keys - {k}))
  {
    var m' := m - {k};
    assert m'.Keys == m.Keys - {k};
    var ks' := Sorted(m'.Keys);
    forall i | 0 <= i < |ks'| ensures ks'[i] in m' && m'[ks'[i]] == m[ks'[i]] {
      assert ks'[i] in ks';
    }
    var r := Values(m');
    forall i | 0 <= i < |ks'| ensures r[i] == Lookup(m, ks')[i] {
    }
  }

  /** Removing a key leaves the other values in their order. */
  lemma ValuesRemove<V>(m: map<int, V>, k: int)
    ensures Seqs.IsSubsequence(Values(m - {k}), Values(m))
  {
    var p := (j: int) => j != k;
    var ks := Sorted(m.Keys);
    assert Sorted(m.Keys - {k}) == Seqs.Filter(ks, p) by {
      SortedRemove(m.Keys, k, p);
    }
    forall i | 0 <= i < |ks| ensures ks[i] in m {
      assert ks[i] in ks;
    }
    LookupFiltered(m, ks, p);
    ValuesWithout(m, k);
    assert Values(m) == Lookup(m, ks);
  }
}
