/** A map with integer keys held as its entries in ascending key order: the view that
    the program's `BTreeMap` gives when it is read out with `into_values`. */
module OrderedMap {

  datatype Entry<V> = Entry(key: int, value: V)

  ghost predicate Ascending<V>(m: seq<Entry<V>>) {
    forall i, j :: 0 <= i < j < |m| ==> m[i].key < m[j].key
  }

  ghost predicate Has<V>(m: seq<Entry<V>>, k: int) {
    exists i :: 0 <= i < |m| && m[i].key == k
  }

  predicate Contains<V>(m: seq<Entry<V>>, k: int) {
    m != [] && (m[0].key == k || (m[0].key < k && Contains(m[1..], k)))
  }

  function Get<V>(m: seq<Entry<V>>, k: int): V
    requires Contains(m, k)
  {
    if m[0].key == k then m[0].value else Get(m[1..], k)
  }

  function Put<V>(m: seq<Entry<V>>, k: int, v: V): seq<Entry<V>> {
    if m == [] || m[0].key > k then [Entry(k, v)] + m
    else if m[0].key == k then [Entry(k, v)] + m[1..]
    else [m[0]] + Put(m[1..], k, v)
  }

  lemma {:induction false} GetAt<V>(m: seq<Entry<V>>, i: nat)
    requires Ascending(m) && i < |m|
    ensures Contains(m, m[i].key) && Get(m, m[i].key) == m[i].value
  {
    if i > 0 { GetAt(m[1..], i - 1); }
  }

  lemma {:induction false} ContainsIffHas<V>(m: seq<Entry<V>>, k: int)
    requires Ascending(m)
    ensures Contains(m, k) <==> Has(m, k)
    ensures Contains(m, k) ==> Entry(k, Get(m, k)) in m
  {
    if m != [] {
      ContainsIffHas(m[1..], k);
      assert forall i :: 1 <= i < |m| ==> m[i] == m[1..][i - 1];
      assert Has(m[1..], k) ==> Has(m, k) by {
        if Has(m[1..], k) {
          var i :| 0 <= i < |m[1..]| && m[1..][i].key == k;
          assert m[i + 1].key == k;
        }
      }
    }
  }

  lemma {:induction false} PutKeeps<V>(m: seq<Entry<V>>, k: int, v: V)
    requires Ascending(m)
    ensures Ascending(Put(m, k, v))
    ensures |m| <= |Put(m, k, v)| <= |m| + 1
    ensures Put(m, k, v) != [] && Put(m, k, v)[0].key <= k
    ensures m != [] ==> Put(m, k, v)[0].key <= m[0].key
    ensures m != [] && m[0].key <= k ==> Put(m, k, v)[0].key == m[0].key
  {
    if m != [] && m[0].key < k {
      PutKeeps(m[1..], k, v);
    }
  }

  lemma {:induction false} PutEntries<V>(m: seq<Entry<V>>, k: int, v: V, e: Entry<V>)
    requires Ascending(m)
    ensures e in Put(m, k, v) <==> e == Entry(k, v) || (e in m && e.key != k)
  {
    if m != [] {
      assert m == [m[0]] + m[1..];
      if m[0].key < k {
        PutEntries(m[1..], k, v, e);
      }
    }
  }

  lemma {:induction false} PutGet<V>(m: seq<Entry<V>>, k: int, v: V, j: int)
    requires Ascending(m)
    ensures Contains(Put(m, k, v), j) <==> j == k || Contains(m, j)
    ensures Contains(Put(m, k, v), j) ==> Get(Put(m, k, v), j) == if j == k then v else Get(m, j)
  {
    if m != [] && m[0].key < k {
      PutGet(m[1..], k, v, j);
      assert Put(m, k, v)[1..] == Put(m[1..], k, v);
    } else if m == [] || m[0].key > k {
      assert Put(m, k, v)[1..] == m;
    } else {
      assert Put(m, k, v)[1..] == m[1..];
    }
  }

  /** Ascending entry lists with the same look-ups are the same list. */
  lemma {:induction false} SameLookups<V>(a: seq<Entry<V>>, b: seq<Entry<V>>)
    requires Ascending(a) && Ascending(b)
    requires forall k :: Contains(a, k) <==> Contains(b, k)
    requires forall k :: Contains(a, k) ==> Get(a, k) == Get(b, k)
    ensures a == b
  {
    assert a != [] ==> Contains(a, a[0].key);
    assert b != [] ==> Contains(b, b[0].key);
    if a != [] {
      assert a[0] == b[0];
      forall k
        ensures Contains(a[1..], k) <==> Contains(b[1..], k)
        ensures Contains(a[1..], k) ==> Get(a[1..], k) == Get(b[1..], k)
      {
        if k <= a[0].key {
          ContainsIffHas(a[1..], k);
          ContainsIffHas(b[1..], k);
        } else {
          assert Contains(a, k) <==> Contains(b, k);
        }
      }
      SameLookups(a[1..], b[1..]);
      assert a == [a[0]] + a[1..] && b == [b[0]] + b[1..];
    }
  }
}
