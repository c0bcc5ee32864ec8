/**
 * An insertion-ordered Python dict as a sequence of key/value pairs.
 * `Set` overwrites an existing key where it stands and appends a new one,
 * like `d[k] = v`; `Get` is `d[k]` with None for a KeyError.
 */
module Tables {
  import opened Wrappers

  type Table<K, V> = seq<(K, V)>

  predicate UniqueKeys<K(==), V>(t: Table<K, V>) {
    forall i, j :: 0 <= i < j < |t| ==> t[i].0 != t[j].0
  }

  predicate HasKey<K(==), V>(t: Table<K, V>, k: K) {
    exists i :: 0 <= i < |t| && t[i].0 == k
  }

  lemma HasKeyCons<K, V>(t: Table<K, V>)
    requires |t| > 0
    ensures forall x :: HasKey(t, x) <==> t[0].0 == x || HasKey(t[1..], x)
  {
    forall x | HasKey(t, x)
      ensures t[0].0 == x || HasKey(t[1..], x)
    {
      var i :| 0 <= i < |t| && t[i].0 == x;
      if i > 0 {
        assert t[1..][i - 1] == t[i];
      }
    }
    forall x | HasKey(t[1..], x)
      ensures HasKey(t, x)
    {
      var i :| 0 <= i < |t[1..]| && t[1..][i].0 == x;
      assert t[i + 1] == t[1..][i];
    }
  }

  lemma HasKeySnoc<K, V>(t: Table<K, V>, p: (K, V))
    ensures forall x :: HasKey(t + [p], x) <==> HasKey(t, x) || x == p.0
  {
    var s := t + [p];
    assert s[|t|] == p;
    forall x | HasKey(s, x)
      ensures HasKey(t, x) || x == p.0
    {
      var i :| 0 <= i < |s| && s[i].0 == x;
      if i < |t| {
        assert t[i] == s[i];
      }
    }
    forall x | HasKey(t, x)
      ensures HasKey(s, x)
    {
      var i :| 0 <= i < |t| && t[i].0 == x;
      assert s[i] == t[i];
    }
  }

  function Get<K(==), V>(t: Table<K, V>, k: K): (r: Option<V>)
    ensures r.None? <==> !HasKey(t, k)
    ensures r.Some? ==> (k, r.value) in t
  {
    if |t| == 0 then None
    else if t[0].0 == k then Some(t[0].1)
    else
      var r := Get(t[1..], k);
      assert forall i :: 0 < i < |t| ==> t[i] == t[1..][i - 1];
      r
  }

  function Set<K(==,!new), V>(t: Table<K, V>, k: K, v: V): (r: Table<K, V>)
    ensures HasKey(t, k) ==> |r| == |t|
    ensures !HasKey(t, k) ==> r == t + [(k, v)]
    ensures forall x :: HasKey(r, x) <==> HasKey(t, x) || x == k
  {
    if |t| == 0 then
      var r := [(k, v)];
      assert r[0].0 == k;
      r
    else
      HasKeyCons(t);
      if t[0].0 == k then
        var r := [(k, v)] + t[1..];
        HasKeyCons(r);
        assert r[1..] == t[1..];
        r
      else
        var r := [t[0]] + Set(t[1..], k, v);
        HasKeyCons(r);
        assert r[1..] == Set(t[1..], k, v);
        r
  }

  /** `del d[k]`, the KeyError case returning the table unchanged. */
  function Remove<K(==,!new), V>(t: Table<K, V>, k: K): (r: Table<K, V>)
    ensures forall x :: HasKey(r, x) <==> HasKey(t, x) && x != k
  {
    if |t| == 0 then []
    else
      HasKeyCons(t);
      if t[0].0 == k then Remove(t[1..], k)
      else
        var r := [t[0]] + Remove(t[1..], k);
        HasKeyCons(r);
        assert r[1..] == Remove(t[1..], k);
        r
  }

  /** The pair at index `i` is what `Get` finds when no earlier pair has its key. */
  lemma {:induction false} GetAt<K, V>(t: Table<K, V>, i: nat)
    requires i < |t| && forall j :: 0 <= j < i ==> t[j].0 != t[i].0
    ensures Get(t, t[i].0) == Some(t[i].1)
  {
    if i > 0 {
      assert t[1..][i - 1] == t[i];
      assert forall j :: 0 <= j < i - 1 ==> t[1..][j] == t[j + 1];
      GetAt(t[1..], i - 1);
    }
  }

  /** Looking up in a concatenation: the left part first. */
  lemma {:induction false} GetAppend<K, V>(a: Table<K, V>, b: Table<K, V>, k: K)
    ensures Get(a + b, k) == if HasKey(a, k) then Get(a, k) else Get(b, k)
  {
    if |a| > 0 {
      HasKeyCons(a);
      assert (a + b)[1..] == a[1..] + b;
      GetAppend(a[1..], b, k);
    } else {
      assert a + b == b;
    }
  }

  lemma {:induction false} GetSet<K(!new), V>(t: Table<K, V>, k: K, v: V)
    ensures Get(Set(t, k, v), k) == Some(v)
  {
    if |t| > 0 && t[0].0 != k {
      GetSet(t[1..], k, v);
    }
  }

  lemma {:induction false} GetSetOther<K(!new), V>(t: Table<K, V>, k: K, v: V, x: K)
    requires x != k
    ensures Get(Set(t, k, v), x) == Get(t, x)
  {
    if |t| > 0 && t[0].0 != k {
      GetSetOther(t[1..], k, v, x);
    }
  }

  lemma {:induction false} SetUnique<K(!new), V>(t: Table<K, V>, k: K, v: V)
    requires UniqueKeys(t)
    ensures UniqueKeys(Set(t, k, v))
  {
    if |t| > 0 && t[0].0 != k {
      SetUnique(t[1..], k, v);
      var r := Set(t, k, v);
      var tail := Set(t[1..], k, v);
      assert r == [t[0]] + tail;
      forall i | 0 < i < |r|
        ensures r[i].0 != t[0].0
      {
        assert HasKey(tail, r[i].0) by {
          assert tail[i - 1] == r[i];
        }
        if r[i].0 != k {
          var j :| 0 <= j < |t[1..]| && t[1..][j].0 == r[i].0;
          assert t[j + 1].0 == r[i].0;
        }
      }
    }
  }

  /** Every pair after `d[k] = v` was there before or is the new one. */
  lemma {:induction false} SetMembers<K(!new), V>(t: Table<K, V>, k: K, v: V)
    ensures (k, v) in Set(t, k, v)
    ensures forall p :: p in Set(t, k, v) ==> p in t || p == (k, v)
  {
    if |t| > 0 && t[0].0 != k {
      SetMembers(t[1..], k, v);
      assert Set(t, k, v) == [t[0]] + Set(t[1..], k, v);
      assert forall p :: p in t[1..] ==> p in t;
    } else if |t| > 0 {
      assert Set(t, k, v) == [(k, v)] + t[1..];
      assert forall p :: p in t[1..] ==> p in t;
    }
  }

  /** In a table without repeated keys every pair is what `Get` finds. */
  lemma {:induction false} GetUnique<K, V>(t: Table<K, V>, k: K, v: V)
    requires UniqueKeys(t) && (k, v) in t
    ensures Get(t, k) == Some(v)
  {
    if t[0] != (k, v) {
      assert (k, v) in t[1..];
      GetUnique(t[1..], k, v);
    }
  }

  lemma {:induction false} GetRemove<K(!new), V>(t: Table<K, V>, k: K, x: K)
    ensures Get(Remove(t, k), x) == if x == k then None else Get(t, x)
  {
    if |t| > 0 {
      GetRemove(t[1..], k, x);
    }
  }

  function Reversed<T>(s: seq<T>): (r: seq<T>)
    ensures |r| == |s|
    ensures forall i :: 0 <= i < |s| ==> r[i] == s[|s| - 1 - i]
  {
    if |s| == 0 then [] else [s[|s| - 1]] + Reversed(s[..|s| - 1])
  }
}
