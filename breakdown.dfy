/** A plain JS object used as a counter, `obj[key] = (obj[key] || 0) + n`:
    an association list whose keys appear once each, in the order they were
    first assigned, which is the order `Object.entries` and `JSON.stringify`
    report them in. */
module Breakdown {
  import opened Wrappers
  import opened Seqs

  type Counts<K> = seq<(K, int)>

  /** Each key is stored once. */
  ghost predicate DistinctKeys<K>(t: Counts<K>)
  {
    t == [] || (t[0].0 !in KeySet(t[1..]) && DistinctKeys(t[1..]))
  }

  /** The keys that have a count, `Object.keys(obj)` as a set. */
  function KeySet<K>(t: Counts<K>): set<K>
  {
    if t == [] then {} else {t[0].0} + KeySet(t[1..])
  }

  /** `obj[key]`: the count stored under k, or undefined. */
  function Lookup<K(==)>(t: Counts<K>, k: K): Option<int>
  {
    if t == [] then None
    else if t[0].0 == k then Some(t[0].1)
    else Lookup(t[1..], k)
  }

  /** The sum of the stored counts. */
  function Total<K>(t: Counts<K>): int
  {
    if t == [] then 0 else t[0].1 + Total(t[1..])
  }

  lemma {:induction false} LookupIsMember<K>(t: Counts<K>, k: K)
    ensures Lookup(t, k).Some? <==> k in KeySet(t)
  {
    if t != [] {
      LookupIsMember(t[1..], k);
    }
  }

  /** In a counter with distinct keys, looking up a stored key finds its
      own entry. */
  lemma {:induction false} LookupAt<K>(t: Counts<K>, i: nat)
    requires DistinctKeys(t) && i < |t|
    ensures t[i].0 in KeySet(t)
    ensures Lookup(t, t[i].0) == Some(t[i].1)
  {
    if i > 0 {
      LookupAt(t[1..], i - 1);
    }
  }

  /** Where a stored key sits. */
  lemma {:induction false} KeyIndex<K>(t: Counts<K>, k: K) returns (i: nat)
    requires k in KeySet(t)
    ensures i < |t| && t[i].0 == k
  {
    if t[0].0 == k {
      i := 0;
    } else {
      var j := KeyIndex(t[1..], k);
      i := j + 1;
    }
  }

  /** `if (!obj[k]) obj[k] = 0; obj[k] += v;`: adds v to the count under k,
      appending a new entry at the end when k has none yet. */
  function Bump<K(==,!new)>(t: Counts<K>, k: K, v: int): (r: Counts<K>)
    ensures DistinctKeys(t) ==> DistinctKeys(r)
    ensures Total(r) == Total(t) + v
    ensures Lookup(r, k) == Some(Lookup(t, k).GetOr(0) + v)
    ensures forall k' :: k' != k ==> Lookup(r, k') == Lookup(t, k')
    ensures KeySet(r) == KeySet(t) + {k}
  {
    if t == [] then [(k, v)]
    else if t[0].0 == k then
      assert ([(k, t[0].1 + v)] + t[1..])[1..] == t[1..];
      [(k, t[0].1 + v)] + t[1..]
    else
      var r := [t[0]] + Bump(t[1..], k, v);
      assert r[1..] == Bump(t[1..], k, v);
      r
  }

  /** Folds rows into a counter from the left, as `rows.forEach` does:
      every row adds val(row) under key(row). */
  function Tally<R, K(==,!new)>(rows: seq<R>, key: R -> K, val: R -> int): Counts<K>
  {
    if rows == [] then []
    else
      var last := rows[|rows| - 1];
      Bump(Tally(rows[..|rows| - 1], key, val), key(last), val(last))
  }

  /** One more row bumps the counter of the rows before it. */
  lemma TallySnoc<R, K(!new)>(rows: seq<R>, i: nat, key: R -> K, val: R -> int)
    requires i < |rows|
    ensures Tally(rows[..i + 1], key, val) == Bump(Tally(rows[..i], key, val), key(rows[i]), val(rows[i]))
  {
    assert rows[..i + 1][..i] == rows[..i];
  }

  /** What a counter ought to hold under k: the sum of val over the rows whose
      key is k. */
  function SumWhere<R, K(==)>(rows: seq<R>, key: R -> K, val: R -> int, k: K): int
  {
    if rows == [] then 0
    else
      var last := rows[|rows| - 1];
      SumWhere(rows[..|rows| - 1], key, val, k) + (if key(last) == k then val(last) else 0)
  }

  /** The keys that some row carries. */
  function RowKeys<R, K>(rows: seq<R>, key: R -> K): set<K>
  {
    set i | 0 <= i < |rows| :: key(rows[i])
  }

  lemma RowKeysSnoc<R, K>(rows: seq<R>, key: R -> K)
    requires rows != []
    ensures RowKeys(rows, key) == RowKeys(rows[..|rows| - 1], key) + {key(rows[|rows| - 1])}
  {
    var init := rows[..|rows| - 1];
    forall x | x in RowKeys(rows, key) ensures x in RowKeys(init, key) + {key(rows[|rows| - 1])} {
      var i :| 0 <= i < |rows| && key(rows[i]) == x;
      if i < |rows| - 1 { assert key(init[i]) == x; }
    }
    forall x | x in RowKeys(init, key) ensures x in RowKeys(rows, key) {
      var i :| 0 <= i < |init| && key(init[i]) == x;
      assert key(rows[i]) == x;
    }
  }

  /** A counter built by Tally has each key once, exactly the keys the rows
      carry, under each key the sum for that key, and in all the sum over the
      rows. */
  lemma {:induction false} TallyCorrect<R, K(!new)>(rows: seq<R>, key: R -> K, val: R -> int)
    ensures DistinctKeys(Tally(rows, key, val))
    ensures KeySet(Tally(rows, key, val)) == RowKeys(rows, key)
    ensures Total(Tally(rows, key, val)) == SumBy(rows, val)
    ensures forall k :: k in RowKeys(rows, key) ==>
              Lookup(Tally(rows, key, val), k) == Some(SumWhere(rows, key, val, k))
  {
    TallyKeys(rows, key, val);
    TallyTotal(rows, key, val);
    forall k | k in RowKeys(rows, key)
      ensures Lookup(Tally(rows, key, val), k) == Some(SumWhere(rows, key, val, k))
    {
      TallyLookup(rows, key, val, k);
    }
  }

  lemma {:induction false} TallyKeys<R, K(!new)>(rows: seq<R>, key: R -> K, val: R -> int)
    ensures DistinctKeys(Tally(rows, key, val))
    ensures KeySet(Tally(rows, key, val)) == RowKeys(rows, key)
  {
    if rows != [] {
      TallyKeys(rows[..|rows| - 1], key, val);
      RowKeysSnoc(rows, key);
    }
  }

  lemma {:induction false} TallyTotal<R, K(!new)>(rows: seq<R>, key: R -> K, val: R -> int)
    ensures Total(Tally(rows, key, val)) == SumBy(rows, val)
  {
    if rows != [] {
      TallyTotal(rows[..|rows| - 1], key, val);
    }
  }

  lemma {:induction false} TallyLookup<R, K(!new)>(rows: seq<R>, key: R -> K, val: R -> int, k: K)
    requires k in RowKeys(rows, key)
    ensures Lookup(Tally(rows, key, val), k) == Some(SumWhere(rows, key, val, k))
  {
    var init := rows[..|rows| - 1];
    var last := rows[|rows| - 1];
    RowKeysSnoc(rows, key);
    if k != key(last) {
      TallyLookup(init, key, val, k);
    } else if k in RowKeys(init, key) {
      TallyLookup(init, key, val, k);
    } else {
      TallyKeys(init, key, val);
      LookupIsMember(Tally(init, key, val), k);
      SumWhereAbsent(init, key, val, k);
    }
  }

  lemma {:induction false} SumWhereAbsent<R, K>(rows: seq<R>, key: R -> K, val: R -> int, k: K)
    requires k !in RowKeys(rows, key)
    ensures SumWhere(rows, key, val, k) == 0
  {
    if rows != [] {
      RowKeysSnoc(rows, key);
      SumWhereAbsent(rows[..|rows| - 1], key, val, k);
    }
  }

  /** Lookup is undefined for a key no row carries. */
  lemma TallyAbsent<R, K(!new)>(rows: seq<R>, key: R -> K, val: R -> int, k: K)
    requires k !in RowKeys(rows, key)
    ensures Lookup(Tally(rows, key, val), k) == None
  {
    TallyCorrect(rows, key, val);
    LookupIsMember(Tally(rows, key, val), k);
  }

  /** `Object.entries(obj).sort(([, a], [, b]) => b - a)`: the comparator
      that puts larger counts first. */
  predicate ByCountDesc<K>(a: (K, int), b: (K, int))
  {
    a.1 >= b.1
  }

  lemma ByCountDescIsPreorder<K(!new)>()
    ensures TotalPreorder(ByCountDesc<K>)
  {
  }
}
