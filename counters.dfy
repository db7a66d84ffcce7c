/**
 * A Python dict from string to count, as the scripts keep their tallies
 * (`polyT`, `faithless_barcodes`).  A Python dict remembers the order in
 * which its keys were first inserted, and the report's stable sort depends
 * on that order, so the keys are kept as a sequence beside the values.
 */
module Counters {

  datatype Counter = Counter(keys: seq<string>, counts: map<string, nat>)

  /** Keys are distinct and are exactly the keys of the value map. */
  ghost predicate Valid(c: Counter) {
    && (forall i, j :: 0 <= i < j < |c.keys| ==> c.keys[i] != c.keys[j])
    && (forall k :: k in c.counts <==> k in c.keys)
  }

  /** `{}` */
  function Empty(): (c: Counter)
    ensures Valid(c) && c.keys == [] && Total(c) == 0
  {
    Counter([], map[])
  }

  function Lookup(m: map<string, nat>, k: string): nat {
    if k in m then m[k] else 0
  }

  /** The value stored under `k`, or 0 for a key never inserted. */
  function Get(c: Counter, k: string): nat {
    Lookup(c.counts, k)
  }

  /** The sum of the values stored under `keys`. */
  function SumOf(keys: seq<string>, m: map<string, nat>): nat {
    if keys == [] then 0 else SumOf(keys[..|keys| - 1], m) + Lookup(m, keys[|keys| - 1])
  }

  /** `sum(d.values())` */
  function Total(c: Counter): nat {
    SumOf(c.keys, c.counts)
  }

  /** Changing the value of a key outside `keys` leaves their sum alone. */
  lemma {:induction false} SumOfOther(keys: seq<string>, m: map<string, nat>, k: string, v: nat)
    requires k !in keys
    ensures SumOf(keys, m[k := v]) == SumOf(keys, m)
  {
    if keys != [] {
      SumOfOther(keys[..|keys| - 1], m, k, v);
    }
  }

  /** Changing the value of a key that occurs once in `keys` shifts their sum by the difference. */
  lemma {:induction false} SumOfUpdate(keys: seq<string>, m: map<string, nat>, k: string, v: nat)
    requires forall i, j :: 0 <= i < j < |keys| ==> keys[i] != keys[j]
    requires k in keys
    ensures SumOf(keys, m[k := v]) + Lookup(m, k) == SumOf(keys, m) + v
  {
    var init, last := keys[..|keys| - 1], keys[|keys| - 1];
    if last == k {
      assert k !in init by {
        forall i | 0 <= i < |init| ensures init[i] != k {
          assert keys[i] == init[i];
        }
      }
      SumOfOther(init, m, k, v);
    } else {
      assert k in init by {
        var i :| 0 <= i < |keys| && keys[i] == k;
        assert i < |keys| - 1 && init[i] == k;
      }
      SumOfUpdate(init, m, k, v);
    }
  }

  /** `if k not in d: d[k] = 0` */
  function EnsureKey(c: Counter, k: string): (r: Counter)
    requires Valid(c)
    ensures Valid(r) && k in r.counts
    ensures r.keys == if k in c.counts then c.keys else c.keys + [k]
    ensures forall j :: Get(r, j) == Get(c, j)
  {
    if k in c.counts then c else Counter(c.keys + [k], c.counts[k := 0])
  }

  /** Adding a key with value 0 leaves the sum of the values alone. */
  lemma EnsureKeyTotal(c: Counter, k: string)
    requires Valid(c)
    ensures Total(EnsureKey(c, k)) == Total(c)
  {
    if k !in c.counts {
      SumOfAppendNew(c.keys, c.counts, k);
    }
  }

  /** A new key with value 0 at the end leaves the sum alone. */
  lemma SumOfAppendNew(keys: seq<string>, m: map<string, nat>, k: string)
    requires k !in keys
    ensures SumOf(keys + [k], m[k := 0]) == SumOf(keys, m)
  {
    assert (keys + [k])[..|keys|] == keys;
    SumOfOther(keys, m, k, 0);
  }

  /** `d[k] += 1` for a key already in `d`. */
  function Incr(c: Counter, k: string): (r: Counter)
    requires Valid(c) && k in c.counts
    ensures Valid(r) && r.keys == c.keys
    ensures Get(r, k) == Get(c, k) + 1
    ensures forall j :: j != k ==> Get(r, j) == Get(c, j)
  {
    Counter(c.keys, c.counts[k := c.counts[k] + 1])
  }

  /** Counting one more under a key adds one to the sum of the values. */
  lemma IncrTotal(c: Counter, k: string)
    requires Valid(c) && k in c.counts
    ensures Total(Incr(c, k)) == Total(c) + 1
  {
    SumOfUpdate(c.keys, c.counts, k, c.counts[k] + 1);
  }
}
