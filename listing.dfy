/**
 * The end-of-file report: the two scripts sort a tally dict (by key with
 * `sorted(d.keys())`, or by value with `sorted(d, key=d.get, reverse=True)`)
 * and print `key<TAB>count` lines, possibly stopping after a fixed number.
 */
module Listing {
  import opened Wrappers
  import opened PyText
  import opened Counters

  /** One printed report line, `f"{key}\t{count}"`. */
  datatype Line = Line(key: string, count: nat)

  /** The first `n` elements, or all of them when there are fewer. */
  function Take<T>(s: seq<T>, n: nat): (r: seq<T>)
    ensures |r| == Min(n, |s|) && r == s[..|r|]
  {
    if n <= |s| then s[..n] else s
  }

  ghost predicate Distinct(s: seq<string>) {
    forall i, j :: 0 <= i < j < |s| ==> s[i] != s[j]
  }

  // ---------------------------------------------------------------------
  // Python's ordering of str

  /** Python's `a < b` on str: first differing code point decides, a proper prefix comes first. */
  predicate StrLess(a: string, b: string)
    decreases |a|
  {
    if a == [] then b != []
    else if b == [] then false
    else if a[0] != b[0] then a[0] < b[0]
    else StrLess(a[1..], b[1..])
  }

  lemma {:induction false} StrLessIrreflexive(a: string)
    ensures !StrLess(a, a)
  {
    if a != [] {
      StrLessIrreflexive(a[1..]);
    }
  }

  lemma {:induction false} StrLessTransitive(a: string, b: string, c: string)
    requires StrLess(a, b) && StrLess(b, c)
    ensures StrLess(a, c)
    decreases |a|
  {
    if a != [] && b != [] && c != [] && a[0] == b[0] && b[0] == c[0] {
      StrLessTransitive(a[1..], b[1..], c[1..]);
    }
  }

  lemma {:induction false} StrLessTotal(a: string, b: string)
    requires a != b
    ensures StrLess(a, b) || StrLess(b, a)
    decreases |a|
  {
    if a != [] && b != [] && a[0] == b[0] {
      StrLessTotal(a[1..], b[1..]);
    }
  }

  // ---------------------------------------------------------------------
  // sorted(d.keys())

  function InsertByKey(x: string, l: seq<string>): seq<string> {
    if l == [] || !StrLess(l[0], x) then [x] + l else [l[0]] + InsertByKey(x, l[1..])
  }

  /** `sorted(keys)` for str keys, as an insertion sort. */
  function SortKeys(s: seq<string>): seq<string> {
    if s == [] then [] else InsertByKey(s[0], SortKeys(s[1..]))
  }

  ghost predicate Ascending(s: seq<string>) {
    forall i, j :: 0 <= i < j < |s| ==> StrLess(s[i], s[j])
  }

  lemma {:induction false} InsertByKeyPermutes(x: string, l: seq<string>)
    ensures multiset(InsertByKey(x, l)) == multiset(l) + multiset{x}
  {
    if l != [] && StrLess(l[0], x) {
      InsertByKeyPermutes(x, l[1..]);
      assert l == [l[0]] + l[1..];
    }
  }

  lemma {:induction false} InsertByKeySorted(x: string, l: seq<string>)
    requires Ascending(l) && x !in l
    ensures Ascending(InsertByKey(x, l))
  {
    if l == [] {
    } else if !StrLess(l[0], x) {
      StrLessTotal(x, l[0]);
      forall j | 1 <= j < |l| ensures StrLess(x, l[j]) {
        StrLessTransitive(x, l[0], l[j]);
      }
    } else {
      var tail := l[1..];
      InsertByKeySorted(x, tail);
      InsertByKeyPermutes(x, tail);
      var r := InsertByKey(x, tail);
      forall j | 0 <= j < |r| ensures StrLess(l[0], r[j]) {
        assert r[j] in multiset(r);
        if r[j] != x {
          assert r[j] in tail;
        }
      }
    }
  }

  /** `sorted(d.keys())` lists every key once, in strictly increasing order. */
  lemma {:induction false} SortKeysCorrect(s: seq<string>)
    requires Distinct(s)
    ensures multiset(SortKeys(s)) == multiset(s)
    ensures Ascending(SortKeys(s))
  {
    if s != [] {
      SortKeysCorrect(s[1..]);
      assert s == [s[0]] + s[1..];
      assert s[0] !in multiset(s[1..]);
      InsertByKeyPermutes(s[0], SortKeys(s[1..]));
      InsertByKeySorted(s[0], SortKeys(s[1..]));
    }
  }

  /** `sorted(keys)` lists every key once: same length, same members, increasing. */
  lemma SortKeysListsAll(s: seq<string>)
    requires Distinct(s)
    ensures |SortKeys(s)| == |s|
    ensures Ascending(SortKeys(s))
    ensures forall k :: k in SortKeys(s) <==> k in s
  {
    SortKeysCorrect(s);
    var sorted := SortKeys(s);
    assert |sorted| == |s| by {
      assert |multiset(sorted)| == |multiset(s)|;
    }
    forall k ensures k in sorted <==> k in s {
      if k in sorted {
        assert k in multiset(sorted);
      }
      if k in s {
        assert k in multiset(s);
      }
    }
  }

  // ---------------------------------------------------------------------
  // sorted(d, key=d.get, reverse=True)

  /** Puts `x` before the first element whose count is not above its own. */
  function InsertByCount(x: string, l: seq<string>, m: map<string, nat>): seq<string> {
    if l == [] || Lookup(m, l[0]) <= Lookup(m, x) then [x] + l
    else [l[0]] + InsertByCount(x, l[1..], m)
  }

  /** `sorted(keys, key=m.get, reverse=True)`: Python's stable sort, largest count first. */
  function SortByCount(s: seq<string>, m: map<string, nat>): seq<string> {
    if s == [] then [] else InsertByCount(s[0], SortByCount(s[1..], m), m)
  }

  ghost predicate NonIncreasing(s: seq<string>, m: map<string, nat>) {
    forall i, j :: 0 <= i < j < |s| ==> Lookup(m, s[i]) >= Lookup(m, s[j])
  }

  /** The elements of `s` whose count is `v`, in their order in `s`. */
  function WithCount(s: seq<string>, m: map<string, nat>, v: nat): seq<string> {
    if s == [] then []
    else (if Lookup(m, s[0]) == v then [s[0]] else []) + WithCount(s[1..], m, v)
  }

  lemma {:induction false} InsertByCountPermutes(x: string, l: seq<string>, m: map<string, nat>)
    ensures multiset(InsertByCount(x, l, m)) == multiset(l) + multiset{x}
  {
    if l != [] && Lookup(m, l[0]) > Lookup(m, x) {
      InsertByCountPermutes(x, l[1..], m);
      assert l == [l[0]] + l[1..];
    }
  }

  lemma {:induction false} InsertByCountSorted(x: string, l: seq<string>, m: map<string, nat>)
    requires NonIncreasing(l, m)
    ensures NonIncreasing(InsertByCount(x, l, m), m)
  {
    if l != [] && Lookup(m, l[0]) > Lookup(m, x) {
      var tail := l[1..];
      InsertByCountSorted(x, tail, m);
      InsertByCountPermutes(x, tail, m);
      var r := InsertByCount(x, tail, m);
      forall j | 0 <= j < |r| ensures Lookup(m, l[0]) >= Lookup(m, r[j]) {
        assert r[j] in multiset(r);
        if r[j] != x {
          assert r[j] in tail;
        }
      }
    }
  }

  /** Inserting `x` puts it in front of every element with the same count. */
  lemma {:induction false} InsertByCountStable(x: string, l: seq<string>, m: map<string, nat>, v: nat)
    ensures WithCount(InsertByCount(x, l, m), m, v)
            == (if Lookup(m, x) == v then [x] else []) + WithCount(l, m, v)
  {
    if l != [] && Lookup(m, l[0]) > Lookup(m, x) {
      var r := InsertByCount(x, l[1..], m);
      InsertByCountStable(x, l[1..], m, v);
      assert ([l[0]] + r)[1..] == r;
    }
  }

  /**
   * The rejected-barcode order: every key once, counts never increase, and
   * keys with equal counts keep their insertion order (the sort is stable).
   */
  lemma {:induction false} SortByCountCorrect(s: seq<string>, m: map<string, nat>)
    ensures multiset(SortByCount(s, m)) == multiset(s)
    ensures NonIncreasing(SortByCount(s, m), m)
    ensures forall v :: WithCount(SortByCount(s, m), m, v) == WithCount(s, m, v)
  {
    if s != [] {
      SortByCountCorrect(s[1..], m);
      assert s == [s[0]] + s[1..];
      InsertByCountPermutes(s[0], SortByCount(s[1..], m), m);
      InsertByCountSorted(s[0], SortByCount(s[1..], m), m);
      forall v ensures WithCount(SortByCount(s, m), m, v) == WithCount(s, m, v) {
        InsertByCountStable(s[0], SortByCount(s[1..], m), m, v);
      }
    }
  }

  // ---------------------------------------------------------------------
  // The printing loops

  /**
   * `for k in order: print(f"{k}\t{d[k]}"); n += 1; if n == limit: break`
   * (no counter and no break when there is no limit).
   */
  method PrintCounts(order: seq<string>, c: Counter, limit: Option<nat>) returns (lines: seq<Line>)
    requires limit.Some? ==> limit.value >= 1
    ensures |lines| == if limit.Some? then Min(limit.value, |order|) else |order|
    ensures forall i :: 0 <= i < |lines| ==> lines[i] == Line(order[i], Get(c, order[i]))
    ensures lines == Lines(order, c, if limit.Some? then limit.value else |order|)
  {
    lines := [];
    var printed := 0;
    for i := 0 to |order|
      invariant printed == i == |lines|
      invariant limit.Some? ==> printed < limit.value
      invariant forall j :: 0 <= j < i ==> lines[j] == Line(order[j], Get(c, order[j]))
    {
      lines := lines + [Line(order[i], Get(c, order[i]))];
      printed := printed + 1;
      if limit.Some? && printed == limit.value {
        break;
      }
    }
  }

  /** The report lines for `order`, at most `n` of them. */
  function Lines(order: seq<string>, c: Counter, n: nat): (r: seq<Line>)
    ensures |r| == Min(n, |order|)
    ensures forall i :: 0 <= i < |r| ==> r[i] == Line(order[i], Get(c, order[i]))
  {
    seq(Min(n, |order|), i requires 0 <= i < Min(n, |order|) => Line(order[i], Get(c, order[i])))
  }

  /** The keys of printed lines, in order. */
  function KeysOf(lines: seq<Line>): (ks: seq<string>)
    ensures |ks| == |lines| && forall i :: 0 <= i < |lines| ==> ks[i] == lines[i].key
  {
    seq(|lines|, i requires 0 <= i < |lines| => lines[i].key)
  }

  /**
   * The key listing keeps the `n` smallest keys, in increasing order: any key
   * left out is larger than every key listed.
   */
  lemma SmallestKeysListed(keys: seq<string>, n: nat)
    requires Distinct(keys)
    ensures var l := Take(SortKeys(keys), n);
      && |l| == Min(n, |keys|)
      && Ascending(l)
      && (forall k :: k in l ==> k in keys)
      && (forall k, j :: k in keys && k !in l && j in l ==> StrLess(j, k))
  {
    SortKeysCorrect(keys);
    var r := SortKeys(keys);
    var l := Take(r, n);
    forall k | k in l ensures k in keys {
      assert k in multiset(r);
    }
    forall k, j | k in keys && k !in l && j in l ensures StrLess(j, k) {
      assert k in multiset(r);
      var a :| 0 <= a < |r| && r[a] == k;
      var b :| 0 <= b < |l| && l[b] == j;
      assert a >= |l|;
      assert r[b] == j;
    }
  }

  /** The keys of a prefix with count `v` are a prefix of the keys of the whole with count `v`. */
  lemma {:induction false} WithCountPrefix(s: seq<string>, m: map<string, nat>, v: nat, n: nat)
    requires n <= |s|
    ensures WithCount(s[..n], m, v) <= WithCount(s, m, v)
  {
    if n > 0 {
      WithCountPrefix(s[1..], m, v, n - 1);
      assert s[..n][0] == s[0] && s[..n][1..] == s[1..][..n - 1];
      var head := if Lookup(m, s[0]) == v then [s[0]] else [];
      var a, b := WithCount(s[1..][..n - 1], m, v), WithCount(s[1..], m, v);
      assert head + a == (head + b)[..|head| + |a|];
    }
  }

  /**
   * The rejected-barcode listing keeps the `n` most frequent keys: any key
   * left out has a count no larger than that of any key listed.  Among keys
   * of equal count, those listed come first in insertion order, in that
   * order, as the stable sort keeps them.
   */
  lemma LargestCountsListed(keys: seq<string>, m: map<string, nat>, n: nat)
    ensures var l := Take(SortByCount(keys, m), n);
      && |l| == Min(n, |keys|)
      && NonIncreasing(l, m)
      && (forall k :: k in l ==> k in keys)
      && (forall k, j :: k in keys && k !in l && j in l ==> Lookup(m, k) <= Lookup(m, j))
      && (forall v :: WithCount(l, m, v) <= WithCount(keys, m, v))
  {
    SortByCountCorrect(keys, m);
    var r := SortByCount(keys, m);
    var l := Take(r, n);
    assert |r| == |keys| by {
      assert |multiset(r)| == |multiset(keys)|;
    }
    forall k | k in l ensures k in keys {
      assert k in multiset(r);
    }
    forall k, j | k in keys && k !in l && j in l ensures Lookup(m, k) <= Lookup(m, j) {
      assert k in multiset(r);
      var a :| 0 <= a < |r| && r[a] == k;
      var b :| 0 <= b < |l| && l[b] == j;
      assert a >= |l|;
      assert r[b] == j;
    }
    forall v ensures WithCount(l, m, v) <= WithCount(keys, m, v) {
      WithCountPrefix(r, m, v, |l|);
    }
  }
}
