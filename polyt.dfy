/**
 * The poly-T step shared by both preprocessing scripts: after the fixed
 * prefix is cut off, the match of `^T+` on the residual sequence decides how
 * many bases are removed, and a matched run is tallied in the `polyT` dict.
 */
module PolyT {
  import opened PyText
  import opened Counters

  /** At most this many leading T bases are removed. */
  const MaxTrim: nat := 3

  /** Length of the match of `^T+`, 0 when the pattern does not match. */
  function LeadingTs(s: string): (n: nat)
    ensures n <= |s|
    ensures forall i :: 0 <= i < n ==> s[i] == 'T'
    ensures n == |s| || s[n] != 'T'
  {
    if s != [] && s[0] == 'T' then 1 + LeadingTs(s[1..]) else 0
  }

  /** `m[0]`, the matched run of T, or "" when `m is None`. */
  function Run(s: string): (run: string)
    ensures run == [] <==> (s == [] || s[0] != 'T')
    ensures forall i :: 0 <= i < |run| ==> run[i] == 'T'
    ensures |run| <= |s| && run == s[..|run|]
    ensures |run| == |s| || s[|run|] != 'T'
  {
    s[..LeadingTs(s)]
  }

  /**
   * How many bases are cut from the residual: one base when it does not
   * start with T, otherwise the T run capped at three.  Only T bases are cut
   * from a residual that starts with T, and fewer than three are cut only
   * when the run ends there.
   */
  function TrimAmount(rest: string): (k: nat)
    ensures 1 <= k <= MaxTrim
    ensures (rest == [] || rest[0] != 'T') ==> k == 1
    ensures rest != [] && rest[0] == 'T' ==>
              && k <= |rest|
              && (forall i :: 0 <= i < k ==> rest[i] == 'T')
              && (k < MaxTrim ==> k == |rest| || rest[k] != 'T')
  {
    var n := LeadingTs(rest);
    if n == 0 then 1 else if n > MaxTrim then MaxTrim else n
  }

  /** The histogram key that a matched run increments: the run itself, or "TTT" for longer runs. */
  function Bucket(run: string): string {
    if |run| > MaxTrim then "TTT" else run
  }

  /**
   * The `polyT` update for a matched run: the run becomes a key (with value 0
   * if it is new), then the run's bucket, the run itself when at most three
   * long and "TTT" otherwise, goes up by one.  Every other value stays; a run
   * longer than three is left as a key with value 0 when it was new.
   */
  function CountRun(polyT: Counter, run: string): (r: Counter)
    requires Valid(polyT)
    ensures Valid(r)
    ensures forall k :: k in r.counts <==> (k in polyT.counts || k == run || k == Bucket(run))
    ensures Get(r, Bucket(run)) == Get(polyT, Bucket(run)) + 1
    ensures forall k :: k != Bucket(run) ==> Get(r, k) == Get(polyT, k)
  {
    var withRun := EnsureKey(polyT, run);
    if |run| > MaxTrim then Incr(EnsureKey(withRun, "TTT"), "TTT") else Incr(withRun, run)
  }

  /** Each matched run adds exactly one to the sum of the `polyT` values. */
  lemma CountRunTotal(polyT: Counter, run: string)
    requires Valid(polyT)
    ensures Total(CountRun(polyT, run)) == Total(polyT) + 1
  {
    var withRun := EnsureKey(polyT, run);
    EnsureKeyTotal(polyT, run);
    if |run| > MaxTrim {
      EnsureKeyTotal(withRun, "TTT");
      IncrTotal(EnsureKey(withRun, "TTT"), "TTT");
    } else {
      IncrTotal(withRun, run);
    }
  }
}
