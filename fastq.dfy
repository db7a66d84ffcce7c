/**
 * Reading a FASTQ file the way both preprocessing scripts do: four
 * `readline().decode().strip()` calls per record, stopping at the first
 * group whose quality line is empty.  The decompressed file is given as its
 * sequence of lines; a read past the last line yields "".
 */
module Fastq {
  import opened PyText

  /** One FASTQ record: identifier, sequence, separator (`line3`) and quality lines, each stripped. */
  datatype Record = Record(id: string, sequence: string, line3: string, qual: string)

  /** The two groups `(lane.*_L00\d)` and `(R\d.fastq.gz)` of a matched input file name. */
  datatype FileParts = FileParts(sample: string, suffix: string)

  /** `cf.readline().decode().strip()` for line `i`: "" once the file is exhausted. */
  function LineAt(lines: seq<string>, i: nat): string {
    if i < |lines| then Strip(lines[i]) else ""
  }

  /** The four lines the loop reads from line `p` on. */
  function RecordAt(lines: seq<string>, p: nat): Record {
    Record(LineAt(lines, p), LineAt(lines, p + 1), LineAt(lines, p + 2), LineAt(lines, p + 3))
  }

  /** Every line of the file, stripped. */
  function Stripped(lines: seq<string>): (ls: seq<string>)
    ensures |ls| == |lines|
    ensures forall i :: 0 <= i < |lines| ==> ls[i] == Strip(lines[i])
  {
    seq(|lines|, i requires 0 <= i < |lines| => Strip(lines[i]))
  }

  /** What has been written to an output file, empty for a file never opened. */
  function Contents(files: map<string, seq<Record>>, name: string): seq<Record> {
    if name in files then files[name] else []
  }

  /** `fh.write(...)` of one record to the file `name`. */
  function Append(files: map<string, seq<Record>>, name: string, rec: Record): map<string, seq<Record>> {
    files[name := Contents(files, name) + [rec]]
  }

  /** Line `i` of the stripped lines, or "" past the end. */
  function At(ls: seq<string>, i: nat): string {
    if i < |ls| then ls[i] else ""
  }

  /** The four stripped lines from position `p` on. */
  function GroupAt(ls: seq<string>, p: nat): Record {
    Record(At(ls, p), At(ls, p + 1), At(ls, p + 2), At(ls, p + 3))
  }

  lemma AtTail(ls: seq<string>, i: nat)
    requires |ls| >= 4
    ensures At(ls[4..], i) == At(ls, i + 4)
  {
  }

  /**
   * Consecutive groups of four stripped lines, each with a non-empty quality
   * line, up to the first group whose quality line is empty or missing.
   */
  function Groups(ls: seq<string>): (rs: seq<Record>)
    ensures 4 * |rs| <= |ls|
    ensures At(ls, 4 * |rs| + 3) == ""
    decreases |ls|
  {
    if At(ls, 3) == "" then []
    else
      var rest := Groups(ls[4..]);
      AtTail(ls, 4 * |rest| + 3);
      [GroupAt(ls, 0)] + rest
  }

  /** Group `k` is lines `4k` to `4k + 3`, and its quality line is not empty. */
  lemma {:induction false} GroupsAt(ls: seq<string>, k: nat)
    requires k < |Groups(ls)|
    ensures Groups(ls)[k] == GroupAt(ls, 4 * k)
    ensures Groups(ls)[k].qual != ""
    decreases |ls|
  {
    if k > 0 {
      GroupsAt(ls[4..], k - 1);
      AtTail(ls, 4 * (k - 1));
      AtTail(ls, 4 * (k - 1) + 1);
      AtTail(ls, 4 * (k - 1) + 2);
      AtTail(ls, 4 * (k - 1) + 3);
    }
  }

  /**
   * The records the `while True` loop processes: a trailing group of one to
   * three lines is dropped without complaint, and so is everything after a
   * blank quality line.
   */
  function Records(lines: seq<string>): (rs: seq<Record>)
    ensures 4 * |rs| <= |lines|
    ensures LineAt(lines, 4 * |rs| + 3) == ""
  {
    var ls := Stripped(lines);
    var rs := Groups(ls);
    assert 4 * |rs| + 3 < |lines| ==> ls[4 * |rs| + 3] == Strip(lines[4 * |rs| + 3]);
    rs
  }

  /** Record `k` is the `k`-th group of four lines, and its quality line is not blank. */
  lemma RecordsAt(lines: seq<string>, k: nat)
    requires k < |Records(lines)|
    ensures Records(lines)[k] == RecordAt(lines, 4 * k)
    ensures Records(lines)[k].qual != ""
  {
    GroupsAt(Stripped(lines), k);
  }

  /** A group with a non-blank quality line after `k` whole records means there is a record `k`. */
  lemma RecordsContinue(lines: seq<string>, k: nat)
    requires k <= |Records(lines)| && RecordAt(lines, 4 * k).qual != ""
    ensures k < |Records(lines)|
  {
  }

  /** The first `k + 1` records are the first `k` and then the group at line `4k`. */
  lemma RecordsPrefix(lines: seq<string>, k: nat)
    requires k < |Records(lines)|
    ensures Records(lines)[..k + 1] == Records(lines)[..k] + [RecordAt(lines, 4 * k)]
  {
    var rs := Records(lines);
    RecordsAt(lines, k);
    assert rs[..k + 1] == rs[..k] + [rs[k]];
  }

  /** A group of fewer than four lines after whole groups adds no record. */
  lemma {:induction false} GroupsIgnoreFragment(ls: seq<string>, extra: seq<string>)
    requires |ls| % 4 == 0 && |extra| < 4
    ensures Groups(ls + extra) == Groups(ls)
    decreases |ls|
  {
    if ls == [] {
      assert ls + extra == extra;
    } else if At(ls, 3) != "" {
      assert (ls + extra)[4..] == ls[4..] + extra;
      GroupsIgnoreFragment(ls[4..], extra);
    }
  }

  /**
   * A trailing partial record of one to three lines is silently dropped: the
   * file reads as the same records without it.
   */
  lemma TrailingFragmentDropped(lines: seq<string>, extra: seq<string>)
    requires |lines| % 4 == 0 && |extra| < 4
    ensures Records(lines + extra) == Records(lines)
  {
    assert Stripped(lines + extra) == Stripped(lines) + Stripped(extra);
    GroupsIgnoreFragment(Stripped(lines), Stripped(extra));
  }
}
