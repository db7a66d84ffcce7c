/**
 * TrAELseq_preprocessing.py: every read loses its first 8 bases (the UMI),
 * which move to the end of the read ID, then loses its leading T run (capped
 * at three bases, and one base when there is no run), and is written to the
 * T or the noT output file of its input file.  The `polyT` dict tallies the
 * runs and is printed, sorted, at the end of each file.
 */
module UmiPreprocessing {
  import opened Wrappers
  import opened PyText
  import opened Counters
  import opened Listing
  import opened Fastq
  import opened PolyT
  import opened Inputs

  /** Bases of UMI in front of the poly-T run. */
  const UmiLength: nat := 8

  /** The `sample_name` argument of both `make_out_filehandle` calls. */
  const SampleName := "UMIed"

  /** A processed record, and the match of `^T+` that chose its file ("" when `m is None`). */
  datatype Processed = Processed(out: Record, run: string)

  /** What `main` prints at the end of a file: the read count and the `polyT` lines. */
  datatype Report = Report(total: nat, polyT: seq<Line>)

  /** Steps 1 and 2 of the record loop: the UMI moves into the ID, then the poly-T run is cut. */
  function Process(r: Record): Processed {
    var umi := Slice(r.sequence, 0, UmiLength);
    var rest := Drop(r.sequence, UmiLength);
    var qualRest := Drop(r.qual, UmiLength);
    var k := TrimAmount(rest);
    Processed(Record(ReplaceSpaces(r.id + ":" + umi), Drop(rest, k), r.line3, Drop(qualRest, k)), Run(rest))
  }

  /**
   * Sequence and quality are cut at the same offset, the UMI plus the trim
   * amount, so a record whose two lines have equal length keeps them equal;
   * the ID gains `:` and the UMI and has no space left.
   */
  lemma ProcessCuts(r: Record)
    ensures var p := Process(r);
      var k := TrimAmount(Drop(r.sequence, UmiLength));
      && p.out.sequence == Drop(r.sequence, UmiLength + k)
      && p.out.qual == Drop(r.qual, UmiLength + k)
      && (|r.sequence| == |r.qual| ==> |p.out.sequence| == |p.out.qual|)
      && p.out.line3 == r.line3
      && p.run == Run(Drop(r.sequence, UmiLength))
  {
    var k := TrimAmount(Drop(r.sequence, UmiLength));
    DropDrop(r.sequence, UmiLength, k);
    DropDrop(r.qual, UmiLength, k);
  }

  /** The new ID is the old one, `:` and the UMI, with every space turned into `_`. */
  lemma ProcessId(r: Record)
    ensures var id := Process(r).out.id;
      && id == ReplaceSpaces(r.id) + ":" + ReplaceSpaces(Slice(r.sequence, 0, UmiLength))
      && ' ' !in id
  {
    var umi := Slice(r.sequence, 0, UmiLength);
    assert r.id + ":" + umi == r.id + (":" + umi);
    ReplaceSpacesConcat(r.id, ":" + umi);
    ReplaceSpacesConcat(":", umi);
  }

  /** `make_out_filehandle`: `{sample}_{sample_name}_{TnoT}_{suffix}`. */
  function OutName(parts: FileParts, side: string): string {
    parts.sample + "_" + SampleName + "_" + side + "_" + parts.suffix
  }

  /** The T and the noT output names of one input file never coincide. */
  lemma OutNamesDiffer(parts: FileParts)
    ensures OutName(parts, "T") != OutName(parts, "noT")
  {
    assert |OutName(parts, "T")| + 2 == |OutName(parts, "noT")|;
  }

  /** What the record loop changes: `count`, the global `polyT` and the output files. */
  datatype Tallies = Tallies(count: nat, polyT: Counter, files: map<string, seq<Record>>)

  /**
   * Every record of `rs`, processed by this script's `Process`.  Each script
   * has its own `Processed` type and `Process`, so this and the counts below
   * are per script.
   */
  function Outcomes(rs: seq<Record>): (ps: seq<Processed>)
    ensures |ps| == |rs|
  {
    if rs == [] then [] else Outcomes(rs[..|rs| - 1]) + [Process(rs[|rs| - 1])]
  }

  lemma OutcomesSnoc(rs: seq<Record>, r: Record)
    ensures Outcomes(rs + [r]) == Outcomes(rs) + [Process(r)]
  {
    assert (rs + [r])[..|rs|] == rs;
  }

  /** The output file a processed record goes to: T when its residual started with T, noT otherwise. */
  function Dest(p: Processed, outT: string, outNoT: string): string {
    if p.run == "" then outNoT else outT
  }

  /** One pass of the `while True` body, for the processed record `p`. */
  function Step(st: Tallies, p: Processed, outT: string, outNoT: string): (next: Tallies)
    requires Valid(st.polyT)
    ensures Valid(next.polyT)
  {
    Tallies(st.count + 1,
            if p.run == "" then st.polyT else CountRun(st.polyT, p.run),
            Append(st.files, Dest(p, outT, outNoT), p.out))
  }

  /** The record loop over the processed records `ps`, one `Step` each, in order. */
  function RunAll(st: Tallies, ps: seq<Processed>, outT: string, outNoT: string): (end: Tallies)
    requires Valid(st.polyT)
    ensures Valid(end.polyT)
    decreases |ps|
  {
    if ps == [] then st
    else Step(RunAll(st, ps[..|ps| - 1], outT, outNoT), ps[|ps| - 1], outT, outNoT)
  }

  /** Reading the record at line `4 * |done|` extends the records read and the loop by one `Step`. */
  lemma ReadNext(start: Tallies, lines: seq<string>, done: seq<Record>, outT: string, outNoT: string)
    requires Valid(start.polyT)
    requires |done| <= |Records(lines)| && done == Records(lines)[..|done|]
    requires RecordAt(lines, 4 * |done|).qual != ""
    ensures |done| < |Records(lines)|
    ensures done + [RecordAt(lines, 4 * |done|)] == Records(lines)[..|done| + 1]
    ensures RunAll(start, Outcomes(done + [RecordAt(lines, 4 * |done|)]), outT, outNoT)
            == Step(RunAll(start, Outcomes(done), outT, outNoT), Process(RecordAt(lines, 4 * |done|)), outT, outNoT)
  {
    var rec := RecordAt(lines, 4 * |done|);
    RecordsContinue(lines, |done|);
    RecordsPrefix(lines, |done|);
    OutcomesSnoc(done, rec);
    assert (Outcomes(done) + [Process(rec)])[..|done|] == Outcomes(done);
  }

  /** The number of records whose residual started with T. */
  function TCount(ps: seq<Processed>): nat {
    if ps == [] then 0
    else TCount(ps[..|ps| - 1]) + (if ps[|ps| - 1].run != "" then 1 else 0)
  }

  /** The number of records with a T run whose histogram bucket is `key`. */
  function BucketCount(ps: seq<Processed>, key: string): nat {
    if ps == [] then 0
    else
      var run := ps[|ps| - 1].run;
      BucketCount(ps[..|ps| - 1], key) + (if run != "" && Bucket(run) == key then 1 else 0)
  }

  /** The output records that go to file `name`, in order. */
  function SentTo(ps: seq<Processed>, name: string, outT: string, outNoT: string): seq<Record> {
    if ps == [] then []
    else
      var last := ps[|ps| - 1];
      SentTo(ps[..|ps| - 1], name, outT, outNoT) + (if Dest(last, outT, outNoT) == name then [last.out] else [])
  }

  /**
   * `count` counts every record; `polyT` gains exactly one per T record, on
   * that record's bucket, so its values grow by the number of T records.
   */
  lemma {:induction false} RunAllTallies(st: Tallies, ps: seq<Processed>, outT: string, outNoT: string)
    requires Valid(st.polyT)
    ensures RunAll(st, ps, outT, outNoT).count == st.count + |ps|
    ensures Total(RunAll(st, ps, outT, outNoT).polyT) == Total(st.polyT) + TCount(ps)
    ensures forall key :: Get(RunAll(st, ps, outT, outNoT).polyT, key) == Get(st.polyT, key) + BucketCount(ps, key)
  {
    if ps != [] {
      var init := ps[..|ps| - 1];
      RunAllTallies(st, init, outT, outNoT);
      var run := ps[|ps| - 1].run;
      if run != "" {
        CountRunTotal(RunAll(st, init, outT, outNoT).polyT, run);
      }
    }
  }

  /** Some record of `ps` whose residual started with T puts `k` into `polyT`: `k` is its run or the run's bucket. */
  ghost predicate RunKey(ps: seq<Processed>, k: string) {
    exists i :: 0 <= i < |ps| && ps[i].run != "" && (k == ps[i].run || k == Bucket(ps[i].run))
  }

  /**
   * The keys of `polyT` after the loop: those it had, plus the run and the
   * run's bucket of every record whose residual started with T, so a run
   * longer than three stays behind as a key of its own.
   */
  lemma {:induction false} RunAllKeys(st: Tallies, ps: seq<Processed>, outT: string, outNoT: string)
    requires Valid(st.polyT)
    ensures forall k :: k in RunAll(st, ps, outT, outNoT).polyT.counts <==> k in st.polyT.counts || RunKey(ps, k)
  {
    if ps != [] {
      var init, last := ps[..|ps| - 1], ps[|ps| - 1];
      RunAllKeys(st, init, outT, outNoT);
      forall k ensures RunKey(ps, k) <==> RunKey(init, k) || (last.run != "" && (k == last.run || k == Bucket(last.run))) {
        if RunKey(ps, k) {
          var i :| 0 <= i < |ps| && ps[i].run != "" && (k == ps[i].run || k == Bucket(ps[i].run));
          if i < |init| {
            assert init[i] == ps[i];
          }
        }
        if RunKey(init, k) {
          var i :| 0 <= i < |init| && init[i].run != "" && (k == init[i].run || k == Bucket(init[i].run));
          assert ps[i] == init[i];
        }
      }
    }
  }

  /** With two output files, a file that is neither receives nothing. */
  lemma {:induction false} SentToOther(ps: seq<Processed>, name: string, outT: string, outNoT: string)
    requires name != outT && name != outNoT
    ensures SentTo(ps, name, outT, outNoT) == []
  {
    if ps != [] {
      SentToOther(ps[..|ps| - 1], name, outT, outNoT);
    }
  }

  /** Each file ends with what it had plus, in order, the records sent to it. */
  lemma {:induction false} RunAllFiles(st: Tallies, ps: seq<Processed>, outT: string, outNoT: string, name: string)
    requires Valid(st.polyT)
    ensures Contents(RunAll(st, ps, outT, outNoT).files, name) == Contents(st.files, name) + SentTo(ps, name, outT, outNoT)
  {
    if ps != [] {
      RunAllFiles(st, ps[..|ps| - 1], outT, outNoT, name);
    }
  }

  /**
   * With two distinct output files every record lands in exactly one of them:
   * the T file receives the T records and the two together receive all.
   */
  lemma {:induction false} SinksPartition(ps: seq<Processed>, outT: string, outNoT: string)
    requires outT != outNoT
    ensures |SentTo(ps, outT, outT, outNoT)| == TCount(ps)
    ensures |SentTo(ps, outT, outT, outNoT)| + |SentTo(ps, outNoT, outT, outNoT)| == |ps|
  {
    if ps != [] {
      SinksPartition(ps[..|ps| - 1], outT, outNoT);
    }
  }

  /** The counts of the loop do not depend on what the output files held before. */
  lemma {:induction false} RunAllIgnoresFiles(st: Tallies, st': Tallies, ps: seq<Processed>, outT: string, outNoT: string)
    requires Valid(st.polyT) && st.count == st'.count && st.polyT == st'.polyT
    ensures RunAll(st, ps, outT, outNoT).count == RunAll(st', ps, outT, outNoT).count
    ensures RunAll(st, ps, outT, outNoT).polyT == RunAll(st', ps, outT, outNoT).polyT
  {
    if ps != [] {
      RunAllIgnoresFiles(st, st', ps[..|ps| - 1], outT, outNoT);
    }
  }

  /** `main` on one file: open both outputs, then run the loop from `count = 0`. */
  function FileRun(polyT: Counter, files: map<string, seq<Record>>, parts: FileParts, lines: seq<string>): Tallies
    requires Valid(polyT)
  {
    var outT, outNoT := OutName(parts, "T"), OutName(parts, "noT");
    RunAll(Tallies(0, polyT, files[outNoT := []][outT := []]), Outcomes(Records(lines)), outT, outNoT)
  }

  /** The end-of-file report: total reads, then every `polyT` key in sorted order. */
  function ReportOf(end: Tallies): Report {
    var order := SortKeys(end.polyT.keys);
    Report(end.count, Lines(order, end.polyT, |order|))
  }

  /** The report of a file processed with a fresh `polyT`, as `submain` arranges. */
  function FileReport(input: Input): Report {
    if input.parts.None? then Report(0, [])
    else ReportOf(FileRun(Empty(), map[], input.parts.value, input.lines))
  }

  /** The output files after processing `inputs` one after another, each with a fresh `polyT`. */
  function WriteAll(files: map<string, seq<Record>>, inputs: seq<Input>): map<string, seq<Record>>
    requires forall i :: 0 <= i < |inputs| ==> inputs[i].parts.Some?
  {
    if inputs == [] then files
    else
      var last := inputs[|inputs| - 1];
      FileRun(Empty(), WriteAll(files, inputs[..|inputs| - 1]), last.parts.value, last.lines).files
  }

  /** What the output files held before does not change the report of a file. */
  lemma ReportIgnoresFiles(files: map<string, seq<Record>>, input: Input)
    requires input.parts.Some?
    ensures ReportOf(FileRun(Empty(), files, input.parts.value, input.lines)) == FileReport(input)
  {
    var parts := input.parts.value;
    var outT, outNoT := OutName(parts, "T"), OutName(parts, "noT");
    RunAllIgnoresFiles(Tallies(0, Empty(), files[outNoT := []][outT := []]),
                       Tallies(0, Empty(), map[][outNoT := []][outT := []]),
                       Outcomes(Records(input.lines)), outT, outNoT);
  }

  lemma WriteAllSnoc(files: map<string, seq<Record>>, inputs: seq<Input>, i: nat)
    requires i < |inputs|
    requires forall j :: 0 <= j <= i ==> inputs[j].parts.Some?
    ensures WriteAll(files, inputs[..i + 1])
            == FileRun(Empty(), WriteAll(files, inputs[..i]), inputs[i].parts.value, inputs[i].lines).files
  {
    assert inputs[..i + 1][..i] == inputs[..i];
  }

  /**
   * A file written for input `j` keeps what it held after that input when no
   * later input has it as an output: processing the next files does not
   * disturb the earlier outputs.
   */
  lemma {:induction false} WriteAllKeeps(files: map<string, seq<Record>>, inputs: seq<Input>, j: nat, name: string)
    requires j < |inputs|
    requires forall i :: 0 <= i < |inputs| ==> inputs[i].parts.Some?
    requires forall i :: j < i < |inputs| ==> name != OutName(inputs[i].parts.value, "T") && name != OutName(inputs[i].parts.value, "noT")
    ensures Contents(WriteAll(files, inputs), name) == Contents(WriteAll(files, inputs[..j + 1]), name)
  {
    if |inputs| == j + 1 {
      assert inputs[..j + 1] == inputs;
    } else {
      var init := inputs[..|inputs| - 1];
      WriteAllKeeps(files, init, j, name);
      WriteAllLastOthers(files, inputs, name);
      assert init[..j + 1] == inputs[..j + 1];
    }
  }

  /** The last input leaves a file that is not one of its outputs as the earlier inputs left it. */
  lemma WriteAllLastOthers(files: map<string, seq<Record>>, inputs: seq<Input>, name: string)
    requires inputs != []
    requires forall i :: 0 <= i < |inputs| ==> inputs[i].parts.Some?
    requires name != OutName(inputs[|inputs| - 1].parts.value, "T") && name != OutName(inputs[|inputs| - 1].parts.value, "noT")
    ensures Contents(WriteAll(files, inputs), name) == Contents(WriteAll(files, inputs[..|inputs| - 1]), name)
  {
    var last := inputs[|inputs| - 1];
    FileRunOthers(Empty(), WriteAll(files, inputs[..|inputs| - 1]), last.parts.value, last.lines, name);
  }

  /**
   * `main` on one file reports one read per record and adds one `polyT`
   * count per record whose residual starts with T; the T file receives
   * exactly those records, and the noT file the others.  `polyT` ends with
   * the keys it had and the keys these records insert, and no others.
   */
  lemma FileRunTallies(polyT: Counter, files: map<string, seq<Record>>, parts: FileParts, lines: seq<string>)
    requires Valid(polyT)
    ensures var end := FileRun(polyT, files, parts, lines);
      var ps := Outcomes(Records(lines));
      var outT, outNoT := OutName(parts, "T"), OutName(parts, "noT");
      && end.count == |Records(lines)|
      && Total(end.polyT) == Total(polyT) + TCount(ps)
      && Contents(end.files, outT) == SentTo(ps, outT, outT, outNoT)
      && Contents(end.files, outNoT) == SentTo(ps, outNoT, outT, outNoT)
      && |Contents(end.files, outT)| == TCount(ps)
      && |Contents(end.files, outT)| + |Contents(end.files, outNoT)| == |Records(lines)|
      && (forall k :: k in end.polyT.counts <==> k in polyT.counts || RunKey(ps, k))
  {
    var outT, outNoT := OutName(parts, "T"), OutName(parts, "noT");
    var ps := Outcomes(Records(lines));
    var start := Tallies(0, polyT, files[outNoT := []][outT := []]);
    RunAllTallies(start, ps, outT, outNoT);
    RunAllFiles(start, ps, outT, outNoT, outT);
    RunAllFiles(start, ps, outT, outNoT, outNoT);
    OutNamesDiffer(parts);
    SinksPartition(ps, outT, outNoT);
    RunAllKeys(start, ps, outT, outNoT);
  }

  /** `main` on one input leaves every file other than its two outputs as it was. */
  lemma FileRunOthers(polyT: Counter, files: map<string, seq<Record>>, parts: FileParts, lines: seq<string>, name: string)
    requires Valid(polyT)
    requires name != OutName(parts, "T") && name != OutName(parts, "noT")
    ensures Contents(FileRun(polyT, files, parts, lines).files, name) == Contents(files, name)
  {
    var outT, outNoT := OutName(parts, "T"), OutName(parts, "noT");
    var ps := Outcomes(Records(lines));
    var start := Tallies(0, polyT, files[outNoT := []][outT := []]);
    RunAllFiles(start, ps, outT, outNoT, name);
    SentToOther(ps, name, outT, outNoT);
  }

  /** The report lists each `polyT` key once, in increasing order, with its count. */
  lemma ReportListsAllKeys(end: Tallies)
    requires Valid(end.polyT)
    ensures var rep := ReportOf(end);
      && rep.total == end.count
      && |rep.polyT| == |end.polyT.keys|
      && (forall i, j :: 0 <= i < j < |rep.polyT| ==> StrLess(rep.polyT[i].key, rep.polyT[j].key))
      && (forall k :: k in end.polyT.counts <==> exists i :: 0 <= i < |rep.polyT| && rep.polyT[i].key == k)
      && (forall i :: 0 <= i < |rep.polyT| ==> rep.polyT[i].count == Get(end.polyT, rep.polyT[i].key))
  {
    SortKeysListsAll(end.polyT.keys);
    var rep := ReportOf(end);
    var sorted := SortKeys(end.polyT.keys);
    assert forall i :: 0 <= i < |rep.polyT| ==> rep.polyT[i].key == sorted[i];
  }

  class Preprocessor {
    /** The module-level `polyT` dict. */
    var polyT: Counter
    /** The output files on disk: name to the records written to it. */
    var files: map<string, seq<Record>>

    constructor ()
      ensures polyT == Empty() && files == map[]
    {
      polyT := Empty();
      files := map[];
    }

    /**
     * The `polyT` update for a matched run: add the run as a key, then count
     * it, or count "TTT" instead when the run is longer than three.
     */
    method Tally(run: string)
      requires Valid(polyT)
      modifies this
      ensures polyT == CountRun(old(polyT), run) && files == old(files)
    {
      polyT := EnsureKey(polyT, run);
      if |run| > MaxTrim {
        polyT := EnsureKey(polyT, "TTT");
        polyT := Incr(polyT, "TTT");
      } else {
        polyT := Incr(polyT, run);
      }
    }

    /**
     * One pass of the `while True` body after the read count: cut the UMI and
     * the poly-T run, tally the run, and write the record to its file.
     */
    method Handle(rec: Record, outT: string, outNoT: string)
      requires Valid(polyT) && outT in files && outNoT in files
      modifies this
      ensures Valid(polyT) && outT in files && outNoT in files
      ensures var next := Step(Tallies(0, old(polyT), old(files)), Process(rec), outT, outNoT);
        polyT == next.polyT && files == next.files
    {
      var readId, sequence, line3, qual := rec.id, rec.sequence, rec.line3, rec.qual;

      // step 1: the UMI goes into the read ID
      var umi := Slice(sequence, 0, UmiLength);
      var rest := Drop(sequence, UmiLength);
      var qualRest := Drop(qual, UmiLength);
      readId := readId + ":" + umi;

      // step 2: the poly-T run
      var run := Run(rest);
      var newRest, newQual;
      if run == "" {
        newRest, newQual := Drop(rest, 1), Drop(qualRest, 1);
      } else {
        var polyTLength := |run|;
        Tally(run);
        if polyTLength > MaxTrim {
          polyTLength := MaxTrim;
        }
        newRest, newQual := Drop(rest, polyTLength), Drop(qualRest, polyTLength);
      }
      readId := ReplaceSpaces(readId);

      var out := Record(readId, newRest, line3, newQual);
      assert Process(rec) == Processed(out, run);
      if run == "" {
        files := Append(files, outNoT, out);
      } else {
        files := Append(files, outT, out);
      }
    }

    /**
     * The `while True` loop of `main`: reads records until the quality line
     * comes back empty and handles each one.  Returns `count`.
     */
    method ReadLoop(lines: seq<string>, outT: string, outNoT: string) returns (count: nat)
      requires Valid(polyT) && outT in files && outNoT in files
      modifies this
      ensures Valid(polyT)
      ensures Tallies(count, polyT, files)
              == RunAll(Tallies(0, old(polyT), old(files)), Outcomes(Records(lines)), outT, outNoT)
    {
      ghost var start := Tallies(0, polyT, files);
      count := 0;
      var pos := 0;
      ghost var done: seq<Record> := [];
      while true
        invariant pos == 4 * |done| <= |lines|
        invariant |done| <= |Records(lines)| && done == Records(lines)[..|done|]
        invariant Valid(polyT) && outT in files && outNoT in files
        invariant Tallies(count, polyT, files) == RunAll(start, Outcomes(done), outT, outNoT)
        decreases |lines| - pos
      {
        // the four `readline().decode().strip()` calls
        var rec := RecordAt(lines, pos);
        if rec.qual == "" {
          if |done| < |Records(lines)| {
            RecordsAt(lines, |done|);
          }
          break;
        }
        ReadNext(start, lines, done, outT, outNoT);
        count := count + 1;
        Handle(rec, outT, outNoT);
        pos := pos + 4;
        done := done + [rec];
      }
      assert done == Records(lines);
    }

    /**
     * `main(filename)`: opens the noT and the T output (each truncated), reads
     * the records, and returns the report it prints.  A file name the pattern
     * does not match fails before anything is opened.
     */
    method ProcessFile(parts: Option<FileParts>, lines: seq<string>) returns (r: Result<Report, MainError>)
      requires Valid(polyT)
      modifies this
      ensures Valid(polyT)
      ensures parts.None? ==> r == Failure(NoFilenameMatch) && polyT == old(polyT) && files == old(files)
      ensures parts.Some? ==>
        var end := FileRun(old(polyT), old(files), parts.value, lines);
        polyT == end.polyT && files == end.files && r == Success(ReportOf(end))
    {
      if parts.None? {
        return Failure(NoFilenameMatch);
      }
      var outNoT := OutName(parts.value, "noT");
      files := files[outNoT := []];
      var outT := OutName(parts.value, "T");
      files := files[outT := []];
      var count := ReadLoop(lines, outT, outNoT);
      var listing := PrintCounts(SortKeys(polyT.keys), polyT, None);
      r := Success(Report(count, listing));
    }

    /**
     * `submain`: sorts the inputs by name and processes them in that order,
     * clearing `polyT` after each file, so each report depends on its own file
     * only.  A file name that does not match stops the run there.
     */
    method ProcessFiles(inputs: seq<Input>) returns (reports: seq<Report>, failed: bool)
      requires polyT == Empty()
      modifies this
      ensures polyT == Empty()
      ensures var sorted := SortByName(inputs);
        && |reports| <= |sorted|
        && (failed <==> |reports| < |sorted|)
        && (failed ==> sorted[|reports|].parts.None?)
        && (forall i :: 0 <= i < |reports| ==> sorted[i].parts.Some? && reports[i] == FileReport(sorted[i]))
        && files == WriteAll(old(files), sorted[..|reports|])
    {
      var sorted := SortByName(inputs);
      reports := [];
      failed := false;
      var i := 0;
      while i < |sorted|
        invariant i <= |sorted| && polyT == Empty() && |reports| == i
        invariant forall j :: 0 <= j < i ==> sorted[j].parts.Some?
        invariant reports == Reports(sorted[..i], FileReport)
        invariant files == WriteAll(old(files), sorted[..i])
        invariant !failed
      {
        var input := sorted[i];
        ghost var before := files;
        var r := ProcessFile(input.parts, input.lines);
        if r.Failure? {
          failed := true;
          break;
        }
        ReportIgnoresFiles(before, input);
        WriteAllSnoc(old(files), sorted, i);
        ReportsSnoc(sorted, i, FileReport);
        reports := reports + [r.value];
        polyT := Empty();
        i := i + 1;
      }
      ReportsAt(sorted[..i], FileReport);
    }
  }
}
