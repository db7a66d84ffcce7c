/**
 * TrAELseq_preprocessing_UMIplusBarcode.py: every read loses its first 12
 * bases, an 8-base UMI and a 4-base sample barcode, which both move to the
 * end of the read ID; then it loses its leading T run as in the UMI-only
 * script.  The sample barcode chooses one of nine barcode files or the
 * "unassigned" file, on the T or the noT side: 20 output files per input.
 * Sample barcodes outside the nine are tallied per file and the 50 most
 * frequent are printed, followed by the read count and the first 10 `polyT`
 * keys in sorted order.
 */
module BarcodePreprocessing {
  import opened Wrappers
  import opened PyText
  import opened Counters
  import opened Listing
  import opened Fastq
  import opened PolyT
  import opened Inputs

  /** Bases of UMI at the start of the read. */
  const UmiLength: nat := 8

  /** End of the 4-base sample barcode that follows the UMI. */
  const BarcodeEnd: nat := 12

  /** The `sample_name` argument of both `make_out_filehandle` calls. */
  const SampleName := "UMIed"

  /** The sample-level barcodes of indexes 1 to 9, in index order. */
  const Barcodes: seq<string> := ["AGTC", "GACT", "CTTG", "TCGA", "AAGG", "TTCC", "GTGC", "GCCA", "GATG"]

  /** The sink of every read whose sample barcode is none of the nine. */
  const Unassigned := "unassigned"

  /** The keys of `fhs` and `fhs_noT`, in the order the files are opened. */
  const Labels: seq<string> := Barcodes + [Unassigned]

  /** Rejected barcodes printed at most. */
  const FaithlessLimit: nat := 50

  /** `polyT` keys printed at most. */
  const PolyTLimit: nat := 10

  /** No two labels share their first four characters, so no two labels are equal. */
  lemma LabelHeadsDistinct()
    ensures |Labels| == 10
    ensures forall i :: 0 <= i < |Labels| ==> |Labels[i]| >= 4 && ':' !in Labels[i]
    ensures forall i, j :: 0 <= i < j < |Labels| ==> Labels[i][..4] != Labels[j][..4]
  {
    forall i, j | 0 <= i < j < |Labels| ensures Labels[i][..4] != Labels[j][..4] {
      assert Labels[i][0] != Labels[j][0] || Labels[i][1] != Labels[j][1] || Labels[i][2] != Labels[j][2];
      assert Labels[i][..4][0] == Labels[i][0] && Labels[i][..4][1] == Labels[i][1] && Labels[i][..4][2] == Labels[i][2];
      assert Labels[j][..4][0] == Labels[j][0] && Labels[j][..4][1] == Labels[j][1] && Labels[j][..4][2] == Labels[j][2];
    }
  }

  /** The `fhs` key a sample barcode is written under: itself when it is one of the nine, else "unassigned". */
  function Bin(sb: string): (key: string)
    ensures key in Labels
    ensures key != Unassigned <==> sb in Barcodes
    ensures key != Unassigned ==> key == sb
  {
    if sb in Barcodes then sb else Unassigned
  }

  /** A processed record, the match of `^T+` ("" when `m is None`) and the sample barcode. */
  datatype Processed = Processed(out: Record, run: string, sampleBarcode: string)

  /** The side of the output a processed record goes to. */
  function SideOf(p: Processed): string {
    if p.run == "" then "noT" else "T"
  }

  /**
   * Steps 1 and 2 of the record loop: UMI and sample barcode move into the
   * ID, then the poly-T run is cut from what follows them.
   */
  function Process(r: Record): Processed {
    var umi := Slice(r.sequence, 0, UmiLength);
    var sb := Slice(r.sequence, UmiLength, BarcodeEnd);
    var rest := Drop(r.sequence, BarcodeEnd);
    var qualRest := Drop(r.qual, BarcodeEnd);
    var k := TrimAmount(rest);
    Processed(Record(ReplaceSpaces(r.id + ":" + sb + ":" + umi), Drop(rest, k), r.line3, Drop(qualRest, k)),
              Run(rest), sb)
  }

  /**
   * Sequence and quality are cut at the same offset, the 12 bases of UMI and
   * barcode plus the trim amount; the sample barcode is bases 8 to 11.
   */
  lemma ProcessCuts(r: Record)
    ensures var p := Process(r);
      var k := TrimAmount(Drop(r.sequence, BarcodeEnd));
      && p.out.sequence == Drop(r.sequence, BarcodeEnd + k)
      && p.out.qual == Drop(r.qual, BarcodeEnd + k)
      && (|r.sequence| == |r.qual| ==> |p.out.sequence| == |p.out.qual|)
      && p.out.line3 == r.line3
      && p.run == Run(Drop(r.sequence, BarcodeEnd))
      && |p.sampleBarcode| <= 4
      && (|r.sequence| >= BarcodeEnd ==> r.sequence[UmiLength..BarcodeEnd] == p.sampleBarcode)
  {
    var k := TrimAmount(Drop(r.sequence, BarcodeEnd));
    DropDrop(r.sequence, BarcodeEnd, k);
    DropDrop(r.qual, BarcodeEnd, k);
  }

  /** The new ID is the old one, then `:` and the sample barcode, then `:` and the UMI, with no space left. */
  lemma ProcessId(r: Record)
    ensures var p := Process(r);
      && p.out.id == ReplaceSpaces(r.id) + ":" + ReplaceSpaces(p.sampleBarcode) + ":"
                     + ReplaceSpaces(Slice(r.sequence, 0, UmiLength))
      && ' ' !in p.out.id
  {
    var umi := Slice(r.sequence, 0, UmiLength);
    var sb := Slice(r.sequence, UmiLength, BarcodeEnd);
    var tail := ":" + sb + ":" + umi;
    assert r.id + ":" + sb + ":" + umi == r.id + tail;
    ReplaceSpacesConcat(r.id, tail);
    ReplaceSpacesTag(sb, umi);
    ReplaceSpacesRemovesSpace(r.id + tail);
    Regroup(ReplaceSpaces(r.id), ReplaceSpaces(sb), ReplaceSpaces(umi));
  }

  lemma Regroup(id: string, sb: string, umi: string)
    ensures id + (":" + sb + ":" + umi) == id + ":" + sb + ":" + umi
  {
  }

  /** Space replacement goes through the two `:` separators of the ID suffix. */
  lemma ReplaceSpacesTag(sb: string, umi: string)
    ensures ReplaceSpaces(":" + sb + ":" + umi) == ":" + ReplaceSpaces(sb) + ":" + ReplaceSpaces(umi)
  {
    ReplaceSpacesConcat(":" + sb + ":", umi);
    ReplaceSpacesConcat(":" + sb, ":");
    ReplaceSpacesConcat(":", sb);
  }

  // ---------------------------------------------------------------------
  // make_out_filehandle

  /** The part of a file name between the sample and the ending: `AGTC_index1`, ..., or `unassigned`. */
  function Tag(i: nat): (t: string)
    requires i < |Labels|
    ensures |t| >= 4 && t[..4] == Labels[i][..4]
  {
    LabelHeadsDistinct();
    if i < |Barcodes| then Barcodes[i] + "_index" + [(('1' as int) + i) as char] else Unassigned
  }

  /** `f"{sample}_{sample_name}_{tag}_{TnoT}_{m[0][1]}"`, the file of label `i` on one side. */
  function FileName(parts: FileParts, side: string, i: nat): string
    requires i < |Labels|
  {
    parts.sample + "_" + SampleName + "_" + Tag(i) + ("_" + side + "_" + parts.suffix)
  }

  /** The four characters after a prefix are the first four of what follows it. */
  lemma Window(prefix: string, t: string, e: string)
    requires |t| >= 4
    ensures |prefix + t + e| == |prefix| + |t| + |e|
    ensures (prefix + t + e)[|prefix|..|prefix| + 4] == t[..4]
  {
  }

  /** A sink to open: the `fhs` key and the file name. */
  datatype Sink = Sink(key: string, name: string)

  /** The ten sinks one side of an input file gets, in the order they are opened. */
  function Pool(parts: FileParts, side: string): (pool: seq<Sink>)
    ensures |pool| == |Labels|
    ensures forall i :: 0 <= i < |pool| ==> pool[i] == Sink(Labels[i], FileName(parts, side, i))
  {
    seq(|Labels|, i requires 0 <= i < |Labels| => Sink(Labels[i], FileName(parts, side, i)))
  }

  /**
   * The 20 file names of an input file are pairwise distinct: a name
   * determines both its label and its side.
   */
  lemma FileNameInjective(parts: FileParts, side: string, i: nat, side': string, j: nat)
    requires side in {"T", "noT"} && side' in {"T", "noT"}
    requires i < |Labels| && j < |Labels|
    requires FileName(parts, side, i) == FileName(parts, side', j)
    ensures i == j && side == side'
  {
    var prefix := parts.sample + "_" + SampleName + "_";
    Window(prefix, Tag(i), "_" + side + "_" + parts.suffix);
    Window(prefix, Tag(j), "_" + side' + "_" + parts.suffix);
    LabelHeadsDistinct();
  }

  // ---------------------------------------------------------------------
  // The ':' round trip of make_out_filehandle, as written

  /**
   * `open_filehandles(new_fh.split(":")[1], new_fh.split(":")[0], TnoT)` for
   * `new_fh = f"{name}:{key}"`: the key is the second field and the file name
   * the first.
   */
  function SplitEntry(entry: string): Sink
    requires ':' in entry
  {
    var fields := Split(entry, ':');
    Sink(fields[1], fields[0])
  }

  /** The sinks as the script opens them: each name and key joined with ':' and split again. */
  function PoolAsWritten(parts: FileParts, side: string): (pool: seq<Sink>)
    ensures |pool| == |Labels|
  {
    seq(|Labels|, i requires 0 <= i < |Labels| => SplitEntry(FileName(parts, side, i) + ":" + Labels[i]))
  }

  /** With no ':' in the lane part or the read part of the file name, the round trip is harmless. */
  lemma PoolAsWrittenAgrees(parts: FileParts, side: string)
    requires ':' !in parts.sample && ':' !in parts.suffix && ':' !in side
    ensures PoolAsWritten(parts, side) == Pool(parts, side)
  {
    forall i | 0 <= i < |Labels| ensures PoolAsWritten(parts, side)[i] == Pool(parts, side)[i] {
      var name := FileName(parts, side, i);
      NameWithoutColon(parts, side, i);
      assert Split(name + ":" + Labels[i], ':') == [name, Labels[i]] by {
        LabelHeadsDistinct();
        SplitAt(name, Labels[i], ':');
        SplitNone(Labels[i], ':');
        assert name + ":" + Labels[i] == name + [':'] + Labels[i];
      }
    }
  }

  /**
   * A lane part with a ':' (the pattern `lane.*` admits one): every entry
   * splits at that ':' instead, so no key of the opened sinks is a label and
   * the first read written raises KeyError; all twenty names also collapse
   * to the text before the ':'.
   */
  lemma PoolAsWrittenColon(lane: string, rest: string, suffix: string, side: string)
    requires ':' !in lane && ':' !in rest && ':' !in suffix && ':' !in side
    ensures var pool := PoolAsWritten(FileParts(lane + ":" + rest, suffix), side);
      forall i :: 0 <= i < |pool| ==> pool[i].name == lane && pool[i].key !in Labels
  {
    forall i | 0 <= i < |Labels| {
      EntryColon(lane, rest, suffix, side, i);
    }
  }

  /** A lane part `lane:rest` puts `lane:` in front of the name built from `rest`. */
  lemma FileNameSampleColon(lane: string, rest: string, suffix: string, side: string, i: nat)
    requires i < |Labels|
    ensures FileName(FileParts(lane + ":" + rest, suffix), side, i) == lane + [':'] + FileName(FileParts(rest, suffix), side, i)
  {
  }

  /** Entry `i` of a lane part with a ':' splits into the text before it and the rest of the name. */
  lemma EntryColon(lane: string, rest: string, suffix: string, side: string, i: nat)
    requires ':' !in lane && ':' !in rest && ':' !in suffix && ':' !in side
    requires i < |Labels|
    ensures var after := FileName(FileParts(rest, suffix), side, i);
      && PoolAsWritten(FileParts(lane + ":" + rest, suffix), side)[i] == Sink(after, lane)
      && after !in Labels
  {
    var after := FileName(FileParts(rest, suffix), side, i);
    NameWithoutColon(FileParts(rest, suffix), side, i);
    var entry := FileName(FileParts(lane + ":" + rest, suffix), side, i) + ":" + Labels[i];
    assert entry == lane + [':'] + (after + [':'] + Labels[i]) by {
      FileNameSampleColon(lane, rest, suffix, side, i);
    }
    assert Split(entry, ':') == [lane, after, Labels[i]] by {
      LabelHeadsDistinct();
      SplitAt(lane, after + [':'] + Labels[i], ':');
      SplitAt(after, Labels[i], ':');
      SplitNone(Labels[i], ':');
    }
    assert after !in Labels by {
      LabelHeadsDistinct();
      assert |after| > 10;
    }
  }

  /** A file name has no ':' when the lane part, the read part and the side have none. */
  lemma NameWithoutColon(parts: FileParts, side: string, i: nat)
    requires ':' !in parts.sample && ':' !in parts.suffix && ':' !in side
    requires i < |Labels|
    ensures ':' !in FileName(parts, side, i)
  {
    LabelHeadsDistinct();
    assert ':' !in Tag(i);
  }

  // ---------------------------------------------------------------------
  // The sinks: `fhs`, `fhs_noT` and the files they write to

  /** `fhs` and `fhs_noT` (key to file name) and the output files on disk. */
  datatype Handles = Handles(fhs: map<string, string>, fhsNoT: map<string, string>, files: map<string, seq<Record>>)

  /** `fhs` and `fhs_noT` alone: all the record loop needs to route a record. */
  datatype Sinks = Sinks(fhs: map<string, string>, fhsNoT: map<string, string>)

  function SinksOf(h: Handles): Sinks {
    Sinks(h.fhs, h.fhsNoT)
  }

  /** The sink dict of one side. */
  function SideMap(h: Handles, side: string): map<string, string> {
    if side == "noT" then h.fhsNoT else h.fhs
  }

  /** `open_filehandles(key, fname, TnoT)`: the file is created empty and registered under `key` on its side. */
  function Open(h: Handles, s: Sink, side: string): Handles {
    Handles(if side == "noT" then h.fhs else h.fhs[s.key := s.name],
            if side == "noT" then h.fhsNoT[s.key := s.name] else h.fhsNoT,
            h.files[s.name := []])
  }

  /** The sinks of `pool` opened one after another. */
  function OpenAll(h: Handles, pool: seq<Sink>, side: string): Handles {
    if pool == [] then h else Open(OpenAll(h, pool[..|pool| - 1], side), pool[|pool| - 1], side)
  }

  /** Opening a pool with distinct keys registers each key with its own file and leaves the other side alone. */
  lemma {:induction false} OpenAllKeys(h: Handles, pool: seq<Sink>, side: string)
    requires forall i, j :: 0 <= i < j < |pool| ==> pool[i].key != pool[j].key
    ensures var r := OpenAll(h, pool, side);
      && (forall i :: 0 <= i < |pool| ==> pool[i].key in SideMap(r, side) && SideMap(r, side)[pool[i].key] == pool[i].name)
      && SideMap(r, Other(side)) == SideMap(h, Other(side))
  {
    if pool != [] {
      var init := pool[..|pool| - 1];
      OpenAllKeys(h, init, side);
      var before := OpenAll(h, init, side);
      forall i | 0 <= i < |init| ensures init[i].key != pool[|pool| - 1].key {
      }
    }
  }

  /** The file names of a pool. */
  function NamesOf(pool: seq<Sink>): set<string> {
    set i | 0 <= i < |pool| :: pool[i].name
  }

  /** Opening a pool empties exactly the pool's files and keeps every other file. */
  lemma {:induction false} OpenAllFiles(h: Handles, pool: seq<Sink>, side: string)
    ensures var r := OpenAll(h, pool, side);
      && (forall i :: 0 <= i < |pool| ==> pool[i].name in r.files && r.files[pool[i].name] == [])
      && (forall name :: name !in NamesOf(pool) ==>
            (name in r.files <==> name in h.files) && Contents(r.files, name) == Contents(h.files, name))
  {
    if pool != [] {
      var init, last := pool[..|pool| - 1], pool[|pool| - 1];
      OpenAllFiles(h, init, side);
      var r := OpenAll(h, pool, side);
      assert r.files == OpenAll(h, init, side).files[last.name := []];
      forall i | 0 <= i < |pool| ensures pool[i].name in r.files && r.files[pool[i].name] == [] {
        if i < |init| {
          assert pool[i] == init[i];
        }
      }
      assert NamesOf(pool) == NamesOf(init) + {last.name};
    }
  }

  /** The other side. */
  function Other(side: string): string {
    if side == "noT" then "T" else "noT"
  }

  /** Every label has a sink on both sides. */
  ghost predicate Opened(h: Sinks) {
    forall key :: key in Labels ==> key in h.fhs && key in h.fhsNoT
  }

  /** Every label is routed to its own file of input `parts`, on both sides. */
  ghost predicate RoutesTo(h: Sinks, parts: FileParts) {
    forall i :: 0 <= i < |Labels| ==>
      && Labels[i] in h.fhs && h.fhs[Labels[i]] == FileName(parts, "T", i)
      && Labels[i] in h.fhsNoT && h.fhsNoT[Labels[i]] == FileName(parts, "noT", i)
  }

  /** `main`'s two `make_out_filehandle` calls, noT first. */
  function OpenBoth(h: Handles, parts: FileParts): Handles {
    OpenAll(OpenAll(h, Pool(parts, "noT"), "noT"), Pool(parts, "T"), "T")
  }

  /** After both calls every label is routed to its own file on each side. */
  lemma OpenBothRoutes(h: Handles, parts: FileParts)
    ensures RoutesTo(SinksOf(OpenBoth(h, parts)), parts) && Opened(SinksOf(OpenBoth(h, parts)))
  {
    LabelHeadsDistinct();
    var mid := OpenAll(h, Pool(parts, "noT"), "noT");
    OpenAllKeys(h, Pool(parts, "noT"), "noT");
    OpenAllKeys(mid, Pool(parts, "T"), "T");
  }

  /** After both calls each of the twenty files is empty. */
  lemma OpenBothEmpties(h: Handles, parts: FileParts)
    ensures forall i, side :: 0 <= i < |Labels| && side in {"T", "noT"} ==>
      Contents(OpenBoth(h, parts).files, FileName(parts, side, i)) == []
  {
    var mid := OpenAll(h, Pool(parts, "noT"), "noT");
    forall i, side | 0 <= i < |Labels| && side in {"T", "noT"}
      ensures Contents(OpenBoth(h, parts).files, FileName(parts, side, i)) == []
    {
      OpenAllFiles(mid, Pool(parts, "T"), "T");
      if side == "noT" {
        assert Contents(mid.files, FileName(parts, "noT", i)) == [] by {
          OpenAllFiles(h, Pool(parts, "noT"), "noT");
          assert Pool(parts, "noT")[i].name == FileName(parts, "noT", i);
        }
        NoTOutsideTPool(parts, i);
      } else {
        assert Pool(parts, "T")[i].name == FileName(parts, "T", i);
      }
    }
  }

  /** A noT file is not among the T files. */
  lemma NoTOutsideTPool(parts: FileParts, i: nat)
    requires i < |Labels|
    ensures FileName(parts, "noT", i) !in NamesOf(Pool(parts, "T"))
  {
    if FileName(parts, "noT", i) in NamesOf(Pool(parts, "T")) {
      var j :| 0 <= j < |Labels| && Pool(parts, "T")[j].name == FileName(parts, "noT", i);
      FileNameInjective(parts, "T", j, "noT", i);
    }
  }

  // ---------------------------------------------------------------------
  // The record loop

  /** What the record loop changes: `count`, `polyT`, the local `faithless_barcodes` and the files. */
  datatype Tallies = Tallies(count: nat, polyT: Counter, faithless: Counter, files: map<string, seq<Record>>)

  /** The file a processed record is written to: its label's sink on its side. */
  function Dest(p: Processed, h: Sinks): string {
    var key := Bin(p.sampleBarcode);
    SinkFile(if p.run == "" then h.fhsNoT else h.fhs, key)
  }

  /** `d[key]` of a sink dict; "" stands for the KeyError raised when `key` was never opened. */
  function SinkFile(d: map<string, string>, key: string): string {
    if key in d then d[key] else ""
  }

  /** `if sampleBarcode not in faithless_barcodes.keys(): ... = 0`, then `+= 1`. */
  function Reject(faithless: Counter, sb: string): (r: Counter)
    requires Valid(faithless)
    ensures Valid(r)
  {
    Incr(EnsureKey(faithless, sb), sb)
  }

  /** One pass of the `while True` body, for the processed record `p`. */
  function Step(st: Tallies, p: Processed, h: Sinks): (next: Tallies)
    requires Valid(st.polyT) && Valid(st.faithless)
    ensures Valid(next.polyT) && Valid(next.faithless)
  {
    Tallies(st.count + 1,
            if p.run == "" then st.polyT else CountRun(st.polyT, p.run),
            if p.sampleBarcode in Barcodes then st.faithless else Reject(st.faithless, p.sampleBarcode),
            Append(st.files, Dest(p, h), p.out))
  }

  /** `polyT` after the records `ps`. */
  function PolyTAfter(polyT: Counter, ps: seq<Processed>): (r: Counter)
    requires Valid(polyT)
    ensures Valid(r)
  {
    if ps == [] then polyT
    else
      var mid := PolyTAfter(polyT, ps[..|ps| - 1]);
      var run := ps[|ps| - 1].run;
      if run == "" then mid else CountRun(mid, run)
  }

  /** `faithless_barcodes` after the records `ps`. */
  function FaithlessAfter(faithless: Counter, ps: seq<Processed>): (r: Counter)
    requires Valid(faithless)
    ensures Valid(r)
  {
    if ps == [] then faithless
    else
      var mid := FaithlessAfter(faithless, ps[..|ps| - 1]);
      var sb := ps[|ps| - 1].sampleBarcode;
      if sb in Barcodes then mid else Reject(mid, sb)
  }

  /** The output files after the records `ps`. */
  function FilesAfter(files: map<string, seq<Record>>, ps: seq<Processed>, h: Sinks): map<string, seq<Record>>
  {
    if ps == [] then files
    else
      var last := ps[|ps| - 1];
      Append(FilesAfter(files, ps[..|ps| - 1], h), Dest(last, h), last.out)
  }

  /** The record loop over the processed records `ps`, one `Step` each, in order. */
  function RunAll(st: Tallies, ps: seq<Processed>, h: Sinks): (end: Tallies)
    requires Valid(st.polyT) && Valid(st.faithless)
    ensures Valid(end.polyT) && Valid(end.faithless)
  {
    Tallies(st.count + |ps|, PolyTAfter(st.polyT, ps), FaithlessAfter(st.faithless, ps), FilesAfter(st.files, ps, h))
  }

  /** One more record is one more `Step`. */
  lemma RunAllSnoc(st: Tallies, ps: seq<Processed>, p: Processed, h: Sinks)
    requires Valid(st.polyT) && Valid(st.faithless)
    ensures RunAll(st, ps + [p], h) == Step(RunAll(st, ps, h), p, h)
  {
    assert (ps + [p])[..|ps|] == ps;
  }

  /**
   * Every record of `rs`, processed by this script's `Process` (12-base
   * prefix, sample barcode kept).  Each script has its own `Processed` type
   * and `Process`, so this and the counts below are per script.
   */
  function Outcomes(rs: seq<Record>): (ps: seq<Processed>)
    ensures |ps| == |rs|
  {
    if rs == [] then [] else Outcomes(rs[..|rs| - 1]) + [Process(rs[|rs| - 1])]
  }

  lemma OutcomesSnoc(rs: seq<Record>, r: Record)
    ensures Outcomes(rs + [r]) == Outcomes(rs) + [Process(r)]
  {
    assert (rs + [r])[..|rs|] == rs;
  }

  /** Reading the record at line `4 * |done|` extends the records read and the loop by one `Step`. */
  lemma ReadNext(start: Tallies, lines: seq<string>, done: seq<Record>, h: Sinks)
    requires Valid(start.polyT) && Valid(start.faithless)
    requires |done| <= |Records(lines)| && done == Records(lines)[..|done|]
    requires RecordAt(lines, 4 * |done|).qual != ""
    ensures |done| < |Records(lines)|
    ensures done + [RecordAt(lines, 4 * |done|)] == Records(lines)[..|done| + 1]
    ensures RunAll(start, Outcomes(done + [RecordAt(lines, 4 * |done|)]), h)
            == Step(RunAll(start, Outcomes(done), h), Process(RecordAt(lines, 4 * |done|)), h)
  {
    var rec := RecordAt(lines, 4 * |done|);
    RecordsContinue(lines, |done|);
    RecordsPrefix(lines, |done|);
    OutcomesSnoc(done, rec);
    RunAllSnoc(start, Outcomes(done), Process(rec), h);
  }

  /** The number of records whose residual started with T. */
  function TCount(ps: seq<Processed>): nat {
    if ps == [] then 0
    else TCount(ps[..|ps| - 1]) + (if ps[|ps| - 1].run != "" then 1 else 0)
  }

  /** The number of records with a T run whose histogram bucket is `key`. */
  function BucketCount(ps: seq<Processed>, key: string): nat {
    if ps == [] then 0
    else
      var run := ps[|ps| - 1].run;
      BucketCount(ps[..|ps| - 1], key) + (if run != "" && Bucket(run) == key then 1 else 0)
  }

  /** The number of records whose sample barcode is `sb` and none of the nine. */
  function RejectCount(ps: seq<Processed>, sb: string): nat {
    if ps == [] then 0
    else RejectCount(ps[..|ps| - 1], sb) + (if ps[|ps| - 1].sampleBarcode == sb && sb !in Barcodes then 1 else 0)
  }

  /** The number of records whose sample barcode is none of the nine. */
  function UnassignedCount(ps: seq<Processed>): nat {
    if ps == [] then 0
    else UnassignedCount(ps[..|ps| - 1]) + (if ps[|ps| - 1].sampleBarcode !in Barcodes then 1 else 0)
  }

  /** The output records of label `key` on side `side`, in order. */
  function Routed(ps: seq<Processed>, key: string, side: string): seq<Record> {
    if ps == [] then []
    else
      var last := ps[|ps| - 1];
      Routed(ps[..|ps| - 1], key, side) + (if Bin(last.sampleBarcode) == key && SideOf(last) == side then [last.out] else [])
  }

  /** The output records written to the file `name`, in order. */
  function SentTo(ps: seq<Processed>, name: string, h: Sinks): seq<Record>
  {
    if ps == [] then []
    else
      var last := ps[|ps| - 1];
      SentTo(ps[..|ps| - 1], name, h) + (if Dest(last, h) == name then [last.out] else [])
  }

  /** `polyT` gains exactly one per T record, on that record's bucket. */
  lemma {:induction false} PolyTAfterTallies(polyT: Counter, ps: seq<Processed>)
    requires Valid(polyT)
    ensures Total(PolyTAfter(polyT, ps)) == Total(polyT) + TCount(ps)
    ensures forall key :: Get(PolyTAfter(polyT, ps), key) == Get(polyT, key) + BucketCount(ps, key)
  {
    if ps != [] {
      var init, last := ps[..|ps| - 1], ps[|ps| - 1];
      PolyTAfterTallies(polyT, init);
      if last.run != "" {
        CountRunTotal(PolyTAfter(polyT, init), last.run);
      }
    }
  }

  /** `faithless_barcodes` counts, per barcode, the records whose barcode is none of the nine. */
  lemma {:induction false} FaithlessAfterTallies(faithless: Counter, ps: seq<Processed>)
    requires Valid(faithless)
    ensures Total(FaithlessAfter(faithless, ps)) == Total(faithless) + UnassignedCount(ps)
    ensures forall sb :: Get(FaithlessAfter(faithless, ps), sb) == Get(faithless, sb) + RejectCount(ps, sb)
  {
    if ps != [] {
      var init, last := ps[..|ps| - 1], ps[|ps| - 1];
      FaithlessAfterTallies(faithless, init);
      if last.sampleBarcode !in Barcodes {
        var mid := FaithlessAfter(faithless, init);
        EnsureKeyTotal(mid, last.sampleBarcode);
        IncrTotal(EnsureKey(mid, last.sampleBarcode), last.sampleBarcode);
      }
    }
  }

  /** Some record of `ps` whose residual started with T puts `k` into `polyT`: `k` is its run or the run's bucket. */
  ghost predicate RunKey(ps: seq<Processed>, k: string) {
    exists i :: 0 <= i < |ps| && ps[i].run != "" && (k == ps[i].run || k == Bucket(ps[i].run))
  }

  /**
   * The keys of `polyT` after the records `ps`: those it had, plus the run
   * and the run's bucket of every record whose residual started with T.
   */
  lemma {:induction false} PolyTAfterKeys(polyT: Counter, ps: seq<Processed>)
    requires Valid(polyT)
    ensures forall k :: k in PolyTAfter(polyT, ps).counts <==> k in polyT.counts || RunKey(ps, k)
  {
    if ps != [] {
      var init, last := ps[..|ps| - 1], ps[|ps| - 1];
      PolyTAfterKeys(polyT, init);
      forall k ensures RunKey(ps, k) <==> RunKey(init, k) || (last.run != "" && (k == last.run || k == Bucket(last.run))) {
        if RunKey(ps, k) {
          var i :| 0 <= i < |ps| && ps[i].run != "" && (k == ps[i].run || k == Bucket(ps[i].run));
          if i < |init| {
            assert init[i] == ps[i];
          }
        }
        if RunKey(init, k) {
          var i :| 0 <= i < |init| && init[i].run != "" && (k == init[i].run || k == Bucket(init[i].run));
          assert ps[i] == init[i];
        }
      }
    }
  }

  /** The keys of `faithless_barcodes` after the records `ps`: those it had, plus every rejected barcode. */
  lemma {:induction false} FaithlessAfterKeys(faithless: Counter, ps: seq<Processed>)
    requires Valid(faithless)
    ensures forall k :: k in FaithlessAfter(faithless, ps).counts <==> k in faithless.counts || RejectCount(ps, k) > 0
  {
    if ps != [] {
      FaithlessAfterKeys(faithless, ps[..|ps| - 1]);
    }
  }

  /** Each file ends with what it had plus, in order, the records sent to it. */
  lemma {:induction false} FilesAfterAppends(files: map<string, seq<Record>>, ps: seq<Processed>, h: Sinks, name: string)
    ensures Contents(FilesAfter(files, ps, h), name) == Contents(files, name) + SentTo(ps, name, h)
  {
    if ps != [] {
      FilesAfterAppends(files, ps[..|ps| - 1], h, name);
    }
  }

  /** With the sinks of input `parts`, a record goes to label `i`'s file on a side exactly when it has that label and side. */
  lemma DestRouted(p: Processed, h: Sinks, parts: FileParts, i: nat, side: string)
    requires RoutesTo(h, parts)
    requires i < |Labels| && side in {"T", "noT"}
    ensures Dest(p, h) == FileName(parts, side, i) <==> Bin(p.sampleBarcode) == Labels[i] && SideOf(p) == side
  {
    var key := Bin(p.sampleBarcode);
    var j :| 0 <= j < |Labels| && Labels[j] == key;
    assert Dest(p, h) == FileName(parts, SideOf(p), j);
    LabelHeadsDistinct();
    if Dest(p, h) == FileName(parts, side, i) {
      FileNameInjective(parts, SideOf(p), j, side, i);
    }
  }

  /** With the sinks of input `parts`, label `i`'s file on a side receives exactly that label's records of that side. */
  lemma {:induction false} SentToRouted(ps: seq<Processed>, h: Sinks, parts: FileParts, i: nat, side: string)
    requires RoutesTo(h, parts)
    requires i < |Labels| && side in {"T", "noT"}
    ensures SentTo(ps, FileName(parts, side, i), h) == Routed(ps, Labels[i], side)
  {
    if ps != [] {
      SentToRouted(ps[..|ps| - 1], h, parts, i, side);
      DestRouted(ps[|ps| - 1], h, parts, i, side);
    }
  }


  // ---------------------------------------------------------------------
  // main and its report

  /** `main` on one file: open the twenty sinks, then run the loop from `count = 0` and an empty `faithless_barcodes`. */
  function FileRun(polyT: Counter, h: Handles, parts: FileParts, lines: seq<string>): Tallies
    requires Valid(polyT)
  {
    var sinks := OpenBoth(h, parts);
    RunAll(Tallies(0, polyT, Empty(), sinks.files), Outcomes(Records(lines)), SinksOf(sinks))
  }

  /**
   * What `main` prints after the loop: the 50 most frequent rejected
   * barcodes, the read count and the 10 smallest `polyT` keys.
   */
  datatype Report = Report(faithless: seq<Line>, total: nat, polyT: seq<Line>)

  function ReportOf(end: Tallies): Report {
    var rogues := SortByCount(end.faithless.keys, end.faithless.counts);
    var tees := SortKeys(end.polyT.keys);
    Report(Lines(rogues, end.faithless, FaithlessLimit), end.count, Lines(tees, end.polyT, PolyTLimit))
  }

  /**
   * The report of a file processed with fresh globals, as `submain`
   * arranges; it depends on the records alone, not on the sinks.
   */
  function FileReport(input: Input): Report {
    if input.parts.None? then Report([], 0, [])
    else
      var ps := Outcomes(Records(input.lines));
      ReportOf(Tallies(|ps|, PolyTAfter(Empty(), ps), FaithlessAfter(Empty(), ps), map[]))
  }

  /** Neither the sinks nor what the output files held before change the report of a file. */
  lemma ReportIgnoresFiles(h: Handles, input: Input)
    requires input.parts.Some?
    ensures ReportOf(FileRun(Empty(), h, input.parts.value, input.lines)) == FileReport(input)
  {
  }

  /**
   * `main` on one file: one read counted per record; `polyT` gains one count
   * per record whose residual starts with T; `faithless_barcodes` counts
   * every record whose barcode is none of the nine, per barcode.  Both dicts
   * end with the keys they had and the keys these records insert, and no others.
   */
  lemma FileRunTallies(polyT: Counter, h: Handles, parts: FileParts, lines: seq<string>)
    requires Valid(polyT)
    ensures var end := FileRun(polyT, h, parts, lines);
      var ps := Outcomes(Records(lines));
      && end.count == |Records(lines)|
      && Total(end.polyT) == Total(polyT) + TCount(ps)
      && Total(end.faithless) == UnassignedCount(ps)
      && (forall sb :: Get(end.faithless, sb) == RejectCount(ps, sb))
      && (forall k :: k in end.polyT.counts <==> k in polyT.counts || RunKey(ps, k))
      && (forall sb :: sb in end.faithless.counts <==> RejectCount(ps, sb) > 0)
  {
    var ps := Outcomes(Records(lines));
    var end := FileRun(polyT, h, parts, lines);
    assert end.polyT == PolyTAfter(polyT, ps) && end.faithless == FaithlessAfter(Empty(), ps);
    PolyTAfterTallies(polyT, ps);
    FaithlessAfterTallies(Empty(), ps);
    PolyTAfterKeys(polyT, ps);
    FaithlessAfterKeys(Empty(), ps);
  }

  /** Each of the twenty files of an input holds exactly the records of its label and side, in order. */
  lemma FileRunFiles(polyT: Counter, h: Handles, parts: FileParts, lines: seq<string>)
    requires Valid(polyT)
    ensures var end := FileRun(polyT, h, parts, lines);
      forall i, side :: 0 <= i < |Labels| && side in {"T", "noT"} ==>
        Contents(end.files, FileName(parts, side, i)) == Routed(Outcomes(Records(lines)), Labels[i], side)
  {
    var sinks := OpenBoth(h, parts);
    OpenBothRoutes(h, parts);
    OpenBothEmpties(h, parts);
    var ps := Outcomes(Records(lines));
    forall i, side | 0 <= i < |Labels| && side in {"T", "noT"}
      ensures Contents(FilesAfter(sinks.files, ps, SinksOf(sinks)), FileName(parts, side, i)) == Routed(ps, Labels[i], side)
    {
      FilesAfterAppends(sinks.files, ps, SinksOf(sinks), FileName(parts, side, i));
      SentToRouted(ps, SinksOf(sinks), parts, i, side);
    }
  }

  /** A name that is none of the twenty output files of input `parts`. */
  ghost predicate NotAnOutput(parts: FileParts, name: string) {
    forall i :: 0 <= i < |Labels| ==> name != FileName(parts, "T", i) && name != FileName(parts, "noT", i)
  }

  /** With the sinks of input `parts`, every record is written to one of its twenty files. */
  lemma {:induction false} SentToOther(ps: seq<Processed>, h: Sinks, parts: FileParts, name: string)
    requires RoutesTo(h, parts) && NotAnOutput(parts, name)
    ensures SentTo(ps, name, h) == []
  {
    if ps != [] {
      SentToOther(ps[..|ps| - 1], h, parts, name);
      var last := ps[|ps| - 1];
      var j :| 0 <= j < |Labels| && Labels[j] == Bin(last.sampleBarcode);
      assert Dest(last, h) == FileName(parts, SideOf(last), j);
    }
  }

  /** Opening the twenty sinks of input `parts` leaves every other file as it was. */
  lemma OpenBothOthers(h: Handles, parts: FileParts, name: string)
    requires NotAnOutput(parts, name)
    ensures Contents(OpenBoth(h, parts).files, name) == Contents(h.files, name)
  {
    assert name !in NamesOf(Pool(parts, "noT")) && name !in NamesOf(Pool(parts, "T"));
    OpenAllFiles(h, Pool(parts, "noT"), "noT");
    OpenAllFiles(OpenAll(h, Pool(parts, "noT"), "noT"), Pool(parts, "T"), "T");
  }

  /** `main` on one input leaves every file other than its twenty outputs as it was. */
  lemma FileRunOthers(polyT: Counter, h: Handles, parts: FileParts, lines: seq<string>, name: string)
    requires Valid(polyT) && NotAnOutput(parts, name)
    ensures Contents(FileRun(polyT, h, parts, lines).files, name) == Contents(h.files, name)
  {
    var sinks := OpenBoth(h, parts);
    var ps := Outcomes(Records(lines));
    OpenBothRoutes(h, parts);
    OpenBothOthers(h, parts, name);
    FilesAfterAppends(sinks.files, ps, SinksOf(sinks), name);
    SentToOther(ps, SinksOf(sinks), parts, name);
  }

  /**
   * The report lists the rejected barcodes with the largest counts, at most
   * 50, by non-increasing count, each with its count, and the read count.
   * Barcodes of equal count are listed in the order they were first
   * rejected, and those cut off by the limit are the later ones.
   */
  lemma ReportFaithless(end: Tallies)
    requires Valid(end.faithless)
    ensures var rep := ReportOf(end);
      var f := end.faithless;
      && rep.total == end.count
      && |rep.faithless| == Min(FaithlessLimit, |f.keys|)
      && (forall i :: 0 <= i < |rep.faithless| ==>
            rep.faithless[i].key in f.counts && rep.faithless[i].count == Get(f, rep.faithless[i].key))
      && (forall i, j :: 0 <= i < j < |rep.faithless| ==> rep.faithless[i].count >= rep.faithless[j].count)
      && (forall k, i :: k in f.counts && 0 <= i < |rep.faithless| && (forall j :: 0 <= j < |rep.faithless| ==> rep.faithless[j].key != k)
            ==> Get(f, k) <= rep.faithless[i].count)
      && (forall v :: WithCount(KeysOf(rep.faithless), f.counts, v) <= WithCount(f.keys, f.counts, v))
  {
    var f := end.faithless;
    var rep := ReportOf(end);
    LargestCountsListed(f.keys, f.counts, FaithlessLimit);
    var rogues := Take(SortByCount(f.keys, f.counts), FaithlessLimit);
    assert forall i :: 0 <= i < |rep.faithless| ==> rep.faithless[i].key == rogues[i];
    assert KeysOf(rep.faithless) == rogues;
  }

  /** The report lists the smallest `polyT` keys, at most 10, in increasing order, each with its count. */
  lemma ReportPolyT(end: Tallies)
    requires Valid(end.polyT)
    ensures var rep := ReportOf(end);
      var t := end.polyT;
      && |rep.polyT| == Min(PolyTLimit, |t.keys|)
      && (forall i :: 0 <= i < |rep.polyT| ==> rep.polyT[i].key in t.counts && rep.polyT[i].count == Get(t, rep.polyT[i].key))
      && (forall i, j :: 0 <= i < j < |rep.polyT| ==> StrLess(rep.polyT[i].key, rep.polyT[j].key))
      && (forall k, i :: k in t.counts && 0 <= i < |rep.polyT| && (forall j :: 0 <= j < |rep.polyT| ==> rep.polyT[j].key != k)
            ==> StrLess(rep.polyT[i].key, k))
  {
    var t := end.polyT;
    var rep := ReportOf(end);
    SmallestKeysListed(t.keys, PolyTLimit);
    var tees := Take(SortKeys(t.keys), PolyTLimit);
    assert forall i :: 0 <= i < |rep.polyT| ==> rep.polyT[i].key == tees[i];
  }

  /** The output files after `main` on one input with fresh globals; a name that does not match writes nothing. */
  function FileWrite(files: map<string, seq<Record>>, input: Input): map<string, seq<Record>> {
    if input.parts.None? then files
    else FileRun(Empty(), Handles(map[], map[], files), input.parts.value, input.lines).files
  }

  /** The output files after processing `inputs` one after another with `write`. */
  function WriteAll(files: map<string, seq<Record>>, inputs: seq<Input>,
                    write: (map<string, seq<Record>>, Input) -> map<string, seq<Record>>): map<string, seq<Record>>
  {
    if inputs == [] then files
    else write(WriteAll(files, inputs[..|inputs| - 1], write), inputs[|inputs| - 1])
  }

  lemma WriteAllSnoc(files: map<string, seq<Record>>, inputs: seq<Input>, i: nat,
                     write: (map<string, seq<Record>>, Input) -> map<string, seq<Record>>)
    requires i < |inputs|
    ensures WriteAll(files, inputs[..i + 1], write) == write(WriteAll(files, inputs[..i], write), inputs[i])
  {
    assert inputs[..i + 1][..i] == inputs[..i];
  }

  /**
   * A file written for input `j` keeps what it held after that input when no
   * later input has it among its twenty outputs: processing the next files
   * does not disturb the earlier outputs.
   */
  lemma {:induction false} WriteAllKeeps(files: map<string, seq<Record>>, inputs: seq<Input>, j: nat, name: string)
    requires j < |inputs|
    requires forall i :: j < i < |inputs| && inputs[i].parts.Some? ==> NotAnOutput(inputs[i].parts.value, name)
    ensures Contents(WriteAll(files, inputs, FileWrite), name) == Contents(WriteAll(files, inputs[..j + 1], FileWrite), name)
  {
    if |inputs| == j + 1 {
      assert inputs[..j + 1] == inputs;
    } else {
      var init, last := inputs[..|inputs| - 1], inputs[|inputs| - 1];
      WriteAllKeeps(files, init, j, name);
      if last.parts.Some? {
        FileRunOthers(Empty(), Handles(map[], map[], WriteAll(files, init, FileWrite)), last.parts.value, last.lines, name);
      }
      assert init[..j + 1] == inputs[..j + 1];
    }
  }

  class Preprocessor {
    /** The module-level `polyT` dict. */
    var polyT: Counter
    /** The module-level `fhs` dict: label to the T file it writes to. */
    var fhs: map<string, string>
    /** The module-level `fhs_noT` dict: label to the noT file it writes to. */
    var fhsNoT: map<string, string>
    /** The output files on disk: name to the records written to it. */
    var files: map<string, seq<Record>>

    constructor ()
      ensures polyT == Empty() && fhs == map[] && fhsNoT == map[] && files == map[]
    {
      polyT := Empty();
      fhs := map[];
      fhsNoT := map[];
      files := map[];
    }

    /** `open_filehandles`: create `fname` empty and register it under `key` on side `side`. */
    method OpenFilehandles(key: string, fname: string, side: string)
      modifies this
      ensures Handles(fhs, fhsNoT, files) == Open(old(Handles(fhs, fhsNoT, files)), Sink(key, fname), side)
      ensures polyT == old(polyT)
    {
      if side == "noT" {
        fhsNoT := fhsNoT[key := fname];
      } else {
        fhs := fhs[key := fname];
      }
      files := files[fname := []];
    }

    /**
     * `make_out_filehandle`: opens the ten sinks of one side, the nine
     * barcode files and then the unassigned one, each under its own label.
     */
    method MakeOutFilehandle(parts: FileParts, side: string)
      modifies this
      ensures Handles(fhs, fhsNoT, files) == OpenAll(old(Handles(fhs, fhsNoT, files)), Pool(parts, side), side)
      ensures polyT == old(polyT)
    {
      ghost var start := Handles(fhs, fhsNoT, files);
      var pool := Pool(parts, side);
      for i := 0 to |pool|
        invariant Handles(fhs, fhsNoT, files) == OpenAll(start, pool[..i], side)
        invariant polyT == old(polyT)
      {
        OpenFilehandles(pool[i].key, pool[i].name, side);
        assert pool[..i + 1][..i] == pool[..i];
      }
      assert pool[..|pool|] == pool;
    }

    /**
     * The `polyT` update for a matched run: add the run as a key, then count
     * it, or count "TTT" instead when the run is longer than three.
     */
    method Tally(run: string)
      requires Valid(polyT)
      modifies this
      ensures polyT == CountRun(old(polyT), run)
      ensures fhs == old(fhs) && fhsNoT == old(fhsNoT) && files == old(files)
    {
      polyT := EnsureKey(polyT, run);
      if |run| > MaxTrim {
        polyT := EnsureKey(polyT, "TTT");
        polyT := Incr(polyT, "TTT");
      } else {
        polyT := Incr(polyT, run);
      }
    }

    /**
     * One pass of the `while True` body after the read count: cut UMI,
     * barcode and poly-T run, tally the run, write the record to the sink of
     * its label and side, and tally a barcode that is none of the nine.
     */
    method Handle(rec: Record, faithless: Counter) returns (faithless': Counter)
      requires Valid(polyT) && Valid(faithless) && Opened(Sinks(fhs, fhsNoT))
      modifies this
      ensures fhs == old(fhs) && fhsNoT == old(fhsNoT)
      ensures var next := Step(Tallies(0, old(polyT), faithless, old(files)), Process(rec), Sinks(fhs, fhsNoT));
        polyT == next.polyT && faithless' == next.faithless && files == next.files
    {
      var readId, sequence, line3, qual := rec.id, rec.sequence, rec.line3, rec.qual;

      // step 1: UMI and sample barcode go into the read ID
      var barcode := Slice(sequence, 0, UmiLength);
      var sampleBarcode := Slice(sequence, UmiLength, BarcodeEnd);
      var rest := Drop(sequence, BarcodeEnd);
      var qualRest := Drop(qual, BarcodeEnd);
      readId := readId + ":" + sampleBarcode + ":" + barcode;

      // step 2: the poly-T run
      var run := Run(rest);
      var newRest, newQual;
      if run == "" {
        newRest, newQual := Drop(rest, 1), Drop(qualRest, 1);
      } else {
        var polyTLength := |run|;
        Tally(run);
        if polyTLength > MaxTrim {
          polyTLength := MaxTrim;
        }
        newRest, newQual := Drop(rest, polyTLength), Drop(qualRest, polyTLength);
      }
      readId := ReplaceSpaces(readId);

      var out := Record(readId, newRest, line3, newQual);
      assert Process(rec) == Processed(out, run, sampleBarcode);
      faithless' := Route(Processed(out, run, sampleBarcode), faithless);
    }

    /**
     * The end of the `while True` body: write the record to the sink of its
     * label and side, and tally a sample barcode that is none of the nine.
     */
    method Route(p: Processed, faithless: Counter) returns (faithless': Counter)
      requires Valid(faithless) && Opened(Sinks(fhs, fhsNoT))
      modifies this
      ensures fhs == old(fhs) && fhsNoT == old(fhsNoT) && polyT == old(polyT)
      ensures files == Append(old(files), Dest(p, Sinks(fhs, fhsNoT)), p.out)
      ensures faithless' == if p.sampleBarcode in Barcodes then faithless else Reject(faithless, p.sampleBarcode)
    {
      var sampleBarcode, out := p.sampleBarcode, p.out;
      faithless' := faithless;
      if sampleBarcode in Barcodes {
        if p.run == "" {
          files := Append(files, fhsNoT[sampleBarcode], out);
        } else {
          files := Append(files, fhs[sampleBarcode], out);
        }
      } else {
        if p.run == "" {
          files := Append(files, fhsNoT[Unassigned], out);
        } else {
          files := Append(files, fhs[Unassigned], out);
        }
        faithless' := EnsureKey(faithless', sampleBarcode);
        faithless' := Incr(faithless', sampleBarcode);
      }
    }

    /**
     * The `while True` loop of `main`: reads records until the quality line
     * comes back empty and handles each one.  Returns `count` and
     * `faithless_barcodes`.
     */
    method ReadLoop(lines: seq<string>) returns (count: nat, faithless: Counter)
      requires Valid(polyT) && Opened(Sinks(fhs, fhsNoT))
      modifies this
      ensures fhs == old(fhs) && fhsNoT == old(fhsNoT)
      ensures Valid(polyT) && Valid(faithless)
      ensures Tallies(count, polyT, faithless, files)
              == RunAll(Tallies(0, old(polyT), Empty(), old(files)), Outcomes(Records(lines)), Sinks(fhs, fhsNoT))
    {
      ghost var start := Tallies(0, polyT, Empty(), files);
      ghost var h := Sinks(fhs, fhsNoT);
      count := 0;
      faithless := Empty();
      var pos := 0;
      ghost var done: seq<Record> := [];
      while true
        invariant pos == 4 * |done| <= |lines|
        invariant |done| <= |Records(lines)| && done == Records(lines)[..|done|]
        invariant fhs == h.fhs && fhsNoT == h.fhsNoT && Opened(h)
        invariant Valid(polyT) && Valid(faithless)
        invariant Tallies(count, polyT, faithless, files) == RunAll(start, Outcomes(done), h)
        decreases |lines| - pos
      {
        // the four `readline().decode().strip()` calls
        var rec := RecordAt(lines, pos);
        if rec.qual == "" {
          if |done| < |Records(lines)| {
            RecordsAt(lines, |done|);
          }
          break;
        }
        ReadNext(start, lines, done, h);
        count := count + 1;
        faithless := Handle(rec, faithless);
        pos := pos + 4;
        done := done + [rec];
      }
      assert done == Records(lines);
    }

    /**
     * `main(filename)`: opens the noT and then the T sinks, reads the
     * records, and returns what it prints.  A file name the pattern does not
     * match fails before anything is opened.
     */
    method ProcessFile(parts: Option<FileParts>, lines: seq<string>) returns (r: Result<Report, MainError>)
      requires Valid(polyT)
      modifies this
      ensures Valid(polyT)
      ensures r.Success? <==> parts.Some?
      ensures parts.None? ==> r == Failure(NoFilenameMatch) && polyT == old(polyT) && files == old(files)
      ensures parts.None? ==> fhs == old(fhs) && fhsNoT == old(fhsNoT)
      ensures parts.Some? ==>
        var sinks := OpenBoth(old(Handles(fhs, fhsNoT, files)), parts.value);
        var end := FileRun(old(polyT), old(Handles(fhs, fhsNoT, files)), parts.value, lines);
        && fhs == sinks.fhs && fhsNoT == sinks.fhsNoT
        && polyT == end.polyT && files == end.files && r == Success(ReportOf(end))
    {
      if parts.None? {
        return Failure(NoFilenameMatch);
      }
      ghost var before := Handles(fhs, fhsNoT, files);
      MakeOutFilehandle(parts.value, "noT");
      MakeOutFilehandle(parts.value, "T");
      OpenBothRoutes(before, parts.value);
      var count, faithless := ReadLoop(lines);
      var rogues := PrintCounts(SortByCount(faithless.keys, faithless.counts), faithless, Some(FaithlessLimit));
      var tees := PrintCounts(SortKeys(polyT.keys), polyT, Some(PolyTLimit));
      r := Success(Report(rogues, count, tees));
    }

    /** The three `clear()` calls after each file in `submain`. */
    method ResetGlobals()
      modifies this
      ensures polyT == Empty() && fhs == map[] && fhsNoT == map[]
      ensures files == old(files)
    {
      polyT := Empty();
      fhs := map[];
      fhsNoT := map[];
    }

    /**
     * `main` on one input of `submain`, starting from cleared globals: the
     * report it prints and the records it appends depend on that input only.
     */
    method ProcessInput(input: Input) returns (r: Result<Report, MainError>)
      requires polyT == Empty() && fhs == map[] && fhsNoT == map[]
      modifies this
      ensures r.Success? <==> input.parts.Some?
      ensures r.Failure? ==> files == old(files) && polyT == Empty() && fhs == map[] && fhsNoT == map[]
      ensures r.Success? ==> r.value == FileReport(input) && files == FileWrite(old(files), input)
      ensures r.Success? ==>
        var h := Handles(map[], map[], old(files));
        var sinks := OpenBoth(h, input.parts.value);
        && fhs == sinks.fhs && fhsNoT == sinks.fhsNoT
        && polyT == FileRun(Empty(), h, input.parts.value, input.lines).polyT
    {
      ghost var h := Handles(fhs, fhsNoT, files);
      r := ProcessFile(input.parts, input.lines);
      if r.Success? {
        ReportIgnoresFiles(h, input);
      }
    }

    /**
     * `submain`: sorts the inputs by name and processes them in that order,
     * clearing `polyT`, `fhs` and `fhs_noT` after each file, so each report
     * depends on its own file only.  A file name that does not match stops
     * the run there.
     */
    method ProcessFiles(inputs: seq<Input>) returns (reports: seq<Report>, failed: bool)
      requires polyT == Empty() && fhs == map[] && fhsNoT == map[]
      modifies this
      ensures polyT == Empty() && fhs == map[] && fhsNoT == map[]
      ensures var sorted := SortByName(inputs);
        && |reports| <= |sorted|
        && (failed <==> |reports| < |sorted|)
        && (failed ==> sorted[|reports|].parts.None?)
        && (forall i :: 0 <= i < |reports| ==> sorted[i].parts.Some? && reports[i] == FileReport(sorted[i]))
        && files == WriteAll(old(files), sorted[..|reports|], FileWrite)
    {
      var sorted := SortByName(inputs);
      reports := [];
      failed := false;
      var i := 0;
      while i < |sorted|
        invariant i <= |sorted| && polyT == Empty() && fhs == map[] && fhsNoT == map[] && |reports| == i
        invariant forall j :: 0 <= j < i ==> sorted[j].parts.Some?
        invariant reports == Reports(sorted[..i], FileReport)
        invariant files == WriteAll(old(files), sorted[..i], FileWrite)
        invariant !failed
      {
        var r := ProcessInput(sorted[i]);
        if r.Failure? {
          failed := true;
          break;
        }
        ResetGlobals();
        assert files == WriteAll(old(files), sorted[..i + 1], FileWrite) by {
          WriteAllSnoc(old(files), sorted, i, FileWrite);
        }
        ReportsSnoc(sorted, i, FileReport);
        reports := reports + [r.value];
        assert forall j :: 0 <= j < i + 1 ==> sorted[j].parts.Some? by {
          assert sorted[i].parts.Some?;
        }
        i := i + 1;
      }
      ReportsAt(sorted[..i], FileReport);
    }
  }
}
