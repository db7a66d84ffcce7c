/**
 * The command line of both preprocessing scripts: `sys.argv[1:]`, sorted
 * with `allfiles.sort()` and processed in that order.  The file-name regex
 * `(lane.*_L00\d)_(R\d.fastq.gz)` is not evaluated here: each input carries
 * the groups it yields, or None when `findall` finds nothing.
 */
module Inputs {
  import opened Wrappers
  import opened Listing
  import opened Fastq

  /** One command-line file: its name, the regex groups of that name, and its decompressed lines. */
  datatype Input = Input(name: string, parts: Option<FileParts>, lines: seq<string>)

  /** `m[0][0]` raises when the file name does not match the lane/read pattern. */
  datatype MainError = NoFilenameMatch

  /** Puts `x` before the first input whose name is not smaller than its own. */
  function InsertByName(x: Input, l: seq<Input>): seq<Input> {
    if l == [] || !StrLess(l[0].name, x.name) then [x] + l else [l[0]] + InsertByName(x, l[1..])
  }

  /** `allfiles.sort()`: the inputs in order of their names, as an insertion sort. */
  function SortByName(s: seq<Input>): seq<Input> {
    if s == [] then [] else InsertByName(s[0], SortByName(s[1..]))
  }

  ghost predicate NamesAscending(s: seq<Input>) {
    forall i, j :: 0 <= i < j < |s| ==> !StrLess(s[j].name, s[i].name)
  }

  lemma {:induction false} InsertByNamePermutes(x: Input, l: seq<Input>)
    ensures multiset(InsertByName(x, l)) == multiset(l) + multiset{x}
  {
    if l != [] && StrLess(l[0].name, x.name) {
      InsertByNamePermutes(x, l[1..]);
      assert l == [l[0]] + l[1..];
    }
  }

  /** `StrLess` is asymmetric. */
  lemma StrLessAsymmetric(a: string, b: string)
    requires StrLess(a, b)
    ensures !StrLess(b, a)
  {
    if StrLess(b, a) {
      StrLessTransitive(a, b, a);
      StrLessIrreflexive(a);
    }
  }

  lemma {:induction false} InsertByNameSorted(x: Input, l: seq<Input>)
    requires NamesAscending(l)
    ensures NamesAscending(InsertByName(x, l))
  {
    if l != [] && StrLess(l[0].name, x.name) {
      var tail := l[1..];
      InsertByNameSorted(x, tail);
      InsertByNamePermutes(x, tail);
      var r := InsertByName(x, tail);
      forall j | 0 <= j < |r| ensures !StrLess(r[j].name, l[0].name) {
        assert r[j] in multiset(r);
        if r[j] == x {
          StrLessAsymmetric(l[0].name, x.name);
        } else {
          assert r[j] in tail;
        }
      }
    } else if l != [] {
      forall j | 0 <= j < |l| ensures !StrLess(l[j].name, x.name) {
        if StrLess(l[j].name, x.name) && l[j].name != l[0].name {
          StrLessTotal(l[0].name, l[j].name);
          StrLessTransitive(l[0].name, l[j].name, x.name);
        }
      }
    }
  }

  /** The sorted inputs are the same inputs, each as often as given, with names in non-decreasing order. */
  lemma {:induction false} SortByNameCorrect(s: seq<Input>)
    ensures multiset(SortByName(s)) == multiset(s)
    ensures NamesAscending(SortByName(s))
  {
    if s != [] {
      SortByNameCorrect(s[1..]);
      assert s == [s[0]] + s[1..];
      InsertByNamePermutes(s[0], SortByName(s[1..]));
      InsertByNameSorted(s[0], SortByName(s[1..]));
    }
  }

  /** What `submain` prints for each input, in processing order: `report` of each. */
  function Reports<R>(inputs: seq<Input>, report: Input -> R): (reps: seq<R>)
    ensures |reps| == |inputs|
  {
    if inputs == [] then [] else Reports(inputs[..|inputs| - 1], report) + [report(inputs[|inputs| - 1])]
  }

  lemma {:induction false} ReportsAt<R>(inputs: seq<Input>, report: Input -> R)
    ensures forall i :: 0 <= i < |inputs| ==> Reports(inputs, report)[i] == report(inputs[i])
  {
    if inputs != [] {
      var init := inputs[..|inputs| - 1];
      ReportsAt(init, report);
      assert forall i :: 0 <= i < |init| ==> init[i] == inputs[i];
    }
  }

  lemma ReportsSnoc<R>(inputs: seq<Input>, i: nat, report: Input -> R)
    requires i < |inputs|
    ensures Reports(inputs[..i + 1], report) == Reports(inputs[..i], report) + [report(inputs[i])]
  {
    assert inputs[..i + 1][..i] == inputs[..i];
  }
}
