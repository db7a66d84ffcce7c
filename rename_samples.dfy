/**
 * rename_trael_samples.py: adds sample names to the per-barcode files of
 * the current directory.  `--index` is a string of index digits and
 * `--sample_names` a comma separated list of names, paired by position;
 * each name is cleaned of unwanted characters and the tag
 * `_<barcode>_index<i>_` of every file becomes `_<barcode>_index<i>_<name>_`
 * through one shell `rename` command per index.
 */
module RenameSamples {
  import opened Wrappers
  import opened PyText
  import Barcodes = BarcodePreprocessing

  // ---------------------------------------------------------------------
  // clean_sample_name

  /** The character class `[a-zA-Z0-9.\-_]` as its ranges, a single character being a range of one. */
  const AllowedRanges: seq<(char, char)> := [('a', 'z'), ('A', 'Z'), ('0', '9'), ('.', '.'), ('-', '-'), ('_', '_')]

  predicate InRanges(c: char, ranges: seq<(char, char)>) {
    ranges != [] && (ranges[0].0 <= c <= ranges[0].1 || InRanges(c, ranges[1..]))
  }

  /** The characters a sample name keeps. */
  predicate IsAllowed(c: char) {
    InRanges(c, AllowedRanges)
  }

  predicate AllAllowed(s: string) {
    forall i :: 0 <= i < |s| ==> IsAllowed(s[i])
  }

  /** The length of what `[^a-zA-Z0-9.\-_]+` matches greedily at the start of `s` (0 for no match). */
  function DisallowedRun(s: string): (n: nat)
    ensures n <= |s|
  {
    if s == [] || IsAllowed(s[0]) then 0 else 1 + DisallowedRun(s[1..])
  }

  /** The run is made of disallowed characters only and stops at an allowed one: the match is the longest. */
  lemma {:induction false} DisallowedRunMaximal(s: string)
    ensures forall i :: 0 <= i < DisallowedRun(s) ==> !IsAllowed(s[i])
    ensures DisallowedRun(s) == |s| || IsAllowed(s[DisallowedRun(s)])
  {
    if s != [] && !IsAllowed(s[0]) {
      DisallowedRunMaximal(s[1..]);
      assert forall i :: 1 <= i < DisallowedRun(s) ==> s[i] == s[1..][i - 1];
    }
  }

  /** The length of what `[^a-zA-Z0-9.\-_]+_?` matches at the start of `s`: the run and one `_` after it. */
  function MatchLength(s: string): (m: nat)
    ensures m <= |s|
    ensures s != [] && !IsAllowed(s[0]) ==> m >= 1
  {
    var n := DisallowedRun(s);
    if n < |s| && s[n] == '_' then n + 1 else n
  }

  /**
   * `re.sub(r'[^a-zA-Z0-9.\-_]+_?', '_', s)`: scanning from the left, each
   * maximal run of disallowed characters, together with one `_` right after
   * it, becomes a single `_`; allowed characters are copied.
   */
  function CleanSampleName(s: string): (r: string)
    ensures |r| <= |s|
    decreases |s|
  {
    if s == [] then []
    else if IsAllowed(s[0]) then [s[0]] + CleanSampleName(s[1..])
    else "_" + CleanSampleName(s[MatchLength(s)..])
  }

  /** `_` is in the class, in its last range. */
  lemma UnderscoreAllowed()
    ensures IsAllowed('_')
  {
    var r := AllowedRanges;
    assert InRanges('_', r[5..]);
    assert r[4..][1..] == r[5..] && InRanges('_', r[4..]);
    assert r[3..][1..] == r[4..] && InRanges('_', r[3..]);
    assert r[2..][1..] == r[3..] && InRanges('_', r[2..]);
    assert r[1..][1..] == r[2..] && InRanges('_', r[1..]);
    assert r[0..] == r;
  }

  /** Every character of a cleaned name is in the class `[a-zA-Z0-9._-]`. */
  lemma {:induction false} CleanAllowed(s: string)
    ensures AllAllowed(CleanSampleName(s))
    decreases |s|
  {
    if s != [] && IsAllowed(s[0]) {
      CleanAllowed(s[1..]);
    } else if s != [] {
      CleanAllowed(s[MatchLength(s)..]);
    }
  }

  /** A run of disallowed characters before an allowed one (or the end) is matched whole. */
  lemma {:induction false} DisallowedRunOf(d: string, r: string)
    requires forall i :: 0 <= i < |d| ==> !IsAllowed(d[i])
    requires r == [] || IsAllowed(r[0])
    ensures DisallowedRun(d + r) == |d|
  {
    if d != [] {
      assert (d + r)[0] == d[0] && (d + r)[1..] == d[1..] + r;
      DisallowedRunOf(d[1..], r);
    } else {
      assert d + r == r;
    }
  }

  /**
   * A maximal run of disallowed characters, with the `_` right after it if
   * there is one, becomes a single `_`.
   */
  lemma CleanRun(d: string, r: string)
    requires d != [] && forall i :: 0 <= i < |d| ==> !IsAllowed(d[i])
    requires r == [] || IsAllowed(r[0])
    ensures CleanSampleName(d + r) == "_" + CleanSampleName(if r != [] && r[0] == '_' then r[1..] else r)
  {
    DisallowedRunOf(d, r);
    var s := d + r;
    assert s[0] == d[0];
    if r != [] && r[0] == '_' {
      assert s[|d|] == '_' && s[|d| + 1..] == r[1..];
    } else {
      assert s[|d|..] == r;
    }
  }

  /** A name made of allowed characters only comes back unchanged. */
  lemma {:induction false} CleanKeepsAllowed(s: string)
    requires AllAllowed(s)
    ensures CleanSampleName(s) == s
  {
    if s != [] {
      assert IsAllowed(s[0]);
      CleanKeepsAllowed(s[1..]);
    }
  }

  /** A name comes back unchanged exactly when it has no character to clean. */
  lemma CleanUnchanged(s: string)
    ensures CleanSampleName(s) == s <==> AllAllowed(s)
  {
    if AllAllowed(s) {
      CleanKeepsAllowed(s);
    } else {
      CleanAllowed(s);
    }
  }

  /** Cleaning twice is cleaning once. */
  lemma CleanIdempotent(s: string)
    ensures CleanSampleName(CleanSampleName(s)) == CleanSampleName(s)
  {
    CleanAllowed(s);
    CleanKeepsAllowed(CleanSampleName(s));
  }

  /** A match stops before an allowed character that ends the first part. */
  lemma {:induction false} DisallowedRunConcat(a: string, b: string)
    requires a != [] && IsAllowed(a[|a| - 1])
    ensures DisallowedRun(a + b) == DisallowedRun(a) < |a|
  {
    if !IsAllowed(a[0]) {
      assert (a + b)[1..] == a[1..] + b;
      DisallowedRunConcat(a[1..], b);
    }
  }

  lemma MatchLengthConcat(a: string, b: string)
    requires a != [] && IsAllowed(a[|a| - 1])
    ensures MatchLength(a + b) == MatchLength(a) <= |a|
  {
    DisallowedRunConcat(a, b);
    assert (a + b)[DisallowedRun(a)] == a[DisallowedRun(a)];
  }

  /**
   * Cleaning works piecewise: a name cut right after an allowed character
   * cleans to the cleaned first part followed by the cleaned rest, since no
   * run of disallowed characters spans the cut.
   */
  lemma {:induction false} CleanConcat(a: string, b: string)
    requires a != [] && IsAllowed(a[|a| - 1])
    ensures CleanSampleName(a + b) == CleanSampleName(a) + CleanSampleName(b)
    decreases |a|, 1
  {
    if IsAllowed(a[0]) {
      CleanConcatCopy(a, b);
    } else {
      CleanConcatRun(a, b);
    }
  }

  /** `CleanConcat` when the name starts with an allowed character. */
  lemma {:induction false} CleanConcatCopy(a: string, b: string)
    requires a != [] && IsAllowed(a[|a| - 1]) && IsAllowed(a[0])
    ensures CleanSampleName(a + b) == CleanSampleName(a) + CleanSampleName(b)
    decreases |a|, 0
  {
    var s := a + b;
    assert s[0] == a[0] && s[1..] == a[1..] + b;
    var tail := CleanSampleName(s[1..]);
    assert CleanSampleName(s) == [a[0]] + tail;
    if |a| == 1 {
      assert a[1..] == [] && s[1..] == b;
      assert CleanSampleName(a) == [a[0]];
    } else {
      CleanConcat(a[1..], b);
      assert CleanSampleName(a) == [a[0]] + CleanSampleName(a[1..]);
      assert tail == CleanSampleName(a[1..]) + CleanSampleName(b);
      assert [a[0]] + (CleanSampleName(a[1..]) + CleanSampleName(b))
          == ([a[0]] + CleanSampleName(a[1..])) + CleanSampleName(b);
    }
  }

  /** `CleanConcat` when the name starts with a run of disallowed characters. */
  lemma {:induction false} CleanConcatRun(a: string, b: string)
    requires a != [] && IsAllowed(a[|a| - 1]) && !IsAllowed(a[0])
    ensures CleanSampleName(a + b) == CleanSampleName(a) + CleanSampleName(b)
    decreases |a|, 0
  {
    var m := MatchLength(a);
    var rest := a[m..];
    assert CleanSampleName(a + b) == "_" + CleanSampleName(rest + b) by {
      MatchLengthConcat(a, b);
      assert (a + b)[0] == a[0] && (a + b)[m..] == rest + b;
    }
    if rest == [] {
      assert rest + b == b;
    } else {
      assert rest[|rest| - 1] == a[|a| - 1];
      CleanConcat(rest, b);
    }
  }

  // ---------------------------------------------------------------------
  // main

  /** The keys of `index_dict`: the digits `1` to `9`. */
  predicate IsIndex(c: char) {
    '1' <= c <= '9'
  }

  /** The tag of an index: its sample barcode and its number, between underscores. */
  function IndexTag(c: char): string
    requires IsIndex(c)
  {
    "_" + Barcodes.Barcodes[c as int - '1' as int] + "_index" + [c] + "_"
  }

  /** `index_dict`: the file-name tag of each index digit. */
  const IndexDict: map<char, string> := map c | IsIndex(c) :: IndexTag(c)

  /** The keys of `index_dict` are the nine digits. */
  lemma IndexDictKeys()
    ensures forall c :: c in IndexDict <==> c in "123456789"
  {
    var digits := "123456789";
    forall c ensures c in IndexDict <==> c in digits {
      if IsIndex(c) {
        assert c == digits[c as int - '1' as int];
      }
    }
  }

  /** `index_dict` maps `1`, `2` and `3` to the tags the script lists for them. */
  lemma IndexDictEntries123()
    ensures IndexDict['1'] == "_AGTC_index1_" && IndexDict['2'] == "_GACT_index2_" && IndexDict['3'] == "_CTTG_index3_"
  {
  }

  /** `index_dict` maps `4`, `5` and `6` to the tags the script lists for them. */
  lemma IndexDictEntries456()
    ensures IndexDict['4'] == "_TCGA_index4_" && IndexDict['5'] == "_AAGG_index5_" && IndexDict['6'] == "_TTCC_index6_"
  {
  }

  /** `index_dict` maps `7`, `8` and `9` to the tags the script lists for them. */
  lemma IndexDictEntries789()
    ensures IndexDict['7'] == "_GTGC_index7_" && IndexDict['8'] == "_GCCA_index8_" && IndexDict['9'] == "_GATG_index9_"
  {
  }

  /** The digit of index `i + 1`. */
  function Digit(i: nat): char
    requires i < 9
  {
    (('1' as int) + i) as char
  }

  /**
   * The tag of index `i + 1` is the tag the barcode script puts in the name
   * of both files of that barcode, between underscores: the pattern
   * `*{old_name}*` of the rename command matches them.
   */
  lemma IndexDictTags(i: nat)
    requires i < 9
    ensures Digit(i) in IndexDict
    ensures IndexDict[Digit(i)] == "_" + Barcodes.Tag(i) + "_"
  {
  }

  /** The old name of the command for index `i + 1` occurs in each output file name of that barcode. */
  lemma TagInFileName(parts: Barcodes.Fastq.FileParts, side: string, i: nat)
    requires i < 9
    ensures var f, t := Barcodes.FileName(parts, side, i), IndexDict[Digit(i)];
      var k := |parts.sample| + |Barcodes.SampleName| + 1;
      k + |t| <= |f| && f[k..k + |t|] == t
  {
    IndexDictTags(i);
    var t := IndexDict[Digit(i)];
    var f := Barcodes.FileName(parts, side, i);
    var prefix := parts.sample + "_" + Barcodes.SampleName;
    var rest := side + "_" + parts.suffix;
    assert f == prefix + t + rest;
  }

  /** Why `main` stops without finishing. */
  datatype RenameError =
    | CountMismatch(names: nat, indexes: nat)  // the counts differ: nothing is renamed
    | UnknownIndex(index: char)                // `index_dict[index]` raises a KeyError

  /** `list(args.index.strip())`: one index per character, with no whitespace at either end. */
  function Indexes(index: string): (idx: seq<char>)
    ensures |idx| <= |index|
    ensures idx == [] || (!IsSpace(idx[0]) && !IsSpace(idx[|idx| - 1]))
  {
    StripEnds(index);
    Strip(index)
  }

  /** `args.sample_names.strip().split(",")`: never empty, even for an empty argument. */
  function Names(sampleNames: string): (names: seq<string>)
    ensures |names| >= 1
  {
    Split(Strip(sampleNames), ',')
  }

  /** `clean_sample_name(sample_names[count].strip())` */
  function Cleaned(name: string): string {
    CleanSampleName(Strip(name))
  }

  /** `new_name = f"{old_name}{cleaned_name}_"` */
  function NewName(oldName: string, cleaned: string): (newName: string)
    ensures |newName| == |oldName| + |cleaned| + 1
    ensures newName[..|oldName|] == oldName && newName[|newName| - 1] == '_'
  {
    oldName + cleaned + "_"
  }

  /** `cmd = f"rename {old_name} {new_name} *{old_name}*"` */
  function Command(oldName: string, newName: string): string {
    "rename " + oldName + " " + newName + " *" + oldName + "*"
  }

  /** The command issued for one index and its name. */
  function CommandFor(index: char, name: string): string
    requires IsIndex(index)
  {
    var oldName := IndexDict[index];
    Command(oldName, NewName(oldName, Cleaned(name)))
  }

  /** The tag a cleaned name is added to keeps its shape: tag, allowed characters, `_`. */
  lemma NewNameShape(index: char, name: string)
    requires IsIndex(index)
    ensures var oldName := IndexDict[index];
      var newName := NewName(oldName, Cleaned(name));
      && newName[..|oldName|] == oldName
      && AllAllowed(newName[|oldName|..])
      && newName[|newName| - 1] == '_'
  {
    var oldName := IndexDict[index];
    var cleaned := Cleaned(name);
    CleanAllowed(Strip(name));
    UnderscoreAllowed();
    var tail := NewName(oldName, cleaned)[|oldName|..];
    assert tail == cleaned + "_";
    assert forall i :: 0 <= i < |tail| ==> tail[i] == (if i < |cleaned| then cleaned[i] else '_');
  }

  /** How many indexes, from the first, `index_dict` knows. */
  function KnownPrefix(idx: seq<char>): (k: nat)
    ensures k <= |idx|
    ensures forall i :: 0 <= i < k ==> IsIndex(idx[i])
    ensures k == |idx| || !IsIndex(idx[k])
  {
    if idx == [] || !IsIndex(idx[0]) then 0 else 1 + KnownPrefix(idx[1..])
  }

  /** The known prefix ends at the first index that is not a key. */
  lemma {:induction false} KnownPrefixAt(idx: seq<char>, j: nat)
    requires j <= |idx| && (forall i :: 0 <= i < j ==> IsIndex(idx[i]))
    requires j == |idx| || !IsIndex(idx[j])
    ensures KnownPrefix(idx) == j
  {
    if j > 0 {
      KnownPrefixAt(idx[1..], j - 1);
    }
  }

  /** The commands for the indexes and names paired by position. */
  function Commands(idx: seq<char>, names: seq<string>): (cmds: seq<string>)
    requires |idx| <= |names|
    requires forall i :: 0 <= i < |idx| ==> IsIndex(idx[i])
    ensures |cmds| == |idx|
  {
    if idx == [] then []
    else Commands(idx[..|idx| - 1], names) + [CommandFor(idx[|idx| - 1], names[|idx| - 1])]
  }

  /** The command at each position is the one for the index and the name at that position. */
  lemma {:induction false} CommandsAt(idx: seq<char>, names: seq<string>)
    requires |idx| <= |names|
    requires forall i :: 0 <= i < |idx| ==> IsIndex(idx[i])
    ensures forall i :: 0 <= i < |idx| ==> Commands(idx, names)[i] == CommandFor(idx[i], names[i])
  {
    if idx != [] {
      var init := idx[..|idx| - 1];
      CommandsAt(init, names);
      assert forall i :: 0 <= i < |init| ==> init[i] == idx[i];
    }
  }

  /** `sample_dict` after `sample_dict[index] = cleaned_name` for the indexes in order. */
  function Fill(dict: map<char, string>, idx: seq<char>, names: seq<string>): (d: map<char, string>)
    requires |idx| <= |names|
  {
    if idx == [] then dict
    else Fill(dict, idx[..|idx| - 1], names)[idx[|idx| - 1] := Cleaned(names[|idx| - 1])]
  }

  /** The keys afterwards are the old keys and the given indexes. */
  lemma {:induction false} FillKeys(dict: map<char, string>, idx: seq<char>, names: seq<string>)
    requires |idx| <= |names|
    ensures forall c :: c in Fill(dict, idx, names) <==> c in dict || c in idx
  {
    if idx != [] {
      var init := idx[..|idx| - 1];
      FillKeys(dict, init, names);
      assert idx == init + [idx[|idx| - 1]];
    }
  }

  lemma CommandsSnoc(idx: seq<char>, names: seq<string>, j: nat)
    requires j < |idx| <= |names|
    requires forall i :: 0 <= i <= j ==> IsIndex(idx[i])
    ensures Commands(idx[..j + 1], names) == Commands(idx[..j], names) + [CommandFor(idx[j], names[j])]
  {
    assert idx[..j + 1][..j] == idx[..j];
  }

  /** One more known index extends the known run and appends its command to what was issued before. */
  lemma IssuedSnoc(before: seq<string>, idx: seq<char>, names: seq<string>, j: nat)
    requires j < |idx| <= |names|
    requires forall i :: 0 <= i < j ==> IsIndex(idx[i])
    requires IsIndex(idx[j])
    ensures forall i :: 0 <= i < j + 1 ==> IsIndex(idx[i])
    ensures before + Commands(idx[..j + 1], names) == (before + Commands(idx[..j], names)) + [CommandFor(idx[j], names[j])]
  {
    assert forall i :: 0 <= i < j + 1 ==> IsIndex(idx[i]) by {
      assert IsIndex(idx[j]);
    }
    var issued := Commands(idx[..j], names);
    var cmd := CommandFor(idx[j], names[j]);
    CommandsSnoc(idx, names, j);
    AppendAssoc(before, issued, [cmd]);
  }

  /** Concatenation is associative. */
  lemma AppendAssoc<T>(a: seq<T>, b: seq<T>, c: seq<T>)
    ensures a + (b + c) == (a + b) + c
  {
  }

  lemma FillSnoc(dict: map<char, string>, idx: seq<char>, names: seq<string>, j: nat)
    requires j < |idx| <= |names|
    ensures Fill(dict, idx[..j + 1], names) == Fill(dict, idx[..j], names)[idx[j] := Cleaned(names[j])]
  {
    assert idx[..j + 1][..j] == idx[..j];
  }

  /** An index is paired with the cleaned name of its last occurrence. */
  lemma {:induction false} FillLast(dict: map<char, string>, idx: seq<char>, names: seq<string>, i: nat)
    requires |idx| <= |names| && i < |idx|
    requires forall j :: i < j < |idx| ==> idx[j] != idx[i]
    ensures idx[i] in Fill(dict, idx, names) && Fill(dict, idx, names)[idx[i]] == Cleaned(names[i])
  {
    FillKeys(dict, idx, names);
    if i < |idx| - 1 {
      FillLast(dict, idx[..|idx| - 1], names, i);
    }
  }

  /** An index not given keeps its old entry. */
  lemma {:induction false} FillOthers(dict: map<char, string>, idx: seq<char>, names: seq<string>, c: char)
    requires |idx| <= |names| && c in dict && c !in idx
    ensures c in Fill(dict, idx, names) && Fill(dict, idx, names)[c] == dict[c]
  {
    FillKeys(dict, idx, names);
    if idx != [] {
      FillOthers(dict, idx[..|idx| - 1], names, c);
    }
  }

  class Renamer {
    /** The module-level `sample_dict`: index to cleaned sample name. */
    var sampleDict: map<char, string>
    /** The `rename` commands printed and handed to the shell, in order. */
    var commands: seq<string>

    constructor ()
      ensures sampleDict == map[] && commands == []
    {
      sampleDict := map[];
      commands := [];
    }

    /**
     * One pass of the loop of `main`: record the cleaned name of `index`,
     * then look up its tag and issue the `rename` command, unless the lookup
     * raises.
     */
    method RenameOne(index: char, name: string) returns (known: bool)
      modifies this
      ensures sampleDict == old(sampleDict)[index := Cleaned(name)]
      ensures known <==> IsIndex(index)
      ensures commands == if known then old(commands) + [CommandFor(index, name)] else old(commands)
    {
      var cleaned := Cleaned(name);
      sampleDict := sampleDict[index := cleaned];
      if index !in IndexDict {
        return false;
      }
      var oldName := IndexDict[index];
      var newName := NewName(oldName, cleaned);
      commands := commands + [Command(oldName, newName)];
      return true;
    }

    /**
     * The loop of `main` over indexes and names of the same number: records
     * each cleaned name and issues one `rename` command per index, in order,
     * until an index `index_dict` does not know raises.
     */
    method RenameAll(indexes: seq<char>, names: seq<string>) returns (err: Option<RenameError>)
      requires |indexes| == |names|
      modifies this
      ensures var k := KnownPrefix(indexes);
        && (err == None <==> k == |indexes|)
        && (k < |indexes| ==> err == Some(UnknownIndex(indexes[k])))
        && commands == old(commands) + Commands(indexes[..k], names)
        && sampleDict == Fill(old(sampleDict), indexes[..Min(k + 1, |indexes|)], names)
    {
      var count := 0;
      while count < |indexes|
        invariant count <= |indexes|
        invariant forall i :: 0 <= i < count ==> IsIndex(indexes[i])
        invariant commands == old(commands) + Commands(indexes[..count], names)
        invariant sampleDict == Fill(old(sampleDict), indexes[..count], names)
      {
        var known := RenameOne(indexes[count], names[count]);
        FillSnoc(old(sampleDict), indexes, names, count);
        if !known {
          KnownPrefixAt(indexes, count);
          return Some(UnknownIndex(indexes[count]));
        }
        IssuedSnoc(old(commands), indexes, names, count);
        count := count + 1;
      }
      KnownPrefixAt(indexes, count);
      assert indexes[..count] == indexes;
      return None;
    }

    /**
     * `main`: when as many indexes as names are given, runs the loop;
     * otherwise it reports the two numbers and renames nothing.
     */
    method RenameFromArgs(index: string, sampleNames: string) returns (err: Option<RenameError>)
      modifies this
      ensures var idx, names := Indexes(index), Names(sampleNames);
        |idx| != |names| ==>
          err == Some(CountMismatch(|names|, |idx|)) && sampleDict == old(sampleDict) && commands == old(commands)
      ensures var idx, names := Indexes(index), Names(sampleNames);
        var k := KnownPrefix(idx);
        |idx| == |names| ==>
          && (err == None <==> k == |idx|)
          && (k < |idx| ==> err == Some(UnknownIndex(idx[k])))
          && commands == old(commands) + Commands(idx[..k], names)
          && sampleDict == Fill(old(sampleDict), idx[..Min(k + 1, |idx|)], names)
    {
      var indexes := Indexes(index);
      var names := Names(sampleNames);
      if |indexes| != |names| {
        return Some(CountMismatch(|names|, |indexes|));
      }
      err := RenameAll(indexes, names);
    }
  }
}
