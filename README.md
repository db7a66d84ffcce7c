# TrAEL-seq read preprocessing and sample renaming, in Dafny

This project models the three Python scripts of the TrAEL-seq pipeline that
touch every read or every file name.

- `TrAELseq_preprocessing.py` (module `UmiPreprocessing`) reads each gzipped
  FASTQ file given on the command line. Files are taken in sorted order.
  - Every read loses its first 8 bases, the UMI, which are appended to the
    read ID after a `:`.
  - Spaces in the ID become `_`.
  - The read then loses its leading T run: at most three bases, and one base
    when the residual does not start with T.
  - The read is written to the T or the noT output of its file.
  - The global `polyT` dict tallies the runs. It is printed in key order at
    the end of the file and cleared before the next file.
- `TrAELseq_preprocessing_UMIplusBarcode.py` (module `BarcodePreprocessing`)
  does the same after a 12-base prefix: an 8-base UMI and a 4-base sample
  barcode, both appended to the ID as `:barcode:UMI`.
  - The barcode picks one of nine barcode outputs or the `unassigned` output,
    on the T or the noT side. That makes twenty files per input, all opened
    before the first read.
  - Barcodes outside the nine are counted in `faithless_barcodes`.
  - The report prints the 50 most frequent rejected barcodes, the read count
    and the 10 smallest `polyT` keys.
  - `polyT`, `fhs` and `fhs_noT` are cleared after every file.
- `rename_trael_samples.py` (module `RenameSamples`) pairs a string of index
  digits with a comma-separated list of sample names.
  - Each name is cleaned with `re.sub(r'[^a-zA-Z0-9.\-_]+_?', '_', name)`.
  - For each index it issues `rename <tag> <tag><name>_ *<tag>*`, where
    `<tag>` is the index's `_<barcode>_index<i>_`.
  - If the two counts differ, nothing is renamed.

Shared modules:

| module | models |
|---|---|
| `PyText` | `str.strip`, Python slicing with clipped bounds, `replace(" ", "_")`, `split` and `join` |
| `Counters` | an insertion-ordered `dict` of counts, with its key order |
| `PolyT` | the `^T+` match, the trim amount and the `polyT` update |
| `Fastq` | the four-line `readline().decode().strip()` loop, as a function of the file's lines |
| `Listing` | `sorted(d.keys())`, `sorted(d, key=d.get, reverse=True)` and the print loops |
| `Inputs` | the command-line inputs and `allfiles.sort()` |

Where the scripts keep mutable state, they become classes:
- `Preprocessor`, with fields `polyT`, `fhs`, `fhsNoT` and `files`. The field
  `files` maps each output file to the records written to it.
- `Renamer`, with fields `sampleDict` and `commands`.

Each method of these classes is proved against a specification function. The
specification functions' properties are proved as lemmas.

Some behaviour of the scripts that a reader might not expect, and which the
model keeps:
- A trailing group of one to three lines is dropped silently
  (`Fastq.TrailingFragmentDropped`).
- All twenty sinks (two in the UMI-only script) are opened before the first
  read.
- A file name that does not match the lane/read pattern raises IndexError,
  which ends the whole run, so later files are not processed.
- The length of the sequence is never checked against the length of the
  quality line.
- A run longer than three is counted under `TTT` and also leaves its own
  literal key with count 0.
- The ID suffix is `:barcode:UMI`, barcode first.

## Model

| member | source | states |
|---|---|---|
| PyText.Strip | TrAELseq_preprocessing.py:53-56 | `str.strip()` over Python's whitespace set; characterized by `StripEnds`, `StripLeftRemovesSpace`, `StripRightRemovesSpace` and `StripBlank` |
| PyText.StripEnds | TrAELseq_preprocessing.py:53-56 | what `strip()` leaves is no longer than the line and neither starts nor ends with whitespace |
| PyText.StripLeftRemovesSpace | TrAELseq_preprocessing.py:53-56 | everything `strip()` removes at the start is whitespace |
| PyText.StripRightRemovesSpace | TrAELseq_preprocessing.py:53-56 | everything `strip()` removes at the end is whitespace |
| PyText.StripBlank | TrAELseq_preprocessing.py:56-59 | a quality line strips to "" (the loop's stop test) exactly when every character of it is whitespace |
| PyText.Slice | TrAELseq_preprocessing.py:73 | `s[lo:hi]` has length `max(0, min(hi, len) - lo)` and holds `s[lo + i]` at `i`: bounds past the end are clipped |
| PyText.Drop | TrAELseq_preprocessing.py:74-75 | `s[k:]` has length `max(0, len - k)` and holds `s[k + i]` at `i` |
| PyText.DropDrop | TrAELseq_preprocessing.py:112-113 | slicing `[a:]` then `[b:]` is slicing `[a+b:]`, so sequence and quality are cut at the same total offset |
| PyText.SliceParts | TrAELseq_preprocessing_UMIplusBarcode.py:77-79 | `seq[0:8] + seq[8:12] + seq[12:] == seq`: UMI, barcode and residual lose no base |
| PyText.ReplaceSpaces | TrAELseq_preprocessing.py:115 | `replace(" ", "_")` keeps the length and changes exactly the spaces into `_` |
| PyText.ReplaceSpacesConcat | TrAELseq_preprocessing.py:115 | space replacement distributes over concatenation |
| PyText.ReplaceSpacesRemovesSpace | TrAELseq_preprocessing.py:115 | no space is left in the ID |
| PyText.Split | rename_trael_samples.py:34 | `split(sep)` gives at least one field, at least two when `sep` occurs, and no field holds `sep` |
| PyText.JoinSplit | TrAELseq_preprocessing_UMIplusBarcode.py:181 | joining the fields of a split gives the string back |
| PyText.SplitJoin | TrAELseq_preprocessing_UMIplusBarcode.py:212 | splitting a join of separator-free fields gives the fields back |
| PyText.SplitAt | TrAELseq_preprocessing_UMIplusBarcode.py:212 | a separator-free field followed by the separator comes off whole |
| PyText.SplitNone | TrAELseq_preprocessing_UMIplusBarcode.py:212 | a string without the separator splits into itself alone |
| Counters.Empty | TrAELseq_preprocessing.py:20 | `{}` is a valid dict with no keys and a value sum of 0 |
| Counters.EnsureKey | TrAELseq_preprocessing.py:97-98 | `if k not in d: d[k] = 0` appends `k` to the key order only when new, and changes no value |
| Counters.EnsureKeyTotal | TrAELseq_preprocessing.py:97-98 | adding a key with value 0 keeps the sum of the values |
| Counters.Incr | TrAELseq_preprocessing.py:108 | `d[k] += 1` adds one under `k`, changes no other value and keeps the key order |
| Counters.IncrTotal | TrAELseq_preprocessing.py:108 | `d[k] += 1` adds one to the sum of the values |
| PolyT.LeadingTs | TrAELseq_preprocessing.py:84-86 | the `^T+` match is the longest prefix of T bases |
| PolyT.Run | TrAELseq_preprocessing.py:86-95 | `m[0]` is the whole leading run of T: a prefix of the residual, all T, followed by the end or by a base other than T; it is empty exactly when the residual is empty or does not start with T (`m is None`) |
| PolyT.TrimAmount | TrAELseq_preprocessing.py:89-113 | 1 to 3 bases are cut; exactly 1 when there is no leading T; otherwise only T bases, fewer than 3 only when the run ends there |
| PolyT.Bucket | TrAELseq_preprocessing.py:101-108 | the key a matched run is counted under: the run itself, or `TTT` when it is longer than three; used by `CountRun` |
| PolyT.CountRun | TrAELseq_preprocessing.py:95-108 | the run becomes a key, its bucket (the run, or `TTT` for a longer run) goes up by one, every other value stays, and no key other than those two appears |
| PolyT.CountRunTotal | TrAELseq_preprocessing.py:97-108 | every matched run adds exactly one to the sum of the `polyT` values |
| Fastq.Stripped | TrAELseq_preprocessing.py:53-56 | every line is read through `strip()` |
| Fastq.Records | TrAELseq_preprocessing.py:52-59 | the records fit in the file four lines each, and the quality line after the last one is empty or missing |
| Fastq.RecordsAt | TrAELseq_preprocessing.py:52-59 | record `k` is lines `4k` to `4k+3`, each read through `strip()`, and its quality line is not empty |
| Fastq.TrailingFragmentDropped | TrAELseq_preprocessing.py:52-59 | up to three lines after a whole number of four-line groups add no record |
| Inputs.SortByName | TrAELseq_preprocessing.py:29 | `allfiles.sort()` as a stable insertion sort on the names; characterized by `Inputs.SortByNameCorrect` |
| Inputs.SortByNameCorrect | TrAELseq_preprocessing.py:29 | `allfiles.sort()` is a permutation of the inputs with names in non-decreasing order |
| Listing.StrLessTotal | TrAELseq_preprocessing.py:127 | Python's `str` order is total on distinct strings |
| Listing.StrLessTransitive | TrAELseq_preprocessing.py:127 | Python's `str` order is transitive |
| Listing.SortKeys | TrAELseq_preprocessing.py:127 | `sorted(polyT.keys())` as an insertion sort; characterized by `SortKeysCorrect` and `SortKeysListsAll` |
| Listing.SortKeysCorrect | TrAELseq_preprocessing.py:127 | `sorted(polyT.keys())` is a permutation of the keys in strictly increasing order |
| Listing.SortKeysListsAll | TrAELseq_preprocessing.py:127 | `sorted(keys)` has as many elements as the keys, the same members, in increasing order |
| Listing.SortByCount | TrAELseq_preprocessing_UMIplusBarcode.py:139 | `sorted(d, key=d.get, reverse=True)` as a stable insertion sort; characterized by `SortByCountCorrect` |
| Listing.SortByCountCorrect | TrAELseq_preprocessing_UMIplusBarcode.py:139 | `sorted(d, key=d.get, reverse=True)` is a permutation with non-increasing counts, and keys of equal count keep their insertion order |
| Listing.PrintCounts | TrAELseq_preprocessing_UMIplusBarcode.py:146-151 | the print loop emits `key<TAB>count` for the first keys of the order, stopping after `limit` lines when there is one |
| Listing.Lines | TrAELseq_preprocessing_UMIplusBarcode.py:146-151 | at most `n` lines, line `i` being key `i` of the order with its count |
| Listing.SmallestKeysListed | TrAELseq_preprocessing_UMIplusBarcode.py:147-151 | the first `n` sorted keys are increasing, are keys, and every key left out is larger than every key listed |
| Listing.LargestCountsListed | TrAELseq_preprocessing_UMIplusBarcode.py:139-143 | the first `n` keys by count have non-increasing counts, and no key left out has a larger count than a key listed; for each count, the keys listed with it are the first keys with that count in insertion order, in that order |
| UmiPreprocessing.Process | TrAELseq_preprocessing.py:73-115 | steps 1 and 2 of the loop body on one record; characterized by `ProcessCuts` and `ProcessId` |
| UmiPreprocessing.OutName | TrAELseq_preprocessing.py:137-143 | `make_out_filehandle`'s name `{lane}_UMIed_{TnoT}_{R}`; the two sides differ by `OutNamesDiffer` |
| UmiPreprocessing.Dest | TrAELseq_preprocessing.py:118-121 | the noT output when `m is None`, else the T output; characterized by `SinksPartition` |
| UmiPreprocessing.Step | TrAELseq_preprocessing.py:61-121 | one loop pass: count + 1, `polyT` updated by `CountRun` for a matched run, the record appended to its output; `polyT` stays a valid dict |
| UmiPreprocessing.RunAll | TrAELseq_preprocessing.py:52-121 | the loop over all records, one `Step` each; characterized by `RunAllTallies` and `RunAllFiles` |
| UmiPreprocessing.FileRun | TrAELseq_preprocessing.py:47-121 | `main` on one file: both outputs truncated, then the loop from `count = 0`; characterized by `FileRunTallies` |
| UmiPreprocessing.ReportOf | TrAELseq_preprocessing.py:126-128 | the printed report; characterized by `ReportListsAllKeys` |
| UmiPreprocessing.FileReport | TrAELseq_preprocessing.py:32-37 | the report of one input run with a cleared `polyT`; equal to the report `main` prints by `ReportIgnoresFiles` |
| UmiPreprocessing.ProcessCuts | TrAELseq_preprocessing.py:73-113 | sequence and quality are both cut at 8 plus the trim amount, equal lengths stay equal, `line3` is kept, and the run is the `^T+` match of the residual |
| UmiPreprocessing.ProcessId | TrAELseq_preprocessing.py:73-115 | the new ID is the old ID, `:` and `seq[0:8]`, with spaces turned into `_`, and holds no space |
| UmiPreprocessing.OutNamesDiffer | TrAELseq_preprocessing.py:137-143 | the T and the noT output names of a file differ |
| UmiPreprocessing.RunAllTallies | TrAELseq_preprocessing.py:52-113 | the loop counts every record, and `polyT` gains one per T record on that record's bucket |
| UmiPreprocessing.RunAllKeys | TrAELseq_preprocessing.py:97-108 | `polyT` ends with exactly the keys it had plus, for every T record, its run and the run's bucket, so a run longer than three stays as a key of its own |
| UmiPreprocessing.RunAllFiles | TrAELseq_preprocessing.py:118-121 | each output file ends with what it held plus, in order, exactly the records routed to it |
| UmiPreprocessing.SinksPartition | TrAELseq_preprocessing.py:118-121 | the T file receives exactly the T records, and the two files together receive every record once |
| UmiPreprocessing.SentToOther | TrAELseq_preprocessing.py:118-121 | a file that is neither output receives no record |
| UmiPreprocessing.ReportIgnoresFiles | TrAELseq_preprocessing.py:32-37 | with `polyT` cleared, a file's report depends on its own records only |
| UmiPreprocessing.FileRunTallies | TrAELseq_preprocessing.py:47-121 | `main` on one file: count = number of records; `polyT` sum grows by the T records; each output file holds exactly the records sent to it, the T file as many as there are T records, and the two files together all records; `polyT` ends with the keys it had plus the run and bucket of every T record, and no others |
| UmiPreprocessing.FileRunOthers | TrAELseq_preprocessing.py:47-121 | `main` on one file leaves every file other than its two outputs as it was |
| UmiPreprocessing.WriteAllKeeps | TrAELseq_preprocessing.py:32-34 | after the `submain` loop, a file written for input `j` holds what it held after input `j` when no later input has it as an output |
| UmiPreprocessing.ReportListsAllKeys | TrAELseq_preprocessing.py:126-128 | the report prints the read count, then every `polyT` key exactly once, in increasing order, each with its count |
| UmiPreprocessing.Preprocessor.constructor | TrAELseq_preprocessing.py:20-22 | `polyT` starts empty, and so do the output files |
| UmiPreprocessing.Preprocessor.Tally | TrAELseq_preprocessing.py:97-108 | the in-place `polyT` update equals `CountRun` and writes no file |
| UmiPreprocessing.Preprocessor.Handle | TrAELseq_preprocessing.py:73-121 | one loop body updates `polyT` and the files exactly as one `Step` of the processed record |
| UmiPreprocessing.Preprocessor.ReadLoop | TrAELseq_preprocessing.py:52-121 | the `while True` loop leaves count, `polyT` and files equal to `RunAll` over the file's records |
| UmiPreprocessing.Preprocessor.ProcessFile | TrAELseq_preprocessing.py:39-128 | `main`: with no name match, fails and changes nothing; otherwise truncates both outputs, runs the loop and returns the report of the result |
| UmiPreprocessing.Preprocessor.ProcessFiles | TrAELseq_preprocessing.py:24-37 | `submain`: in sorted order, report `i` is the report of input `i` alone, the files are those of the processed inputs in turn, and the run stops exactly at the first unmatched name |
| BarcodePreprocessing.LabelHeadsDistinct | TrAELseq_preprocessing_UMIplusBarcode.py:161-209 | the ten labels (nine barcodes and `unassigned`) differ in their first four characters and hold no `:` |
| BarcodePreprocessing.Bin | TrAELseq_preprocessing_UMIplusBarcode.py:120-129 | a record is filed under its barcode when that is one of the nine, and under `unassigned` exactly otherwise |
| BarcodePreprocessing.Process | TrAELseq_preprocessing_UMIplusBarcode.py:77-117 | steps 1 and 2 of the loop body on one record; characterized by `ProcessCuts` and `ProcessId` |
| BarcodePreprocessing.ProcessCuts | TrAELseq_preprocessing_UMIplusBarcode.py:77-115 | sequence and quality are both cut at 12 plus the trim amount, equal lengths stay equal, and the sample barcode is `seq[8:12]` |
| BarcodePreprocessing.ProcessId | TrAELseq_preprocessing_UMIplusBarcode.py:77-117 | the new ID is the old ID, `:barcode`, `:UMI`, with spaces turned into `_`, and holds no space |
| BarcodePreprocessing.Tag | TrAELseq_preprocessing_UMIplusBarcode.py:180-208 | the tag of label `i` starts with that label's first four characters |
| BarcodePreprocessing.FileName | TrAELseq_preprocessing_UMIplusBarcode.py:180-208 | `f"{sample}_{sample_name}_{tag}_{ending}"` for label `i`; injective by `FileNameInjective` |
| BarcodePreprocessing.Pool | TrAELseq_preprocessing_UMIplusBarcode.py:178-209 | one side gets ten sinks, label `i` with file `{sample}_UMIed_{tag}_{side}_{suffix}`, in index order with `unassigned` last |
| BarcodePreprocessing.FileNameInjective | TrAELseq_preprocessing_UMIplusBarcode.py:178-209 | the twenty names of one input are pairwise distinct: a name fixes its label and its side |
| BarcodePreprocessing.PoolAsWrittenAgrees | TrAELseq_preprocessing_UMIplusBarcode.py:211-212 | when neither name part holds a `:`, the join-and-split step opens exactly the intended sinks |
| BarcodePreprocessing.PoolAsWrittenColon | TrAELseq_preprocessing_UMIplusBarcode.py:171-212 | when the lane part holds a `:`, every sink opens the file named by the text before it, under a key that is no label |
| BarcodePreprocessing.EntryColon | TrAELseq_preprocessing_UMIplusBarcode.py:211-212 | entry `i` then splits into the lane text, the rest of the name and the label |
| BarcodePreprocessing.Open | TrAELseq_preprocessing_UMIplusBarcode.py:214-219 | `open_filehandles`: the file truncated and registered under its key on its side; the method `Preprocessor.OpenFilehandles` is proved equal to it |
| BarcodePreprocessing.OpenAll | TrAELseq_preprocessing_UMIplusBarcode.py:211-212 | the open loop over a pool; characterized by `OpenAllKeys` and `OpenAllFiles` |
| BarcodePreprocessing.OpenBoth | TrAELseq_preprocessing_UMIplusBarcode.py:54-55 | the noT then the T `make_out_filehandle` call; characterized by `OpenBothRoutes` and `OpenBothEmpties` |
| BarcodePreprocessing.OpenAllKeys | TrAELseq_preprocessing_UMIplusBarcode.py:211-219 | opening a pool registers every key with its own file on its side and leaves the other side's dict alone |
| BarcodePreprocessing.OpenAllFiles | TrAELseq_preprocessing_UMIplusBarcode.py:214-219 | opening a pool truncates exactly the pool's files and keeps every other file |
| BarcodePreprocessing.OpenBothRoutes | TrAELseq_preprocessing_UMIplusBarcode.py:54-55 | after both `make_out_filehandle` calls every label is routed to its own file on each side |
| BarcodePreprocessing.OpenBothEmpties | TrAELseq_preprocessing_UMIplusBarcode.py:54-55 | after both calls all twenty files of the input are empty |
| BarcodePreprocessing.Dest | TrAELseq_preprocessing_UMIplusBarcode.py:120-129 | the sink a record is written to: its label's entry in `fhs` or `fhs_noT`; characterized by `DestRouted` |
| BarcodePreprocessing.Reject | TrAELseq_preprocessing_UMIplusBarcode.py:131-133 | the `faithless_barcodes` update for a barcode outside the nine; keeps the dict valid, and its counts are characterized by `FaithlessAfterTallies` |
| BarcodePreprocessing.Step | TrAELseq_preprocessing_UMIplusBarcode.py:67-133 | one loop pass: count + 1, `polyT` by `CountRun`, the record appended to `Dest`, a rejected barcode counted; both dicts stay valid |
| BarcodePreprocessing.RunAll | TrAELseq_preprocessing_UMIplusBarcode.py:58-133 | the loop over all records, one `Step` each; characterized by `PolyTAfterTallies`, `FaithlessAfterTallies` and `FilesAfterAppends` |
| BarcodePreprocessing.PolyTAfterTallies | TrAELseq_preprocessing_UMIplusBarcode.py:97-110 | `polyT` gains exactly one per T record, on that record's bucket, so its sum grows by the number of T records |
| BarcodePreprocessing.FaithlessAfterTallies | TrAELseq_preprocessing_UMIplusBarcode.py:125-133 | `faithless_barcodes[sb]` counts exactly the records with barcode `sb` outside the nine, and its sum is the number of unassigned records |
| BarcodePreprocessing.PolyTAfterKeys | TrAELseq_preprocessing_UMIplusBarcode.py:99-110 | `polyT` ends with exactly the keys it had plus, for every T record, its run and the run's bucket |
| BarcodePreprocessing.FaithlessAfterKeys | TrAELseq_preprocessing_UMIplusBarcode.py:130-133 | `faithless_barcodes` ends with exactly the keys it had plus every barcode rejected at least once |
| BarcodePreprocessing.FilesAfterAppends | TrAELseq_preprocessing_UMIplusBarcode.py:120-129 | each file ends with what it held plus, in order, the records routed to it |
| BarcodePreprocessing.DestRouted | TrAELseq_preprocessing_UMIplusBarcode.py:120-129 | a record is written to label `i`'s file on a side exactly when it has that label and that side |
| BarcodePreprocessing.SentToRouted | TrAELseq_preprocessing_UMIplusBarcode.py:120-129 | label `i`'s file on a side receives exactly that label's records of that side, in order |
| BarcodePreprocessing.SentToOther | TrAELseq_preprocessing_UMIplusBarcode.py:120-129 | with the sinks of an input, a file that is none of its twenty outputs receives no record |
| BarcodePreprocessing.OpenBothOthers | TrAELseq_preprocessing_UMIplusBarcode.py:53-54 | opening the twenty sinks of an input leaves every other file as it was |
| BarcodePreprocessing.FileRun | TrAELseq_preprocessing_UMIplusBarcode.py:45-133 | `main` on one file: twenty sinks opened, then the loop; characterized by `FileRunTallies` and `FileRunFiles` |
| BarcodePreprocessing.ReportOf | TrAELseq_preprocessing_UMIplusBarcode.py:138-151 | the printed report; characterized by `ReportFaithless` and `ReportPolyT` |
| BarcodePreprocessing.ReportIgnoresFiles | TrAELseq_preprocessing_UMIplusBarcode.py:41-43 | with the globals cleared, a file's report depends on its own records only, not on the sinks or earlier files |
| BarcodePreprocessing.FileRunTallies | TrAELseq_preprocessing_UMIplusBarcode.py:45-133 | `main` on one file: count = number of records; `polyT` sum grows by the T records; `faithless_barcodes` counts the rejected barcodes per barcode; `polyT` ends with the keys it had plus the run and bucket of every T record, and `faithless_barcodes` with exactly the barcodes rejected at least once |
| BarcodePreprocessing.FileRunFiles | TrAELseq_preprocessing_UMIplusBarcode.py:53-129 | each of the twenty files ends holding exactly the records of its label and side, in order |
| BarcodePreprocessing.FileRunOthers | TrAELseq_preprocessing_UMIplusBarcode.py:45-133 | `main` on one file leaves every file other than its twenty outputs as it was |
| BarcodePreprocessing.WriteAllKeeps | TrAELseq_preprocessing_UMIplusBarcode.py:38-40 | after the `submain` loop, a file written for input `j` holds what it held after input `j` when no later input has it among its outputs |
| BarcodePreprocessing.ReportFaithless | TrAELseq_preprocessing_UMIplusBarcode.py:138-145 | at most 50 rejected barcodes, by non-increasing count, each with its count; none left out outnumbers one listed; barcodes of equal count appear in the order they were first rejected, and those cut off by the limit are the later ones; then the read count |
| BarcodePreprocessing.ReportPolyT | TrAELseq_preprocessing_UMIplusBarcode.py:146-151 | at most 10 `polyT` keys, in increasing order, each with its count; every key left out is larger than every key listed |
| BarcodePreprocessing.Preprocessor.constructor | TrAELseq_preprocessing_UMIplusBarcode.py:26-28 | `polyT`, `fhs` and `fhs_noT` start empty, and so do the output files |
| BarcodePreprocessing.Preprocessor.OpenFilehandles | TrAELseq_preprocessing_UMIplusBarcode.py:214-219 | `open_filehandles` truncates the file and registers it under the key on its side |
| BarcodePreprocessing.Preprocessor.MakeOutFilehandle | TrAELseq_preprocessing_UMIplusBarcode.py:153-212 | the loop opens the ten sinks of the side in order, as `OpenAll` over `Pool` |
| BarcodePreprocessing.Preprocessor.Tally | TrAELseq_preprocessing_UMIplusBarcode.py:97-110 | the in-place `polyT` update equals `CountRun` and touches nothing else |
| BarcodePreprocessing.Preprocessor.Handle | TrAELseq_preprocessing_UMIplusBarcode.py:77-133 | one loop body updates `polyT`, `faithless_barcodes` and the files exactly as one `Step` of the processed record |
| BarcodePreprocessing.Preprocessor.Route | TrAELseq_preprocessing_UMIplusBarcode.py:120-133 | the record is appended to its label's sink on its side, and a barcode outside the nine is counted once |
| BarcodePreprocessing.Preprocessor.ReadLoop | TrAELseq_preprocessing_UMIplusBarcode.py:58-133 | the `while True` loop leaves count, `polyT`, `faithless_barcodes` and files equal to `RunAll` over the file's records |
| BarcodePreprocessing.Preprocessor.ProcessFile | TrAELseq_preprocessing_UMIplusBarcode.py:45-151 | `main`: with no name match, fails and changes nothing; otherwise opens the twenty sinks, runs the loop and returns the report of the result |
| BarcodePreprocessing.Preprocessor.ResetGlobals | TrAELseq_preprocessing_UMIplusBarcode.py:41-43 | the three `clear()` calls empty `polyT`, `fhs` and `fhs_noT` and keep the files |
| BarcodePreprocessing.Preprocessor.ProcessInput | TrAELseq_preprocessing_UMIplusBarcode.py:38-40 | `main` on cleared globals succeeds exactly for a matched name, and its report and written files depend on that input alone |
| BarcodePreprocessing.Preprocessor.ProcessFiles | TrAELseq_preprocessing_UMIplusBarcode.py:30-43 | `submain`: in sorted order, report `i` is the report of input `i` alone, the files are those of the processed inputs in turn, and the run stops exactly at the first unmatched name |
| RenameSamples.DisallowedRun | rename_trael_samples.py:71 | the `[^a-zA-Z0-9.\-_]+` match at the start is no longer than the name |
| RenameSamples.DisallowedRunMaximal | rename_trael_samples.py:71 | the match holds disallowed characters only and stops at the end or at an allowed character |
| RenameSamples.MatchLength | rename_trael_samples.py:71 | the whole match, run plus optional `_`, fits in the name and is not empty when the name starts with a disallowed character |
| RenameSamples.CleanSampleName | rename_trael_samples.py:70-71 | a cleaned name is never longer than the name |
| RenameSamples.UnderscoreAllowed | rename_trael_samples.py:71 | the replacement `_` is itself in the allowed class |
| RenameSamples.CleanAllowed | rename_trael_samples.py:70-71 | every character of a cleaned name is in `[a-zA-Z0-9._-]` |
| RenameSamples.CleanRun | rename_trael_samples.py:71 | a maximal disallowed run, with one `_` right after it if present, becomes a single `_` |
| RenameSamples.CleanKeepsAllowed | rename_trael_samples.py:71 | a name of allowed characters only is returned unchanged |
| RenameSamples.CleanUnchanged | rename_trael_samples.py:71 | a name is returned unchanged exactly when all its characters are allowed |
| RenameSamples.CleanIdempotent | rename_trael_samples.py:70-71 | cleaning a cleaned name changes nothing |
| RenameSamples.CleanConcat | rename_trael_samples.py:71 | cleaning a name cut right after an allowed character is cleaning the two parts separately |
| RenameSamples.IndexDictKeys | rename_trael_samples.py:15-25 | the keys of `index_dict` are exactly the digits 1 to 9 |
| RenameSamples.IndexDictEntries123 | rename_trael_samples.py:16-18 | indexes 1 to 3 map to `_AGTC_index1_`, `_GACT_index2_`, `_CTTG_index3_` |
| RenameSamples.IndexDictEntries456 | rename_trael_samples.py:19-21 | indexes 4 to 6 map to `_TCGA_index4_`, `_AAGG_index5_`, `_TTCC_index6_` |
| RenameSamples.IndexDictEntries789 | rename_trael_samples.py:22-24 | indexes 7 to 9 map to `_GTGC_index7_`, `_GCCA_index8_`, `_GATG_index9_` |
| RenameSamples.IndexDictTags | rename_trael_samples.py:15-25 | the tag of index `i` is the barcode file tag of the preprocessing script between underscores |
| RenameSamples.TagInFileName | rename_trael_samples.py:47-49 | the old name of the command for index `i` occurs, right after `{lane}_UMIed`, in both output file names of that barcode, so `*{old_name}*` matches them |
| RenameSamples.Indexes | rename_trael_samples.py:32 | the indexes are no more than the argument's characters, and neither the first nor the last is whitespace |
| RenameSamples.Names | rename_trael_samples.py:34 | the name list is never empty, even for an empty argument |
| RenameSamples.Cleaned | rename_trael_samples.py:43 | `clean_sample_name(sample_names[count].strip())`; its characters are all allowed by `CleanAllowed` |
| RenameSamples.NewName | rename_trael_samples.py:48 | the new name starts with the old name, ends in `_`, and is one character longer than old name and cleaned name together |
| RenameSamples.NewNameShape | rename_trael_samples.py:43-48 | the new name starts with the old tag, continues with allowed characters only and ends in `_` |
| RenameSamples.Command | rename_trael_samples.py:49 | `f"rename {old_name} {new_name} *{old_name}*"` |
| RenameSamples.CommandFor | rename_trael_samples.py:47-49 | the command for one index and name; its new name's shape is `NewNameShape`, and the old name occurs in the output files by `TagInFileName` |
| RenameSamples.KnownPrefix | rename_trael_samples.py:40-47 | the indexes before the first unknown one are all keys of `index_dict` |
| RenameSamples.Commands | rename_trael_samples.py:40-59 | one command per known index |
| RenameSamples.CommandsAt | rename_trael_samples.py:40-59 | command `i` is the one for index `i` and name `i`, paired by position |
| RenameSamples.Fill | rename_trael_samples.py:44 | `sample_dict[index] = cleaned_name` over the indexes in order; characterized by `FillKeys`, `FillLast` and `FillOthers` |
| RenameSamples.FillKeys | rename_trael_samples.py:44 | `sample_dict` afterwards has the old keys and the given indexes |
| RenameSamples.FillLast | rename_trael_samples.py:44 | an index given twice keeps the cleaned name of its last occurrence |
| RenameSamples.FillOthers | rename_trael_samples.py:44 | an index not given keeps its old entry |
| RenameSamples.Renamer.constructor | rename_trael_samples.py:28 | `sample_dict` starts empty and no command has been issued |
| RenameSamples.Renamer.RenameOne | rename_trael_samples.py:43-59 | records the cleaned name first, then issues the command exactly when the index is a key; an unknown index (KeyError) issues nothing |
| RenameSamples.Renamer.RenameAll | rename_trael_samples.py:38-59 | issues the commands of the known prefix in order, fails with the first unknown index (whose name is already recorded), and fills `sample_dict` up to it |
| RenameSamples.Renamer.RenameFromArgs | rename_trael_samples.py:30-64 | with different counts, reports both and changes nothing; otherwise behaves as `RenameAll` |

## Left out

- gzip decompression and compression, `readline().decode()`, the compression level and closing handles (`close_filehandles`, `.close()`) are I/O. An input file is its sequence of decompressed lines, and an output file is the sequence of records written to it.
- All console output is left out: progress prints every 500000 reads, "m is none", `eprint`, the version banner, and the printed rename commands. The report lines are returned as values instead.
- `sys.argv`, `argparse` and the module-level `args` are command-line plumbing. The inputs and the two rename arguments are parameters.
- The file-name regex `(lane.*_L00\d)_(R\d.fastq.gz)` is not evaluated. Each input carries the two groups `findall` yields, or None for no match; None stands for the IndexError of `m[0][0]`.
- `^T+` is modelled as a scan of leading T bases, and the `re.sub` of `clean_sample_name` as a left-to-right rewrite. No regex engine is modelled.
- `subprocess.run` of each `rename` command is a foreign shell call. The model records the command; renaming files on disk and the `except` branch for a failing command are not modelled.
- `exit()` after a count mismatch, and the uncaught KeyError for an unknown index, become error results.
- In `TrAELseq_preprocessing.py`, the globals `fhs` and `fhs_noT` are never filled, so clearing them changes nothing; the model has no such fields. `expected_count` and `unexpected_count` are unused and are left out too.
- BarcodePreprocessing.Preprocessor.MakeOutFilehandle opens the intended sinks (`Pool`: each file under its own label), not the script's join on `:` and split again. The two are equal when neither the lane part nor the read part of the file name holds a `:` (`PoolAsWrittenAgrees`). For a name that holds one, the class does not do what the script does. The script's behaviour is stated separately, for one `:` in the lane part, by `PoolAsWrittenColon` (listed under Findings).
- BarcodePreprocessing.Preprocessor.ProcessFile: for a file name whose lane or read part holds a `:`, the model returns Success with the twenty intended files, which the script does not do. With one `:` in the lane part (`PoolAsWrittenColon`) the script raises KeyError at the first record written, and an input with no records raises nothing. Other placements of `:` can send some records to a wrong file and fail later, or not at all. The model captures none of this; it follows from the corrected sinks above.
- BarcodePreprocessing.Preprocessor.ProcessInput and BarcodePreprocessing.Preprocessor.ProcessFiles inherit the same gap for such names: whatever the script does for that file (a KeyError that ends the run, records in a wrong file, or nothing at all), the model writes the intended files and goes on.
- BarcodePreprocessing.OpenBothRoutes states the routing of the intended sinks; for a name holding a `:` the script's sinks do not route the labels to their own files (shown for one `:` in the lane part by `PoolAsWrittenColon`).
- BarcodePreprocessing.Dest: writing under a label with no open sink raises KeyError in the script. The model sends such a record to the file "" instead. `ReadLoop` requires every label to be opened, which `ProcessFile` establishes with the intended sinks, so the case does not arise in the model. In the script it does arise, for a name holding a `:`.
- UmiPreprocessing.Preprocessor.ProcessFiles and BarcodePreprocessing.Preprocessor.ProcessFiles: an unmatched name ends the Python program with a traceback. The model returns `failed` and the reports so far, and leaves the later inputs unprocessed.
- Lines are Python `str` values after `decode()`; invalid UTF-8, which would raise, is not modelled.

## Findings

| source | as written | input that shows it | evidently intended | confidence | as-written member | corrected member |
|---|---|---|---|---|---|---|
| TrAELseq_preprocessing_UMIplusBarcode.py:211-212 | each sink is passed as `f"{name}:{key}"` and recovered with `split(":")[1]` and `split(":")[0]`, so a `:` anywhere in the file name shifts the fields | an input `lane1:x_L001_R1.fastq.gz` (the `lane.*` group admits the `:`): all ten sinks of a side open the file `lane1` under keys such as `x_L001_UMIed_AGTC_index1_noT_R1.fastq.gz`, so the first write (to `fhs_noT` or `fhs`) raises KeyError | open file `name` under key `key`, as when the name has no `:` | not executed | BarcodePreprocessing.PoolAsWrittenColon | BarcodePreprocessing.Pool |
