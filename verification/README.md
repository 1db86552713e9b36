# PCD-E57 batch converter — a Dafny model

The converter reads one or more E57 laser-scan files and writes every scan it finds
as a point-cloud file. Its entry point:

1. classifies the command-line arguments into three switches (`-ascii`, `-ptx`,
   `-defnames`) and a list of input paths;
2. stops with exit code -1 when no input path is given;
3. for every input file, asks the E57 reader for scan 0, 1, 2, … while the scan
   index is below a counter. The counter starts at 1 and each reader call writes
   the file's scan count into it;
4. names each scan's output file, either `Scan-<file>-<scan>` or the name the reader
   reports, with the extension `.ptx` or `.pcd`;
5. hands the scan to exactly one writer: the PTX writer, the ASCII PCD writer or
   the binary PCD writer.

A reader failure ends the run at once with exit code -1.

The model has four modules, one per part of the entry point:

- `Args` (args.dfy) covers argument classification. `Classify` is the reference
  definition, and `ParseArgs` is the argument loop, proved equal to it.
- `Dispatch` (dispatch.dfy) covers output naming and writer choice. It includes
  decimal printing of the indices and its read-back.
- `Driver` (driver.dfy) covers the nested scan loop.
  - The E57 reader is a function from (path, scan index) to (status, scan name,
    cloud, scan count).
  - Each reader call and each writer call is recorded in a trace.
  - `ScanLoop`, `FilesFrom` and `RunSpec` define the traces and the exit code.
  - `ConvertFile` (the inner loop) and `Run` (the entry point) are methods proved
    equal to them.
  - Lemmas state what the traces look like for every reader.
- `Ptx` (ptx.dfy) covers the line layout the PTX writer prints. Numbers are an
  abstract type `N`. A decoder reads a layout back, and the two are proved inverse
  in both directions.

The inner loop re-reads the counter after every reader call, not only after the call
for scan 0, so a count that changes between calls changes the bound.
`Driver.CountOverwrittenEachCall` shows this on a concrete reader.

## Model

| member | source | states |
|---|---|---|
| Args.NonFlags | main.cpp:77-81 | Definition: the arguments that are not switches, in their original order. Its properties are stated by `NonFlagsAppend`, `NonFlagsMembers` and `NonFlagsOfPaths`. |
| Args.Classify | main.cpp:62-82 | Definition: a switch is on iff it occurs among the arguments, and the input list is `NonFlags` of them. `ParseArgs` is proved equal to it. |
| Args.ParseArgs | main.cpp:58-82 | The argument loop yields exactly `Classify` of argv without argv[0]: each switch is on iff it occurs, and the input paths are the non-switch arguments in order. |
| Args.Arguments | main.cpp:62-64 | The arguments are argv[1..]: one fewer than argv, and argument k is argv[k+1]. |
| Args.NonFlagsAppend | main.cpp:77-81 | Collecting input paths distributes over concatenation, so their relative order is kept. |
| Args.NonFlagsMembers | main.cpp:65-81 | A string is an input path iff it is an argument and not one of the three switches. |
| Args.NonFlagsOfPaths | main.cpp:77-81 | An argument list without switches becomes the input list verbatim. |
| Args.NoInputFiles | main.cpp:83-89 | The input list is empty iff every argument is a switch. |
| Args.NonFlagsDropFlag | main.cpp:65-76 | Removing one switch from anywhere leaves the input list unchanged. |
| Args.FlagAnywhere | main.cpp:62-82 | A switch has the same effect at the front, in the middle or at the back of the arguments. |
| Args.FlagRepeated | main.cpp:65-76 | Giving a switch twice is the same as giving it once. |
| Dispatch.DigitChar | main.cpp:110 | The digit character for d < 10 is a digit whose value is d. |
| Dispatch.DigitValue | main.cpp:110 | Reading a digit character gives a value below 10 that prints back as the same character. |
| Dispatch.DecimalDigits | main.cpp:110 | A printed index is a non-empty digit string with no leading zero ("0" for 0). |
| Dispatch.DecimalRoundTrip | main.cpp:110 | Reading a printed index back gives the index. |
| Dispatch.DecimalInjective | main.cpp:110 | Different indices print differently. |
| Dispatch.SynthesizedNameInjective | main.cpp:108-111 | `Scan-i-j` determines both i and j. |
| Dispatch.OutputPathParts | main.cpp:107-115 | The output path is the base name followed by `.ptx` under `-ptx` and `.pcd` otherwise, whatever `-ascii` says. |
| Dispatch.OutputPathsDistinct | main.cpp:107-115 | With `-defnames`, two paths are equal iff their (file, scan) pairs are equal. Without it, scans reporting the same name share a path. |
| Dispatch.Decimal | main.cpp:110 | Definition: how the stream prints a non-negative index. Its properties are stated by `DecimalDigits` and `DecimalRoundTrip`. |
| Dispatch.SynthesizedName | main.cpp:108-111 | Definition: `"Scan-" + i + "-" + j` with both indices printed in decimal. Its injectivity is `SynthesizedNameInjective`. |
| Dispatch.BaseName | main.cpp:107-114 | Definition: the synthesized name under `-defnames`, else the scan name the reader reported, verbatim. |
| Dispatch.Extension | main.cpp:115 | Definition: `.ptx` under `-ptx`, `.pcd` otherwise. |
| Dispatch.OutputPath | main.cpp:107-115 | Definition: base name followed by the extension. `OutputPathParts` states how it splits back into these two parts. |
| Dispatch.SelectWriter | main.cpp:119-130 | Exactly one writer is chosen: the PTX writer iff the extension is `.ptx`, the ASCII writer iff the extension is `.pcd` and `-ascii` is on, the binary writer iff the extension is `.pcd` and `-ascii` is off. |
| Dispatch.WriterMatchesPath | main.cpp:115-130 | The PTX writer runs iff the path ends in `.ptx`. Otherwise the ASCII writer runs iff `-ascii` is on, and the binary writer iff it is off, both on a `.pcd` path. |
| Dispatch.FirstDash | main.cpp:110 | In `digits-rest`, the first dash is the one right after the digits. |
| Dispatch.SplitAtDash | main.cpp:110 | Two digit strings joined to a rest by a dash split back uniquely. |
| Driver.WriteFor | main.cpp:107-130 | Definition: the writer call made for a successful read, with the writer `SelectWriter` picks and the path `OutputPath` builds from the file index, the scan index and the reported scan name. |
| Driver.ScanLoop | main.cpp:98-105 | Definition of the inner loop from a scan index and a counter value: no call at the bound; otherwise one call, then stop on status -1, or write and continue with the reported count as the new bound. Its properties are stated by `ScanLoopCalls`, `ScanLoopBound`, `ScanLoopAligned` and `ScanLoopChain`. |
| Driver.FilesFrom | main.cpp:95-105 | Definition of the outer loop from file position i: each file's inner loop starts with the counter at 1, and the next file follows only if that loop got through. Its properties are stated by the `FilesFrom…` lemmas. |
| Driver.RunSpec | main.cpp:58-148 | Definition of the whole run: -1 with no calls when no input path is given; otherwise the outer loop from file 0, with exit 0 iff no read failed. Its properties are stated by `RunTrace`. |
| Driver.ConvertFile | main.cpp:98-144 | The inner loop for one file yields the outcome and traces of `ScanLoop` from scan 0 with the counter at 1. |
| Driver.Run | main.cpp:58-148 | The entry point yields `RunSpec`: its exit code is 0 or -1, and with no input path it is -1 with no reader call and no write. |
| Driver.AlignedPrepend | main.cpp:100-130 | A successful stretch followed by another keeps every write matched to its read. |
| Driver.ChainAppend | main.cpp:95-100 | Two call chains joined at a valid step form one chain. |
| Driver.FilesOfAppend | main.cpp:95-102 | Calls to file i onward, followed by calls to file i+1 onward, are calls to file i onward. |
| Driver.ScanLoopCalls | main.cpp:98-102 | The inner loop calls the reader iff the index is below the counter, at consecutive scan indices of one file. |
| Driver.ScanLoopAligned | main.cpp:100-130 | Each write belongs to the read at its position, which did not fail, with the configured writer and path. A failing loop ends with the failing call and writes nothing for it. |
| Driver.ScanLoopBound | main.cpp:98-102 | The loop goes on after a call iff the count that call reported is above the next index. |
| Driver.ScanLoopChain | main.cpp:100 | Within a file, each call is followed by the next scan index. |
| Driver.ConstantCountScans | main.cpp:98-102 | A reader that never fails and always reports N ≥ 1 is called exactly N times, at indices 0..N-1, and each scan is written once. |
| Driver.ConstantCountFrom | main.cpp:100-102 | Once the counter holds a constant count n, the loop reads scans scan..n-1 in order, without failure, and writes each of them. |
| Driver.CountOverwrittenEachCall | main.cpp:98-102 | A count of 3 at scan 0 followed by a count of 1 at scan 1 stops the loop after two calls. |
| Driver.FilesFromCalls | main.cpp:95-102 | The outer loop calls the reader iff a file is left. Its first call is scan 0 of that file, and every call uses an input path from that file on. |
| Driver.FilesFromChain | main.cpp:95-102 | Each call is followed by the next scan of the same file while the count allows, else by scan 0 of the next file. |
| Driver.FilesFromAligned | main.cpp:95-130 | Across files, each write matches the successful read at its position. |
| Driver.FilesFromEnd | main.cpp:95-105 | A run that got through ends with the last file, whose loop ran out. |
| Driver.RunTrace | main.cpp:83-148 | See the note after the table. |
| Driver.FailureStopsRun | main.cpp:95-105 | A run that read something and exits with -1 ended on a failed read. No call went to a file after the one that failed. |
| Driver.FilesNonDecreasing | main.cpp:95 | Along the call trace, file positions never decrease, so no earlier file is read again. |
| Driver.LobbyScenario | main.cpp:95-148 | One file with one scan named "Lobby" and no switches gives exactly one binary write to `Lobby.pcd` and exit 0. |
| Driver.FailOnSecondOfThree | main.cpp:95-105 | A failure on the second of three files gives exit -1 right after that call. The third file is never read, and all writes of the first file remain. |
| Driver.ScanStepOk | main.cpp:100-130 | One successful read moves its call and its write into the traces and sets the counter to the reported count. |
| Driver.ScanStepFail | main.cpp:102-105 | A failed read ends the loop with the failing call last. |
| Driver.ScanStepDone | main.cpp:100 | At the counter, the inner loop makes no call. |
| Driver.FileStep | main.cpp:95-105 | A file's loop that got through is followed by the next file. One that failed ends the run. |
| Ptx.PointLine | main.cpp:51 | Definition: `x y z 1 r g b`, with the colour channels printed as integers. |
| Ptx.Header | main.cpp:40-47 | Definition of the eight header lines: width, height, position, the matrix print, the three rotation rows padded with 0, and the position padded with 1. |
| Ptx.Layout | main.cpp:40-52 | Definition: the header followed by one point line per point. `DecodeLayout` and `DecodeCanonical` prove the decoder its inverse. |
| Ptx.Contents | main.cpp:37-38 | Definition: the file the writer prints for a cloud. Its position is the first three coordinates of the sensor origin, and its rotation is the given inverse rotation of the orientation. |
| Ptx.DecodePointsInverse | main.cpp:49-52 | Reading the point lines back gives the points in iteration order. |
| Ptx.PointLinesIndex | main.cpp:49-52 | There is one line per point, and line j is the line of point j. |
| Ptx.DecodePointLine | main.cpp:51 | A point line reads back as its point. |
| Ptx.DecodeRowLine | main.cpp:44-47 | A padded row reads back as its three numbers. |
| Ptx.DecodePointsCanonical | main.cpp:49-52 | Point lines that read back are exactly the lines of those points. |
| Ptx.DecodePointCanonical | main.cpp:51 | A line that reads as a point is `x y z 1 r g b` for that point. |
| Ptx.DecodeRowCanonical | main.cpp:44-47 | A line that reads as a padded row is the three numbers followed by that literal. |
| Ptx.DecodeTripleCanonical | main.cpp:42 | A line that reads as a position is its three numbers. |
| Ptx.DecodeLayout | main.cpp:40-52 | Reading back the layout of a file gives the same width, height, position, rotation and points. |
| Ptx.DecodeCanonical | main.cpp:40-52 | Every text that reads as a PTX file is the layout of that file. |
| Ptx.SavePtx | main.cpp:28-53 | See the note after the table. |

`Driver.RunTrace` states, for every reader:
- The exit code is 0 or -1.
- With no input path the result is (-1, no calls, no writes).
- Otherwise:
  - the first call is scan 0 of the first path;
  - every call is to an input path;
  - calls follow the chain;
  - the writes match the successful reads;
  - -1 means the last call failed;
  - 0 means the last file's loop ran out.

`Ptx.SavePtx` states:
- A stream that did not open receives nothing.
- Otherwise it receives:
  - the width;
  - the height;
  - the position;
  - the matrix print;
  - three rotation rows padded with 0;
  - the position padded with 1;
  - one `x y z 1 r g b` line per point.
- That text reads back as the cloud's file.

## Left out

- The E57 reader `openE57` (main.cpp:102) is not part of this model. It is a
  function from (path, scan index) to its answer, and its scan-name and counter
  out-parameters are fields of that answer.
- The PCL writers `savePCDFileASCII` and `savePCDFileBinary` (main.cpp:125, 129) are
  not part of this model. Each writer call is a trace event (writer, path, cloud).
  The writers' return values are ignored by the code, and by the model too.
- The PTX writer's output is modelled in `Ptx.SavePtx`. In the driver trace its call
  is the event `PtxWriter`, as for the other two writers.
- The rotation `sensor_orientation_.toRotationMatrix().inverse()` (main.cpp:38) is
  floating-point numerics. It is a function parameter of `Ptx.SavePtx`.
- Float and integer printing in the PTX text is left out. Fields are tokens over an
  abstract number type.
- The matrix print `ofs << R` (main.cpp:43) prints three text rows. It is one
  `MatrixPrint` unit in the model.
- Ptx.SavePtx: `isOpen` stands for the stream having opened.
  - The code's guard `ofs.bad()` (main.cpp:31) does not see a failed open, which
    sets the fail bit. The error message is therefore not printed in that case.
  - A failed stream takes no output either way, so the model emits no lines when
    `isOpen` is false.
  - The message itself is not modelled.
- All console output (main.cpp:85-87, 103, 116, 139-143, 147) is left out.
- `loadData` (main.cpp:14-26) is never called from the entry point, so it is left
  out.
- The commented-out E57 export (main.cpp:132-138) is left out.
- `scale_factor` (main.cpp:94) is passed to the reader and never used.
- The same `cloud` object is passed to every reader call (main.cpp:91, 102). The
  model assumes that each successful read hands over the complete cloud of that
  scan, and the write that follows receives exactly that cloud. Anything the reader
  might leave behind from an earlier scan is not modelled.
- Driver.ConvertFile: the inner loop is a method of its own. It returns `ok = false`
  where the code returns -1 from `main` directly. `Driver.Run` then returns -1 with
  the traces so far.
- Driver.Run: file and scan indices are unbounded naturals, and the counter is a
  64-bit signed integer.
  - A negative or zero count ends the loop, as in the code.
  - `size_t` overflow of the file index is not modelled.
