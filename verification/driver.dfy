/** The converter's entry point: classify the arguments, then for every input file
    open scan 0, 1, 2, ... through the E57 reader, name each scan's output file and
    hand the scan to exactly one writer. The reader and the writers are collaborators
    whose code is not part of this model: the reader is an oracle from (path, scan
    index) to its answer, and each writer call is an event appended to a trace. */
module Driver {
  import opened Args
  import opened Dispatch

  const Int64Max: int := 0x7fff_ffff_ffff_ffff

  /** The scan counter is a signed 64-bit integer. */
  type Int64 = x: int | -0x8000_0000_0000_0000 <= x <= 0x7fff_ffff_ffff_ffff

  /** What the reader hands back when asked for one scan of one file: its status
      (-1 means failure), the scan's name, the point cloud it loaded, and the scan
      count it writes back into the caller's counter. */
  datatype ReadResult<C> = ReadResult(status: int, name: string, cloud: C, count: Int64)

  /** The reader, as a function of the path and the scan index it is asked for. */
  type Reader<C> = (string, nat) -> ReadResult<C>

  /** One reader call: position of the file in the input list, its path, the scan index. */
  datatype Call = Call(file: nat, path: string, scan: nat)

  /** One writer call: which writer, the output path, the cloud handed to it. */
  datatype Write<C> = Write(writer: Writer, path: string, cloud: C)

  /** What a stretch of the run did: whether it got through without a read failure,
      the reader calls it made, the writer calls it made. */
  datatype Outcome<C> = Outcome(ok: bool, calls: seq<Call>, writes: seq<Write<C>>)

  /** What the whole run does: its exit code and its two traces. */
  datatype RunResult<C> = RunResult(exitCode: int, calls: seq<Call>, writes: seq<Write<C>>)

  function Last<T>(s: seq<T>): T
    requires |s| > 0
  {
    s[|s| - 1]
  }

  /** The reader's answer to a recorded call. */
  function Answer<C>(reader: Reader<C>, c: Call): ReadResult<C> {
    reader(c.path, c.scan)
  }

  /** The writer call made for a successfully read scan. */
  function WriteFor<C>(cfg: Config, c: Call, r: ReadResult<C>): Write<C> {
    Write(SelectWriter(cfg.writePtx, cfg.writeAscii),
          OutputPath(cfg.defaultNames, cfg.writePtx, c.file, c.scan, r.name),
          r.cloud)
  }

  function Prepend<C>(calls: seq<Call>, writes: seq<Write<C>>, o: Outcome<C>): Outcome<C> {
    Outcome(o.ok, calls + o.calls, writes + o.writes)
  }

  /** Run `a`, then `b` only if `a` did not fail. */
  function Then<C>(a: Outcome<C>, b: Outcome<C>): Outcome<C> {
    if a.ok then Prepend(a.calls, a.writes, b) else a
  }

  /** The inner loop from scan index `scan` on, with `bound` the counter's current
      value: each call to the reader overwrites the counter with the count it reports. */
  function ScanLoop<C>(reader: Reader<C>, cfg: Config, file: nat, path: string, scan: nat, bound: Int64): Outcome<C>
    decreases Int64Max - scan
  {
    if scan >= bound then Outcome(true, [], [])
    else
      var c := Call(file, path, scan);
      var r := reader(path, scan);
      if r.status == -1 then Outcome(false, [c], [])
      else Prepend([c], [WriteFor(cfg, c, r)], ScanLoop(reader, cfg, file, path, scan + 1, r.count))
  }

  /** The outer loop from file position `i` on; every file starts with the counter at 1. */
  function FilesFrom<C>(reader: Reader<C>, cfg: Config, i: nat): Outcome<C>
    decreases |cfg.filenames| - i
  {
    if i >= |cfg.filenames| then Outcome(true, [], [])
    else Then(ScanLoop(reader, cfg, i, cfg.filenames[i], 0, 1), FilesFrom(reader, cfg, i + 1))
  }

  /** The whole run: -1 without reading anything when no input file is named, -1 at
      the first read failure, 0 otherwise. */
  function RunSpec<C>(argv: seq<string>, reader: Reader<C>): RunResult<C> {
    var cfg := Classify(Arguments(argv));
    if cfg.filenames == [] then RunResult(-1, [], [])
    else
      var o := FilesFrom(reader, cfg, 0);
      RunResult(if o.ok then 0 else -1, o.calls, o.writes)
  }

  /** Every write belongs to the reader call at the same position, whose answer was not
      a failure, and goes to the path and writer the configuration selects; a stretch
      that failed ends with the failing call, which has no write. */
  ghost predicate Aligned<C>(reader: Reader<C>, cfg: Config, o: Outcome<C>) {
    && (!o.ok ==> |o.calls| >= 1 && Answer(reader, Last(o.calls)).status == -1)
    && |o.writes| == (if o.ok then |o.calls| else |o.calls| - 1)
    && forall k :: 0 <= k < |o.writes| ==>
         Answer(reader, o.calls[k]).status != -1 && o.writes[k] == WriteFor(cfg, o.calls[k], Answer(reader, o.calls[k]))
  }

  /** The call that follows `c`: the next scan of the same file while the count the
      reader reported for `c` is above the next index, else scan 0 of the next file. */
  ghost predicate NextCall<C>(reader: Reader<C>, c: Call, d: Call) {
    if c.scan + 1 < Answer(reader, c).count then d == Call(c.file, c.path, c.scan + 1)
    else d.file == c.file + 1 && d.scan == 0
  }

  /** Every call of the trace is followed by the one NextCall describes. */
  ghost predicate Chain<C>(reader: Reader<C>, calls: seq<Call>) {
    forall k :: 0 <= k < |calls| - 1 ==> NextCall(reader, calls[k], calls[k + 1])
  }

  /** Every call is to an input file at position `i` or later, under that file's path. */
  ghost predicate FilesOf(cfg: Config, calls: seq<Call>, i: nat) {
    forall k :: 0 <= k < |calls| ==>
      i <= calls[k].file < |cfg.filenames| && calls[k].path == cfg.filenames[calls[k].file]
  }

  lemma AlignedPrepend<C>(reader: Reader<C>, cfg: Config, a: Outcome<C>, b: Outcome<C>)
    requires a.ok && Aligned(reader, cfg, a) && Aligned(reader, cfg, b)
    ensures Aligned(reader, cfg, Prepend(a.calls, a.writes, b))
  {
    var o := Prepend(a.calls, a.writes, b);
    forall k | 0 <= k < |o.writes|
      ensures Answer(reader, o.calls[k]).status != -1 && o.writes[k] == WriteFor(cfg, o.calls[k], Answer(reader, o.calls[k]))
    {
      if k >= |a.writes| {
        assert o.calls[k] == b.calls[k - |a.calls|];
        assert o.writes[k] == b.writes[k - |a.writes|];
      }
    }
    if !o.ok {
      assert Last(o.calls) == Last(b.calls);
    }
  }

  lemma ChainAppend<C>(reader: Reader<C>, a: seq<Call>, b: seq<Call>)
    requires Chain(reader, a) && Chain(reader, b)
    requires |a| > 0 && |b| > 0 ==> NextCall(reader, Last(a), b[0])
    ensures Chain(reader, a + b)
  {
    var s := a + b;
    forall k | 0 <= k < |s| - 1 ensures NextCall(reader, s[k], s[k + 1]) {
      if k + 1 < |a| {
        assert s[k] == a[k] && s[k + 1] == a[k + 1];
      } else if k + 1 == |a| {
        assert s[k] == Last(a) && s[k + 1] == b[0];
      } else {
        assert s[k] == b[k - |a|] && s[k + 1] == b[k - |a| + 1];
      }
    }
  }

  lemma FilesOfAppend(cfg: Config, a: seq<Call>, b: seq<Call>, i: nat)
    requires FilesOf(cfg, a, i) && FilesOf(cfg, b, i + 1)
    ensures FilesOf(cfg, a + b, i)
  {
    var s := a + b;
    forall k | |a| <= k < |s|
      ensures i <= s[k].file < |cfg.filenames| && s[k].path == cfg.filenames[s[k].file]
    {
      assert s[k] == b[k - |a|];
    }
  }

  /** The inner loop makes a call exactly when the starting index is below the
      counter, and its calls are to consecutive scan indices of one file. */
  lemma {:induction false} ScanLoopCalls<C>(reader: Reader<C>, cfg: Config, file: nat, path: string, scan: nat, bound: Int64)
    ensures var o := ScanLoop(reader, cfg, file, path, scan, bound);
      && (|o.calls| >= 1 <==> scan < bound)
      && forall k :: 0 <= k < |o.calls| ==> o.calls[k] == Call(file, path, scan + k)
    decreases Int64Max - scan
  {
    var o := ScanLoop(reader, cfg, file, path, scan, bound);
    if scan < bound && reader(path, scan).status != -1 {
      var rest := ScanLoop(reader, cfg, file, path, scan + 1, reader(path, scan).count);
      ScanLoopCalls(reader, cfg, file, path, scan + 1, reader(path, scan).count);
      assert o.calls == [Call(file, path, scan)] + rest.calls;
      forall k | 1 <= k < |o.calls| ensures o.calls[k] == Call(file, path, scan + k) {
        assert o.calls[k] == rest.calls[k - 1];
      }
    }
  }

  /** The inner loop's writes match its successful reads, and a failing loop ends with
      the failing call. */
  lemma {:induction false} ScanLoopAligned<C>(reader: Reader<C>, cfg: Config, file: nat, path: string, scan: nat, bound: Int64)
    ensures Aligned(reader, cfg, ScanLoop(reader, cfg, file, path, scan, bound))
    decreases Int64Max - scan
  {
    if scan < bound {
      var c := Call(file, path, scan);
      var r := reader(path, scan);
      if r.status != -1 {
        var rest := ScanLoop(reader, cfg, file, path, scan + 1, r.count);
        assert ScanLoop(reader, cfg, file, path, scan, bound) == Prepend([c], [WriteFor(cfg, c, r)], rest);
        ScanLoopAligned(reader, cfg, file, path, scan + 1, r.count);
        AlignedPrepend(reader, cfg, Outcome(true, [c], [WriteFor(cfg, c, r)]), rest);
      }
    }
  }

  /** The inner loop goes on after a call exactly when the count the reader reported
      for it is above the next index. */
  lemma {:induction false} ScanLoopBound<C>(reader: Reader<C>, cfg: Config, file: nat, path: string, scan: nat, bound: Int64)
    ensures var o := ScanLoop(reader, cfg, file, path, scan, bound);
      && (forall k :: 0 <= k < |o.calls| - 1 ==> o.calls[k].scan + 1 < Answer(reader, o.calls[k]).count)
      && (o.ok && |o.calls| >= 1 ==> Answer(reader, Last(o.calls)).count <= Last(o.calls).scan + 1)
    decreases Int64Max - scan
  {
    var o := ScanLoop(reader, cfg, file, path, scan, bound);
    if scan < bound && reader(path, scan).status != -1 {
      var r := reader(path, scan);
      var rest := ScanLoop(reader, cfg, file, path, scan + 1, r.count);
      ScanLoopBound(reader, cfg, file, path, scan + 1, r.count);
      ScanLoopCalls(reader, cfg, file, path, scan + 1, r.count);
      assert o.calls == [Call(file, path, scan)] + rest.calls;
      forall k | 0 <= k < |o.calls| - 1 ensures o.calls[k].scan + 1 < Answer(reader, o.calls[k]).count {
        if k > 0 {
          assert o.calls[k] == rest.calls[k - 1];
        }
      }
      if o.ok && |rest.calls| > 0 {
        assert Last(o.calls) == Last(rest.calls);
      }
    }
  }

  /** Within one file, every call is followed by the next scan index. */
  lemma ScanLoopChain<C>(reader: Reader<C>, cfg: Config, file: nat, path: string, scan: nat, bound: Int64)
    ensures Chain(reader, ScanLoop(reader, cfg, file, path, scan, bound).calls)
  {
    var o := ScanLoop(reader, cfg, file, path, scan, bound);
    ScanLoopCalls(reader, cfg, file, path, scan, bound);
    ScanLoopBound(reader, cfg, file, path, scan, bound);
    forall k | 0 <= k < |o.calls| - 1 ensures NextCall(reader, o.calls[k], o.calls[k + 1]) {
      assert o.calls[k] == Call(file, path, scan + k);
      assert o.calls[k + 1] == Call(file, path, scan + k + 1);
    }
  }

  /** A reader that reports the same count n >= 1 for every scan of a file and never
      fails is asked exactly n times for it, at scan indices 0 .. n-1 in order, and
      each of these scans is written once. */
  lemma ConstantCountScans<C>(reader: Reader<C>, cfg: Config, file: nat, path: string, n: Int64)
    requires n >= 1
    requires forall k: nat :: reader(path, k).status != -1 && reader(path, k).count == n
    ensures var o := ScanLoop(reader, cfg, file, path, 0, 1);
      && o.ok
      && |o.calls| == n && |o.writes| == n
      && forall k :: 0 <= k < n ==> o.calls[k] == Call(file, path, k)
  {
    var c := Call(file, path, 0);
    var rest := ScanLoop(reader, cfg, file, path, 1, n);
    assert ScanLoop(reader, cfg, file, path, 0, 1) == Prepend([c], [WriteFor(cfg, c, reader(path, 0))], rest);
    ConstantCountFrom(reader, cfg, file, path, n, 1);
  }

  /** From scan `scan` on, with the counter already at the constant count n, the
      inner loop reads scans scan .. n-1 and writes each of them. */
  lemma {:induction false} ConstantCountFrom<C>(reader: Reader<C>, cfg: Config, file: nat, path: string, n: Int64, scan: nat)
    requires scan <= n
    requires forall k: nat :: reader(path, k).status != -1 && reader(path, k).count == n
    ensures var o := ScanLoop(reader, cfg, file, path, scan, n);
      && o.ok
      && |o.calls| == n - scan && |o.writes| == n - scan
      && forall k :: 0 <= k < n - scan ==> o.calls[k] == Call(file, path, scan + k)
    decreases n - scan
  {
    if scan < n {
      var o := ScanLoop(reader, cfg, file, path, scan, n);
      var c := Call(file, path, scan);
      var rest := ScanLoop(reader, cfg, file, path, scan + 1, n);
      assert o == Prepend([c], [WriteFor(cfg, c, reader(path, scan))], rest);
      ConstantCountFrom(reader, cfg, file, path, n, scan + 1);
      forall k | 1 <= k < n - scan ensures o.calls[k] == Call(file, path, scan + k) {
        assert o.calls[k] == rest.calls[k - 1];
      }
    }
  }

  /** The counter is overwritten by every read, not only by the read of scan 0: a file
      that reports 3 scans at index 0 but 1 scan at index 1 is read twice, not three times. */
  lemma CountOverwrittenEachCall<C>(reader: Reader<C>, cfg: Config, file: nat, path: string)
    requires reader(path, 0).status != -1 && reader(path, 0).count == 3
    requires reader(path, 1).status != -1 && reader(path, 1).count == 1
    ensures var o := ScanLoop(reader, cfg, file, path, 0, 1);
      o.ok && o.calls == [Call(file, path, 0), Call(file, path, 1)]
  {
    assert ScanLoop(reader, cfg, file, path, 2, 1).calls == [];
    assert ScanLoop(reader, cfg, file, path, 1, 3).calls == [Call(file, path, 1)];
  }

  /** The outer loop asks for something exactly when a file is left, starts with
      scan 0 of file `i`, and only asks for files from `i` on under their own paths. */
  lemma {:induction false} FilesFromCalls<C>(reader: Reader<C>, cfg: Config, i: nat)
    requires i <= |cfg.filenames|
    ensures var o := FilesFrom(reader, cfg, i);
      && (|o.calls| >= 1 <==> i < |cfg.filenames|)
      && (|o.calls| >= 1 ==> o.calls[0] == Call(i, cfg.filenames[i], 0))
      && FilesOf(cfg, o.calls, i)
    decreases |cfg.filenames| - i
  {
    if i < |cfg.filenames| {
      var o := FilesFrom(reader, cfg, i);
      var s := ScanLoop(reader, cfg, i, cfg.filenames[i], 0, 1);
      var f := FilesFrom(reader, cfg, i + 1);
      assert o == Then(s, f);
      ScanLoopCalls(reader, cfg, i, cfg.filenames[i], 0, 1);
      assert FilesOf(cfg, s.calls, i) by {
        forall k | 0 <= k < |s.calls|
          ensures i <= s.calls[k].file < |cfg.filenames| && s.calls[k].path == cfg.filenames[s.calls[k].file]
        {
          assert s.calls[k] == Call(i, cfg.filenames[i], k);
        }
      }
      if s.ok {
        FilesFromCalls(reader, cfg, i + 1);
        FilesOfAppend(cfg, s.calls, f.calls, i);
        assert o.calls == s.calls + f.calls;
      } else {
        assert o == s;
      }
    }
  }

  /** In the outer loop every call is followed by the one NextCall describes. */
  lemma {:induction false} FilesFromChain<C>(reader: Reader<C>, cfg: Config, i: nat)
    requires i <= |cfg.filenames|
    ensures Chain(reader, FilesFrom(reader, cfg, i).calls)
    decreases |cfg.filenames| - i
  {
    if i < |cfg.filenames| {
      var path := cfg.filenames[i];
      var o := FilesFrom(reader, cfg, i);
      var s := ScanLoop(reader, cfg, i, path, 0, 1);
      var f := FilesFrom(reader, cfg, i + 1);
      assert o == Then(s, f);
      ScanLoopChain(reader, cfg, i, path, 0, 1);
      if s.ok {
        ScanLoopCalls(reader, cfg, i, path, 0, 1);
        ScanLoopBound(reader, cfg, i, path, 0, 1);
        FilesFromCalls(reader, cfg, i + 1);
        FilesFromChain(reader, cfg, i + 1);
        if |f.calls| > 0 {
          assert Last(s.calls).file == i;
          assert f.calls[0] == Call(i + 1, cfg.filenames[i + 1], 0);
          assert NextCall(reader, Last(s.calls), f.calls[0]);
        }
        ChainAppend(reader, s.calls, f.calls);
        assert o.calls == s.calls + f.calls;
      } else {
        assert o == s;
      }
    }
  }

  /** The outer loop's writes match its successful reads. */
  lemma {:induction false} FilesFromAligned<C>(reader: Reader<C>, cfg: Config, i: nat)
    ensures Aligned(reader, cfg, FilesFrom(reader, cfg, i))
    decreases |cfg.filenames| - i
  {
    if i < |cfg.filenames| {
      var s := ScanLoop(reader, cfg, i, cfg.filenames[i], 0, 1);
      var f := FilesFrom(reader, cfg, i + 1);
      assert FilesFrom(reader, cfg, i) == Then(s, f);
      ScanLoopAligned(reader, cfg, i, cfg.filenames[i], 0, 1);
      FilesFromAligned(reader, cfg, i + 1);
      if s.ok {
        AlignedPrepend(reader, cfg, s, f);
      }
    }
  }

  /** An outer loop that got through ends on the last file, whose scan loop ran out. */
  lemma {:induction false} FilesFromEnd<C>(reader: Reader<C>, cfg: Config, i: nat)
    requires i <= |cfg.filenames|
    ensures var o := FilesFrom(reader, cfg, i);
      o.ok && |o.calls| >= 1 ==>
        Last(o.calls).file == |cfg.filenames| - 1 && Answer(reader, Last(o.calls)).count <= Last(o.calls).scan + 1
    decreases |cfg.filenames| - i
  {
    if i < |cfg.filenames| {
      var o := FilesFrom(reader, cfg, i);
      var s := ScanLoop(reader, cfg, i, cfg.filenames[i], 0, 1);
      var f := FilesFrom(reader, cfg, i + 1);
      assert o == Then(s, f);
      if s.ok {
        ScanLoopCalls(reader, cfg, i, cfg.filenames[i], 0, 1);
        ScanLoopBound(reader, cfg, i, cfg.filenames[i], 0, 1);
        FilesFromCalls(reader, cfg, i + 1);
        FilesFromEnd(reader, cfg, i + 1);
        assert o.calls == s.calls + f.calls;
        if |f.calls| > 0 {
          assert Last(o.calls) == Last(f.calls);
        } else {
          assert Last(o.calls) == Last(s.calls) == s.calls[|s.calls| - 1];
        }
      }
    }
  }

  /** The run as a whole: no input file means exit -1 with nothing read or written;
      otherwise the reader is first asked for scan 0 of the first file, only input
      files are read, under their own paths, each call is followed by the one NextCall
      describes, every write belongs to the successful read at its position, exit -1
      means the last call failed (so no later scan or file was asked for), and exit 0
      means every call succeeded and the loop of the last file ran out. */
  lemma RunTrace<C>(argv: seq<string>, reader: Reader<C>)
    ensures var cfg := Classify(Arguments(argv));
      var res := RunSpec(argv, reader);
      && (res.exitCode == 0 || res.exitCode == -1)
      && (cfg.filenames == [] ==> res == RunResult(-1, [], []))
      && (cfg.filenames != [] ==>
            && |res.calls| >= 1
            && res.calls[0] == Call(0, cfg.filenames[0], 0)
            && FilesOf(cfg, res.calls, 0)
            && Chain(reader, res.calls)
            && Aligned(reader, cfg, Outcome(res.exitCode == 0, res.calls, res.writes))
            && (res.exitCode == 0 ==>
                  Last(res.calls).file == |cfg.filenames| - 1
                  && Answer(reader, Last(res.calls)).count <= Last(res.calls).scan + 1))
  {
    var cfg := Classify(Arguments(argv));
    if cfg.filenames != [] {
      FilesFromCalls(reader, cfg, 0);
      FilesFromChain(reader, cfg, 0);
      FilesFromAligned(reader, cfg, 0);
      FilesFromEnd(reader, cfg, 0);
    }
  }

  /** Along a chain of calls, file positions never go back: once the reader has been
      asked about a file, no earlier file is asked about again. */
  lemma {:induction false} FilesNonDecreasing<C>(reader: Reader<C>, calls: seq<Call>)
    requires Chain(reader, calls)
    ensures forall a, b :: 0 <= a <= b < |calls| ==> calls[a].file <= calls[b].file
  {
    if |calls| > 1 {
      var front := calls[..|calls| - 1];
      var n := |calls| - 1;
      assert Chain(reader, front) by {
        forall k | 0 <= k < |front| - 1 ensures NextCall(reader, front[k], front[k + 1]) {
          assert front[k] == calls[k] && front[k + 1] == calls[k + 1];
        }
      }
      FilesNonDecreasing(reader, front);
      assert NextCall(reader, calls[n - 1], calls[n]);
      forall a, b | 0 <= a <= b < |calls| ensures calls[a].file <= calls[b].file {
        if b < n {
          assert calls[a] == front[a] && calls[b] == front[b];
        } else if a < n {
          assert calls[a] == front[a] && calls[n - 1] == front[n - 1];
        }
      }
    }
  }

  /** A run that ends with -1 after reading something ended on a failed read, and no
      call was made to a file after the one that failed: later files are never read. */
  lemma FailureStopsRun<C>(argv: seq<string>, reader: Reader<C>)
    requires Classify(Arguments(argv)).filenames != []
    requires RunSpec(argv, reader).exitCode == -1
    ensures var res := RunSpec(argv, reader);
      && |res.calls| >= 1
      && Answer(reader, Last(res.calls)).status == -1
      && forall k :: 0 <= k < |res.calls| ==> res.calls[k].file <= Last(res.calls).file
  {
    var res := RunSpec(argv, reader);
    RunTrace(argv, reader);
    FilesNonDecreasing(reader, res.calls);
  }

  /** One input file holding one scan named "Lobby", no switches: the reader is asked
      once, the scan goes to the binary PCD writer under `Lobby.pcd`, exit code 0. */
  lemma LobbyScenario<C>(program: string, reader: Reader<C>, cloud: C)
    requires reader("a.scan", 0) == ReadResult(0, "Lobby", cloud, 1)
    ensures RunSpec([program, "a.scan"], reader)
            == RunResult(0, [Call(0, "a.scan", 0)], [Write(PcdBinaryWriter, "Lobby.pcd", cloud)])
  {
    var args := Arguments([program, "a.scan"]);
    assert args == ["a.scan"];
    assert NonFlags(args) == ["a.scan"];
    var cfg := Classify(args);
    assert !cfg.writeAscii && !cfg.writePtx && !cfg.defaultNames;
    var c := Call(0, "a.scan", 0);
    assert WriteFor(cfg, c, reader("a.scan", 0)) == Write(PcdBinaryWriter, "Lobby.pcd", cloud);
    assert ScanLoop(reader, cfg, 0, "a.scan", 1, 1) == Outcome(true, [], []);
    assert ScanLoop(reader, cfg, 0, "a.scan", 0, 1) == Outcome(true, [c], [Write(PcdBinaryWriter, "Lobby.pcd", cloud)]);
    assert FilesFrom(reader, cfg, 1) == Outcome(true, [], []);
  }

  /** Three input files, the reader failing on scan 0 of the second: the run ends with
      -1 right after that call; the third file is never read, and every scan of the
      first file has been written. */
  lemma FailOnSecondOfThree<C>(program: string, p0: string, p1: string, p2: string, reader: Reader<C>, n: Int64)
    requires !IsFlag(p0) && !IsFlag(p1) && !IsFlag(p2)
    requires n >= 1
    requires forall k: nat :: reader(p0, k).status != -1 && reader(p0, k).count == n
    requires reader(p1, 0).status == -1
    ensures var res := RunSpec([program, p0, p1, p2], reader);
      var cfg := Classify([p0, p1, p2]);
      && res.exitCode == -1
      && |res.calls| == n + 1
      && Last(res.calls) == Call(1, p1, 0)
      && (forall k :: 0 <= k < |res.calls| ==> res.calls[k].file < 2)
      && |res.writes| == n
      && forall k :: 0 <= k < n ==> res.writes[k] == WriteFor(cfg, Call(0, p0, k), reader(p0, k))
  {
    var args := Arguments([program, p0, p1, p2]);
    assert args == [p0, p1, p2];
    NonFlagsOfPaths(args);
    var cfg := Classify(args);
    var s0 := ScanLoop(reader, cfg, 0, p0, 0, 1);
    var s1 := ScanLoop(reader, cfg, 1, p1, 0, 1);
    ConstantCountScans(reader, cfg, 0, p0, n);
    ScanLoopAligned(reader, cfg, 0, p0, 0, 1);
    assert s1 == Outcome(false, [Call(1, p1, 0)], []);
    assert FilesFrom(reader, cfg, 1) == s1;
    assert FilesFrom(reader, cfg, 0) == Prepend(s0.calls, s0.writes, s1);
    var o := FilesFrom(reader, cfg, 0);
    assert o.writes == s0.writes + [];
    forall k | 0 <= k < |o.calls| ensures o.calls[k].file < 2 {
      if k < n {
        assert o.calls[k] == s0.calls[k];
      }
    }
  }

  /** One successful read in the scan loop: the call and its write move from the part
      still to come into the traces. */
  lemma ScanStepOk<C>(reader: Reader<C>, cfg: Config, file: nat, path: string, scan: nat, bound: Int64,
                      calls: seq<Call>, writes: seq<Write<C>>)
    requires scan < bound && reader(path, scan).status != -1
    ensures var c := Call(file, path, scan);
      Prepend(calls, writes, ScanLoop(reader, cfg, file, path, scan, bound))
      == Prepend(calls + [c], writes + [WriteFor(cfg, c, reader(path, scan))],
                 ScanLoop(reader, cfg, file, path, scan + 1, reader(path, scan).count))
  {
    var c := Call(file, path, scan);
    var rest := ScanLoop(reader, cfg, file, path, scan + 1, reader(path, scan).count);
    assert calls + ([c] + rest.calls) == calls + [c] + rest.calls;
    assert writes + ([WriteFor(cfg, c, reader(path, scan))] + rest.writes)
        == writes + [WriteFor(cfg, c, reader(path, scan))] + rest.writes;
  }

  /** A failed read ends the scan loop with the failing call as its last call. */
  lemma ScanStepFail<C>(reader: Reader<C>, cfg: Config, file: nat, path: string, scan: nat, bound: Int64,
                        calls: seq<Call>, writes: seq<Write<C>>)
    requires scan < bound && reader(path, scan).status == -1
    ensures Prepend(calls, writes, ScanLoop(reader, cfg, file, path, scan, bound))
            == Outcome(false, calls + [Call(file, path, scan)], writes)
  {
    assert writes + [] == writes;
  }

  /** A scan loop whose counter is already reached makes no call. */
  lemma ScanStepDone<C>(reader: Reader<C>, cfg: Config, file: nat, path: string, scan: nat, bound: Int64,
                        calls: seq<Call>, writes: seq<Write<C>>)
    requires scan >= bound
    ensures Prepend(calls, writes, ScanLoop(reader, cfg, file, path, scan, bound)) == Outcome(true, calls, writes)
  {
    assert calls + [] == calls && writes + [] == writes;
  }

  /** The scan loop of one input file (the inner loop of the entry point): the counter
      starts at 1 and every reader call overwrites it; `ok` is false when a read failed,
      and then the failing call is the last one made. */
  method ConvertFile<C>(reader: Reader<C>, cfg: Config, i: nat) returns (ok: bool, calls: seq<Call>, writes: seq<Write<C>>)
    requires i < |cfg.filenames|
    ensures Outcome(ok, calls, writes) == ScanLoop(reader, cfg, i, cfg.filenames[i], 0, 1)
  {
    var path := cfg.filenames[i];
    ghost var total := ScanLoop(reader, cfg, i, path, 0, 1);
    calls, writes := [], [];
    var scanCount: Int64 := 1;
    var scanIndex: nat := 0;
    while scanIndex < scanCount
      invariant Prepend(calls, writes, ScanLoop(reader, cfg, i, path, scanIndex, scanCount)) == total
      decreases Int64Max - scanIndex
    {
      var c := Call(i, path, scanIndex);
      var r := reader(path, scanIndex);
      if r.status == -1 {
        ScanStepFail(reader, cfg, i, path, scanIndex, scanCount, calls, writes);
        return false, calls + [c], writes;
      }
      var w := Write(SelectWriter(cfg.writePtx, cfg.writeAscii),
                     OutputPath(cfg.defaultNames, cfg.writePtx, i, scanIndex, r.name),
                     r.cloud);
      assert w == WriteFor(cfg, c, r);
      ScanStepOk(reader, cfg, i, path, scanIndex, scanCount, calls, writes);
      calls, writes := calls + [c], writes + [w];
      scanCount := r.count;
      scanIndex := scanIndex + 1;
    }
    ScanStepDone(reader, cfg, i, path, scanIndex, scanCount, calls, writes);
    return true, calls, writes;
  }

  /** One input file's scan loop, seen from the outer loop: if it got through, its
      calls and writes join the traces and the next file follows; if not, the run ends
      with them. */
  lemma FileStep<C>(reader: Reader<C>, cfg: Config, i: nat, calls: seq<Call>, writes: seq<Write<C>>)
    requires i < |cfg.filenames|
    ensures var s := ScanLoop(reader, cfg, i, cfg.filenames[i], 0, 1);
      Prepend(calls, writes, FilesFrom(reader, cfg, i))
      == if s.ok then Prepend(calls + s.calls, writes + s.writes, FilesFrom(reader, cfg, i + 1))
         else Outcome(false, calls + s.calls, writes + s.writes)
  {
    var s := ScanLoop(reader, cfg, i, cfg.filenames[i], 0, 1);
    var next := FilesFrom(reader, cfg, i + 1);
    assert FilesFrom(reader, cfg, i) == Then(s, next);
    if s.ok {
      assert calls + (s.calls + next.calls) == calls + s.calls + next.calls;
      assert writes + (s.writes + next.writes) == writes + s.writes + next.writes;
    }
  }

  /** The converter's entry point: the argument loop, the empty-input check, then each
      input file in order through its scan loop; a read failure ends the run at once
      with exit code -1. */
  method Run<C>(argv: seq<string>, reader: Reader<C>) returns (exitCode: int, calls: seq<Call>, writes: seq<Write<C>>)
    ensures RunResult(exitCode, calls, writes) == RunSpec(argv, reader)
    ensures exitCode == 0 || exitCode == -1
    ensures NonFlags(Arguments(argv)) == [] ==> exitCode == -1 && calls == [] && writes == []
  {
    var cfg := ParseArgs(argv);
    if cfg.filenames == [] {
      return -1, [], [];
    }
    ghost var total := FilesFrom(reader, cfg, 0);
    calls, writes := [], [];
    var i := 0;
    while i < |cfg.filenames|
      invariant 0 <= i <= |cfg.filenames|
      invariant Prepend(calls, writes, FilesFrom(reader, cfg, i)) == total
    {
      var ok, fileCalls, fileWrites := ConvertFile(reader, cfg, i);
      FileStep(reader, cfg, i, calls, writes);
      if !ok {
        return -1, calls + fileCalls, writes + fileWrites;
      }
      calls, writes := calls + fileCalls, writes + fileWrites;
      i := i + 1;
    }
    assert calls + [] == calls && writes + [] == writes;
    return 0, calls, writes;
  }
}
