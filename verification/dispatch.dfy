/** Output naming and writer choice: the file name each scan is saved under and the
    writer that saves it. */
module Dispatch {

  predicate IsDigit(c: char) {
    '0' <= c <= '9'
  }

  function DigitChar(d: nat): (c: char)
    requires d < 10
    ensures IsDigit(c) && c as int - '0' as int == d
  {
    ('0' as int + d) as char
  }

  /** The text a stream prints for a non-negative integer: decimal, no sign, no
      leading zeros, no grouping. */
  function Decimal(n: nat): string
    decreases n
  {
    if n < 10 then [DigitChar(n)] else Decimal(n / 10) + [DigitChar(n % 10)]
  }

  /** The printed form is a non-empty string of digits with no leading zero. */
  lemma {:induction false} DecimalDigits(n: nat)
    ensures var s := Decimal(n);
      && |s| >= 1
      && (forall k :: 0 <= k < |s| ==> IsDigit(s[k]))
      && (s[0] == '0' <==> n == 0)
      && (n == 0 ==> s == "0")
    decreases n
  {
    if n >= 10 {
      DecimalDigits(n / 10);
      var s := Decimal(n);
      assert forall k :: 0 <= k < |s| - 1 ==> s[k] == Decimal(n / 10)[k];
    }
  }

  /** The number a string of decimal digits denotes (reading it back). */
  function DigitsValue(s: string): nat
    requires forall k :: 0 <= k < |s| ==> IsDigit(s[k])
    decreases |s|
  {
    if s == [] then 0 else DigitsValue(s[..|s| - 1]) * 10 + DigitValue(s[|s| - 1])
  }

  function DigitValue(c: char): (d: nat)
    requires IsDigit(c)
    ensures d < 10 && DigitChar(d) == c
  {
    c as int - '0' as int
  }

  /** Printing a number and reading the digits back gives the number. */
  lemma {:induction false} DecimalRoundTrip(n: nat)
    ensures var s := Decimal(n);
      (forall k :: 0 <= k < |s| ==> IsDigit(s[k])) && DigitsValue(s) == n
  {
    DecimalDigits(n);
    if n >= 10 {
      var s := Decimal(n);
      assert s[..|s| - 1] == Decimal(n / 10);
      DecimalRoundTrip(n / 10);
    }
  }

  /** Distinct numbers print differently. */
  lemma DecimalInjective(m: nat, n: nat)
    requires Decimal(m) == Decimal(n)
    ensures m == n
  {
    DecimalRoundTrip(m);
    DecimalRoundTrip(n);
  }

  /** The name `-defnames` gives scan `scan` of the input file at position `file`. */
  function SynthesizedName(file: nat, scan: nat): string {
    "Scan-" + Decimal(file) + "-" + Decimal(scan)
  }

  /** Base name of the output: synthesized from the indices under `-defnames`, else
      the scan name reported by the reader, taken verbatim. */
  function BaseName(defaultNames: bool, file: nat, scan: nat, scanName: string): string {
    if defaultNames then SynthesizedName(file, scan) else scanName
  }

  /** The extension depends on `-ptx` alone. */
  function Extension(writePtx: bool): string {
    if writePtx then ".ptx" else ".pcd"
  }

  /** The path a scan is written to: base name followed by the extension. */
  function OutputPath(defaultNames: bool, writePtx: bool, file: nat, scan: nat, scanName: string): string {
    BaseName(defaultNames, file, scan, scanName) + Extension(writePtx)
  }

  /** An output path splits back into the base name and a four-character extension
      that is `.ptx` under `-ptx` and `.pcd` otherwise. */
  lemma OutputPathParts(defaultNames: bool, writePtx: bool, file: nat, scan: nat, scanName: string)
    ensures var path := OutputPath(defaultNames, writePtx, file, scan, scanName);
      && |path| >= 4
      && path[..|path| - 4] == BaseName(defaultNames, file, scan, scanName)
      && path[|path| - 4..] == (if writePtx then ".ptx" else ".pcd")
  {
  }

  /** In a digit string followed by a dash, the first dash is the one after the digits. */
  lemma FirstDash(a: string, b: string)
    requires forall k :: 0 <= k < |a| ==> IsDigit(a[k])
    ensures (a + "-" + b)[|a|] == '-'
    ensures forall k :: 0 <= k < |a| ==> (a + "-" + b)[k] != '-'
  {
    assert forall k :: 0 <= k < |a| ==> (a + "-" + b)[k] == a[k];
  }

  /** Two digit strings joined by a dash can be split back apart at that dash. */
  lemma SplitAtDash(a: string, b: string, c: string, d: string)
    requires forall k :: 0 <= k < |a| ==> IsDigit(a[k])
    requires forall k :: 0 <= k < |c| ==> IsDigit(c[k])
    requires a + "-" + b == c + "-" + d
    ensures a == c && b == d
  {
    var s := a + "-" + b;
    FirstDash(a, b);
    FirstDash(c, d);
    if |a| < |c| {
      assert false;
    } else if |c| < |a| {
      assert false;
    }
    assert a == s[..|a|] == c;
    assert b == s[|a| + 1..] == d;
  }

  /** Under `-defnames` the synthesized names of different scans differ. */
  lemma SynthesizedNameInjective(file1: nat, scan1: nat, file2: nat, scan2: nat)
    requires SynthesizedName(file1, scan1) == SynthesizedName(file2, scan2)
    ensures file1 == file2 && scan1 == scan2
  {
    var s1, s2 := SynthesizedName(file1, scan1), SynthesizedName(file2, scan2);
    assert s1[5..] == Decimal(file1) + "-" + Decimal(scan1);
    assert s2[5..] == Decimal(file2) + "-" + Decimal(scan2);
    DecimalDigits(file1);
    DecimalDigits(file2);
    SplitAtDash(Decimal(file1), Decimal(scan1), Decimal(file2), Decimal(scan2));
    DecimalInjective(file1, file2);
    DecimalInjective(scan1, scan2);
  }

  /** With `-defnames` no two scans of a run are written to the same path, so none
      overwrites another's output; without it, the path is the reported scan name plus
      the extension, so two scans reporting the same name go to the same path. */
  lemma OutputPathsDistinct(writePtx: bool, file1: nat, scan1: nat, name1: string, file2: nat, scan2: nat, name2: string)
    ensures OutputPath(true, writePtx, file1, scan1, name1) == OutputPath(true, writePtx, file2, scan2, name2)
            <==> file1 == file2 && scan1 == scan2
    ensures name1 == name2 ==> OutputPath(false, writePtx, file1, scan1, name1) == OutputPath(false, writePtx, file2, scan2, name2)
  {
    var p1, p2 := OutputPath(true, writePtx, file1, scan1, name1), OutputPath(true, writePtx, file2, scan2, name2);
    OutputPathParts(true, writePtx, file1, scan1, name1);
    OutputPathParts(true, writePtx, file2, scan2, name2);
    if p1 == p2 {
      assert SynthesizedName(file1, scan1) == p1[..|p1| - 4] == p2[..|p2| - 4] == SynthesizedName(file2, scan2);
      SynthesizedNameInjective(file1, scan1, file2, scan2);
    }
  }

  /** The three writers a scan can be saved with. */
  datatype Writer = PtxWriter | PcdAsciiWriter | PcdBinaryWriter

  /** Exactly one writer per scan: `-ptx` wins over `-ascii`, which wins over the
      binary default; its choice agrees with the extension. */
  function SelectWriter(writePtx: bool, writeAscii: bool): (w: Writer)
    ensures w == PtxWriter <==> Extension(writePtx) == ".ptx"
    ensures w == PcdAsciiWriter <==> Extension(writePtx) == ".pcd" && writeAscii
    ensures w == PcdBinaryWriter <==> Extension(writePtx) == ".pcd" && !writeAscii
  {
    if writePtx then PtxWriter
    else if writeAscii then PcdAsciiWriter
    else PcdBinaryWriter
  }

  /** The writer and the output path of a scan agree: the PTX writer runs exactly when
      the path ends in `.ptx`, whatever `-ascii` says; otherwise `-ascii` picks the
      ASCII PCD writer and its absence the binary one, both writing to a `.pcd` path. */
  lemma WriterMatchesPath(defaultNames: bool, writePtx: bool, writeAscii: bool, file: nat, scan: nat, scanName: string)
    ensures var w := SelectWriter(writePtx, writeAscii);
      var path := OutputPath(defaultNames, writePtx, file, scan, scanName);
      && |path| >= 4
      && (w == PtxWriter <==> path[|path| - 4..] == ".ptx")
      && (w == PcdAsciiWriter <==> path[|path| - 4..] == ".pcd" && writeAscii)
      && (w == PcdBinaryWriter <==> path[|path| - 4..] == ".pcd" && !writeAscii)
  {
    OutputPathParts(defaultNames, writePtx, file, scan, scanName);
  }
}
