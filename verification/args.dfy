/** Command-line classification of the converter: every argument is either one of
    the three switches or the path of an input file. */
module Args {

  /** The three switches the converter recognises; anything else is an input path. */
  predicate IsFlag(arg: string) {
    arg == "-ascii" || arg == "-ptx" || arg == "-defnames"
  }

  /** The run configuration: three switches and the input files in command-line order. */
  datatype Config = Config(writeAscii: bool, writePtx: bool, defaultNames: bool, filenames: seq<string>)

  /** The arguments proper: argv without the program name in argv[0]. */
  function Arguments(argv: seq<string>): (args: seq<string>)
    ensures |args| == if argv == [] then 0 else |argv| - 1
    ensures forall k :: 0 <= k < |args| ==> args[k] == argv[k + 1]
  {
    if argv == [] then [] else argv[1..]
  }

  /** The arguments that are not switches, in their original order. */
  function NonFlags(args: seq<string>): seq<string> {
    if args == [] then []
    else (if IsFlag(args[0]) then [] else [args[0]]) + NonFlags(args[1..])
  }

  /** The configuration a list of arguments denotes: a switch is on when it occurs
      anywhere, the input files are the other arguments in order. */
  function Classify(args: seq<string>): Config {
    Config("-ascii" in args, "-ptx" in args, "-defnames" in args, NonFlags(args))
  }

  /** Filtering distributes over concatenation, so the relative order of input paths is kept. */
  lemma {:induction false} NonFlagsAppend(a: seq<string>, b: seq<string>)
    ensures NonFlags(a + b) == NonFlags(a) + NonFlags(b)
  {
    if a == [] {
      assert a + b == b;
    } else {
      assert (a + b)[0] == a[0];
      assert (a + b)[1..] == a[1..] + b;
      NonFlagsAppend(a[1..], b);
    }
  }

  /** A path is an input file exactly when it is an argument that is not a switch. */
  lemma {:induction false} NonFlagsMembers(args: seq<string>, x: string)
    ensures x in NonFlags(args) <==> x in args && !IsFlag(x)
  {
    if args != [] {
      NonFlagsMembers(args[1..], x);
      assert args == [args[0]] + args[1..];
    }
  }

  /** An argument list without switches is taken over verbatim as the list of input files. */
  lemma {:induction false} NonFlagsOfPaths(args: seq<string>)
    requires forall k :: 0 <= k < |args| ==> !IsFlag(args[k])
    ensures NonFlags(args) == args
  {
    if args != [] {
      NonFlagsOfPaths(args[1..]);
    }
  }

  /** No input file is named exactly when every argument is a switch. */
  lemma {:induction false} NoInputFiles(args: seq<string>)
    ensures Classify(args).filenames == [] <==> forall k :: 0 <= k < |args| ==> IsFlag(args[k])
  {
    if args != [] {
      NoInputFiles(args[1..]);
      assert forall k :: 1 <= k < |args| ==> args[k] == args[1..][k - 1];
    }
  }

  /** Dropping one switch from anywhere in the arguments leaves the input files unchanged. */
  lemma NonFlagsDropFlag(a: seq<string>, b: seq<string>, f: string)
    requires IsFlag(f)
    ensures NonFlags(a + [f] + b) == NonFlags(a + b)
  {
    NonFlagsAppend(a + [f], b);
    NonFlagsAppend(a, [f]);
    NonFlagsAppend(a, b);
    assert NonFlags([f]) == [];
  }

  /** A switch has the same effect wherever it appears among the arguments. */
  lemma FlagAnywhere(a: seq<string>, b: seq<string>, f: string)
    requires IsFlag(f)
    ensures Classify(a + [f] + b) == Classify([f] + a + b) == Classify(a + b + [f])
  {
    NonFlagsDropFlag(a, b, f);
    NonFlagsDropFlag([], a + b, f);
    NonFlagsDropFlag(a + b, [], f);
    assert [f] + a + b == [] + [f] + (a + b);
    assert a + b + [f] == (a + b) + [f] + [];
    assert a + b + [] == a + b;
    SameSwitches(a, b, f, "-ascii");
    SameSwitches(a, b, f, "-ptx");
    SameSwitches(a, b, f, "-defnames");
  }

  /** Moving one argument to the front or the back does not change which switches occur. */
  lemma SameSwitches(a: seq<string>, b: seq<string>, f: string, x: string)
    ensures x in a + [f] + b <==> x in [f] + a + b
    ensures x in a + [f] + b <==> x in a + b + [f]
  {
    assert x in a + [f] + b <==> x in a || x == f || x in b;
    assert x in [f] + a + b <==> x in a || x == f || x in b;
    assert x in a + b + [f] <==> x in a || x == f || x in b;
  }

  /** Repeating a switch has the same effect as giving it once. */
  lemma FlagRepeated(a: seq<string>, b: seq<string>, f: string)
    requires IsFlag(f)
    ensures Classify(a + [f, f] + b) == Classify(a + [f] + b)
  {
    NonFlagsDropFlag(a + [f], b, f);
    assert a + [f, f] + b == (a + [f]) + [f] + b;
    assert forall x :: x in a + [f, f] + b <==> x in a + [f] + b;
  }

  /** The argument loop of the converter's entry point: walks argv[1..] once, switching
      flags on and collecting every other argument as an input path. */
  method ParseArgs(argv: seq<string>) returns (cfg: Config)
    ensures cfg == Classify(Arguments(argv))
  {
    var args := Arguments(argv);
    var filenames: seq<string> := [];
    var writeAscii, writePtx, defaultNames := false, false, false;
    for i := 0 to |args|
      invariant writeAscii == ("-ascii" in args[..i])
      invariant writePtx == ("-ptx" in args[..i])
      invariant defaultNames == ("-defnames" in args[..i])
      invariant filenames == NonFlags(args[..i])
    {
      var arg := args[i];
      assert args[..i + 1] == args[..i] + [arg];
      NonFlagsAppend(args[..i], [arg]);
      if arg == "-ascii" {
        writeAscii := true;
      } else if arg == "-ptx" {
        writePtx := true;
      } else if arg == "-defnames" {
        defaultNames := true;
      } else {
        filenames := filenames + [arg];
      }
    }
    assert args[..|args|] == args;
    cfg := Config(writeAscii, writePtx, defaultNames, filenames);
  }
}
