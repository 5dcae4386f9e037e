/**
 * `Options` (src/vash/Options.java): the command-line settings, their setters, salt
 * normalisation, the debug flags, and the argument loop of `Options(String[])` with the
 * checks it makes once the loop is done.
 *
 * The JDK conversions the loop calls (`Integer.decode`, `Double.parseDouble`,
 * `String.getBytes`, `Base64.decode`) and the bytes a salt file yields are the fields of a
 * `Host` value passed in.
 */
module CommandLine {
  import opened Wrappers
  import opened Jvm
  import opened Animation
  import Seeds

  /**
   * Why `Options(String[])` throws. Every kind is an `IllegalArgumentException` (a
   * `NumberFormatException` is one); the kinds stand for the different messages.
   */
  datatype Rejection =
    | NeedsArgument(option: string)   // an option that reads a value came last
    | BadNumber(text: string)         // Integer.decode or Double.parseDouble refused the text
    | BadMode(text: string)           // parseAnimationMode refused the text
    | BadBase64                       // the salt literal is not Base64
    | Unrecognized(option: string)    // a word matched no branch of the loop
    | DataTwice                       // -d given more than once
    | FileTwice                       // -f given more than once
    | DataAndFile                     // both -d and -f given
    | NoData                          // no data set
    | NoAlgorithm                     // no algorithm set
    | UnknownAlgorithm(tag: string)   // the algorithm is not a known one
    | SameFile                        // the salt file and the data file have the same name
    | TwoSalts                        // both a salt file and a salt literal given

  /** What the data stream reads: the bytes of a `-d` string, or the named file (`-` for standard input). */
  datatype DataSource = Bytes(bytes: seq<byte>) | File(name: string)

  /** The library calls the loop depends on; `None` stands for the exception each may throw. */
  datatype Host = Host(
    decodeInt: string -> Option<int>,
    parseDouble: string -> Option<real>,
    base64: string -> Option<seq<byte>>,
    getBytes: string -> seq<byte>,
    /** The bytes the named file (or standard input, for `-`) yields to `loadSaltFromFile`. */
    fileBytes: string -> seq<byte>)

  /** The fields of an `Options`; `None` stands for `null`. */
  datatype Settings = Settings(
    algorithm: Option<string>, data: Option<DataSource>, salt: Option<seq<byte>>,
    output: string, outputFormat: Option<string>, width: int, height: int,
    animationMode: AnimationMode, duration: real, period: real, frameRate: real,
    debugFlags: set<string>)

  /** The field initialisers, which `Options()` keeps. */
  const DEFAULTS: Settings :=
    Settings(None, None, None, "output.png", None, 128, 128, WRAP, 15.0, 15.0, 30.0, {})

  const KNOWN_ALGORITHMS: seq<string> := ["1.1", "1", "1-fast"]

  /** `_haveArg`: the options whose next argument is their value. */
  const HAVE_ARG: seq<string> := [
    "--algorithm", "-a", "--data", "-d", "--file", "-f", "--salt", "-s", "--salt-file", "-S",
    "--output", "-o", "--format", "-F", "--width", "-w", "--height", "-h",
    "--animate-mode", "-A", "--duration", "-D", "--period", "-P", "--frame-rate", "-R"]

  /** Each long spelling with its short one, and the branch both select. */
  const SPELLINGS: seq<(string, string, Flag)> := [
    ("--algorithm", "-a", Algorithm), ("--data", "-d", Data), ("--file", "-f", DataFile),
    ("--salt", "-s", Salt), ("--salt-file", "-S", SaltFile), ("--output", "-o", Output),
    ("--format", "-F", Format), ("--width", "-w", Width), ("--height", "-h", Height),
    ("--animate-mode", "-A", AnimateMode), ("--duration", "-D", Duration), ("--period", "-P", Period),
    ("--frame-rate", "-R", FrameRate), ("--version", "-V", Version)]

  /** The debug flags the two debug options set. */
  const TREE: string := "TREE"
  const ENTROPY: string := "ENTROPY"

  /** `haveArg.contains(arg)`, looked up entry by entry. */
  predicate TakesArgument(arg: string) {
    ListedFrom(HAVE_ARG, arg, 0)
  }

  /** `arg` is one of the entries of `table` from the `i`-th on. */
  predicate ListedFrom(table: seq<string>, arg: string, i: nat)
    decreases |table| - i
  {
    i < |table| && (table[i] == arg || ListedFrom(table, arg, i + 1))
  }

  lemma {:induction false} ListedFromIsMember(table: seq<string>, arg: string, i: nat)
    requires i <= |table|
    ensures ListedFrom(table, arg, i) <==> arg in table[i..]
    decreases |table| - i
  {
    if i < |table| {
      ListedFromIsMember(table, arg, i + 1);
      assert table[i..] == [table[i]] + table[i + 1..];
    }
  }

  /** The lookup agrees with membership in `_haveArg`. */
  lemma TakesArgumentIsMember(arg: string)
    ensures TakesArgument(arg) <==> arg in HAVE_ARG
  {
    ListedFromIsMember(HAVE_ARG, arg, 0);
  }

  /**
   * `normalizeSaltBytes` once the size is known: the first `min(size, |salt|)` bytes of
   * `salt`, then zeros up to `size`.
   */
  function Normalized(salt: seq<byte>, size: nat): (r: seq<byte>)
    ensures |r| == size
    ensures var n := if |salt| < size then |salt| else size; r[..n] == salt[..n] && forall k :: n <= k < size ==> r[k] == 0
  {
    seq(size, k requires 0 <= k < size => if k < |salt| then salt[k] else 0)
  }

  /** A normalised salt normalises to itself. */
  lemma NormalizedIdempotent(salt: seq<byte>, size: nat)
    ensures Normalized(Normalized(salt, size), size) == Normalized(salt, size)
  {
  }

  /** Bytes past `size` are ignored, and zeros appended to a salt make no difference. */
  lemma NormalizedIgnoresTail(salt: seq<byte>, tail: seq<byte>, size: nat)
    ensures |salt| >= size ==> Normalized(salt + tail, size) == Normalized(salt, size)
    ensures (forall k :: 0 <= k < |tail| ==> tail[k] == 0) ==> Normalized(salt + tail, size) == Normalized(salt, size)
  {
    var a, b := Normalized(salt + tail, size), Normalized(salt, size);
    if |salt| >= size {
      assert forall k :: 0 <= k < size ==> a[k] == (salt + tail)[k] == salt[k] == b[k];
    }
    if forall k :: 0 <= k < |tail| ==> tail[k] == 0 {
      forall k | 0 <= k < size
        ensures a[k] == b[k]
      {
        if k < |salt| {
          assert (salt + tail)[k] == salt[k];
        } else if k < |salt| + |tail| {
          assert (salt + tail)[k] == tail[k - |salt|];
        }
      }
    }
  }

  /** A salt of exactly the right length is kept as it is. */
  lemma NormalizedExact(salt: seq<byte>)
    requires |salt| == Seeds.SALT_SIZE
    ensures Normalized(salt, Seeds.SALT_SIZE) == salt
  {
  }

  /** The tags `Options` accepts are exactly those that name a seed algorithm. */
  lemma KnownAlgorithmsAreSeeds(tag: string)
    ensures tag in KNOWN_ALGORITHMS <==> Seeds.AlgorithmOf(tag).Success?
  {
    Seeds.AlgorithmOfTag(tag, Seeds.One);
  }

  // ---------------------------------------------------------------------------------------
  // The argument loop as a function of the arguments

  /** The locals of `Options(String[])` besides the loop index. */
  datatype Pending = Pending(haveData: nat, haveFile: nat, dataFilename: Option<string>,
                             saltBytes: Option<seq<byte>>, saltFilename: Option<string>)

  const NOTHING_PENDING: Pending := Pending(0, 0, None, None, None)

  /** The options that print and end the program with `System.exit(0)`. */
  datatype Stop = ShowHelp(heightWarning: bool) | ShowVersion | ShowKnownAlgorithms

  /** After one option: go on with these settings and locals, or stop. */
  datatype Next = Continue(settings: Settings, pending: Pending) | Exit(stop: Stop)

  /** The options the loop body tells apart; each stands for its long and short spelling. */
  datatype Flag =
    | Help | Version | KnownAlgorithms | Algorithm | Data | DataFile | Salt | SaltFile
    | Output | Format | Width | Height | AnimateMode | Duration | Period | FrameRate
    | DebugTree | DebugEntropy

  /** The loop body's tests of `arg`, in their order; `None` when none of them matches. */
  function FlagOf(arg: string): Option<Flag> {
    if arg == "--help" then Some(Help)
    else if arg == "--version" || arg == "-V" then Some(Version)
    else if arg == "--known-algorithms" then Some(KnownAlgorithms)
    else if arg == "--algorithm" || arg == "-a" then Some(Algorithm)
    else if arg == "--data" || arg == "-d" then Some(Data)
    else if arg == "--file" || arg == "-f" then Some(DataFile)
    else if arg == "--salt" || arg == "-s" then Some(Salt)
    else if arg == "--salt-file" || arg == "-S" then Some(SaltFile)
    else if arg == "--output" || arg == "-o" then Some(Output)
    else if arg == "--format" || arg == "-F" then Some(Format)
    else if arg == "--width" || arg == "-w" then Some(Width)
    else if arg == "--height" || arg == "-h" then Some(Height)
    else if arg == "--animate-mode" || arg == "-A" then Some(AnimateMode)
    else if arg == "--duration" || arg == "-D" then Some(Duration)
    else if arg == "--period" || arg == "-P" then Some(Period)
    else if arg == "--frame-rate" || arg == "-R" then Some(FrameRate)
    else if arg == "--debug-tree" then Some(DebugTree)
    else if arg == "--debug-entropy" then Some(DebugEntropy)
    else None
  }

  /** The options whose branch reads `opt`. */
  predicate TakesValue(f: Flag) {
    !(f.Help? || f.Version? || f.KnownAlgorithms? || f.DebugTree? || f.DebugEntropy?)
  }

  /**
   * `_haveArg` lists exactly the spellings whose branch reads `opt`, so no branch ever
   * reads a missing value.
   */
  lemma HaveArgIsValued(arg: string)
    ensures TakesArgument(arg) <==> FlagOf(arg).Some? && TakesValue(FlagOf(arg).value)
  {
    TakesArgumentIsMember(arg);
    if TakesArgument(arg) {
      var k :| 0 <= k < |HAVE_ARG| && HAVE_ARG[k] == arg;
      ListedIsValued(k);
    } else if FlagOf(arg).Some? && TakesValue(FlagOf(arg).value) {
      ValuedIsListed(arg);
    }
  }

  lemma ListedIsValued(k: nat)
    requires k < |HAVE_ARG|
    ensures FlagOf(HAVE_ARG[k]).Some? && TakesValue(FlagOf(HAVE_ARG[k]).value)
  {
    if k < 6 {
      ListedIsValuedFrom0(k);
    } else if k < 11 {
      ListedIsValuedFrom6(k);
    } else if k < 16 {
      ListedIsValuedFrom11(k);
    } else if k < 21 {
      ListedIsValuedFrom16(k);
    } else {
      ListedIsValuedFrom21(k);
    }
  }

  // Helpers of `ListedIsValued` only: they split `HAVE_ARG` into groups of five or six entries
  // so that each proof stays small, and state nothing beyond it.

  lemma ListedIsValuedFrom0(k: nat)
    requires k < 6
    ensures FlagOf(HAVE_ARG[k]).Some? && TakesValue(FlagOf(HAVE_ARG[k]).value)
  {
  }

  lemma ListedIsValuedFrom6(k: nat)
    requires 6 <= k < 11
    ensures FlagOf(HAVE_ARG[k]).Some? && TakesValue(FlagOf(HAVE_ARG[k]).value)
  {
  }

  lemma ListedIsValuedFrom11(k: nat)
    requires 11 <= k < 16
    ensures FlagOf(HAVE_ARG[k]).Some? && TakesValue(FlagOf(HAVE_ARG[k]).value)
  {
  }

  lemma ListedIsValuedFrom16(k: nat)
    requires 16 <= k < 21
    ensures FlagOf(HAVE_ARG[k]).Some? && TakesValue(FlagOf(HAVE_ARG[k]).value)
  {
  }

  lemma ListedIsValuedFrom21(k: nat)
    requires 21 <= k < 26
    ensures FlagOf(HAVE_ARG[k]).Some? && TakesValue(FlagOf(HAVE_ARG[k]).value)
  {
  }

  lemma ValuedIsListed(arg: string)
    requires FlagOf(arg).Some? && TakesValue(FlagOf(arg).value)
    ensures arg in HAVE_ARG
  {
  }

  /** One pass of the loop body's if/else chain, for option `arg` with value `opt`. */
  function Step(s: Settings, p: Pending, arg: string, opt: Option<string>, host: Host): Result<Next, Rejection>
    requires TakesArgument(arg) ==> opt.Some?
  {
    match FlagOf(arg)
    case None => Failure(Unrecognized(arg))
    case Some(f) => HaveArgIsValued(arg); StepFlag(s, p, f, opt, host)
  }

  /** The branch for option `f`: the setter it calls or the local it records, or an exception. */
  function StepFlag(s: Settings, p: Pending, f: Flag, opt: Option<string>, host: Host): Result<Next, Rejection>
    requires TakesValue(f) ==> opt.Some?
  {
    match f
    case Help => Success(Exit(ShowHelp(false)))
    case Version => Success(Exit(ShowVersion))
    case KnownAlgorithms => Success(Exit(ShowKnownAlgorithms))
    case Algorithm => Success(Continue(s.(algorithm := opt), p))
    case Data => Success(Continue(s.(data := Some(Bytes(host.getBytes(opt.value)))), p.(haveData := p.haveData + 1)))
    case DataFile => Success(Continue(s.(data := Some(File(opt.value))), p.(dataFilename := opt, haveFile := p.haveFile + 1)))
    case Salt =>
      var b := host.base64(opt.value);
      if b.None? then Failure(BadBase64) else Success(Continue(s, p.(saltBytes := b)))
    case SaltFile => Success(Continue(s, p.(saltFilename := opt)))
    case Output => Success(Continue(s.(output := opt.value), p))
    case Format => Success(Continue(s.(outputFormat := opt), p))
    case Width =>
      var n := host.decodeInt(opt.value);
      if n.None? then Failure(BadNumber(opt.value)) else Success(Continue(s.(width := n.value), p))
    case Height =>
      var n := host.decodeInt(opt.value);
      if n.None? then Failure(BadNumber(opt.value)) else Success(Continue(s.(height := n.value), p))
    case AnimateMode =>
      var m := ParseAnimationMode(opt.value);
      if m.Failure? then Failure(BadMode(opt.value)) else Success(Continue(s.(animationMode := m.value), p))
    case Duration =>
      var x := host.parseDouble(opt.value);
      if x.None? then Failure(BadNumber(opt.value)) else Success(Continue(s.(duration := x.value), p))
    case Period =>
      var x := host.parseDouble(opt.value);
      if x.None? then Failure(BadNumber(opt.value)) else Success(Continue(s.(period := x.value), p))
    case FrameRate =>
      var x := host.parseDouble(opt.value);
      if x.None? then Failure(BadNumber(opt.value)) else Success(Continue(s.(frameRate := x.value), p))
    case DebugTree => Success(Continue(s.(debugFlags := s.debugFlags + {TREE}), p))
    case DebugEntropy => Success(Continue(s.(debugFlags := s.debugFlags + {ENTROPY}), p))
  }

  /**
   * The loop from index `i`: an option in `HAVE_ARG` takes the next argument as its value,
   * and is refused when it is the last one.
   */
  function Scan(args: seq<string>, i: nat, s: Settings, p: Pending, host: Host): Result<Next, Rejection>
    requires i <= |args|
    decreases |args| - i
  {
    if i == |args| then Success(Continue(s, p))
    else if TakesArgument(args[i]) && i + 1 == |args| then Failure(NeedsArgument(args[i]))
    else
      var opt := if TakesArgument(args[i]) then Some(args[i + 1]) else None;
      var j := if TakesArgument(args[i]) then i + 2 else i + 1;
      match Step(s, p, args[i], opt, host)
      case Failure(e) => Failure(e)
      case Success(Exit(stop)) => Success(Exit(stop))
      case Success(Continue(s', p')) => Scan(args, j, s', p', host)
  }

  /** The checks after the loop, in the order they are made, and then the salt. */
  function Validate(s: Settings, p: Pending, host: Host): Result<Settings, Rejection> {
    if p.haveData > 1 then Failure(DataTwice)
    else if p.haveFile > 1 then Failure(FileTwice)
    else if p.haveData > 0 && p.haveFile > 0 then Failure(DataAndFile)
    else if s.data.None? then Failure(NoData)
    else if s.algorithm.None? then Failure(NoAlgorithm)
    else if s.algorithm.value !in KNOWN_ALGORITHMS then Failure(UnknownAlgorithm(s.algorithm.value))
    else if p.saltFilename.Some? && p.dataFilename.Some? && p.saltFilename == p.dataFilename then Failure(SameFile)
    else if p.saltFilename.Some? && p.saltBytes.Some? then Failure(TwoSalts)
    else if p.saltFilename.Some? then
      Success(s.(salt := Some(Normalized(host.fileBytes(p.saltFilename.value), Seeds.SALT_SIZE))))
    else if p.saltBytes.Some? then Success(s.(salt := Some(Normalized(p.saltBytes.value, Seeds.SALT_SIZE))))
    else Success(s)
  }

  /** What `Options(String[])` ends in: the settings, or one of the options that exits. */
  datatype Outcome = Ready(settings: Settings) | Exited(stop: Stop)

  function ParseArgs(args: seq<string>, host: Host): Result<Outcome, Rejection> {
    if |args| == 1 && args[0] == "-h" then Success(Exited(ShowHelp(true)))
    else match Scan(args, 0, DEFAULTS, NOTHING_PENDING, host)
      case Failure(e) => Failure(e)
      case Success(Exit(stop)) => Success(Exited(stop))
      case Success(Continue(s, p)) =>
        match Validate(s, p, host)
        case Failure(e) => Failure(e)
        case Success(s') => Success(Ready(s'))
  }

  // ---------------------------------------------------------------------------------------
  // What the parse guarantees

  /** The words the loop reads as options from index `i` on, their values skipped. */
  function OptionWords(args: seq<string>, i: nat): seq<string>
    decreases |args| - i
  {
    if i >= |args| then []
    else if TakesArgument(args[i]) then [args[i]] + OptionWords(args, i + 2)
    else [args[i]] + OptionWords(args, i + 1)
  }

  /** How many of `words` spell option `f`. */
  function Count(words: seq<string>, f: Flag): nat {
    if words == [] then 0
    else (if FlagOf(words[0]) == Some(f) then 1 else 0) + Count(words[1..], f)
  }

  /**
   * The value read after the last occurrence of option `f` (in either spelling) from index
   * `i` on, walking the words as the loop does; `None` when `f` does not occur.
   */
  function LastValue(args: seq<string>, i: nat, f: Flag): Option<string>
    decreases |args| - i
  {
    if i >= |args| then None
    else
      var j := if TakesArgument(args[i]) then i + 2 else i + 1;
      var later := LastValue(args, j, f);
      if later.Some? then later
      else if FlagOf(args[i]) == Some(f) && i + 1 < |args| then Some(args[i + 1])
      else None
  }

  /** `Integer.decode` only yields values of an `int`. */
  ghost predicate DecodesInt32(host: Host) {
    forall t :: host.decodeInt(t).Some? ==> IsInt32(host.decodeInt(t).value)
  }

  /** One branch moves the two counters and the data field only for `-d` and `-f`. */
  lemma StepCounts(s: Settings, p: Pending, f: Flag, opt: Option<string>, host: Host)
    requires TakesValue(f) ==> opt.Some?
    requires StepFlag(s, p, f, opt, host).Success? && StepFlag(s, p, f, opt, host).value.Continue?
    ensures var n := StepFlag(s, p, f, opt, host).value;
      && n.pending.haveData == p.haveData + (if f == Data then 1 else 0)
      && n.pending.haveFile == p.haveFile + (if f == DataFile then 1 else 0)
      && (n.settings.data.Some? <==> s.data.Some? || f == Data || f == DataFile)
      && n.settings.algorithm == (if f == Algorithm then opt else s.algorithm)
      && n.settings.salt == s.salt
  {
  }

  /**
   * A loop that runs to the end has counted each `-d`/`--data` and each `-f`/`--file`, has
   * data exactly when one of them occurred or data was there before, and holds the value of
   * the last `-a`/`--algorithm`, if any; the salt is left for the checks after the loop.
   */
  lemma {:induction false} ScanCounts(args: seq<string>, i: nat, s: Settings, p: Pending, host: Host, s2: Settings, p2: Pending)
    requires i <= |args| && Scan(args, i, s, p, host) == Success(Continue(s2, p2))
    ensures p2.haveData == p.haveData + Count(OptionWords(args, i), Data)
    ensures p2.haveFile == p.haveFile + Count(OptionWords(args, i), DataFile)
    ensures s2.data.Some? <==> s.data.Some? || Count(OptionWords(args, i), Data) + Count(OptionWords(args, i), DataFile) > 0
    ensures Count(OptionWords(args, i), Algorithm) == 0 ==> s2.algorithm == s.algorithm
    ensures s2.salt == s.salt
    decreases |args| - i
  {
    if i < |args| {
      var arg := args[i];
      var opt := if TakesArgument(arg) then Some(args[i + 1]) else None;
      var j := if TakesArgument(arg) then i + 2 else i + 1;
      var f := FlagOf(arg).value;
      HaveArgIsValued(arg);
      var n := StepFlag(s, p, f, opt, host).value;
      StepCounts(s, p, f, opt, host);
      ScanCounts(args, j, n.settings, n.pending, host, s2, p2);
      assert OptionWords(args, i) == [arg] + OptionWords(args, j);
    }
  }

  /**
   * An accepted command line names the data once, by `-d` or by `-f` and not both, names a
   * known algorithm, and carries either no salt or one of the algorithm's salt size.
   */
  lemma ReadyIsComplete(args: seq<string>, host: Host)
    requires ParseArgs(args, host).Success? && ParseArgs(args, host).value.Ready?
    ensures Count(OptionWords(args, 0), Data) + Count(OptionWords(args, 0), DataFile) == 1
    ensures var s := ParseArgs(args, host).value.settings;
      && s.data.Some? && s.algorithm.Some? && s.algorithm.value in KNOWN_ALGORITHMS
      && Seeds.AlgorithmOf(s.algorithm.value).Success?
      && (s.salt.Some? ==> |s.salt.value| == Seeds.SALT_SIZE)
  {
    assert !(|args| == 1 && args[0] == "-h");
    var r := Scan(args, 0, DEFAULTS, NOTHING_PENDING, host);
    var s, p := r.value.settings, r.value.pending;
    ScanCounts(args, 0, DEFAULTS, NOTHING_PENDING, host, s, p);
    var v := Validate(s, p, host).value;
    assert ParseArgs(args, host).value.settings == v;
    SaltIsNormalized(s, p, host);
    KnownAlgorithmsAreSeeds(v.algorithm.value);
  }

  /** The salt kept is the given one cut or zero-padded to the size, from the file when one is named. */
  lemma SaltIsNormalized(s: Settings, p: Pending, host: Host)
    requires Validate(s, p, host).Success?
    ensures var v := Validate(s, p, host).value;
      && v == s.(salt := v.salt)
      && (p.saltFilename.Some? ==> v.salt == Some(Normalized(host.fileBytes(p.saltFilename.value), Seeds.SALT_SIZE)))
      && (p.saltFilename.None? && p.saltBytes.Some? ==> v.salt == Some(Normalized(p.saltBytes.value, Seeds.SALT_SIZE)))
      && (p.saltFilename.None? && p.saltBytes.None? ==> v.salt == s.salt)
      && !(p.saltFilename.Some? && p.saltBytes.Some?)
  {
  }

  /** A long spelling and its short one select the same branch and the same `_haveArg` entry. */
  lemma SpellingsAgree(k: nat)
    requires k < |SPELLINGS|
    ensures FlagOf(SPELLINGS[k].0) == FlagOf(SPELLINGS[k].1) == Some(SPELLINGS[k].2)
    ensures TakesArgument(SPELLINGS[k].0) <==> TakesArgument(SPELLINGS[k].1)
  {
    if k < 4 {
      SpellingsAgreeFrom0(k);
    } else if k < 7 {
      SpellingsAgreeFrom4(k);
    } else if k < 9 {
      SpellingsAgreeFrom7(k);
    } else if k < 11 {
      SpellingsAgreeFrom9(k);
    } else if k < 13 {
      SpellingsAgreeFrom11(k);
    } else {
      SpellingsAgreeFrom13(k);
    }
    HaveArgIsValued(SPELLINGS[k].0);
    HaveArgIsValued(SPELLINGS[k].1);
  }

  // Helpers of `SpellingsAgree` only: they split `SPELLINGS` into groups of two to four rows
  // so that each proof stays small, and state nothing beyond it.

  lemma SpellingsAgreeFrom0(k: nat)
    requires k < 4
    ensures FlagOf(SPELLINGS[k].0) == FlagOf(SPELLINGS[k].1) == Some(SPELLINGS[k].2)
  {
  }

  lemma SpellingsAgreeFrom4(k: nat)
    requires 4 <= k < 7
    ensures FlagOf(SPELLINGS[k].0) == FlagOf(SPELLINGS[k].1) == Some(SPELLINGS[k].2)
  {
  }

  lemma SpellingsAgreeFrom7(k: nat)
    requires 7 <= k < 9
    ensures FlagOf(SPELLINGS[k].0) == FlagOf(SPELLINGS[k].1) == Some(SPELLINGS[k].2)
  {
  }

  lemma SpellingsAgreeFrom9(k: nat)
    requires 9 <= k < 11
    ensures FlagOf(SPELLINGS[k].0) == FlagOf(SPELLINGS[k].1) == Some(SPELLINGS[k].2)
  {
  }

  lemma SpellingsAgreeFrom11(k: nat)
    requires 11 <= k < 13
    ensures FlagOf(SPELLINGS[k].0) == FlagOf(SPELLINGS[k].1) == Some(SPELLINGS[k].2)
  {
  }

  lemma SpellingsAgreeFrom13(k: nat)
    requires 13 <= k < |SPELLINGS|
    ensures FlagOf(SPELLINGS[k].0) == FlagOf(SPELLINGS[k].1) == Some(SPELLINGS[k].2)
  {
  }

  /** So one pass of the loop does the same for either spelling. */
  lemma StepSpellings(s: Settings, p: Pending, k: nat, opt: Option<string>, host: Host)
    requires k < |SPELLINGS| && (TakesArgument(SPELLINGS[k].0) ==> opt.Some?)
    ensures TakesArgument(SPELLINGS[k].1) ==> opt.Some?
    ensures Step(s, p, SPELLINGS[k].0, opt, host) == Step(s, p, SPELLINGS[k].1, opt, host)
  {
    SpellingsAgree(k);
  }

  /** A word that is no option is refused when it comes first, whatever follows. */
  lemma UnrecognizedFirst(arg: string, rest: seq<string>, host: Host)
    requires FlagOf(arg).None? && (rest != [] || arg != "-h")
    ensures ParseArgs([arg] + rest, host) == Failure(Unrecognized(arg))
  {
    HaveArgIsValued(arg);
  }

  /** An option that takes a value is refused when nothing follows it; a lone "-h" asks for help. */
  lemma MissingValue(arg: string, host: Host)
    requires TakesArgument(arg)
    ensures ParseArgs([arg], host) == (if arg == "-h" then Success(Exited(ShowHelp(true))) else Failure(NeedsArgument(arg)))
  {
  }

  /** Without arguments there is no data. */
  lemma NoArguments(host: Host)
    ensures ParseArgs([], host) == Failure(NoData)
  {
  }

  /** Arguments after the ones a loop has used up do not change what it did with them. */
  lemma {:induction false} ScanAppend(args: seq<string>, rest: seq<string>, i: nat, s: Settings, p: Pending, host: Host, s2: Settings, p2: Pending)
    requires i <= |args| && Scan(args, i, s, p, host) == Success(Continue(s2, p2))
    ensures Scan(args + rest, i, s, p, host) == Scan(args + rest, |args|, s2, p2, host)
    decreases |args| - i
  {
    if i < |args| {
      var arg := args[i];
      assert (args + rest)[i] == arg;
      var opt := if TakesArgument(arg) then Some(args[i + 1]) else None;
      var j := if TakesArgument(arg) then i + 2 else i + 1;
      if TakesArgument(arg) {
        assert (args + rest)[i + 1] == args[i + 1];
      }
      var n := Step(s, p, arg, opt, host).value;
      ScanAppend(args, rest, j, n.settings, n.pending, host, s2, p2);
    }
  }

  /** An option that takes a value is refused when it is the last argument the loop reaches. */
  lemma LastNeedsArgument(args: seq<string>, arg: string, host: Host, s: Settings, p: Pending)
    requires Scan(args, 0, DEFAULTS, NOTHING_PENDING, host) == Success(Continue(s, p))
    requires TakesArgument(arg) && !(args == [] && arg == "-h")
    ensures ParseArgs(args + [arg], host) == Failure(NeedsArgument(arg))
  {
    ScanAppend(args, [arg], 0, DEFAULTS, NOTHING_PENDING, host, s, p);
    assert (args + [arg])[|args|] == arg;
  }

  /** A word that no branch matches is refused when the loop reaches it as an option. */
  lemma UnrecognizedRefused(args: seq<string>, arg: string, rest: seq<string>, host: Host, s: Settings, p: Pending)
    requires Scan(args, 0, DEFAULTS, NOTHING_PENDING, host) == Success(Continue(s, p))
    requires FlagOf(arg).None?
    ensures ParseArgs(args + [arg] + rest, host) == Failure(Unrecognized(arg))
  {
    HaveArgIsValued(arg);
    SpellingsAgree(8);
    assert arg != "-h";
    assert args + [arg] + rest == args + ([arg] + rest);
    ScanAppend(args, [arg] + rest, 0, DEFAULTS, NOTHING_PENDING, host, s, p);
    assert (args + ([arg] + rest))[|args|] == arg;
  }

  /**
   * Once the loop has run to the end, the checks refuse `-d` given twice, `-f` given twice,
   * both, or neither, in that order, and then a command line without `-a`.
   */
  lemma DataOptionsChecked(args: seq<string>, host: Host, s: Settings, p: Pending)
    requires Scan(args, 0, DEFAULTS, NOTHING_PENDING, host) == Success(Continue(s, p))
    requires !(|args| == 1 && args[0] == "-h")
    ensures var d, f := Count(OptionWords(args, 0), Data), Count(OptionWords(args, 0), DataFile);
      && (d > 1 ==> ParseArgs(args, host) == Failure(DataTwice))
      && (d <= 1 && f > 1 ==> ParseArgs(args, host) == Failure(FileTwice))
      && (d == 1 && f == 1 ==> ParseArgs(args, host) == Failure(DataAndFile))
      && (d == 0 && f == 0 ==> ParseArgs(args, host) == Failure(NoData))
      && (d + f == 1 && Count(OptionWords(args, 0), Algorithm) == 0 ==> ParseArgs(args, host) == Failure(NoAlgorithm))
  {
    ScanCounts(args, 0, DEFAULTS, NOTHING_PENDING, host, s, p);
  }

  /**
   * Giving an option again overrides its first value: every branch but `-d` and `-f`, which
   * are also counted, leaves the same state whatever the earlier value was.
   */
  lemma RepeatOverrides(s: Settings, p: Pending, f: Flag, x: string, y: string, host: Host, s1: Settings, p1: Pending)
    requires f != Data && f != DataFile
    requires StepFlag(s, p, f, Some(x), host) == Success(Continue(s1, p1))
    ensures StepFlag(s1, p1, f, Some(y), host) == StepFlag(s, p, f, Some(y), host)
  {
  }

  /** `-d` and `-f` given again also override the data source, and are counted once more. */
  lemma RepeatDataCounts(s: Settings, p: Pending, f: Flag, x: string, y: string, host: Host, s1: Settings, p1: Pending)
    requires f == Data || f == DataFile
    requires StepFlag(s, p, f, Some(x), host) == Success(Continue(s1, p1))
    ensures StepFlag(s1, p1, f, Some(y), host).value.settings == StepFlag(s, p, f, Some(y), host).value.settings
    ensures StepFlag(s1, p1, f, Some(y), host).value.pending.haveData + StepFlag(s1, p1, f, Some(y), host).value.pending.haveFile
      == p.haveData + p.haveFile + 2
  {
  }

  /** The branch for `f` sets the algorithm, output, width and height only for its own option. */
  lemma StepSetsOwnField(s: Settings, p: Pending, f: Flag, opt: Option<string>, host: Host)
    requires TakesValue(f) ==> opt.Some?
    requires StepFlag(s, p, f, opt, host).Success? && StepFlag(s, p, f, opt, host).value.Continue?
    ensures var n := StepFlag(s, p, f, opt, host).value.settings;
      && n.algorithm == (if f == Algorithm then opt else s.algorithm)
      && n.output == (if f == Output then opt.value else s.output)
      && (f == Width ==> host.decodeInt(opt.value) == Some(n.width))
      && (f != Width ==> n.width == s.width)
      && (f == Height ==> host.decodeInt(opt.value) == Some(n.height))
      && (f != Height ==> n.height == s.height)
  {
  }

  /**
   * A loop that runs to the end holds, for `-a`, `-o`, `-w` and `-h` in either spelling, the
   * value given with the last occurrence of the option (decoded, for the sizes), and the
   * value it started with when the option does not occur.
   */
  lemma {:induction false} ScanLastWins(args: seq<string>, i: nat, s: Settings, p: Pending, host: Host, s2: Settings, p2: Pending)
    requires i <= |args| && Scan(args, i, s, p, host) == Success(Continue(s2, p2))
    ensures var a := LastValue(args, i, Algorithm);
      s2.algorithm == (if a.Some? then a else s.algorithm)
    ensures var o := LastValue(args, i, Output);
      s2.output == (if o.Some? then o.value else s.output)
    ensures var w := LastValue(args, i, Width);
      (w.Some? ==> host.decodeInt(w.value) == Some(s2.width)) && (w.None? ==> s2.width == s.width)
    ensures var h := LastValue(args, i, Height);
      (h.Some? ==> host.decodeInt(h.value) == Some(s2.height)) && (h.None? ==> s2.height == s.height)
    decreases |args| - i
  {
    if i < |args| {
      var arg := args[i];
      var opt := if TakesArgument(arg) then Some(args[i + 1]) else None;
      var j := if TakesArgument(arg) then i + 2 else i + 1;
      var f := FlagOf(arg).value;
      HaveArgIsValued(arg);
      var n := StepFlag(s, p, f, opt, host).value;
      StepSetsOwnField(s, p, f, opt, host);
      ScanLastWins(args, j, n.settings, n.pending, host, s2, p2);
    }
  }

  /**
   * On an accepted command line the algorithm is the last `-a` given, and the output, width
   * and height are the last `-o`, `-w` and `-h` given, or the defaults "output.png", 128 and
   * 128 when absent; with a host whose `Integer.decode` stays in `int`, so do the sizes.
   */
  lemma LastOccurrenceWins(args: seq<string>, host: Host)
    requires ParseArgs(args, host).Success? && ParseArgs(args, host).value.Ready?
    ensures var s := ParseArgs(args, host).value.settings;
      && s.algorithm == LastValue(args, 0, Algorithm)
      && s.output == (var o := LastValue(args, 0, Output); if o.Some? then o.value else DEFAULTS.output)
      && (var w := LastValue(args, 0, Width);
          (w.Some? ==> host.decodeInt(w.value) == Some(s.width)) && (w.None? ==> s.width == DEFAULTS.width))
      && (var h := LastValue(args, 0, Height);
          (h.Some? ==> host.decodeInt(h.value) == Some(s.height)) && (h.None? ==> s.height == DEFAULTS.height))
      && (DecodesInt32(host) ==> IsInt32(s.width) && IsInt32(s.height))
  {
    assert !(|args| == 1 && args[0] == "-h");
    var r := Scan(args, 0, DEFAULTS, NOTHING_PENDING, host);
    var s, p := r.value.settings, r.value.pending;
    ScanLastWins(args, 0, DEFAULTS, NOTHING_PENDING, host, s, p);
    SaltIsNormalized(s, p, host);
    assert ParseArgs(args, host).value.settings == Validate(s, p, host).value;
  }

  /** The long-spelling command line of the options unit test, with `Integer.decode`'s results. */
  lemma LongOptionsParsed(host: Host)
    requires host.decodeInt("42") == Some(42) && host.decodeInt("24") == Some(24)
    ensures var args := ["--algorithm", "1", "--data", "data", "--output", "output", "--width", "42", "--height", "24"];
      && ParseArgs(args, host).Success? && ParseArgs(args, host).value.Ready?
      && var s := ParseArgs(args, host).value.settings;
      && s.algorithm == Some("1") && s.output == "output" && s.width == 42 && s.height == 24
  {
    var args := ["--algorithm", "1", "--data", "data", "--output", "output", "--width", "42", "--height", "24"];
    FiveOptionsScanned(args, 0, DEFAULTS, NOTHING_PENDING, host);
  }

  /** The same command line in the short spellings. */
  lemma ShortOptionsParsed(host: Host)
    requires host.decodeInt("42") == Some(42) && host.decodeInt("24") == Some(24)
    ensures var args := ["-a", "1", "-d", "data", "-o", "output", "-w", "42", "-h", "24"];
      && ParseArgs(args, host).Success? && ParseArgs(args, host).value.Ready?
      && var s := ParseArgs(args, host).value.settings;
      && s.algorithm == Some("1") && s.output == "output" && s.width == 42 && s.height == 24
  {
    var args := ["-a", "1", "-d", "data", "-o", "output", "-w", "42", "-h", "24"];
    FiveOptionsScanned(args, 0, DEFAULTS, NOTHING_PENDING, host);
  }

  /**
   * The loop over `-a A -d D -o O -w W -h H` from index `i` to the end, in whichever
   * spellings `args` holds, sets exactly those fields and counts one `-d`.
   */
  lemma {:induction false} FiveOptionsScanned(args: seq<string>, i: nat, s: Settings, p: Pending, host: Host)
    requires i + 10 == |args|
    requires FlagOf(args[i]) == Some(Algorithm) && FlagOf(args[i + 2]) == Some(Data) && FlagOf(args[i + 4]) == Some(Output)
    requires FlagOf(args[i + 6]) == Some(Width) && FlagOf(args[i + 8]) == Some(Height)
    requires host.decodeInt(args[i + 7]).Some? && host.decodeInt(args[i + 9]).Some?
    ensures Scan(args, i, s, p, host) == Success(Continue(
      s.(algorithm := Some(args[i + 1]), data := Some(Bytes(host.getBytes(args[i + 3]))), output := args[i + 5],
         width := host.decodeInt(args[i + 7]).value, height := host.decodeInt(args[i + 9]).value),
      p.(haveData := p.haveData + 1)))
  {
    HeadScanned(args, i, s, p, host);
    TailScanned(args, i + 4, s.(algorithm := Some(args[i + 1]), data := Some(Bytes(host.getBytes(args[i + 3])))),
                p.(haveData := p.haveData + 1), host);
  }

  /** An `-a` at index `i` followed by a `-d`: the algorithm is set, then the data, counted once. */
  lemma {:induction false} HeadScanned(args: seq<string>, i: nat, s: Settings, p: Pending, host: Host)
    requires i + 3 < |args| && FlagOf(args[i]) == Some(Algorithm) && FlagOf(args[i + 2]) == Some(Data)
    ensures Scan(args, i, s, p, host)
      == Scan(args, i + 4, s.(algorithm := Some(args[i + 1]), data := Some(Bytes(host.getBytes(args[i + 3])))),
              p.(haveData := p.haveData + 1), host)
  {
    var s1 := s.(algorithm := Some(args[i + 1]));
    AlgorithmScanned(args, i, s, p, host);
    DataStep(s1, p, args[i + 3], host);
    ValuedStep(args, i + 2, Data, s1, p, host, s1.(data := Some(Bytes(host.getBytes(args[i + 3])))), p.(haveData := p.haveData + 1));
  }

  /** `-o O -w W -h H` from index `i` to the end: the output, then the decoded sizes. */
  lemma {:induction false} TailScanned(args: seq<string>, i: nat, s: Settings, p: Pending, host: Host)
    requires i + 6 == |args|
    requires FlagOf(args[i]) == Some(Output) && FlagOf(args[i + 2]) == Some(Width) && FlagOf(args[i + 4]) == Some(Height)
    requires host.decodeInt(args[i + 3]).Some? && host.decodeInt(args[i + 5]).Some?
    ensures Scan(args, i, s, p, host) == Success(Continue(s.(output := args[i + 1],
      width := host.decodeInt(args[i + 3]).value, height := host.decodeInt(args[i + 5]).value), p))
  {
    var s3 := s.(output := args[i + 1]);
    var s4 := s3.(width := host.decodeInt(args[i + 3]).value);
    var s5 := s4.(height := host.decodeInt(args[i + 5]).value);
    ValuedStep(args, i + 4, Height, s4, p, host, s5, p);
    ValuedStep(args, i + 2, Width, s3, p, host, s4, p);
    ValuedStep(args, i, Output, s, p, host, s3, p);
  }

  /** An `-a` at index `i` sets the algorithm to its value. */
  lemma AlgorithmScanned(args: seq<string>, i: nat, s: Settings, p: Pending, host: Host)
    requires i + 1 < |args| && FlagOf(args[i]) == Some(Algorithm)
    ensures Scan(args, i, s, p, host) == Scan(args, i + 2, s.(algorithm := Some(args[i + 1])), p, host)
  {
    ValuedStep(args, i, Algorithm, s, p, host, s.(algorithm := Some(args[i + 1])), p);
  }

  /** The `-d` branch sets the data to the string's bytes and counts it. */
  lemma DataStep(s: Settings, p: Pending, d: string, host: Host)
    ensures StepFlag(s, p, Data, Some(d), host)
      == Success(Continue(s.(data := Some(Bytes(host.getBytes(d)))), p.(haveData := p.haveData + 1)))
  {
  }

  /** One pass of the loop over an option that reads a value and goes on. */
  lemma ValuedStep(args: seq<string>, i: nat, f: Flag, s: Settings, p: Pending, host: Host, s1: Settings, p1: Pending)
    requires i + 1 < |args| && FlagOf(args[i]) == Some(f) && TakesValue(f)
    requires StepFlag(s, p, f, Some(args[i + 1]), host) == Success(Continue(s1, p1))
    ensures Scan(args, i, s, p, host) == Scan(args, i + 2, s1, p1, host)
  {
    HaveArgIsValued(args[i]);
  }

  /**
   * Once the data and algorithm checks pass, a salt file named like the data file is
   * refused, before the salt is read.
   */
  lemma SameFileRefused(args: seq<string>, host: Host, s: Settings, p: Pending)
    requires Scan(args, 0, DEFAULTS, NOTHING_PENDING, host) == Success(Continue(s, p))
    requires !(|args| == 1 && args[0] == "-h")
    requires Count(OptionWords(args, 0), Data) == 0 && Count(OptionWords(args, 0), DataFile) == 1
    requires s.algorithm.Some? && s.algorithm.value in KNOWN_ALGORITHMS
    requires p.saltFilename.Some? && p.saltFilename == p.dataFilename
    ensures ParseArgs(args, host) == Failure(SameFile)
  {
    ScanCounts(args, 0, DEFAULTS, NOTHING_PENDING, host, s, p);
  }

  /** The two debug options add their flag to the set, keeping those already there. */
  lemma DebugOptions(s: Settings, p: Pending, host: Host)
    ensures StepFlag(s, p, DebugTree, None, host) == Success(Continue(s.(debugFlags := s.debugFlags + {TREE}), p))
    ensures StepFlag(s, p, DebugEntropy, None, host) == Success(Continue(s.(debugFlags := s.debugFlags + {ENTROPY}), p))
  {
  }

  // ---------------------------------------------------------------------------------------
  // The class

  /** What `Options(String[])` returns to its caller: the new object, or the exit it took. */
  datatype Parsed = Configured(opts: Options) | Halted(stop: Stop)

  /** The loop body's verdict on one option, once the setter it calls has run. */
  datatype Control = Go(pending: Pending) | Halt(stop: Stop)

  class Options {
    var algorithm: Option<string>
    var data: Option<DataSource>
    var salt: Option<seq<byte>>
    var output: string
    var outputFormat: Option<string>
    var width: int
    var height: int
    var animationMode: AnimationMode
    var duration: real
    var period: real
    var frameRate: real
    /** `debugFlags`, a `HashSet` the object only adds to. */
    var debugFlags: set<string>

    function Current(): Settings
      reads this
    {
      Settings(algorithm, data, salt, output, outputFormat, width, height, animationMode,
               duration, period, frameRate, debugFlags)
    }

    /** `Options()`: every field at its initialiser. */
    constructor ()
      ensures Current() == DEFAULTS
    {
      algorithm, data, salt := None, None, None;
      output, outputFormat, width, height := "output.png", None, 128, 128;
      animationMode, duration, period, frameRate := WRAP, 15.0, 15.0, 30.0;
      debugFlags := {};
    }

    method SetAlgorithm(generator: string)
      modifies this
      ensures Current() == old(Current()).(algorithm := Some(generator))
    {
      algorithm := Some(generator);
    }

    /** `setData(byte[])`: the data is read from the bytes given. */
    method SetDataBytes(bytes: seq<byte>)
      modifies this
      ensures Current() == old(Current()).(data := Some(Bytes(bytes)))
    {
      data := Some(Bytes(bytes));
    }

    /** `setData(String)`: the data is read from the named file, or standard input for `-`. */
    method SetDataFile(filename: string)
      modifies this
      ensures Current() == old(Current()).(data := Some(File(filename)))
    {
      data := Some(File(filename));
    }

    /** `setSalt(String, byte[])`: the normalised salt, or the algorithm's rejection. */
    method SetSaltBytes(algo: string, saltData: seq<byte>) returns (r: Result<(), Exception>)
      modifies this
      ensures r.Failure? <==> Seeds.AlgorithmOf(algo).Failure?
      ensures r.Failure? ==> r.error == InvalidAlgorithm && Current() == old(Current())
      ensures r.Success? ==> Current() == old(Current()).(salt := Some(Normalized(saltData, Seeds.SALT_SIZE)))
    {
      var s := NormalizeSaltBytes(algo, saltData);
      if s.Failure? {
        return Failure(s.error);
      }
      salt := Some(s.value);
      return Success(());
    }

    /** `setSalt(String, String)`: the salt read from the named file, or standard input for `-`. */
    method SetSaltFile(algo: string, filename: string, host: Host) returns (r: Result<(), Exception>)
      modifies this
      ensures r.Failure? <==> Seeds.AlgorithmOf(algo).Failure?
      ensures r.Failure? ==> r.error == InvalidAlgorithm && Current() == old(Current())
      ensures r.Success? ==> Current() == old(Current()).(salt := Some(Normalized(host.fileBytes(filename), Seeds.SALT_SIZE)))
    {
      var s := NormalizeSaltBytes(algo, host.fileBytes(filename));
      if s.Failure? {
        return Failure(s.error);
      }
      salt := Some(s.value);
      return Success(());
    }

    method SetOutput(name: string)
      modifies this
      ensures Current() == old(Current()).(output := name)
    {
      output := name;
    }

    method SetOutputFormat(fmt: string)
      modifies this
      ensures Current() == old(Current()).(outputFormat := Some(fmt))
    {
      outputFormat := Some(fmt);
    }

    method SetWidth(w: int)
      modifies this
      ensures Current() == old(Current()).(width := w)
    {
      width := w;
    }

    method SetHeight(h: int)
      modifies this
      ensures Current() == old(Current()).(height := h)
    {
      height := h;
    }

    method SetAnimationMode(m: AnimationMode)
      modifies this
      ensures Current() == old(Current()).(animationMode := m)
    {
      animationMode := m;
    }

    method SetDuration(x: real)
      modifies this
      ensures Current() == old(Current()).(duration := x)
    {
      duration := x;
    }

    method SetPeriod(x: real)
      modifies this
      ensures Current() == old(Current()).(period := x)
    {
      period := x;
    }

    method SetFrameRate(x: real)
      modifies this
      ensures Current() == old(Current()).(frameRate := x)
    {
      frameRate := x;
    }

    method SetDebugFlag(flag: string)
      modifies this
      ensures Current() == old(Current()).(debugFlags := old(debugFlags) + {flag})
      ensures HasDebugFlag(flag)
    {
      debugFlags := debugFlags + {flag};
    }

    /** `hasDebugFlag`: the flag has been set, by `setDebugFlag` or a debug option. */
    predicate HasDebugFlag(flag: string): (b: bool)
      reads this
      ensures b <==> flag in Current().debugFlags
    {
      flag in debugFlags
    }

    /** `hasADebugFlagSet`: the flags are tried in order and the first one set answers. */
    method HasADebugFlagSet(flags: seq<string>) returns (b: bool)
      ensures b <==> exists k :: 0 <= k < |flags| && flags[k] in debugFlags
    {
      var i := 0;
      while i < |flags|
        invariant 0 <= i <= |flags|
        invariant forall k :: 0 <= k < i ==> flags[k] !in debugFlags
      {
        if HasDebugFlag(flags[i]) {
          return true;
        }
        i := i + 1;
      }
      return false;
    }

    /**
     * `normalizeSaltBytes`: a zeroed buffer of the algorithm's salt size with the salt
     * copied to its front. Every known algorithm takes a salt of 64 bytes, so the source's
     * "does not take a salt" exit is never reached; an unknown algorithm throws
     * `InvalidAlgorithmException` from `getSaltSizeForAlgorithm`.
     */
    static method NormalizeSaltBytes(algorithm: string, salt: seq<byte>) returns (r: Result<seq<byte>, Exception>)
      ensures r.Failure? <==> Seeds.AlgorithmOf(algorithm).Failure?
      ensures r.Failure? ==> r.error == InvalidAlgorithm
      ensures r.Success? ==> r.value == Normalized(salt, Seeds.SALT_SIZE)
    {
      var size := Seeds.SaltSizeForAlgorithm(algorithm);
      if size.Failure? {
        return Failure(size.error);
      }
      var s := new byte[size.value](_ => 0);
      var cnt := if s.Length < |salt| then s.Length else |salt|;
      // System.arraycopy(salt, 0, s, 0, cnt)
      forall j | 0 <= j < cnt {
        s[j] := salt[j];
      }
      assert s[..] == Normalized(salt, Seeds.SALT_SIZE);
      return Success(s[..]);
    }

    /** One pass of the loop body: the branch the option selects, or "not recognized". */
    method Apply(arg: string, opt: Option<string>, p: Pending, host: Host) returns (r: Result<Control, Rejection>)
      requires TakesArgument(arg) ==> opt.Some?
      modifies this
      ensures r.Failure? ==> Step(old(Current()), p, arg, opt, host) == Failure(r.error)
      ensures r.Success? && r.value.Halt? ==> Step(old(Current()), p, arg, opt, host) == Success(Exit(r.value.stop))
      ensures r.Success? && r.value.Go? ==> Step(old(Current()), p, arg, opt, host) == Success(Continue(Current(), r.value.pending))
    {
      var f := FlagOf(arg);
      if f.None? {
        return Failure(Unrecognized(arg));
      }
      HaveArgIsValued(arg);
      r := ApplyFlag(f.value, opt, p, host);
    }

    /**
     * The branch for option `f`: its setter, or the local it records. A conversion that
     * fails throws before the setter runs.
     */
    method ApplyFlag(f: Flag, opt: Option<string>, p: Pending, host: Host) returns (r: Result<Control, Rejection>)
      requires TakesValue(f) ==> opt.Some?
      modifies this
      ensures r.Failure? ==> StepFlag(old(Current()), p, f, opt, host) == Failure(r.error)
      ensures r.Success? && r.value.Halt? ==> StepFlag(old(Current()), p, f, opt, host) == Success(Exit(r.value.stop))
      ensures r.Success? && r.value.Go? ==> StepFlag(old(Current()), p, f, opt, host) == Success(Continue(Current(), r.value.pending))
    {
      r := Success(Go(p));
      match f
      case Help => r := Success(Halt(ShowHelp(false)));
      case Version => r := Success(Halt(ShowVersion));
      case KnownAlgorithms => r := Success(Halt(ShowKnownAlgorithms));
      case Algorithm => SetAlgorithm(opt.value);
      case Data =>
        SetDataBytes(host.getBytes(opt.value));
        r := Success(Go(p.(haveData := p.haveData + 1)));
      case DataFile =>
        SetDataFile(opt.value);
        r := Success(Go(p.(dataFilename := opt, haveFile := p.haveFile + 1)));
      case Salt =>
        var b := host.base64(opt.value);
        r := if b.None? then Failure(BadBase64) else Success(Go(p.(saltBytes := b)));
      case SaltFile => r := Success(Go(p.(saltFilename := opt)));
      case Output => SetOutput(opt.value);
      case Format => SetOutputFormat(opt.value);
      case Width =>
        var n := host.decodeInt(opt.value);
        if n.None? {
          r := Failure(BadNumber(opt.value));
        } else {
          SetWidth(n.value);
        }
      case Height =>
        var n := host.decodeInt(opt.value);
        if n.None? {
          r := Failure(BadNumber(opt.value));
        } else {
          SetHeight(n.value);
        }
      case AnimateMode =>
        var m := ParseAnimationMode(opt.value);
        if m.Failure? {
          r := Failure(BadMode(opt.value));
        } else {
          SetAnimationMode(m.value);
        }
      case Duration =>
        var x := host.parseDouble(opt.value);
        if x.None? {
          r := Failure(BadNumber(opt.value));
        } else {
          SetDuration(x.value);
        }
      case Period =>
        var x := host.parseDouble(opt.value);
        if x.None? {
          r := Failure(BadNumber(opt.value));
        } else {
          SetPeriod(x.value);
        }
      case FrameRate =>
        var x := host.parseDouble(opt.value);
        if x.None? {
          r := Failure(BadNumber(opt.value));
        } else {
          SetFrameRate(x.value);
        }
      case DebugTree => SetDebugFlag(TREE);
      case DebugEntropy => SetDebugFlag(ENTROPY);
    }

    /**
     * `Options(String[])`: a lone "-h" prints the help with a warning and exits; otherwise
     * the arguments are read left to right, then the data, algorithm and salt are checked,
     * and the salt is set once the algorithm is known.
     */
    static method FromArgs(args: seq<string>, host: Host) returns (r: Result<Parsed, Rejection>)
      ensures r.Failure? <==> ParseArgs(args, host).Failure?
      ensures r.Failure? ==> r.error == ParseArgs(args, host).error
      ensures r.Success? && r.value.Halted? ==> ParseArgs(args, host) == Success(Exited(r.value.stop))
      ensures r.Success? && r.value.Configured? ==>
        fresh(r.value.opts) && ParseArgs(args, host) == Success(Ready(r.value.opts.Current()))
    {
      if |args| == 1 && args[0] == "-h" {
        return Success(Halted(ShowHelp(true)));
      }
      var o := new Options();
      var c := o.ReadArgs(args, host);
      if c.Failure? {
        return Failure(c.error);
      }
      match c.value
      case Halt(stop) => r := Success(Halted(stop));
      case Go(pend) => r := o.Check(pend, host);
    }

    /** The loop over the arguments, applying each option to this object in turn. */
    method ReadArgs(args: seq<string>, host: Host) returns (r: Result<Control, Rejection>)
      modifies this
      ensures r.Failure? ==> Scan(args, 0, old(Current()), NOTHING_PENDING, host) == Failure(r.error)
      ensures r.Success? && r.value.Halt? ==> Scan(args, 0, old(Current()), NOTHING_PENDING, host) == Success(Exit(r.value.stop))
      ensures r.Success? && r.value.Go? ==> Scan(args, 0, old(Current()), NOTHING_PENDING, host) == Success(Continue(Current(), r.value.pending))
    {
      var pend := NOTHING_PENDING;
      var i := 0;
      while i < |args|
        invariant 0 <= i <= |args|
        invariant Scan(args, i, Current(), pend, host) == Scan(args, 0, old(Current()), NOTHING_PENDING, host)
        decreases |args| - i
      {
        var j, c := ReadOption(args, i, pend, host);
        if c.Failure? || c.value.Halt? {
          return c;
        }
        i, pend := j, c.value.pending;
      }
      return Success(Go(pend));
    }

    /**
     * One turn of the loop: the option at `i`, with the next argument as its value when it
     * is in `_haveArg`; `j` is where the next turn starts.
     */
    method ReadOption(args: seq<string>, i: nat, p: Pending, host: Host) returns (j: nat, r: Result<Control, Rejection>)
      requires i < |args|
      modifies this
      ensures i < j <= |args|
      ensures r.Failure? ==> Scan(args, i, old(Current()), p, host) == Failure(r.error)
      ensures r.Success? && r.value.Halt? ==> Scan(args, i, old(Current()), p, host) == Success(Exit(r.value.stop))
      ensures r.Success? && r.value.Go? ==> Scan(args, i, old(Current()), p, host) == Scan(args, j, Current(), r.value.pending, host)
    {
      var arg := args[i];
      var opt: Option<string> := None;
      j := i + 1;
      if TakesArgument(arg) {
        if j == |args| {
          return j, Failure(NeedsArgument(arg));
        }
        opt := Some(args[j]);
        j := j + 1;
      }
      r := Apply(arg, opt, p, host);
    }

    /** The checks after the loop, then `setSalt` with whichever salt was given. */
    method Check(p: Pending, host: Host) returns (r: Result<Parsed, Rejection>)
      modifies this
      ensures r.Failure? <==> Validate(old(Current()), p, host).Failure?
      ensures r.Failure? ==> r.error == Validate(old(Current()), p, host).error
      ensures r.Success? ==> r.value == Configured(this) && Validate(old(Current()), p, host) == Success(Current())
    {
      if p.haveData > 1 {
        return Failure(DataTwice);
      }
      if p.haveFile > 1 {
        return Failure(FileTwice);
      }
      if p.haveData > 0 && p.haveFile > 0 {
        return Failure(DataAndFile);
      }
      if data.None? {
        return Failure(NoData);
      }
      if algorithm.None? {
        return Failure(NoAlgorithm);
      }
      if algorithm.value !in KNOWN_ALGORITHMS {
        return Failure(UnknownAlgorithm(algorithm.value));
      }
      if p.saltFilename.Some? && p.dataFilename.Some? && p.saltFilename.value == p.dataFilename.value {
        return Failure(SameFile);
      }
      if p.saltFilename.Some? && p.saltBytes.Some? {
        return Failure(TwoSalts);
      }
      KnownAlgorithmsAreSeeds(algorithm.value);
      if p.saltFilename.Some? {
        var _ := SetSaltFile(algorithm.value, p.saltFilename.value, host);
      } else if p.saltBytes.Some? {
        var _ := SetSaltBytes(algorithm.value, p.saltBytes.value);
      }
      return Success(Configured(this));
    }
  }
}
