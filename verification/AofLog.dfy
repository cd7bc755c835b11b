/** The append-only file as bytes: how aof.c prints commands and how the loader reads them back. */
module AofLog {

  newtype Byte = x: int | 0 <= x < 256
  type Bytes = seq<Byte>

  const STAR: Byte := 42
  const DOLLAR: Byte := 36
  const CR: Byte := 13
  const LF: Byte := 10
  const ZERO: Byte := 48
  const CRLF: Bytes := [CR, LF]
  const FGETS_ROOM: nat := 127 // fgets into a buffer of 128 bytes

  /** A command: its name followed by its arguments, all of them arbitrary byte strings. */
  type Command = seq<Bytes>

  // ---- Printing ----

  /** `ll2string` on a number that is not negative. */
  function Decimal(n: nat): (s: Bytes)
    ensures |s| > 0 && forall i :: 0 <= i < |s| ==> IsDigit(s[i])
  {
    if n < 10 then [ZERO + n as Byte] else Decimal(n / 10) + [ZERO + (n % 10) as Byte]
  }

  predicate IsDigit(b: Byte) { ZERO <= b <= ZERO + 9 }

  function PrintCount(prefix: Byte, n: nat): Bytes { [prefix] + Decimal(n) + CRLF }

  function PrintArg(arg: Bytes): Bytes { PrintCount(DOLLAR, |arg|) + arg + CRLF }

  function PrintArgs(args: seq<Bytes>): Bytes {
    if args == [] then [] else PrintArg(args[0]) + PrintArgs(args[1..])
  }

  /** `catAppendOnlyGenericCommand`. */
  function PrintCommand(argv: Command): Bytes { PrintCount(STAR, |argv|) + PrintArgs(argv) }

  function Print(log: seq<Command>): Bytes {
    if log == [] then [] else PrintCommand(log[0]) + Print(log[1..])
  }

  /** What the server can log: a count that fits an `int`, and lengths that fit a `long`. */
  predicate Loggable(argv: Command) {
    0 < |argv| < 0x8000_0000 && forall i :: 0 <= i < |argv| ==> |argv[i]| < 0x8000_0000_0000_0000
  }

  predicate LoggableAll(log: seq<Command>) { forall i :: 0 <= i < |log| ==> Loggable(log[i]) }

  // ---- Loading ----

  /** How many bytes `fgets` takes: through the first line feed, as far as there is room. */
  function LineLength(b: Bytes, room: nat): (n: nat)
    ensures n <= |b| && n <= room
    ensures b != [] && room > 0 ==> n > 0
  {
    if b == [] || room == 0 then 0
    else if b[0] == LF then 1
    else 1 + LineLength(b[1..], room - 1)
  }

  predicate IsSpace(b: Byte) { b == 32 || 9 <= b <= 13 }

  function ParseDigits(s: Bytes, acc: nat): nat {
    if s == [] || !IsDigit(s[0]) then acc else ParseDigits(s[1..], 10 * acc + (s[0] - ZERO) as int)
  }

  /** The number at the start of a line. */
  function ParseNumber(s: Bytes): int {
    if s == [] then 0
    else if IsSpace(s[0]) then ParseNumber(s[1..])
    else if s[0] == 45 then 0 - ParseDigits(s[1..], 0)
    else if s[0] == 43 then ParseDigits(s[1..], 0)
    else ParseDigits(s, 0)
  }

  const LONG_MAX := 0x7FFF_FFFF_FFFF_FFFF

  /** `strtol`, which saturates. */
  function Strtol(s: Bytes): (n: int)
    ensures -LONG_MAX - 1 <= n <= LONG_MAX
    ensures 0 <= ParseNumber(s) <= LONG_MAX ==> n == ParseNumber(s)
    ensures ParseNumber(s) >= 0 ==> n >= 0
  {
    var n := ParseNumber(s);
    if n > LONG_MAX then LONG_MAX else if n < -LONG_MAX - 1 then -LONG_MAX - 1 else n
  }

  /** `atoi`: a `long` cut to an `int`. */
  function Atoi(s: Bytes): (n: int)
    ensures 0 <= ParseNumber(s) < 0x8000_0000 ==> n == ParseNumber(s)
  {
    var low := Strtol(s) % 0x1_0000_0000;
    if low < 0x8000_0000 then low else low - 0x1_0000_0000
  }

  datatype Parsed<T> = Ok(value: T, rest: Bytes) | Fatal

  /** Reads one argument: the length line, the bytes, and two more bytes that are dropped. */
  function ParseArg(b: Bytes): (r: Parsed<Bytes>)
    ensures r.Ok? ==> |r.rest| < |b|
  {
    if b == [] then Fatal
    else
      var n := LineLength(b, FGETS_ROOM);
      if b[0] != DOLLAR then Fatal
      else
        var len := Strtol(b[1..n]);
        var rest := b[n..];
        if len < 0 || len > |rest| || |rest| - len < 2 then Fatal
        else Ok(rest[..len], rest[len + 2..])
  }

  function ParseArgs(b: Bytes, count: nat): (r: Parsed<seq<Bytes>>)
    ensures r.Ok? ==> |r.value| == count && |r.rest| + count <= |b|
  {
    if count == 0 then Ok([], b)
    else
      match ParseArg(b)
      case Fatal => Fatal
      case Ok(arg, rest) =>
        match ParseArgs(rest, count - 1)
        case Fatal => Fatal
        case Ok(args, rest') => Ok([arg] + args, rest')
  }

  /** Reads one command. */
  function ParseCommand(b: Bytes): (r: Parsed<Command>)
    requires b != []
    ensures r.Ok? ==> |r.rest| < |b| && r.value != []
  {
    var n := LineLength(b, FGETS_ROOM);
    if b[0] != STAR then Fatal
    else
      var argc := Atoi(b[1..n]);
      if argc < 1 then Fatal else ParseArgs(b[n..], argc)
  }

  datatype Loaded = Commands(log: seq<Command>) | Rejected

  /** The loop of `loadAppendOnlyFile`: reads commands until the end of the file. */
  function Load(b: Bytes): Loaded
    decreases |b|
  {
    if b == [] then Commands([])
    else
      match ParseCommand(b)
      case Fatal => Rejected
      case Ok(argv, rest) =>
        match Load(rest)
        case Rejected => Rejected
        case Commands(log) => Commands([argv] + log)
  }

  /** How GET k is logged: *2, $3, GET, $1 and k, each followed by a carriage return and a line feed. */
  lemma FormatOfGet()
    ensures PrintCommand([[71, 69, 84], [107]])
         == [42, 50, 13, 10, 36, 51, 13, 10, 71, 69, 84, 13, 10, 36, 49, 13, 10, 107, 13, 10]
  {
    var args: seq<Bytes> := [[71, 69, 84], [107]];
    assert args[1..] == [[107]];
    assert PrintArgs([[107]]) == PrintArg([107]) + [];
    assert PrintCommand(args) == [42, 50, 13, 10] + (PrintArg([71, 69, 84]) + PrintArg([107]));
    assert PrintArg([71, 69, 84]) == [36, 51, 13, 10, 71, 69, 84, 13, 10];
    assert PrintArg([107]) == [36, 49, 13, 10, 107, 13, 10];
  }

  // ---- What is read ----

  /** The data is a line that starts with `$` and a number, then as many bytes, two more, and the rest. */
  predicate IsArg(b: Bytes, line: Bytes, arg: Bytes, two: Bytes, rest: Bytes) {
    && b == line + arg + two + rest && |line| == LineLength(b, FGETS_ROOM) > 0 && |two| == 2
    && line[0] == DOLLAR && Strtol(line[1..]) == |arg|
  }

  lemma ArgIsRead(b: Bytes, line: Bytes, arg: Bytes, two: Bytes, rest: Bytes)
    requires IsArg(b, line, arg, two, rest)
    ensures ParseArg(b) == Ok(arg, rest)
  {
    hide Strtol, LineLength;
    var n := |line|;
    assert b[..n] == line && b[1..n] == line[1..];
    assert b[n..] == arg + two + rest;
    assert (arg + two + rest)[..|arg|] == arg && (arg + two + rest)[|arg| + 2..] == rest;
  }

  /** An argument is accepted exactly when the data is of that form. */
  lemma ReadIsArg(b: Bytes) returns (line: Bytes, two: Bytes)
    requires ParseArg(b).Ok?
    ensures IsArg(b, line, ParseArg(b).value, two, ParseArg(b).rest)
  {
    hide Strtol, LineLength;
    var n := LineLength(b, FGETS_ROOM);
    var len := Strtol(b[1..n]);
    line, two := b[..n], b[n + len..n + len + 2];
    assert line[1..] == b[1..n];
    assert b[n..][..len] == b[n..n + len] && b[n..][len + 2..] == b[n + len + 2..];
  }

  /** What follows the first `k` arguments. */
  ghost predicate ArgsAre(b: Bytes, args: seq<Bytes>, rest: Bytes)
    decreases |args|
  {
    if args == [] then rest == b
    else exists next :: ParseArg(b) == Ok(args[0], next) && ArgsAre(next, args[1..], rest)
  }

  lemma {:induction false} ArgsIff(b: Bytes, args: seq<Bytes>, rest: Bytes)
    ensures ParseArgs(b, |args|) == Ok(args, rest) <==> ArgsAre(b, args, rest)
    decreases |args|
  {
    hide ParseArg;
    if args != [] {
      match ParseArg(b)
      case Fatal =>
      case Ok(arg, next) =>
        ArgsIff(next, args[1..], rest);
        match ParseArgs(next, |args| - 1)
        case Fatal =>
        case Ok(more, rest') =>
          assert args == [args[0]] + args[1..];
          assert [arg] + more == args <==> arg == args[0] && more == args[1..] by {
            assert ([arg] + more)[0] == arg && ([arg] + more)[1..] == more;
          }
    }
  }

  /** A command is accepted exactly when the data is a line that starts with `*` and a positive number, followed by
      as many arguments. */
  lemma CommandIff(b: Bytes, argv: Command, rest: Bytes)
    requires b != []
    ensures ParseCommand(b) == Ok(argv, rest) <==>
            && b[0] == STAR && argv != []
            && var n := LineLength(b, FGETS_ROOM);
               Atoi(b[1..n]) == |argv| && ArgsAre(b[n..], argv, rest)
  {
    hide Atoi, LineLength, ParseArg;
    var n := LineLength(b, FGETS_ROOM);
    var argc := Atoi(b[1..n]);
    ArgsIff(b[n..], argv, rest);
  }

  /** A line ends with the first line feed, or is cut where `fgets` has no more room, or ends with the data. */
  lemma {:induction false} LineIs(b: Bytes, room: nat)
    ensures var n := LineLength(b, room);
            && (forall i :: 0 <= i < n - 1 ==> b[i] != LF)
            && (n == room || n == |b| || (n > 0 && b[n - 1] == LF))
  {
    if b != [] && room > 0 && b[0] != LF {
      LineIs(b[1..], room - 1);
      var n := LineLength(b[1..], room - 1);
      forall i | 0 <= i < n ensures b[i] != LF {
        if i > 0 { assert b[i] == b[1..][i - 1]; }
      }
    }
  }

  /** A line without a line feed among its first 127 bytes is cut there. */
  lemma LongLineIsCut(b: Bytes)
    requires |b| >= 127 && forall i :: 0 <= i < 127 ==> b[i] != LF
    ensures LineLength(b, FGETS_ROOM) == 127
  {
    LineIs(b, FGETS_ROOM);
  }

  // ---- Reading back what was printed ----

  function Pow10(k: nat): nat { if k == 0 then 1 else 10 * Pow10(k - 1) }

  lemma {:induction false} DecimalLength(n: nat, k: nat)
    requires 0 < k && n < Pow10(k)
    ensures |Decimal(n)| <= k
  {
    if n >= 10 {
      DecimalLength(n / 10, k - 1);
    }
  }

  lemma {:induction false} DecimalParses(n: nat, s: Bytes)
    ensures ParseDigits(Decimal(n) + s, 0) == ParseDigits(s, n)
  {
    if n < 10 {
      assert (Decimal(n) + s)[1..] == s;
    } else {
      var d := [ZERO + (n % 10) as Byte];
      DecimalParses(n / 10, d + s);
      assert Decimal(n) + s == Decimal(n / 10) + (d + s);
      assert (d + s)[1..] == s;
    }
  }

  lemma {:induction false} LineEnds(a: Bytes, s: Bytes, room: nat)
    requires |a| < room && forall i :: 0 <= i < |a| ==> a[i] != LF
    ensures LineLength(a + [LF] + s, room) == |a| + 1
    ensures LineLength(a, room) == |a|
  {
    if a == [] {
      assert (a + [LF] + s)[0] == LF;
    } else {
      LineEnds(a[1..], s, room - 1);
      assert (a + [LF] + s)[1..] == a[1..] + [LF] + s;
    }
  }

  lemma ShortDecimal(n: nat)
    requires n < 0x8000_0000_0000_0000
    ensures |Decimal(n)| <= 19
  {
    assert Pow10(19) == 10_000_000_000_000_000_000 by {
      assert Pow10(4) == 10_000 && Pow10(5) == 100_000;
      assert Pow10(9) == 1_000_000_000;
      assert Pow10(14) == 100_000_000_000_000;
    }
    DecimalLength(n, 19);
  }

  /** The printed count line is read as one line and yields the count. */
  lemma CountParses(prefix: Byte, n: nat, s: Bytes)
    requires n < 0x8000_0000_0000_0000 && prefix != LF
    ensures var b := PrintCount(prefix, n) + s;
            && LineLength(b, FGETS_ROOM) == |PrintCount(prefix, n)|
            && b[0] == prefix
            && ParseNumber(b[1..|PrintCount(prefix, n)|]) == n
            && b[|PrintCount(prefix, n)|..] == s
  {
    var d := Decimal(n);
    var b := PrintCount(prefix, n) + s;
    ShortDecimal(n);
    assert b == ([prefix] + d + [CR]) + [LF] + s;
    LineEnds([prefix] + d + [CR], s, FGETS_ROOM);
    assert b[1..|PrintCount(prefix, n)|] == d + CRLF;
    DecimalParses(n, CRLF);
    assert (d + CRLF)[0] == d[0];
  }

  lemma ArgParses(arg: Bytes, s: Bytes)
    requires |arg| < 0x8000_0000_0000_0000
    ensures ParseArg(PrintArg(arg) + s) == Ok(arg, s)
  {
    var tail := arg + CRLF + s;
    assert PrintArg(arg) + s == PrintCount(DOLLAR, |arg|) + tail;
    CountParses(DOLLAR, |arg|, tail);
    assert tail[..|arg|] == arg && tail[|arg| + 2..] == s;
  }

  lemma {:induction false} ArgsParse(args: seq<Bytes>, s: Bytes)
    requires forall i :: 0 <= i < |args| ==> |args[i]| < 0x8000_0000_0000_0000
    ensures ParseArgs(PrintArgs(args) + s, |args|) == Ok(args, s)
  {
    hide PrintArg, ParseArg;
    if args == [] {
      assert PrintArgs(args) + s == s;
    } else {
      ArgParses(args[0], PrintArgs(args[1..]) + s);
      assert PrintArgs(args) + s == PrintArg(args[0]) + (PrintArgs(args[1..]) + s);
      ArgsParse(args[1..], s);
      assert [args[0]] + args[1..] == args;
    }
  }

  lemma CommandParses(argv: Command, s: Bytes)
    requires Loggable(argv)
    ensures PrintCommand(argv) != []
    ensures ParseCommand(PrintCommand(argv) + s) == Ok(argv, s)
  {
    assert PrintCommand(argv) + s == PrintCount(STAR, |argv|) + (PrintArgs(argv) + s);
    CountParses(STAR, |argv|, PrintArgs(argv) + s);
    ArgsParse(argv, s);
  }

  /** Round trip: loading a printed log returns the commands, however many, whatever bytes they hold. */
  lemma {:induction false} LoadPrinted(log: seq<Command>)
    requires LoggableAll(log)
    ensures Load(Print(log)) == Commands(log)
  {
    hide PrintCommand, ParseCommand, Loggable;
    if log != [] {
      CommandParses(log[0], Print(log[1..]));
      LoadPrinted(log[1..]);
      assert [log[0]] + log[1..] == log;
    }
  }

  // ---- Appended files ----

  /** A line that ends before the data does is not changed by more data. */
  lemma {:induction false} LineAppend(b: Bytes, x: Bytes, room: nat)
    requires LineLength(b, room) < |b|
    ensures LineLength(b + x, room) == LineLength(b, room)
  {
    if room > 0 && b[0] != LF {
      LineAppend(b[1..], x, room - 1);
      assert (b + x)[1..] == b[1..] + x;
    }
  }

  lemma ArgAppend(b: Bytes, x: Bytes)
    requires ParseArg(b).Ok?
    ensures ParseArg(b + x) == Ok(ParseArg(b).value, ParseArg(b).rest + x)
  {
    hide Strtol;
    var n := LineLength(b, FGETS_ROOM);
    LineAppend(b, x, FGETS_ROOM);
    var rest := b[n..];
    var len := Strtol(b[1..n]);
    assert (b + x)[1..n] == b[1..n] && (b + x)[n..] == rest + x;
    assert (rest + x)[..len] == rest[..len] && (rest + x)[len + 2..] == rest[len + 2..] + x;
  }

  lemma {:induction false} ArgsAppend(b: Bytes, x: Bytes, count: nat)
    requires ParseArgs(b, count).Ok?
    ensures ParseArgs(b + x, count) == Ok(ParseArgs(b, count).value, ParseArgs(b, count).rest + x)
    decreases count
  {
    hide ParseArg;
    if count > 0 {
      ArgAppend(b, x);
      ArgsAppend(ParseArg(b).rest, x, count - 1);
    }
  }

  lemma CommandAppend(b: Bytes, x: Bytes)
    requires b != [] && ParseCommand(b).Ok?
    ensures ParseCommand(b + x) == Ok(ParseCommand(b).value, ParseCommand(b).rest + x)
  {
    hide Atoi, LineLength;
    var n := LineLength(b, FGETS_ROOM);
    var argc := Atoi(b[1..n]);
    assert n < |b| by { assert ParseArgs([], argc).Fatal?; }
    LineAppend(b, x, FGETS_ROOM);
    assert (b + x)[1..n] == b[1..n] && (b + x)[n..] == b[n..] + x;
    ArgsAppend(b[n..], x, argc);
  }

  /** Loading a file that loads, followed by more bytes, gives its commands and then what the rest gives. */
  lemma {:induction false} LoadAppend(b: Bytes, x: Bytes)
    requires Load(b).Commands?
    ensures Load(b + x) == match Load(x) case Rejected => Rejected case Commands(more) => Commands(Load(b).log + more)
    decreases |b|
  {
    hide ParseCommand;
    if b == [] {
      assert b + x == x;
    } else {
      var p := ParseCommand(b);
      CommandAppend(b, x);
      LoadAppend(p.rest, x);
      if Load(x).Commands? {
        var more := Load(x).log;
        assert [p.value] + (Load(p.rest).log + more) == [p.value] + Load(p.rest).log + more;
      }
    }
  }

  // ---- Truncated files ----

  /** A line cut short by the end of the file is still read as one line. */
  lemma CutLine(prefix: Byte, n: nat, p: Bytes)
    requires n < 0x8000_0000_0000_0000 && prefix != LF
    requires p < PrintCount(prefix, n) && p != []
    ensures LineLength(p, FGETS_ROOM) == |p| && p[0] == prefix && ParseNumber(p[1..]) >= 0
  {
    ShortDecimal(n);
    LineEnds(p, [], FGETS_ROOM);
    var s := p[1..];
    if s != [] {
      assert s[0] == PrintCount(prefix, n)[1] == (Decimal(n) + CRLF)[0];
    }
  }

  lemma CutArg(arg: Bytes, p: Bytes)
    requires |arg| < 0x8000_0000_0000_0000 && p < PrintArg(arg)
    ensures ParseArg(p) == Fatal
  {
    var c := PrintCount(DOLLAR, |arg|);
    if p == [] {
    } else if |p| < |c| {
      assert p == PrintArg(arg)[..|p|] == c[..|p|];
      CutLine(DOLLAR, |arg|, p);
    } else {
      var q := p[|c|..];
      assert p == c + q;
      CountParses(DOLLAR, |arg|, q);
    }
  }

  lemma {:induction false} CutArgs(args: seq<Bytes>, p: Bytes)
    requires forall i :: 0 <= i < |args| ==> |args[i]| < 0x8000_0000_0000_0000
    requires p < PrintArgs(args)
    ensures ParseArgs(p, |args|) == Fatal
  {
    var a := PrintArg(args[0]);
    if |p| < |a| {
      assert p == PrintArgs(args)[..|p|] == a[..|p|];
      CutArg(args[0], p);
    } else {
      var q := p[|a|..];
      assert p == a + q && q == PrintArgs(args)[..|p|][|a|..] == PrintArgs(args[1..])[..|q|];
      ArgParses(args[0], q);
      CutArgs(args[1..], q);
    }
  }

  /** A command cut anywhere inside is a fatal error. */
  lemma CutCommand(argv: Command, p: Bytes)
    requires Loggable(argv) && p != [] && p < PrintCommand(argv)
    ensures ParseCommand(p) == Fatal
  {
    var c := PrintCount(STAR, |argv|);
    if |p| < |c| {
      assert p == PrintCommand(argv)[..|p|] == c[..|p|];
      CutLine(STAR, |argv|, p);
    } else {
      var q := p[|c|..];
      assert p == c + q && q == PrintCommand(argv)[..|p|][|c|..] == PrintArgs(argv)[..|q|];
      CountParses(STAR, |argv|, q);
      CutArgs(argv, q);
    }
  }

  /** Truncation: a prefix of a printed log is accepted exactly if it ends on a command boundary, and then
      it loads the commands before the boundary; any other prefix is rejected. */
  lemma {:induction false} LoadPrefix(log: seq<Command>, p: Bytes)
    requires LoggableAll(log) && p <= Print(log)
    ensures Load(p) != Rejected <==> exists i :: 0 <= i <= |log| && p == Print(log[..i])
    ensures forall i :: 0 <= i <= |log| && p == Print(log[..i]) ==> Load(p) == Commands(log[..i])
  {
    forall i | 0 <= i <= |log| && p == Print(log[..i]) ensures Load(p) == Commands(log[..i]) {
      LoadPrinted(log[..i]);
    }
    if Load(p) != Rejected {
      var i := BoundaryOf(log, p);
    }
  }

  /** Where an accepted prefix ends. */
  lemma {:induction false} BoundaryOf(log: seq<Command>, p: Bytes) returns (i: nat)
    requires LoggableAll(log) && p <= Print(log) && Load(p) != Rejected
    ensures i <= |log| && p == Print(log[..i])
  {
    hide PrintCommand, ParseCommand, Loggable;
    if p == [] {
      return 0;
    }
    var c := PrintCommand(log[0]);
    if |p| < |c| {
      assert p == Print(log)[..|p|] == c[..|p|];
      CutCommand(log[0], p);
    }
    var q := p[|c|..];
    assert p == c + q && q == Print(log)[..|p|][|c|..] == Print(log[1..])[..|q|];
    CommandParses(log[0], q);
    var j := BoundaryOf(log[1..], q);
    i := j + 1;
    assert log[..i] == [log[0]] + log[1..][..j];
    assert log[..i][1..] == log[1..][..j];
  }

  // ---- The loops of aof.c ----

  lemma {:induction false} PrintArgsSnoc(args: seq<Bytes>, arg: Bytes)
    ensures PrintArgs(args + [arg]) == PrintArgs(args) + PrintArg(arg)
  {
    if args == [] {
      assert PrintArgs([arg]) == PrintArg(arg) + [] == [] + PrintArg(arg);
    } else {
      PrintArgsSnoc(args[1..], arg);
      assert (args + [arg])[1..] == args[1..] + [arg];
      assert PrintArg(args[0]) + (PrintArgs(args[1..]) + PrintArg(arg)) == PrintArgs(args) + PrintArg(arg);
    }
  }

  lemma NoArgs()
    ensures PrintArgs([]) == []
  {}

  /** `catAppendOnlyGenericCommand`: appends one command to a buffer. */
  method CatCommand(dst: Bytes, argv: Command) returns (r: Bytes)
    ensures r == dst + PrintCommand(argv)
  {
    hide PrintCount, PrintArgs;
    r := dst + PrintCount(STAR, |argv|);
    NoArgs();
    for j := 0 to |argv|
      invariant r == dst + PrintCount(STAR, |argv|) + PrintArgs(argv[..j])
    {
      r := r + PrintCount(DOLLAR, |argv[j]|);
      r := r + argv[j];
      r := r + CRLF;
      PrintArgsSnoc(argv[..j], argv[j]);
      assert argv[..j] + [argv[j]] == argv[..j + 1];
    }
    assert argv[..|argv|] == argv;
  }

  function LowerCase(s: Bytes): Bytes {
    seq(|s|, i requires 0 <= i < |s| => if 65 <= s[i] <= 90 then s[i] + 32 else s[i])
  }

  const MULTI: Bytes := [109, 117, 108, 116, 105]
  const EXEC: Bytes := [101, 120, 101, 99]
  const DISCARD: Bytes := [100, 105, 115, 99, 97, 114, 100]

  /** Whether the fake client is inside MULTI after the commands. */
  function InMulti(log: seq<Command>, flag: bool): bool {
    if log == [] then flag
    else
      var name := if log[0] == [] then [] else LowerCase(log[0][0]);
      InMulti(log[1..], if name == MULTI then true else if name == EXEC || name == DISCARD then false else flag)
  }

  lemma {:induction false} InMultiSnoc(log: seq<Command>, c: Command, flag: bool)
    ensures InMulti(log + [c], flag) == InMulti([c], InMulti(log, flag))
  {
    if log != [] {
      var name := if log[0] == [] then [] else LowerCase(log[0][0]);
      InMultiSnoc(log[1..], c, if name == MULTI then true else if name == EXEC || name == DISCARD then false else flag);
      assert (log + [c])[1..] == log[1..] + [c];
    } else {
      assert log + [c] == [c];
    }
  }

  /** What `loadAppendOnlyFile` does: report an empty file, exit, or have executed these commands. */
  datatype LoadResult = EmptyFile | Exit | Executed(log: seq<Command>)

  predicate Executable(known: Bytes -> bool, log: seq<Command>) {
    && (forall i :: 0 <= i < |log| ==> log[i] != [] && known(log[i][0]))
    && !InMulti(log, false)
  }

  /** `loadAppendOnlyFile`: executes the commands one after another; an unreadable or unknown command, and
      a file that ends inside MULTI, make the server exit. */
  method LoadAppendOnlyFile(b: Bytes, known: Bytes -> bool) returns (r: LoadResult)
    ensures r == if b == [] then EmptyFile
                 else match Load(b)
                      case Rejected => Exit
                      case Commands(log) => if Executable(known, log) then Executed(log) else Exit
  {
    hide ParseCommand;
    if b == [] { return EmptyFile; }
    var pos, log, multi := 0, [], false;
    while pos < |b|
      invariant pos <= |b| && multi == InMulti(log, false)
      invariant Load(b) == match Load(b[pos..]) case Rejected => Rejected case Commands(rest) => Commands(log + rest)
      invariant forall i :: 0 <= i < |log| ==> log[i] != [] && known(log[i][0])
      decreases |b| - pos
    {
      var p := ReadCommand(b, pos);
      match p
      case Fatal =>
        return Exit;
      case Ok(argv, rest) =>
        forall more ensures log + ([argv] + more) == (log + [argv]) + more {}
        if !known(argv[0]) {
          UnknownInside(b, log, argv, rest);
          return Exit;
        }
        InMultiSnoc(log, argv, false);
        assert b[|b| - |rest|..] == rest;
        multi, log, pos := InMulti([argv], multi), log + [argv], |b| - |rest|;
    }
    assert b[pos..] == [] && log + [] == log;
    r := if multi then Exit else Executed(log);
  }

  lemma UnknownInside(b: Bytes, log: seq<Command>, argv: Command, rest: Bytes)
    requires Load(b)
        == match Load(rest) case Rejected => Rejected case Commands(more) => Commands(log + ([argv] + more))
    ensures Load(b).Commands? ==> |log| < |Load(b).log| && Load(b).log[|log|] == argv
  {}

  /** Reads one command at a position of the file. */
  method ReadCommand(b: Bytes, pos: nat) returns (r: Parsed<Command>)
    requires pos < |b|
    ensures r == ParseCommand(b[pos..])
    ensures r.Ok? ==> |r.rest| < |b| - pos && b[|b| - |r.rest|..] == r.rest
  {
    hide LineLength, Atoi, ParseArg;
    var n := LineLength(b[pos..], FGETS_ROOM);
    if b[pos] != STAR { return Fatal; }
    var argc := Atoi(b[pos..][1..n]);
    if argc < 1 { return Fatal; }
    var at, argv := pos + n, [];
    var j := 0;
    assert b[pos..][n..] == b[at..];
    forall args: seq<Bytes> ensures [] + args == args {}
    while j < argc
      invariant 0 <= j <= argc && |argv| == j && pos < at <= |b|
      invariant ParseCommand(b[pos..])
                == match ParseArgs(b[at..], argc - j) case Fatal => Fatal case Ok(args, rest) => Ok(argv + args, rest)
    {
      var a := ParseArg(b[at..]);
      match a
      case Fatal =>
        return Fatal;
      case Ok(arg, rest) =>
        forall args: seq<Bytes> ensures argv + ([arg] + args) == (argv + [arg]) + args {}
        ArgRest(b[at..]);
        assert b[|b| - |rest|..] == rest;
        argv, at, j := argv + [arg], |b| - |rest|, j + 1;
    }
    assert argv + [] == argv;
    r := Ok(argv, b[at..]);
  }

  lemma ArgRest(b: Bytes)
    ensures ParseArg(b).Ok? ==> |ParseArg(b).rest| < |b| && ParseArg(b).rest == b[|b| - |ParseArg(b).rest|..]
  {}
}
