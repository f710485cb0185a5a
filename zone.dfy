/**
  The legacy zone-file reader of tools/lib/zone.py (load_zones).

  A zone file is given as its lines, each without its '\n'; the file position is
  an index into that sequence.  Reading happens in two passes: a pre-scan that
  estimates how many reset commands the file holds, then a parse of the header
  ('#' and the zone number), the name, the numeric constants and the commands.
  Every place where the code logs an error and exits becomes one ZoneError.
 */
module Zone {
  import opened Results
  import opened Text
  import opened Seqs

  /** One reset command (struct reset_com).  The reader never sets `line`: it stays 0. */
  datatype ResetCommand = ResetCommand(
    command: char,
    ifFlag: nat,
    arg1: nat,
    arg2: nat,
    arg3: nat,
    line: nat,
    comment: string)

  /** The command appended for an 'S' or '$' line: code 'S', every other field at its default. */
  const StopCommand := ResetCommand('S', 0, 0, 0, 0, 0, "")

  datatype ZoneData = ZoneData(
    number: int,
    name: string,
    bot: int,
    top: int,
    lifespan: int,
    resetMode: int,
    cmd: seq<ResetCommand>)

  /** One variant per place where the reader logs an error and exits. */
  datatype ZoneError =
    | EmptyZone(zonename: string)
    | MissingHeader(zonename: string)
    | HeaderWithoutHash(zonename: string, lineNum: nat)
    | HeaderNotNumber(zonename: string, lineNum: nat)
    | NameEof(zonename: string)
    | ConstantsEof(zonename: string)
    | ConstantsFormat(zonename: string)
    | BottomAboveTop(number: int, bot: int, top: int)
    | PrematureEof(zonename: string)
    | FourArgFormat(zonename: string, lineNum: nat, text: string)
    | ThreeArgFormat(zonename: string, lineNum: nat, text: string)
    | CountMismatch(zonename: string, estimated: nat, actual: nat)

  /** get_line: the line at the cursor and how many lines were read (none and 0 at the end of the file). */
  method GetLine(lines: seq<string>, pos: nat) returns (line: Option<string>, linesRead: nat)
    ensures pos < |lines| ==> line == Some(lines[pos]) && linesRead == 1
    ensures pos >= |lines| ==> line == None && linesRead == 0
  {
    if pos < |lines| {
      line, linesRead := Some(lines[pos]), 1;
    } else {
      line, linesRead := None, 0;
    }
  }

  /** skip_spaces: leading whitespace removed. */
  function SkipSpaces(line: string): string
  {
    if line == [] then line else LStrip(line)
  }

  // ---------------------------------------------------------------------------
  // The pre-scan

  /** The pre-scan's test: a letter of MOPGERD followed by a space, or a line that is exactly "S". */
  predicate CountsAsCommand(line: string)
  {
    line != [] && ((line[0] in "MOPGERD" && |line| > 1 && line[1] == ' ') || (line[0] == 'S' && |line| == 1))
  }

  /** How many lines of s pass the pre-scan's test. */
  function QualifyingCount(s: seq<string>): (n: nat)
    ensures n <= |s|
  {
    if s == [] then 0
    else QualifyingCount(s[..|s| - 1]) + (if CountsAsCommand(s[|s| - 1]) then 1 else 0)
  }

  /** Counting one more line of a slice. */
  lemma QualifyingCountSnoc(lines: seq<string>, start: nat, pos: nat)
    requires start <= pos < |lines|
    ensures QualifyingCount(lines[start..pos + 1])
            == QualifyingCount(lines[start..pos]) + (if CountsAsCommand(lines[pos]) then 1 else 0)
  {
    SliceSnoc(lines, start, pos);
    assert lines[start..pos + 1][..pos - start] == lines[start..pos];
  }

  /** The index of the first blank line at or after `from`, or the number of lines if there is none. */
  function BlankOrEnd(lines: seq<string>, from: nat): (k: nat)
    requires from <= |lines|
    ensures from <= k <= |lines|
    ensures forall j :: from <= j < k ==> lines[j] != []
    ensures k < |lines| ==> lines[k] == []
    decreases |lines| - from
  {
    if from == |lines| || lines[from] == [] then from else BlankOrEnd(lines, from + 1)
  }

  /** A non-blank line at or before the first blank line lies before it. */
  lemma BlankOrEndPast(lines: seq<string>, from: nat, p: nat)
    requires from <= p < |lines| && p <= BlankOrEnd(lines, from) && lines[p] != []
    ensures p < BlankOrEnd(lines, from)
  {
  }

  /** The count the pre-scan produces.  Three lines are skipped.  The first counting
      loop reads the next line; when it is not blank it is counted and the file is
      moved back to it, so the second loop counts it again; when it is blank the
      second loop starts after it.  The second loop stops at a blank line or at the
      end of the file. */
  function PreScanCount(lines: seq<string>): nat
  {
    var c := if |lines| < 3 then |lines| else 3;
    if c == |lines| then 0
    else if lines[c] == [] then QualifyingCount(lines[c + 1..BlankOrEnd(lines, c + 1)])
    else (if CountsAsCommand(lines[c]) then 1 else 0) + QualifyingCount(lines[c..BlankOrEnd(lines, c)])
  }

  /** Where the second counting loop starts, and what the first one has counted, determine the pre-scan. */
  lemma PreScanFromCursor(lines: seq<string>, start: nat, first: nat)
    requires start <= |lines|
    requires |lines| <= 3 ==> start == |lines| && first == 0
    requires |lines| > 3 && lines[3] == [] ==> start == 4 && first == 0
    requires |lines| > 3 && lines[3] != [] ==> start == 3 && first == (if CountsAsCommand(lines[3]) then 1 else 0)
    ensures first + QualifyingCount(lines[start..BlankOrEnd(lines, start)]) == PreScanCount(lines)
  {
    if |lines| <= 3 {
      assert lines[start..start] == [];
    }
  }

  /** A blank line, or the end, that the scan has reached is where it stops. */
  lemma BlankOrEndAt(lines: seq<string>, from: nat, p: nat)
    requires from <= |lines| && from <= p <= BlankOrEnd(lines, from) && (p == |lines| || lines[p] == [])
    ensures p == BlankOrEnd(lines, from)
  {
  }

  /** Lines 96-130: the pre-scan, with the cursor moved by reads and seeks. */
  method CountCommands(lines: seq<string>) returns (numOfCmds: nat)
    ensures numOfCmds == PreScanCount(lines)
  {
    var pos := 0;
    var lineNum := 0;
    numOfCmds := 0;
    var line: Option<string>;
    var linesRead: nat;
    // Skip the first three lines.
    for k := 0 to 3
      invariant pos == if k < |lines| then k else |lines|
    {
      line, linesRead := GetLine(lines, pos);
      pos := pos + linesRead;
      lineNum := lineNum + linesRead;
    }
    // The first counting loop leaves in its first pass, so its body runs exactly once.
    var position := pos;
    line, linesRead := GetLine(lines, pos);
    pos := pos + linesRead;
    if line.Some? && line.value != [] {
      lineNum := lineNum + linesRead;
      if CountsAsCommand(line.value) {
        numOfCmds := numOfCmds + 1;
      }
      pos := position;
    }
    // The second loop counts up to the first blank line or the end of the file.
    PreScanFromCursor(lines, pos, numOfCmds);
    var counted := CountRun(lines, pos);
    numOfCmds := numOfCmds + counted;
  }

  /** Lines 120-130: the second counting loop, from the cursor `start` up to the first blank
      line or the end of the file. */
  method CountRun(lines: seq<string>, start: nat) returns (counted: nat)
    requires start <= |lines|
    ensures counted == QualifyingCount(lines[start..BlankOrEnd(lines, start)])
  {
    var pos := start;
    var position := pos;
    counted := 0;
    while true
      invariant start <= position <= pos <= BlankOrEnd(lines, start)
      invariant counted == QualifyingCount(lines[start..pos])
      decreases |lines| - pos
    {
      position := pos;
      var line, linesRead := GetLine(lines, pos);
      pos := pos + linesRead;
      if line.None? || line.value == [] {
        BlankOrEndAt(lines, start, position);
        break;
      }
      BlankOrEndPast(lines, start, pos - 1);
      QualifyingCountSnoc(lines, start, pos - 1);
      if CountsAsCommand(line.value) {
        counted := counted + 1;
      }
    }
  }

  // ---------------------------------------------------------------------------
  // The header, the name and the numeric constants

  /** The zone name: the line up to its first '~', or the whole line when it has none. */
  function ZoneName(line: string): (name: string)
    ensures |name| <= |line| && name == line[..|name|] && '~' !in name
    ensures |name| < |line| ==> line[|name|] == '~'
  {
    var idx := Find(line, '~');
    if idx != -1 then line[..idx] else line
  }

  /** The third line of a zone file: the room range, the lifespan and the reset mode. */
  datatype ZoneConstants = ZoneConstants(bot: int, top: int, lifespan: int, resetMode: int)

  /** Lines 185-193: the first four whitespace-separated words of the line, each read with
      int(); further words are ignored. */
  function ParseConstants(line: string): Option<ZoneConstants>
  {
    var parts := Split(line);
    if |parts| < 4 then None
    else
      var bot, top, lifespan, resetMode := ParseInt(parts[0]), ParseInt(parts[1]), ParseInt(parts[2]), ParseInt(parts[3]);
      if bot.Some? && top.Some? && lifespan.Some? && resetMode.Some? then
        Some(ZoneConstants(bot.value, top.value, lifespan.value, resetMode.value))
      else None
  }

  // ---------------------------------------------------------------------------
  // The commands

  /** The regular expression (\d+)\s+(\d+) ... (\d+) with n digit groups, anchored at the start
      of s, and what follows the last group.  A digit group can only end where a non-digit
      follows and a space group where a non-space follows, so each group is the longest run
      and the match is unique. */
  function MatchInts(s: string, n: nat): (r: Option<(seq<nat>, string)>)
    requires n >= 1
    ensures r.Some? ==> |r.value.0| == n
    decreases n
  {
    var d := DigitRun(s);
    if d == 0 then None
    else
      var v := DigitsValue(s[..d]);
      if n == 1 then Some(([v], s[d..]))
      else
        var w := SpaceRun(s[d..]);
        if w == 0 then None
        else
          match MatchInts(s[d + w..], n - 1)
          case None => None
          case Some((vs, rest)) => Some(([v] + vs, rest))
  }

  /** re.match(r'^\s*(\d+)\s+ ... (\d+)(.*)$', s) with n digit groups: the last group is what
      (.*) takes, and since '.' does not match '\n' and '$' may only stand before a final
      '\n', a '\n' anywhere else makes the match fail. */
  function MatchArgs(s: string, n: nat): (r: Option<(seq<nat>, string)>)
    requires n >= 1
    ensures r.Some? ==> |r.value.0| == n && '\n' !in r.value.1
  {
    match MatchInts(LStrip(s), n)
    case None => None
    case Some((vs, rest)) =>
      var tail := if rest != [] && rest[|rest| - 1] == '\n' then rest[..|rest| - 1] else rest;
      if '\n' in tail then None else Some((vs, tail))
  }

  /** A command line (already without leading whitespace): the letter, then the stripped rest
      must start with four unsigned integers for M, O, E, P and D and with three for any other
      letter; what follows the integers, stripped, is the comment. */
  function ParseCommand(line: string): (r: Option<ResetCommand>)
    requires line != []
    ensures r.Some? ==> r.value.command == line[0] && r.value.line == 0
    ensures r.Some? ==> IsStripped(r.value.comment) && '\n' !in r.value.comment
    ensures r.Some? && line[0] !in "MOEPD" ==> r.value.arg3 == 0
  {
    var code := line[0];
    var argsStr := Strip(line[1..]);
    if code in "MOEPD" then
      match MatchArgs(argsStr, 4)
      case None => None
      case Some((vs, rest)) =>
        StripKeepsOut(rest, '\n');
        Some(ResetCommand(code, vs[0], vs[1], vs[2], vs[3], 0, Strip(rest)))
    else
      match MatchArgs(argsStr, 3)
      case None => None
      case Some((vs, rest)) =>
        StripKeepsOut(rest, '\n');
        Some(ResetCommand(code, vs[0], vs[1], vs[2], 0, 0, Strip(rest)))
  }

  /** `r` with `acc` in front of its commands. */
  function PrependAll(acc: seq<ResetCommand>, r: Result<seq<ResetCommand>, ZoneError>): Result<seq<ResetCommand>, ZoneError>
  {
    match r
    case Success(cs) => Success(acc + cs)
    case Failure(e) => Failure(e)
  }

  lemma PrependAllSnoc(acc: seq<ResetCommand>, c: ResetCommand, r: Result<seq<ResetCommand>, ZoneError>)
    ensures PrependAll(acc, PrependAll([c], r)) == PrependAll(acc + [c], r)
  {
    if r.Success? {
      AppendAssoc(acc, [c], r.value);
    }
  }

  /** What the command loop makes of one line (already without leading whitespace). */
  datatype LineKind = Skipped | Stop | Parsed(c: ResetCommand) | Malformed(e: ZoneError)

  /** A blank line or a '*' line is skipped, a line starting with 'S' or '$' ends the list,
      and any other line must parse as a command; `lineNum` counts from 1. */
  function ClassifyLine(line: string, lineNum: nat, zonename: string): (k: LineKind)
    ensures k.Parsed? && line != [] && !IsSpace(line[0]) ==> IsRegular(k.c)
    ensures k.Malformed? ==> (k.e.FourArgFormat? || k.e.ThreeArgFormat?) && k.e.lineNum == lineNum
  {
    if line == [] || line[0] == '*' then Skipped
    else if line[0] == 'S' || line[0] == '$' then Stop
    else ParsedOrMalformed(line, lineNum, zonename, ParseCommand(line))
  }

  /** A command line (not blank, not '*', 'S' or '$') given what the parser made of it. */
  function ParsedOrMalformed(line: string, lineNum: nat, zonename: string, parsed: Option<ResetCommand>): LineKind
    requires line != []
  {
    match parsed
    case None =>
      Malformed(if line[0] in "MOEPD" then FourArgFormat(zonename, lineNum, line)
                else ThreeArgFormat(zonename, lineNum, line))
    case Some(c) => Parsed(c)
  }

  /** The command loop read from line index `pos` on: the commands up to and including the
      StopCommand, or the first error. */
  function Commands(lines: seq<string>, pos: nat, zonename: string): (r: Result<seq<ResetCommand>, ZoneError>)
    requires pos <= |lines|
    decreases |lines| - pos
  {
    if pos == |lines| then Failure(PrematureEof(zonename))
    else
      match ClassifyLine(SkipSpaces(lines[pos]), pos + 1, zonename)
      case Skipped => Commands(lines, pos + 1, zonename)
      case Stop => Success([StopCommand])
      case Malformed(e) => Failure(e)
      case Parsed(c) => PrependAll([c], Commands(lines, pos + 1, zonename))
  }

  /** Lines 204-297: the body of the command loop for one line (already without leading
      whitespace); `lineNum` is its line number.  The method follows the code statement by
      statement; ClassifyLine is the same decision written as one expression, which the
      functions and lemmas about whole files use, and the ensures proves the two agree. */
  method ReadLine(text: string, lineNum: nat, zonename: string) returns (kind: LineKind)
    ensures kind == ClassifyLine(text, lineNum, zonename)
  {
    if text == [] {
      return Skipped;
    }
    var cmdChar := text[0];
    if cmdChar == '*' {
      return Skipped;
    }
    if cmdChar == 'S' || cmdChar == '$' {
      return Stop;
    }
    var argsStr := Strip(text[1..]);
    if cmdChar in "MOEPD" {
      var m := MatchArgs(argsStr, 4);
      if m.None? {
        return Malformed(FourArgFormat(zonename, lineNum, text));
      }
      var (vs, leftover) := m.value;
      kind := Parsed(ResetCommand(cmdChar, vs[0], vs[1], vs[2], vs[3], 0, Strip(leftover)));
    } else {
      var m := MatchArgs(argsStr, 3);
      if m.None? {
        return Malformed(ThreeArgFormat(zonename, lineNum, text));
      }
      var (vs, leftover) := m.value;
      kind := Parsed(ResetCommand(cmdChar, vs[0], vs[1], vs[2], 0, 0, Strip(leftover)));
    }
  }

  /** Lines 200-307: the command loop, reading from the cursor `start`.  `cmdNo` counts the
      commands other than the final 'S'. */
  method ReadCommands(lines: seq<string>, start: nat, zonename: string)
    returns (r: Result<seq<ResetCommand>, ZoneError>, cmdNo: nat)
    requires start <= |lines|
    ensures r == Commands(lines, start, zonename)
    ensures r.Success? ==> |r.value| == cmdNo + 1
  {
    var pos := start;
    var lineNum := start;
    var cmds: seq<ResetCommand> := [];
    cmdNo := 0;
    if Commands(lines, start, zonename).Success? {
      AppendEmpty(Commands(lines, start, zonename).value);
    }
    while true
      invariant start <= pos <= |lines| && lineNum == pos && cmdNo == |cmds|
      invariant Commands(lines, start, zonename) == PrependAll(cmds, Commands(lines, pos, zonename))
      decreases |lines| - pos
    {
      var line, linesRead := GetLine(lines, pos);
      if line.None? {
        assert Commands(lines, pos, zonename) == Failure(PrematureEof(zonename));
        return Failure(PrematureEof(zonename)), cmdNo;
      }
      ghost var here := pos;
      assert line.value == lines[here];
      pos := pos + linesRead;
      lineNum := lineNum + linesRead;
      var text := SkipSpaces(line.value);
      var kind := ReadLine(text, lineNum, zonename);
      assert text == SkipSpaces(lines[here]) && lineNum == pos;
      CommandsStep(lines, start, here, pos, zonename, cmds, kind);
      match kind
      case Skipped =>
      case Stop =>
        cmds := cmds + [StopCommand];
        break;
      case Malformed(e) =>
        return Failure(e), cmdNo;
      case Parsed(cmd) =>
        cmds := cmds + [cmd];
        cmdNo := cmdNo + 1;
    }
    r := Success(cmds);
  }

  /** Lines 149-193: the file is rewound and the header line, the name line and the
      constants line are read; `pos` is where the cursor then stands.  The method walks the
      cursor as the code does; Header is the same checks written as one expression, and the
      ensures proves the two agree. */
  method ReadHeader(lines: seq<string>, zonename: string) returns (r: Result<ZoneHeader, ZoneError>, pos: nat)
    ensures r == Header(lines, zonename)
    ensures r.Success? ==> pos == 3
  {
    pos := 0;
    var lineNum := 0;
    var line, linesRead := GetLine(lines, pos);
    pos, lineNum := pos + linesRead, lineNum + linesRead;
    assert line.Some? ==> line.value == lines[0];
    if line.None? || line.value == [] {
      return Failure(MissingHeader(zonename)), pos;
    }
    if line.value[0] != '#' {
      return Failure(HeaderWithoutHash(zonename, lineNum)), pos;
    }
    var number := ParseInt(line.value[1..]);
    if number.None? {
      return Failure(HeaderNotNumber(zonename, lineNum)), pos;
    }
    line, linesRead := GetLine(lines, pos);
    pos, lineNum := pos + linesRead, lineNum + linesRead;
    if line.None? {
      return Failure(NameEof(zonename)), pos;
    }
    assert line.value == lines[1];
    var name := ZoneName(line.value);
    line, linesRead := GetLine(lines, pos);
    pos, lineNum := pos + linesRead, lineNum + linesRead;
    if line.None? {
      return Failure(ConstantsEof(zonename)), pos;
    }
    assert line.value == lines[2];
    var constants := ParseConstants(line.value);
    if constants.None? {
      return Failure(ConstantsFormat(zonename)), pos;
    }
    r := Success(ZoneHeader(number.value, name, constants.value));
  }

  // ---------------------------------------------------------------------------
  // The whole reader

  /** What the first three lines of a zone file give: the zone number, the name and the
      numeric constants. */
  datatype ZoneHeader = ZoneHeader(number: int, name: string, constants: ZoneConstants)

  /** The header line ('#' and the zone number), the name line and the constants line. */
  function Header(lines: seq<string>, zonename: string): (r: Result<ZoneHeader, ZoneError>)
    ensures r.Success? ==> 3 <= |lines|
  {
    if |lines| == 0 || lines[0] == [] then Failure(MissingHeader(zonename))
    else if lines[0][0] != '#' then Failure(HeaderWithoutHash(zonename, 1))
    else
      match ParseInt(lines[0][1..])
      case None => Failure(HeaderNotNumber(zonename, 1))
      case Some(number) =>
        if |lines| < 2 then Failure(NameEof(zonename))
        else if |lines| < 3 then Failure(ConstantsEof(zonename))
        else
          match ParseConstants(lines[2])
          case None => Failure(ConstantsFormat(zonename))
          case Some(k) => Success(ZoneHeader(number, ZoneName(lines[1]), k))
  }

  /** The parse pass, given the pre-scan's count. */
  function LoadWithCount(lines: seq<string>, zonename: string, numOfCmds: nat): Result<ZoneData, ZoneError>
  {
    if numOfCmds == 0 then Failure(EmptyZone(zonename))
    else
      match Header(lines, zonename)
      case Failure(e) => Failure(e)
      case Success(h) => LoadBody(lines, zonename, numOfCmds, h)
  }

  /** The parse pass once the three header lines are read: the range check, the commands
      and the comparison with the pre-scan's count. */
  function LoadBody(lines: seq<string>, zonename: string, numOfCmds: nat, h: ZoneHeader)
    : Result<ZoneData, ZoneError>
    requires 3 <= |lines|
  {
    var k := h.constants;
    if k.bot > k.top then Failure(BottomAboveTop(h.number, k.bot, k.top))
    else
      match Commands(lines, 3, zonename)
      case Failure(e) => Failure(e)
      case Success(cmds) =>
        if numOfCmds != |cmds| then Failure(CountMismatch(zonename, numOfCmds, |cmds|))
        else Success(ZoneData(h.number, h.name, k.bot, k.top, k.lifespan, k.resetMode, cmds))
  }

  /** What load_zones returns for a file: the parse pass checked against the pre-scan. */
  function Load(lines: seq<string>, zonename: string): Result<ZoneData, ZoneError>
  {
    LoadWithCount(lines, zonename, PreScanCount(lines))
  }

  /** The last stage of the parse pass: it never reports an empty zone, and on success the
      zone holds the header's number, name and constants, the commands of the command loop
      and as many of them as the count. */
  lemma LoadBodyOutcome(lines: seq<string>, zonename: string, numOfCmds: nat, h: ZoneHeader)
    requires 3 <= |lines|
    ensures var r := LoadBody(lines, zonename, numOfCmds, h);
      var k := h.constants;
      && (r.Failure? ==> !r.error.EmptyZone?)
      && (r.Success? ==>
            && k.bot <= k.top
            && Commands(lines, 3, zonename) == Success(r.value.cmd)
            && |r.value.cmd| == numOfCmds
            && r.value == ZoneData(h.number, h.name, k.bot, k.top, k.lifespan, k.resetMode, r.value.cmd))
  {
    CommandsFailure(lines, 3, zonename);
  }

  /** The parse pass reports an empty zone exactly when the count is zero; on success the
      header line is '#' and the number, the constants line holds the range, lifespan and
      reset mode, the name is read from the second line, and the commands are those of the
      command loop, as many as the count. */
  lemma LoadWithCountOutcome(lines: seq<string>, zonename: string, numOfCmds: nat)
    ensures var r := LoadWithCount(lines, zonename, numOfCmds);
      && (r == Failure(EmptyZone(zonename)) <==> numOfCmds == 0)
      && (r.Success? ==>
            && 3 <= |lines| && lines[0] != [] && lines[0][0] == '#'
            && ParseInt(lines[0][1..]) == Some(r.value.number)
            && ParseConstants(lines[2]) == Some(ZoneConstants(r.value.bot, r.value.top, r.value.lifespan, r.value.resetMode))
            && r.value.name == ZoneName(lines[1])
            && r.value.bot <= r.value.top
            && Commands(lines, 3, zonename) == Success(r.value.cmd)
            && |r.value.cmd| == numOfCmds)
  {
    if numOfCmds != 0 && Header(lines, zonename).Success? {
      LoadBodyOutcome(lines, zonename, numOfCmds, Header(lines, zonename).value);
    }
  }

  /** A zone whose pre-scan finds no command line is rejected as empty before anything else,
      and only then. */
  lemma EmptyZoneIffNoCommands(lines: seq<string>, zonename: string)
    ensures Load(lines, zonename) == Failure(EmptyZone(zonename)) <==> PreScanCount(lines) == 0
  {
    LoadWithCountOutcome(lines, zonename, PreScanCount(lines));
  }

  /** The command loop fails only at the end of the file or on a line it cannot parse, which
      it names by its number (counted from 1) in the error. */
  lemma {:induction false} CommandsFailure(lines: seq<string>, pos: nat, zonename: string)
    requires pos <= |lines|
    ensures var r := Commands(lines, pos, zonename);
      r.Failure? ==>
        || r.error == PrematureEof(zonename)
        || (r.error.FourArgFormat? && r.error.zonename == zonename && pos < r.error.lineNum <= |lines|)
        || (r.error.ThreeArgFormat? && r.error.zonename == zonename && pos < r.error.lineNum <= |lines|)
    decreases |lines| - pos
  {
    if pos < |lines| {
      var k := ClassifyLine(SkipSpaces(lines[pos]), pos + 1, zonename);
      if k.Skipped? || k.Parsed? {
        CommandsFailure(lines, pos + 1, zonename);
      }
    }
  }

  /** One turn of the command loop: what the commands read from `start` are, given the
      commands `cmds` collected before line index `here` and that line's kind. */
  lemma CommandsStep(lines: seq<string>, start: nat, here: nat, next: nat, zonename: string,
                     cmds: seq<ResetCommand>, kind: LineKind)
    requires start <= here < |lines| && next == here + 1
    requires Commands(lines, start, zonename) == PrependAll(cmds, Commands(lines, here, zonename))
    requires kind == ClassifyLine(SkipSpaces(lines[here]), next, zonename)
    ensures kind.Skipped? ==> Commands(lines, start, zonename) == PrependAll(cmds, Commands(lines, next, zonename))
    ensures kind.Stop? ==> Commands(lines, start, zonename) == Success(cmds + [StopCommand])
    ensures kind.Malformed? ==> Commands(lines, start, zonename) == Failure(kind.e)
    ensures kind.Parsed? ==>
      Commands(lines, start, zonename) == PrependAll(cmds + [kind.c], Commands(lines, next, zonename))
  {
    match kind
    case Skipped => CommandsSkippedStep(lines, here, zonename);
    case Stop => CommandsStopStep(lines, here, zonename);
    case Malformed(_) => CommandsMalformedStep(lines, here, zonename);
    case Parsed(c) =>
      CommandsParsedStep(lines, here, zonename, c);
      PrependAllSnoc(cmds, c, Commands(lines, next, zonename));
  }

  /** One step of the command loop over a line it parses. */
  lemma CommandsParsedStep(lines: seq<string>, pos: nat, zonename: string, c: ResetCommand)
    requires pos < |lines| && ClassifyLine(SkipSpaces(lines[pos]), pos + 1, zonename) == Parsed(c)
    ensures Commands(lines, pos, zonename) == PrependAll([c], Commands(lines, pos + 1, zonename))
  {
  }

  /** One step of the command loop over a line that ends the list. */
  lemma CommandsStopStep(lines: seq<string>, pos: nat, zonename: string)
    requires pos < |lines| && ClassifyLine(SkipSpaces(lines[pos]), pos + 1, zonename) == Stop
    ensures Commands(lines, pos, zonename) == Success([StopCommand])
  {
  }

  /** One step of the command loop over a line it cannot parse. */
  lemma CommandsMalformedStep(lines: seq<string>, pos: nat, zonename: string)
    requires pos < |lines| && ClassifyLine(SkipSpaces(lines[pos]), pos + 1, zonename).Malformed?
    ensures Commands(lines, pos, zonename) == Failure(ClassifyLine(SkipSpaces(lines[pos]), pos + 1, zonename).e)
  {
  }

  /** One step of the command loop over a line it skips. */
  lemma CommandsSkippedStep(lines: seq<string>, pos: nat, zonename: string)
    requires pos < |lines| && ClassifyLine(SkipSpaces(lines[pos]), pos + 1, zonename) == Skipped
    ensures Commands(lines, pos, zonename) == Commands(lines, pos + 1, zonename)
  {
  }

  // ---------------------------------------------------------------------------
  // What an accepted zone looks like

  /** A command built from a command line: not a terminator or a comment, no line number,
      a stripped comment on one line, and no third argument for the three-argument letters. */
  predicate IsRegular(c: ResetCommand)
  {
    && c.command != 'S' && c.command != '$' && c.command != '*' && !IsSpace(c.command)
    && c.line == 0
    && IsStripped(c.comment) && '\n' !in c.comment
    && (c.command !in "MOEPD" ==> c.arg3 == 0)
  }

  /** A command list the loop can return: regular commands, then exactly one StopCommand. */
  predicate EndsWithOneStop(cs: seq<ResetCommand>)
  {
    |cs| >= 1 && cs[|cs| - 1] == StopCommand && forall i :: 0 <= i < |cs| - 1 ==> IsRegular(cs[i])
  }

  /** A regular command in front of such a list keeps it one. */
  lemma ConsRegular(c: ResetCommand, rest: seq<ResetCommand>)
    requires IsRegular(c) && EndsWithOneStop(rest)
    ensures EndsWithOneStop([c] + rest)
  {
    var cs := [c] + rest;
    assert forall i :: 1 <= i < |cs| ==> cs[i] == rest[i - 1];
  }

  /** Every command list the loop returns ends with its only 'S' command. */
  lemma {:induction false} CommandsEndWithStop(lines: seq<string>, pos: nat, zonename: string)
    requires pos <= |lines| && Commands(lines, pos, zonename).Success?
    ensures EndsWithOneStop(Commands(lines, pos, zonename).value)
    decreases |lines| - pos
  {
    var line := SkipSpaces(lines[pos]);
    match ClassifyLine(line, pos + 1, zonename)
    case Skipped =>
      CommandsEndWithStop(lines, pos + 1, zonename);
    case Stop =>
    case Parsed(c) =>
      CommandsEndWithStop(lines, pos + 1, zonename);
      ConsRegular(c, Commands(lines, pos + 1, zonename).value);
  }

  /** An accepted zone: line 1 is '#' and the zone number, the name has no '~', the bounds
      are ordered, the commands end with their only 'S', and the pre-scan counted them all. */
  lemma LoadedZoneShape(lines: seq<string>, zonename: string)
    requires Load(lines, zonename).Success?
    ensures var z := Load(lines, zonename).value;
      && lines[0] != [] && lines[0][0] == '#' && ParseInt(lines[0][1..]) == Some(z.number)
      && '~' !in z.name
      && z.bot <= z.top
      && EndsWithOneStop(z.cmd)
      && |z.cmd| == PreScanCount(lines)
  {
    LoadWithCountOutcome(lines, zonename, PreScanCount(lines));
    CommandsEndWithStop(lines, 3, zonename);
  }

  /** Whatever count it is checked against, an accepted zone's commands end with their only
      'S': so for the reader as written (Load) and with the corrected pre-scan (LoadIntended). */
  lemma AcceptedEndsWithStop(lines: seq<string>, zonename: string, numOfCmds: nat)
    requires LoadWithCount(lines, zonename, numOfCmds).Success?
    ensures EndsWithOneStop(LoadWithCount(lines, zonename, numOfCmds).value.cmd)
  {
    LoadWithCountOutcome(lines, zonename, numOfCmds);
    CommandsEndWithStop(lines, 3, zonename);
  }

  /** The pre-scan counts each line once, except a counted fourth line, which counts twice. */
  lemma QualifyingCountCons(x: string, s: seq<string>)
    ensures QualifyingCount([x] + s) == (if CountsAsCommand(x) then 1 else 0) + QualifyingCount(s)
    decreases |s|
  {
    if s != [] {
      assert ([x] + s)[..|s|] == [x] + s[..|s| - 1];
      QualifyingCountCons(x, s[..|s| - 1]);
    }
  }

  /** A fourth line that passes the test is counted twice by the pre-scan. */
  lemma PreScanCountsFourthLineTwice(lines: seq<string>)
    requires |lines| > 3 && CountsAsCommand(lines[3])
    ensures PreScanCount(lines) == 2 + QualifyingCount(lines[4..BlankOrEnd(lines, 4)])
  {
    var b := BlankOrEnd(lines, 4);
    assert BlankOrEnd(lines, 3) == b;
    SliceCons(lines, 3, b);
    QualifyingCountCons(lines[3], lines[4..b]);
  }

  /** Past the first blank line that follows the fourth line, nothing reaches the pre-scan. */
  lemma {:induction false} BlankOrEndAppend(lines: seq<string>, tail: seq<string>, from: nat, k: nat)
    requires from <= k < |lines| && lines[k] == []
    ensures BlankOrEnd(lines + tail, from) == BlankOrEnd(lines, from)
    decreases k - from
  {
    if lines[from] != [] {
      BlankOrEndAppend(lines, tail, from + 1, k);
    }
  }

  /** Lines after a blank line that comes after the fourth line do not change the pre-scan. */
  lemma PreScanStopsAtBlank(lines: seq<string>, tail: seq<string>, k: nat)
    requires 4 <= k < |lines| && lines[k] == []
    ensures PreScanCount(lines + tail) == PreScanCount(lines)
  {
    var all := lines + tail;
    assert all[3] == lines[3];
    BlankOrEndAppend(lines, tail, 3, k);
    BlankOrEndAppend(lines, tail, 4, k);
    assert all[3..BlankOrEnd(lines, 3)] == lines[3..BlankOrEnd(lines, 3)];
    assert all[4..BlankOrEnd(lines, 4)] == lines[4..BlankOrEnd(lines, 4)];
  }

  /** The blank-line search only looks at the lines from where it starts. */
  lemma {:induction false} BlankOrEndShift(head: seq<string>, rest: seq<string>, j: nat)
    requires j <= |rest|
    ensures BlankOrEnd(head + rest, |head| + j) == |head| + BlankOrEnd(rest, j)
    decreases |rest| - j
  {
    if j < |rest| && rest[j] != [] {
      BlankOrEndShift(head, rest, j + 1);
    }
  }

  /** The first three lines never reach the pre-scan. */
  lemma PreScanSkipsThreeLines(head1: seq<string>, head2: seq<string>, rest: seq<string>)
    requires |head1| == 3 && |head2| == 3
    ensures PreScanCount(head1 + rest) == PreScanCount(head2 + rest)
  {
    PreScanAfterHeader(head1, rest);
    PreScanAfterHeader(head2, rest);
  }

  /** After three lines, the pre-scan counts from the fourth line on, skipping it when blank. */
  lemma PreScanAfterHeader(head: seq<string>, rest: seq<string>)
    requires |head| == 3
    ensures PreScanCount(head + rest)
            == if rest == [] then 0
               else if rest[0] == [] then QualifyingCount(rest[1..BlankOrEnd(rest, 1)])
               else (if CountsAsCommand(rest[0]) then 1 else 0) + QualifyingCount(rest[0..BlankOrEnd(rest, 0)])
  {
    if rest != [] {
      assert (head + rest)[3] == rest[0];
      if rest[0] == [] {
        BlankOrEndShift(head, rest, 1);
        SliceAfterPrefix(head, rest, 1, BlankOrEnd(rest, 1));
      } else {
        BlankOrEndShift(head, rest, 0);
        SliceAfterPrefix(head, rest, 0, BlankOrEnd(rest, 0));
      }
    }
  }

  /** The name is what comes before the first '~'. */
  lemma NameStopsAtTilde(name: string, junk: string)
    requires '~' !in name
    ensures ZoneName(name + "~" + junk) == name
  {
    var line := name + "~" + junk;
    var r := ZoneName(line);
    assert line[|name|] == '~';
  }

  // ---------------------------------------------------------------------------
  // The pre-scan as evidently intended: every line counted once

  /** The pre-scan without its double count: the fourth line is left to the second loop. */
  function IntendedPreScanCount(lines: seq<string>): (n: nat)
    ensures n <= PreScanCount(lines) <= n + 1
    ensures |lines| > 3 && CountsAsCommand(lines[3]) ==> PreScanCount(lines) == n + 1
  {
    var c := if |lines| < 3 then |lines| else 3;
    if c == |lines| then 0
    else if lines[c] == [] then QualifyingCount(lines[c + 1..BlankOrEnd(lines, c + 1)])
    else QualifyingCount(lines[c..BlankOrEnd(lines, c)])
  }

  /** load_zones with the corrected pre-scan. */
  function LoadIntended(lines: seq<string>, zonename: string): Result<ZoneData, ZoneError>
  {
    LoadWithCount(lines, zonename, IntendedPreScanCount(lines))
  }

  /** The module state of zone.py: the counter top_of_zone_table. */
  class ZoneTable {
    var topOfZoneTable: nat

    constructor ()
      ensures topOfZoneTable == 0
    {
      topOfZoneTable := 0;
    }

    /** load_zones: read one zone file; the counter moves on by one when the zone is accepted. */
    method LoadZones(lines: seq<string>, zonename: string) returns (r: Result<ZoneData, ZoneError>)
      modifies this
      ensures r == Load(lines, zonename)
      ensures topOfZoneTable == old(topOfZoneTable) + (if r.Success? then 1 else 0)
    {
      var zoneRnum := topOfZoneTable;
      var numOfCmds := CountCommands(lines);
      if numOfCmds == 0 {
        return Failure(EmptyZone(zonename));
      }
      var header, pos := ReadHeader(lines, zonename);
      if header.Failure? {
        return Failure(header.error);
      }
      var h := header.value;
      var k := h.constants;
      if k.bot > k.top {
        return Failure(BottomAboveTop(h.number, k.bot, k.top));
      }
      var cmds, cmdNo := ReadCommands(lines, pos, zonename);
      if cmds.Failure? {
        return Failure(cmds.error);
      }
      if numOfCmds != cmdNo + 1 {
        return Failure(CountMismatch(zonename, numOfCmds, cmdNo + 1));
      }
      topOfZoneTable := zoneRnum + 1;
      r := Success(ZoneData(h.number, h.name, k.bot, k.top, k.lifespan, k.resetMode, cmds.value));
    }
  }
}
