/**
  Zone files written in the layout the reader expects, and what the reader makes of them:
  a round trip for the command lines, the constants line and the header, and for whole
  zones with and without a comment line in front of the first command.
 */
module ZoneFormat {
  import opened Results
  import opened Text
  import opened Seqs
  import opened Zone

  /** A command that a command line can spell: a letter the pre-scan counts, no line number,
      a comment on one line without surrounding whitespace, and no third argument for the
      three-argument letters. */
  predicate ValidCommand(c: ResetCommand)
  {
    && c.command in "MOPGERD"
    && c.line == 0
    && IsStripped(c.comment) && '\n' !in c.comment
    && (c.command !in "MOEPD" ==> c.arg3 == 0)
  }

  /** A zone a file can spell: commands that lines can spell, then StopCommand; a name
      without '~'; an ordered range. */
  predicate ValidZone(z: ZoneData)
  {
    && |z.cmd| >= 1 && z.cmd[|z.cmd| - 1] == StopCommand
    && (forall i :: 0 <= i < |z.cmd| - 1 ==> ValidCommand(z.cmd[i]))
    && '~' !in z.name
    && z.bot <= z.top
  }

  /** Unsigned integers in decimal, separated by single spaces. */
  function IntsText(vs: seq<nat>): (s: string)
    requires vs != []
    ensures s != [] && IsDigit(s[0]) && IsDigit(s[|s| - 1])
  {
    if |vs| == 1 then NatToString(vs[0])
    else NatToString(vs[0]) + " " + IntsText(vs[1..])
  }

  /** The integers a command line carries: four for M, O, E, P and D, three otherwise. */
  function Args(c: ResetCommand): seq<nat>
  {
    if c.command in "MOEPD" then [c.ifFlag, c.arg1, c.arg2, c.arg3] else [c.ifFlag, c.arg1, c.arg2]
  }

  /** The line for a command: the letter, the integers and the comment, if any. */
  function CommandLine(c: ResetCommand): (line: string)
    ensures |line| > 1 && line[0] == c.command && line[1] == ' '
  {
    [c.command] + " " + IntsText(Args(c)) + CommentText(c.comment)
  }

  /** What follows the integers: nothing, or a space and the comment. */
  function CommentText(comment: string): string
  {
    if comment == [] then "" else " " + comment
  }

  function CommandLines(cs: seq<ResetCommand>): (ls: seq<string>)
    ensures |ls| == |cs| && forall i :: 0 <= i < |cs| ==> ls[i] == CommandLine(cs[i])
  {
    seq(|cs|, i requires 0 <= i < |cs| => CommandLine(cs[i]))
  }

  /** The third line: the range, the lifespan and the reset mode. */
  function ConstantsLine(z: ZoneData): string
  {
    JoinSpace([IntToString(z.bot), IntToString(z.top), IntToString(z.lifespan), IntToString(z.resetMode)])
  }

  /** A zone file: the header, the name, the constants, an optional "*" comment line, a line
      per command before the last, and "S". */
  function FormatZone(z: ZoneData, banner: bool): (lines: seq<string>)
    requires |z.cmd| >= 1
  {
    ["#" + IntToString(z.number), z.name + "~", ConstantsLine(z)]
    + (if banner then ["*"] else [])
    + CommandLines(z.cmd[..|z.cmd| - 1]) + ["S"]
  }

  /** The index of the first command line: after the three header lines and the "*" line,
      if there is one. */
  function First(banner: bool): nat
  {
    if banner then 4 else 3
  }

  /** The lines of a file that spells z: the three header lines, the "*" line when `banner`
      holds, the line of each command before the last, and "S". */
  predicate Spells(lines: seq<string>, z: ZoneData, banner: bool)
  {
    && |z.cmd| >= 1
    && |lines| == First(banner) + |z.cmd|
    && lines[0] == "#" + IntToString(z.number)
    && lines[1] == z.name + "~"
    && lines[2] == ConstantsLine(z)
    && (banner ==> lines[3] == "*")
    && (forall i :: 0 <= i < |z.cmd| - 1 ==> lines[First(banner) + i] == CommandLine(z.cmd[i]))
    && lines[|lines| - 1] == "S"
  }

  // ---------------------------------------------------------------------------
  // Round trips for single lines

  /** The last digit group: the run of digits and what follows it. */
  lemma MatchIntsLast(s: string, d: nat)
    requires 0 < d && DigitRun(s) == d
    ensures MatchInts(s, 1) == Some(([DigitsValue(s[..d])], s[d..]))
  {
  }

  /** A digit group, a whitespace group and the remaining groups. */
  lemma MatchIntsNext(s: string, n: nat, m: nat, d: nat, vs: seq<nat>, rest: string)
    requires n >= 2 && m == n - 1 && 0 < d && DigitRun(s) == d
    requires SpaceRun(s[d..]) == 1 && MatchInts(s[d + 1..], m) == Some((vs, rest))
    ensures MatchInts(s, n) == Some(([DigitsValue(s[..d])] + vs, rest))
  {
  }

  /** A single integer reads back as one digit group. */
  lemma MatchIntsTextOne(v: nat, tail: string)
    requires tail == [] || !IsDigit(tail[0])
    ensures MatchInts(NatToString(v) + tail, 1) == Some(([v], tail))
  {
    var w := NatToString(v);
    var s := w + tail;
    assert s[..|w|] == w && s[|w|..] == tail;
    DigitRunIs(s, |w|);
    MatchIntsLast(s, |w|);
  }

  /** A run of digits, one space, and text that starts with the remaining groups. */
  lemma MatchIntsSpaced(w: string, y: string, n: nat, m: nat, vs: seq<nat>, rest: string)
    requires w != [] && AllDigits(w) && y != [] && !IsSpace(y[0])
    requires n >= 2 && m == n - 1 && MatchInts(y, m) == Some((vs, rest))
    ensures MatchInts(w + (" " + y), n) == Some(([DigitsValue(w)] + vs, rest))
  {
    var s := w + (" " + y);
    assert s[..|w|] == w && s[|w|..] == " " + y;
    DigitRunIs(s, |w|);
    SpaceRunOfOne(y);
    assert s[|w| + 1..] == y;
    MatchIntsNext(s, n, m, |w|, vs, rest);
  }

  /** The first integer and a single space in front of integers that read back. */
  lemma MatchIntsTextCons(vs: seq<nat>, tail: string)
    requires |vs| >= 2
    requires MatchInts(IntsText(vs[1..]) + tail, |vs[1..]|) == Some((vs[1..], tail))
    ensures MatchInts(IntsText(vs) + tail, |vs|) == Some((vs, tail))
  {
    var w := NatToString(vs[0]);
    var rest := IntsText(vs[1..]);
    AppendAssoc(w + " ", rest, tail);
    AppendAssoc(w, " ", rest + tail);
    assert (rest + tail)[0] == rest[0];
    MatchIntsSpaced(w, rest + tail, |vs|, |vs[1..]|, vs[1..], tail);
    HeadTail(vs);
  }

  /** The digit groups of the command regular expression read back what IntsText writes. */
  lemma {:induction false} MatchIntsText(vs: seq<nat>, tail: string)
    requires vs != [] && (tail == [] || !IsDigit(tail[0]))
    ensures MatchInts(IntsText(vs) + tail, |vs|) == Some((vs, tail))
    decreases |vs|
  {
    if |vs| == 1 {
      MatchIntsTextOne(vs[0], tail);
      assert vs == [vs[0]];
    } else {
      MatchIntsText(vs[1..], tail);
      MatchIntsTextCons(vs, tail);
    }
  }

  /** The comment part of a line strips back to the comment. */
  lemma CommentTextStrips(comment: string)
    requires IsStripped(comment) && '\n' !in comment
    ensures var t := CommentText(comment);
      && Strip(t) == comment && '\n' !in t
      && (t == [] || (t[0] == ' ' && !IsSpace(t[|t| - 1])))
  {
    if comment != [] {
      StripAfterSpace(comment);
      assert CommentText(comment)[1..] == comment;
    }
  }

  /** The argument pattern over text without leading whitespace whose digit groups match
      and whose remainder is on one line. */
  lemma MatchArgsIs(s: string, n: nat, vs: seq<nat>, rest: string)
    requires n >= 1 && (s == [] || !IsSpace(s[0]))
    requires MatchInts(s, n) == Some((vs, rest)) && '\n' !in rest
    ensures MatchArgs(s, n) == Some((vs, rest))
  {
    assert LStrip(s) == s;
  }

  /** The argument groups of the command regular expression read back the integers and
      leave the comment part. */
  lemma MatchArgsText(vs: seq<nat>, t: string)
    requires vs != [] && '\n' !in t
    requires t == [] || t[0] == ' '
    ensures MatchArgs(IntsText(vs) + t, |vs|) == Some((vs, t))
  {
    var x := IntsText(vs) + t;
    assert x[0] == IntsText(vs)[0];
    MatchIntsText(vs, t);
    MatchArgsIs(x, |vs|, vs, t);
  }

  /** The command parser over a line whose argument pattern matches. */
  lemma ParseCommandIs(line: string, n: nat, vs: seq<nat>, rest: string)
    requires line != [] && n == (if line[0] in "MOEPD" then 4 else 3) && |vs| == n
    requires MatchArgs(Strip(line[1..]), n) == Some((vs, rest))
    ensures ParseCommand(line)
            == Some(ResetCommand(line[0], vs[0], vs[1], vs[2], if n == 4 then vs[3] else 0, 0, Strip(rest)))
  {
  }

  /** The text after the letter and its space: the integers and the comment part, which
      str.strip() leaves alone. */
  lemma ArgsTextStripped(c: ResetCommand)
    requires IsStripped(c.comment) && '\n' !in c.comment
    ensures var x := IntsText(Args(c)) + CommentText(c.comment);
      && CommandLine(c) == [c.command] + (" " + x)
      && x != [] && IsStripped(x)
  {
    var w := IntsText(Args(c));
    var t := CommentText(c.comment);
    CommentTextStrips(c.comment);
    AppendAssoc([c.command], " ", w);
    AppendAssoc([c.command] + " ", w, t);
    AppendAssoc([c.command], " ", w + t);
    DigitNotSpace(w[0]);
    DigitNotSpace(w[|w| - 1]);
    StrippedConcat(w, t);
  }

  /** The command loop's parser turns the line of a command back into that command, for
      any letter the loop parses (not only those the pre-scan counts). */
  lemma ParseCommandText(c: ResetCommand)
    requires IsRegular(c)
    ensures ParseCommand(CommandLine(c)) == Some(c)
  {
    CommandLineArgs(c);
    CommandFromArgs(c, CommandLine(c)[0]);
    ParseCommandIs(CommandLine(c), |Args(c)|, Args(c), CommentText(c.comment));
  }

  /** After the letter, the line of a command matches the argument pattern with its integers,
      leaving the comment part. */
  lemma CommandLineArgs(c: ResetCommand)
    requires IsRegular(c)
    ensures MatchArgs(Strip(CommandLine(c)[1..]), |Args(c)|) == Some((Args(c), CommentText(c.comment)))
  {
    var line := CommandLine(c);
    var t := CommentText(c.comment);
    var x := IntsText(Args(c)) + t;
    CommentTextStrips(c.comment);
    ArgsTextStripped(c);
    assert line[1..] == " " + x;
    StripAfterSpace(x);
    MatchArgsText(Args(c), t);
  }

  /** The command the parser builds from the letter, the integers and the comment part of
      the line of c is c. */
  lemma CommandFromArgs(c: ResetCommand, code: char)
    requires IsRegular(c) && code == c.command
    ensures |Args(c)| == (if code in "MOEPD" then 4 else 3)
    ensures var vs := Args(c);
      ResetCommand(code, vs[0], vs[1], vs[2], if |vs| == 4 then vs[3] else 0, 0, Strip(CommentText(c.comment))) == c
  {
    CommentTextStrips(c.comment);
  }

  /** A command a zone file can spell is one the command loop can parse: the letters the
      pre-scan counts are neither whitespace nor the comment or stop marks. */
  lemma ValidCommandRegular(c: ResetCommand)
    requires ValidCommand(c)
    ensures IsRegular(c)
  {
  }

  /** skip_spaces leaves a line without leading whitespace alone. */
  lemma SkipSpacesNoLead(line: string)
    requires line != [] && !IsSpace(line[0])
    ensures SkipSpaces(line) == line
  {
  }

  /** A line that is not skipped or a stop is classified by what the parser makes of it. */
  lemma ClassifyParsed(line: string, lineNum: nat, zonename: string)
    requires line != [] && line[0] != '*' && line[0] != 'S' && line[0] != '$'
    ensures ClassifyLine(line, lineNum, zonename) == ParsedOrMalformed(line, lineNum, zonename, ParseCommand(line))
  {
  }

  /** The command loop classifies the line of a command as that command. */
  lemma ClassifyCommandLine(c: ResetCommand, lineNum: nat, zonename: string)
    requires IsRegular(c)
    ensures SkipSpaces(CommandLine(c)) == CommandLine(c)
    ensures ClassifyLine(CommandLine(c), lineNum, zonename) == Parsed(c)
  {
    var line := CommandLine(c);
    SkipSpacesNoLead(line);
    ParseCommandText(c);
    ClassifyParsed(line, lineNum, zonename);
  }

  /** int() reads back the number after '#'. */
  lemma ParseHeader(n: int)
    ensures ParseInt(("#" + IntToString(n))[1..]) == Some(n)
  {
    assert ("#" + IntToString(n))[1..] == IntToString(n);
    ParseIntToString(n);
  }

  /** The constants line reads back as the four constants. */
  lemma ParseConstantsLine(z: ZoneData)
    ensures ParseConstants(ConstantsLine(z)) == Some(ZoneConstants(z.bot, z.top, z.lifespan, z.resetMode))
  {
    var ws := [IntToString(z.bot), IntToString(z.top), IntToString(z.lifespan), IntToString(z.resetMode)];
    SplitJoinSpace(ws);
    ParseIntToString(z.bot);
    ParseIntToString(z.top);
    ParseIntToString(z.lifespan);
    ParseIntToString(z.resetMode);
  }

  // ---------------------------------------------------------------------------
  // Whole zones

  /** FormatZone spells the zone. */
  lemma FormatZoneSpells(z: ZoneData, banner: bool)
    requires |z.cmd| >= 1
    ensures Spells(FormatZone(z, banner), z, banner)
  {
    var head := ["#" + IntToString(z.number), z.name + "~", ConstantsLine(z)] + (if banner then ["*"] else []);
    var body := CommandLines(z.cmd[..|z.cmd| - 1]);
    assert |head| == First(banner);
    assert FormatZone(z, banner) == head + body + ["S"];
    forall i | 0 <= i < |z.cmd| - 1
      ensures (head + body + ["S"])[First(banner) + i] == CommandLine(z.cmd[i])
    {
      IndexInMiddle(head, body, ["S"], i);
    }
  }

  lemma {:induction false} BlankOrEndNoBlank(lines: seq<string>, from: nat)
    requires from <= |lines| && forall j :: from <= j < |lines| ==> lines[j] != []
    ensures BlankOrEnd(lines, from) == |lines|
    decreases |lines| - from
  {
    if from < |lines| {
      BlankOrEndNoBlank(lines, from + 1);
    }
  }

  /** A run of lines that all pass the pre-scan's test counts in full. */
  lemma {:induction false} QualifyingCountAll(lines: seq<string>, start: nat, end: nat)
    requires start <= end <= |lines|
    requires forall j :: start <= j < end ==> CountsAsCommand(lines[j])
    ensures QualifyingCount(lines[start..end]) == end - start
    decreases end - start
  {
    if start < end {
      QualifyingCountAll(lines, start, end - 1);
      QualifyingCountSnoc(lines, start, end - 1);
    }
  }

  /** Every line from the first command on passes the pre-scan's test, and no line is blank. */
  lemma SpelledLines(lines: seq<string>, z: ZoneData, banner: bool)
    requires ValidZone(z) && Spells(lines, z, banner)
    ensures forall j :: 0 <= j < |lines| ==> lines[j] != []
    ensures forall j :: First(banner) <= j < |lines| ==> CountsAsCommand(lines[j])
  {
    forall j | First(banner) <= j < |lines|
      ensures CountsAsCommand(lines[j])
    {
      if j < |lines| - 1 {
        assert lines[First(banner) + (j - First(banner))] == CommandLine(z.cmd[j - First(banner)]);
      }
    }
    forall j | 0 <= j < |lines|
      ensures lines[j] != []
    {
      if j == 0 {
        assert lines[0][0] == '#';
      } else if j == 1 {
        assert lines[1][|z.name|] == '~';
      } else if j == 2 {
        assert IntToString(z.bot) != [];
      } else if banner && j == 3 {
      } else {
        assert CountsAsCommand(lines[j]);
      }
    }
  }

  /** What the pre-scan makes of a file that spells a zone: every command once, plus the
      first one again when no comment line comes before it; the corrected pre-scan counts
      each once. */
  lemma PreScanSpelled(lines: seq<string>, z: ZoneData, banner: bool)
    requires ValidZone(z) && Spells(lines, z, banner)
    ensures PreScanCount(lines) == |z.cmd| + (if banner then 0 else 1)
    ensures IntendedPreScanCount(lines) == |z.cmd|
  {
    SpelledLines(lines, z, banner);
    BlankOrEndNoBlank(lines, 3);
    QualifyingCountAll(lines, First(banner), |lines|);
    if banner {
      SliceCons(lines, 3, |lines|);
      QualifyingCountCons(lines[3], lines[4..|lines|]);
    }
  }

  /** From line index `p` on, the command loop parses one line per command of `cs`, in order,
      and then meets a line that ends the list. */
  predicate Reads(lines: seq<string>, zonename: string, p: nat, cs: seq<ResetCommand>)
  {
    && p + |cs| < |lines|
    && (forall i :: 0 <= i < |cs| ==> ClassifyLine(SkipSpaces(lines[p + i]), p + i + 1, zonename) == Parsed(cs[i]))
    && ClassifyLine(SkipSpaces(lines[p + |cs|]), p + |cs| + 1, zonename) == Stop
  }

  /** Lines that read as `cs` and an end give `cs` and StopCommand. */
  lemma {:induction false} CommandsRun(lines: seq<string>, zonename: string, p: nat, cs: seq<ResetCommand>)
    requires Reads(lines, zonename, p, cs)
    ensures p <= |lines| && Commands(lines, p, zonename) == Success(cs + [StopCommand])
    decreases |cs|
  {
    if cs == [] {
      CommandsStopStep(lines, p, zonename);
      AppendEmpty([StopCommand]);
    } else {
      var c := cs[0];
      ReadsTail(lines, zonename, p, cs);
      CommandsRun(lines, zonename, p + 1, cs[1..]);
      CommandsParsedStep(lines, p, zonename, c);
      HeadTail(cs);
      AppendAssoc([c], cs[1..], [StopCommand]);
    }
  }

  /** Past the first line, the rest of the lines read as the rest of the commands. */
  lemma ReadsTail(lines: seq<string>, zonename: string, p: nat, cs: seq<ResetCommand>)
    requires cs != [] && Reads(lines, zonename, p, cs)
    ensures ClassifyLine(SkipSpaces(lines[p]), p + 1, zonename) == Parsed(cs[0])
    ensures Reads(lines, zonename, p + 1, cs[1..])
  {
    forall i | 0 <= i < |cs| - 1
      ensures ClassifyLine(SkipSpaces(lines[p + 1 + i]), p + 1 + i + 1, zonename) == Parsed(cs[1..][i])
    {
      assert cs[1..][i] == cs[i + 1];
    }
  }

  /** The lines of commands that lines can spell, followed by "S", read as those commands. */
  lemma CommandLinesRead(lines: seq<string>, zonename: string, p: nat, cs: seq<ResetCommand>)
    requires p + |cs| < |lines| && lines[p + |cs|] == "S"
    requires forall i :: 0 <= i < |cs| ==> ValidCommand(cs[i]) && lines[p + i] == CommandLine(cs[i])
    ensures Reads(lines, zonename, p, cs)
  {
    forall i | 0 <= i < |cs|
      ensures ClassifyLine(SkipSpaces(lines[p + i]), p + i + 1, zonename) == Parsed(cs[i])
    {
      ValidCommandRegular(cs[i]);
      ClassifyCommandLine(cs[i], p + i + 1, zonename);
    }
    SkipSpacesNoLead(lines[p + |cs|]);
  }

  /** A line that is exactly "*" is skipped. */
  lemma ClassifyStar(line: string, lineNum: nat, zonename: string)
    requires line == "*"
    ensures ClassifyLine(SkipSpaces(line), lineNum, zonename) == Skipped
  {
    SkipSpacesNoLead(line);
  }

  /** The command loop skips a "*" line. */
  lemma CommandsSkipBanner(lines: seq<string>, zonename: string)
    requires 3 < |lines| && lines[3] == "*"
    ensures Commands(lines, 3, zonename) == Commands(lines, 4, zonename)
  {
    ClassifyStar(lines[3], 4, zonename);
    CommandsSkippedStep(lines, 3, zonename);
  }

  /** The command loop, started at the first command line, reads back all the commands. */
  lemma CommandsFromFirst(lines: seq<string>, z: ZoneData, banner: bool, zonename: string)
    requires ValidZone(z) && Spells(lines, z, banner)
    ensures Commands(lines, First(banner), zonename) == Success(z.cmd)
  {
    CommandLinesRead(lines, zonename, First(banner), z.cmd[..|z.cmd| - 1]);
    CommandsRun(lines, zonename, First(banner), z.cmd[..|z.cmd| - 1]);
    ButLast(z.cmd);
  }

  /** The command loop, started after the constants line, skips the "*" line and reads back
      all the commands. */
  lemma CommandsFromThree(lines: seq<string>, z: ZoneData, banner: bool, zonename: string)
    requires ValidZone(z) && Spells(lines, z, banner)
    ensures Commands(lines, 3, zonename) == Success(z.cmd)
  {
    CommandsFromFirst(lines, z, banner, zonename);
    if banner {
      CommandsSkipBanner(lines, zonename);
    }
  }

  /** The three header lines read back as the zone's number, name and constants. */
  lemma HeaderSpelled(lines: seq<string>, z: ZoneData, banner: bool, zonename: string)
    requires ValidZone(z) && Spells(lines, z, banner)
    ensures Header(lines, zonename) == Success(ZoneHeader(z.number, z.name, ZoneConstants(z.bot, z.top, z.lifespan, z.resetMode)))
  {
    ParseHeader(z.number);
    NameStopsAtTilde(z.name, "");
    assert z.name + "~" + "" == z.name + "~";
    ParseConstantsLine(z);
    HeaderOf(lines, zonename, z.number, z.name, ZoneConstants(z.bot, z.top, z.lifespan, z.resetMode));
  }

  /** Three header lines whose parts parse give the header they spell. */
  lemma HeaderOf(lines: seq<string>, zonename: string, number: int, name: string, k: ZoneConstants)
    requires 3 <= |lines| && lines[0] != [] && lines[0][0] == '#'
    requires ParseInt(lines[0][1..]) == Some(number) && ZoneName(lines[1]) == name
    requires ParseConstants(lines[2]) == Some(k)
    ensures Header(lines, zonename) == Success(ZoneHeader(number, name, k))
  {
  }

  /** The parse pass over a file that spells a zone, for any count the pre-scan might report. */
  lemma LoadWithCountSpelled(lines: seq<string>, z: ZoneData, banner: bool, zonename: string, n: nat)
    requires ValidZone(z) && Spells(lines, z, banner)
    ensures LoadWithCount(lines, zonename, n)
            == if n == 0 then Failure(EmptyZone(zonename))
               else if n != |z.cmd| then Failure(CountMismatch(zonename, n, |z.cmd|))
               else Success(z)
  {
    HeaderSpelled(lines, z, banner, zonename);
    CommandsFromThree(lines, z, banner, zonename);
    LoadWithCountParsed(lines, z, zonename, n);
  }

  /** The parse pass over lines whose header and command list read as z. */
  lemma LoadWithCountParsed(lines: seq<string>, z: ZoneData, zonename: string, n: nat)
    requires 3 <= |lines| && z.bot <= z.top
    requires Header(lines, zonename) == Success(ZoneHeader(z.number, z.name, ZoneConstants(z.bot, z.top, z.lifespan, z.resetMode)))
    requires Commands(lines, 3, zonename) == Success(z.cmd)
    ensures LoadWithCount(lines, zonename, n)
            == if n == 0 then Failure(EmptyZone(zonename))
               else if n != |z.cmd| then Failure(CountMismatch(zonename, n, |z.cmd|))
               else Success(z)
  {
  }

  /** A zone written with a comment line before its commands loads back as itself. */
  lemma LoadFormatZone(z: ZoneData, zonename: string)
    requires ValidZone(z)
    ensures Load(FormatZone(z, true), zonename) == Success(z)
  {
    FormatZoneSpells(z, true);
    PreScanSpelled(FormatZone(z, true), z, true);
    LoadWithCountSpelled(FormatZone(z, true), z, true, zonename, |z.cmd|);
  }

  /** A zone written with its first command right after the constants line is always
      rejected: the pre-scan reports one command more than the file has. */
  lemma FormatZoneWithoutCommentRejected(z: ZoneData, zonename: string)
    requires ValidZone(z)
    ensures Load(FormatZone(z, false), zonename) == Failure(CountMismatch(zonename, |z.cmd| + 1, |z.cmd|))
  {
    FormatZoneSpells(z, false);
    PreScanSpelled(FormatZone(z, false), z, false);
    LoadWithCountSpelled(FormatZone(z, false), z, false, zonename, |z.cmd| + 1);
  }

  /** With the corrected pre-scan, both layouts load back as the zone. */
  lemma LoadIntendedFormatZone(z: ZoneData, banner: bool, zonename: string)
    requires ValidZone(z)
    ensures LoadIntended(FormatZone(z, banner), zonename) == Success(z)
  {
    FormatZoneSpells(z, banner);
    PreScanSpelled(FormatZone(z, banner), z, banner);
    LoadWithCountSpelled(FormatZone(z, banner), z, banner, zonename, |z.cmd|);
  }
}
