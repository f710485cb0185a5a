/**
  What load_zones makes of lines outside the layout it writes: command lines whose integers
  are separated by any whitespace, command lines with too few integers, and the errors the
  header and the command loop report for a whole file.
 */
module ZoneLines {
  import opened Results
  import opened Text
  import opened Seqs
  import opened Zone
  import opened ZoneFormat

  // ---------------------------------------------------------------------------
  // Digit groups separated by whitespace groups

  /** Every group is a non-empty run of decimal digits. */
  predicate DigitGroups(ds: seq<string>)
  {
    ds == [] || (ds[0] != [] && AllDigits(ds[0]) && DigitGroups(ds[1..]))
  }

  /** Every group is a non-empty run of whitespace. */
  predicate SpaceGroups(ws: seq<string>)
  {
    ws == [] || (ws[0] != [] && AllSpace(ws[0]) && SpaceGroups(ws[1..]))
  }

  /** Text made of whitespace only. */
  predicate AllSpace(w: string)
  {
    forall j :: 0 <= j < |w| ==> IsSpace(w[j])
  }

  /** The digit groups with a whitespace group between each two: ds[0] + ws[0] + ds[1] + ... */
  function Spaced(ds: seq<string>, ws: seq<string>): string
    requires |ds| >= 1 && |ws| == |ds| - 1
    decreases |ds|
  {
    if |ds| == 1 then ds[0] else ds[0] + ws[0] + Spaced(ds[1..], ws[1..])
  }

  /** The value of each digit group. */
  function GroupValues(ds: seq<string>): (vs: seq<nat>)
    requires DigitGroups(ds)
    ensures |vs| == |ds|
  {
    if ds == [] then [] else [DigitsValue(ds[0])] + GroupValues(ds[1..])
  }

  /** A whitespace prefix that ends at a non-space (or at the end) is the whitespace run. */
  lemma {:induction false} SpaceRunIs(s: string, k: nat)
    requires k <= |s| && forall j :: 0 <= j < k ==> IsSpace(s[j])
    requires k == |s| || !IsSpace(s[k])
    ensures SpaceRun(s) == k
  {
    if k > 0 {
      SpaceRunIs(s[1..], k - 1);
    }
  }

  /** Spaced text starts with the first digit of the first group. */
  lemma SpacedStart(ds: seq<string>, ws: seq<string>)
    requires |ds| >= 1 && |ws| == |ds| - 1 && DigitGroups(ds)
    ensures Spaced(ds, ws) != [] && Spaced(ds, ws)[0] == ds[0][0] && IsDigit(ds[0][0])
  {
  }

  /** The first digit group, the first whitespace group and the text after them. */
  lemma SpacedHead(ds: seq<string>, ws: seq<string>, rest: string)
    requires |ds| >= 2 && |ws| == |ds| - 1 && DigitGroups(ds) && SpaceGroups(ws)
    ensures var s := Spaced(ds, ws) + rest;
      var d := |ds[0]|;
      && DigitRun(s) == d && s[..d] == ds[0]
      && SpaceRun(s[d..]) == |ws[0]|
      && s[d + |ws[0]|..] == Spaced(ds[1..], ws[1..]) + rest
  {
    var t := Spaced(ds[1..], ws[1..]) + rest;
    var s := ds[0] + (ws[0] + t);
    AppendAssoc(ds[0], ws[0], Spaced(ds[1..], ws[1..]));
    AppendAssoc(ds[0] + ws[0], Spaced(ds[1..], ws[1..]), rest);
    AppendAssoc(ds[0], ws[0], t);
    assert Spaced(ds, ws) + rest == s;
    assert s[..|ds[0]|] == ds[0] && s[|ds[0]|..] == ws[0] + t;
    DigitNotSpace(ds[0][0]);
    assert s[|ds[0]|] == ws[0][0];
    DigitRunIs(s, |ds[0]|);
    SpacedStart(ds[1..], ws[1..]);
    DigitNotSpace(t[0]);
    assert (ws[0] + t)[|ws[0]|] == t[0];
    SpaceRunIs(ws[0] + t, |ws[0]|);
    assert (ws[0] + t)[|ws[0]|..] == t;
  }

  /** One digit group followed by text that does not start with a digit. */
  lemma MatchIntsOneGroup(d: string, rest: string)
    requires d != [] && AllDigits(d) && (rest == [] || !IsDigit(rest[0]))
    ensures DigitRun(d + rest) == |d| && (d + rest)[..|d|] == d && (d + rest)[|d|..] == rest
    ensures MatchInts(d + rest, 1) == Some(([DigitsValue(d)], rest))
  {
    var s := d + rest;
    assert s[..|d|] == d && s[|d|..] == rest;
    if rest != [] {
      assert s[|d|] == rest[0];
    }
    DigitRunIs(s, |d|);
  }

  /** A digit group and a whitespace group in front of text that the remaining groups read:
      the pattern reads the group's value in front of those. */
  lemma MatchIntsAfterGroup(s: string, n: nat, m: nat, d: nat, w: nat, vs: seq<nat>, rest: string)
    requires n >= 2 && m == n - 1 && 0 < d && DigitRun(s) == d
    requires 0 < w && SpaceRun(s[d..]) == w && MatchInts(s[d + w..], m) == Some((vs, rest))
    ensures MatchInts(s, n) == Some(([DigitsValue(s[..d])] + vs, rest))
  {
    var t := s[d..];
    var u := s[d + w..];
    assert t[w..] == u;
    assert MatchInts(s, n) == (match MatchInts(u, m)
                               case None => None
                               case Some((vs', rest')) => Some(([DigitsValue(s[..d])] + vs', rest')));
  }

  /** A digit group and a whitespace group in front of text that the remaining groups do not
      read: the pattern fails. */
  lemma MatchIntsFailAfterGroup(s: string, n: nat, d: nat, w: nat, t: string)
    requires n >= 2 && 0 < d && DigitRun(s) == d && 0 < w && SpaceRun(s[d..]) == w
    requires s[d + w..] == t && MatchInts(t, n - 1) == None
    ensures MatchInts(s, n) == None
  {
  }

  /** The digit groups of the command regular expression, with any whitespace between them,
      read the value of each group and leave what follows the last one. */
  lemma {:induction false} MatchIntsGroups(ds: seq<string>, ws: seq<string>, rest: string)
    requires |ds| >= 1 && |ws| == |ds| - 1 && DigitGroups(ds) && SpaceGroups(ws)
    requires rest == [] || !IsDigit(rest[0])
    ensures MatchInts(Spaced(ds, ws) + rest, |ds|) == Some((GroupValues(ds), rest))
    decreases |ds|
  {
    if |ds| == 1 {
      MatchIntsOneGroup(ds[0], rest);
      assert GroupValues(ds) == [DigitsValue(ds[0])];
    } else {
      SpacedHead(ds, ws, rest);
      MatchIntsGroups(ds[1..], ws[1..], rest);
      MatchIntsAfterGroup(Spaced(ds, ws) + rest, |ds|, |ds| - 1, |ds[0]|, |ws[0]|, GroupValues(ds[1..]), rest);
    }
  }

  /** After the last digit group there is no further group: the text is empty, or it does not
      start with a digit and its leading whitespace is not followed by one. */
  predicate NoFurtherGroup(rest: string)
  {
    && (rest == [] || !IsDigit(rest[0]))
    && (SpaceRun(rest) == |rest| || !IsDigit(rest[SpaceRun(rest)]))
  }

  /** The digit groups of the command regular expression fail on text with fewer groups than
      the pattern asks for. */
  lemma {:induction false} MatchIntsTooFew(ds: seq<string>, ws: seq<string>, rest: string, n: nat)
    requires |ds| >= 1 && |ws| == |ds| - 1 && DigitGroups(ds) && SpaceGroups(ws)
    requires NoFurtherGroup(rest) && n > |ds|
    ensures MatchInts(Spaced(ds, ws) + rest, n) == None
    decreases |ds|
  {
    if |ds| == 1 {
      MatchIntsTooFewOne(ds[0], rest, n);
    } else {
      MatchIntsTooFew(ds[1..], ws[1..], rest, n - 1);
      MatchIntsTooFewStep(ds, ws, rest, n);
    }
  }

  /** The groups after the first fail a pattern with one group fewer, so all of them fail
      the whole pattern. */
  lemma MatchIntsTooFewStep(ds: seq<string>, ws: seq<string>, rest: string, n: nat)
    requires |ds| >= 2 && |ws| == |ds| - 1 && DigitGroups(ds) && SpaceGroups(ws) && n > |ds|
    requires MatchInts(Spaced(ds[1..], ws[1..]) + rest, n - 1) == None
    ensures MatchInts(Spaced(ds, ws) + rest, n) == None
  {
    SpacedHead(ds, ws, rest);
    MatchIntsFailAfterGroup(Spaced(ds, ws) + rest, n, |ds[0]|, |ws[0]|, Spaced(ds[1..], ws[1..]) + rest);
  }

  /** Text with no further digit group after the last one ends any pattern that asks for one
      more whitespace group and digit group. */
  lemma NoGroupAfter(rest: string, m: nat)
    requires NoFurtherGroup(rest) && m >= 1
    ensures SpaceRun(rest) == 0 || MatchInts(rest[SpaceRun(rest)..], m) == None
  {
    var w := SpaceRun(rest);
    if w != 0 {
      assert w == |rest| || rest[w..][0] == rest[w];
    }
  }

  /** One digit group with no further group after it fails a pattern of two or more groups. */
  lemma MatchIntsTooFewOne(d: string, rest: string, n: nat)
    requires d != [] && AllDigits(d) && NoFurtherGroup(rest) && n >= 2
    ensures MatchInts(d + rest, n) == None
  {
    MatchIntsOneGroup(d, rest);
    NoGroupAfter(rest, n - 1);
    var w := SpaceRun(rest);
    if w != 0 {
      assert (d + rest)[|d| + w..] == rest[w..];
      MatchIntsFailAfterGroup(d + rest, n, |d|, w, rest[w..]);
    }
  }

  /** Text that does not start with a digit matches no digit group. */
  lemma MatchIntsNoDigit(s: string, n: nat)
    requires n >= 1 && (s == [] || !IsDigit(s[0]))
    ensures MatchInts(s, n) == None
  {
  }

  // ---------------------------------------------------------------------------
  // Command lines

  /** The integers a command letter needs: four for M, O, E, P and D, three otherwise. */
  function ArgCount(code: char): nat
  {
    if code in "MOEPD" then 4 else 3
  }

  /** The error the command loop reports for a line it cannot parse. */
  function FormatError(line: string, lineNum: nat, zonename: string): ZoneError
    requires line != []
  {
    if line[0] in "MOEPD" then FourArgFormat(zonename, lineNum, line)
    else ThreeArgFormat(zonename, lineNum, line)
  }

  /** A command line whose stripped text after the letter holds as many digit groups as the
      letter needs, separated by any whitespace, parses to those values, and the rest of the
      line, stripped, is the comment. */
  lemma ParseCommandGroups(line: string, ds: seq<string>, ws: seq<string>, rest: string)
    requires line != [] && |ds| == ArgCount(line[0]) && |ws| == |ds| - 1
    requires DigitGroups(ds) && SpaceGroups(ws)
    requires Strip(line[1..]) == Spaced(ds, ws) + rest
    requires (rest == [] || !IsDigit(rest[0])) && '\n' !in rest
    ensures var vs := GroupValues(ds);
      ParseCommand(line)
      == Some(ResetCommand(line[0], vs[0], vs[1], vs[2], if |ds| == 4 then vs[3] else 0, 0, Strip(rest)))
  {
    var s := Strip(line[1..]);
    MatchIntsGroups(ds, ws, rest);
    SpacedStart(ds, ws);
    assert s[0] == ds[0][0];
    DigitNotSpace(s[0]);
    MatchArgsIs(s, |ds|, GroupValues(ds), rest);
    ParseCommandIs(line, |ds|, GroupValues(ds), rest);
  }

  /** A command line whose stripped text after the letter holds fewer digit groups than the
      letter needs is rejected with the format error of its letter. */
  lemma ClassifyTooFew(line: string, lineNum: nat, zonename: string, ds: seq<string>, ws: seq<string>, rest: string)
    requires line != [] && line[0] != '*' && line[0] != 'S' && line[0] != '$'
    requires 1 <= |ds| < ArgCount(line[0]) && |ws| == |ds| - 1
    requires DigitGroups(ds) && SpaceGroups(ws)
    requires Strip(line[1..]) == Spaced(ds, ws) + rest && NoFurtherGroup(rest)
    ensures ClassifyLine(line, lineNum, zonename) == Malformed(FormatError(line, lineNum, zonename))
  {
    var s := Strip(line[1..]);
    SpacedStart(ds, ws);
    assert s[0] == ds[0][0];
    DigitNotSpace(s[0]);
    assert LStrip(s) == s;
    MatchIntsTooFew(ds, ws, rest, ArgCount(line[0]));
    ClassifyParsed(line, lineNum, zonename);
  }

  /** The command loop rejects a line with too few integers and no leading whitespace. */
  lemma LineTooFew(line: string, lineNum: nat, zonename: string, ds: seq<string>, ws: seq<string>, rest: string)
    requires line != [] && !IsSpace(line[0]) && line[0] != '*' && line[0] != 'S' && line[0] != '$'
    requires 1 <= |ds| < ArgCount(line[0]) && |ws| == |ds| - 1 && DigitGroups(ds) && SpaceGroups(ws)
    requires Strip(line[1..]) == Spaced(ds, ws) + rest && NoFurtherGroup(rest)
    ensures ClassifyLine(SkipSpaces(line), lineNum, zonename) == Malformed(FormatError(line, lineNum, zonename))
  {
    SkipSpacesNoLead(line);
    ClassifyTooFew(line, lineNum, zonename, ds, ws, rest);
  }

  /** The decimal spelling of each integer. */
  function Decimals(vs: seq<nat>): (ds: seq<string>)
    ensures |ds| == |vs| && DigitGroups(ds) && GroupValues(ds) == vs
  {
    if vs == [] then [] else [NatToString(vs[0])] + Decimals(vs[1..])
  }

  /** k single spaces. */
  function Singles(k: nat): (ws: seq<string>)
    ensures |ws| == k && SpaceGroups(ws)
  {
    if k == 0 then [] else [" "] + Singles(k - 1)
  }

  /** The integers of a written command line are digit groups separated by single spaces. */
  lemma {:induction false} IntsTextSpaced(vs: seq<nat>)
    requires vs != []
    ensures IntsText(vs) == Spaced(Decimals(vs), Singles(|vs| - 1))
    decreases |vs|
  {
    if |vs| > 1 {
      IntsTextSpaced(vs[1..]);
      assert Decimals(vs)[1..] == Decimals(vs[1..]);
      assert Singles(|vs| - 1)[1..] == Singles(|vs| - 2);
    }
  }

  /** A letter, a space and fewer integers than the letter needs: the command loop rejects
      the line with the format error of its letter. */
  lemma ClassifyShortLine(code: char, vs: seq<nat>, lineNum: nat, zonename: string)
    requires code != '*' && code != 'S' && code != '$'
    requires 1 <= |vs| < ArgCount(code)
    ensures var line := [code] + " " + IntsText(vs);
      ClassifyLine(line, lineNum, zonename) == Malformed(FormatError(line, lineNum, zonename))
  {
    var line := [code] + " " + IntsText(vs);
    WrittenArgs(code, vs);
    IntsTextSpaced(vs);
    AppendEmpty(Spaced(Decimals(vs), Singles(|vs| - 1)));
    ClassifyTooFew(line, lineNum, zonename, Decimals(vs), Singles(|vs| - 1), []);
  }

  /** After the letter, the stripped text of a written line is its integers, single-spaced. */
  lemma WrittenArgs(code: char, vs: seq<nat>)
    requires vs != []
    ensures Strip(([code] + " " + IntsText(vs))[1..]) == IntsText(vs)
  {
    var x := IntsText(vs);
    assert ([code] + " " + x)[1..] == " " + x;
    DigitNotSpace(x[0]);
    DigitNotSpace(x[|x| - 1]);
    StripAfterSpace(x);
  }

  /** A command line whose stripped text after the letter does not start with a digit is
      rejected with the format error of its letter. */
  lemma ClassifyNoInts(line: string, lineNum: nat, zonename: string)
    requires line != [] && line[0] != '*' && line[0] != 'S' && line[0] != '$'
    requires Strip(line[1..]) == [] || !IsDigit(Strip(line[1..])[0])
    ensures ClassifyLine(line, lineNum, zonename) == Malformed(FormatError(line, lineNum, zonename))
  {
    var s := Strip(line[1..]);
    if s != [] && IsSpace(s[0]) {
      assert false;
    }
    assert LStrip(s) == s;
    MatchIntsNoDigit(s, ArgCount(line[0]));
    ClassifyParsed(line, lineNum, zonename);
  }

  // ---------------------------------------------------------------------------
  // Errors of the whole reader

  /** The command loop goes on past line index i: the line is skipped or parsed. */
  predicate PassesLine(lines: seq<string>, i: nat, zonename: string)
    requires i < |lines|
  {
    var k := ClassifyLine(SkipSpaces(lines[i]), i + 1, zonename);
    k.Skipped? || k.Parsed?
  }

  /** The command loop read from `q` stops with the error of the first line it cannot parse,
      when every line before that one is skipped or parsed. */
  lemma {:induction false} CommandsFailAt(lines: seq<string>, q: nat, p: nat, zonename: string)
    requires q <= p < |lines|
    requires forall i :: q <= i < p ==> PassesLine(lines, i, zonename)
    requires ClassifyLine(SkipSpaces(lines[p]), p + 1, zonename).Malformed?
    ensures Commands(lines, q, zonename) == Failure(ClassifyLine(SkipSpaces(lines[p]), p + 1, zonename).e)
    decreases p - q
  {
    if q == p {
      CommandsMalformedStep(lines, p, zonename);
    } else {
      assert PassesLine(lines, q, zonename);
      CommandsFailAt(lines, q + 1, p, zonename);
      var k := ClassifyLine(SkipSpaces(lines[q]), q + 1, zonename);
      if k.Skipped? {
        CommandsSkippedStep(lines, q, zonename);
      } else {
        CommandsParsedStep(lines, q, zonename, k.c);
      }
    }
  }

  /** With a header that reads and an ordered range, load_zones stops with the error of the
      first command line it cannot parse, which names that line's number. */
  lemma LoadFailsAtLine(lines: seq<string>, zonename: string, p: nat, e: ZoneError)
    requires PreScanCount(lines) > 0
    requires Header(lines, zonename).Success?
    requires Header(lines, zonename).value.constants.bot <= Header(lines, zonename).value.constants.top
    requires 3 <= p < |lines| && forall i :: 3 <= i < p ==> PassesLine(lines, i, zonename)
    requires ClassifyLine(SkipSpaces(lines[p]), p + 1, zonename) == Malformed(e)
    ensures Load(lines, zonename) == Failure(e) && e.lineNum == p + 1
  {
    CommandsFailAt(lines, 3, p, zonename);
  }

  /** A command line with too few integers that the command loop reaches makes load_zones
      fail with the format error of its letter and its line number. */
  lemma LoadRejectsTooFew(lines: seq<string>, zonename: string, p: nat, line: string,
                           ds: seq<string>, ws: seq<string>, rest: string)
    requires PreScanCount(lines) > 0
    requires Header(lines, zonename).Success?
    requires Header(lines, zonename).value.constants.bot <= Header(lines, zonename).value.constants.top
    requires 3 <= p < |lines| && lines[p] == line && forall i :: 3 <= i < p ==> PassesLine(lines, i, zonename)
    requires line != [] && !IsSpace(line[0]) && line[0] != '*' && line[0] != 'S' && line[0] != '$'
    requires 1 <= |ds| < ArgCount(line[0]) && |ws| == |ds| - 1 && DigitGroups(ds) && SpaceGroups(ws)
    requires Strip(line[1..]) == Spaced(ds, ws) + rest && NoFurtherGroup(rest)
    ensures Load(lines, zonename) == Failure(FormatError(line, p + 1, zonename))
  {
    LineTooFew(line, p + 1, zonename, ds, ws, rest);
    LoadFailsAtLine(lines, zonename, p, FormatError(line, p + 1, zonename));
  }

  /** The constants line fails to read exactly when it has fewer than four words or one of
      its first four words is not an integer; otherwise it holds those four integers (further
      words are ignored). */
  lemma ParseConstantsOutcome(line: string)
    ensures var ps := Split(line);
      && (ParseConstants(line).None? <==>
            || |ps| < 4
            || ParseInt(ps[0]).None? || ParseInt(ps[1]).None? || ParseInt(ps[2]).None? || ParseInt(ps[3]).None?)
      && (ParseConstants(line).Some? ==>
            var k := ParseConstants(line).value;
            && ParseInt(ps[0]) == Some(k.bot) && ParseInt(ps[1]) == Some(k.top)
            && ParseInt(ps[2]) == Some(k.lifespan) && ParseInt(ps[3]) == Some(k.resetMode))
  {
  }

  /** A file too short for the header is reported as empty by the pre-scan, so load_zones
      never reports the end of the file while reading the name or the constants. */
  lemma LoadNeverHeaderEof(lines: seq<string>, zonename: string)
    ensures Load(lines, zonename).Failure? ==>
      && Load(lines, zonename).error != NameEof(zonename)
      && Load(lines, zonename).error != ConstantsEof(zonename)
  {
    if |lines| <= 3 {
      ShortFileEmpty(lines);
    } else {
      HeaderNoEof(lines, zonename);
      LoadWithCountOutcome(lines, zonename, PreScanCount(lines));
      if PreScanCount(lines) != 0 && Header(lines, zonename).Success? {
        LoadBodyNoEof(lines, zonename, PreScanCount(lines), Header(lines, zonename).value);
      }
    }
  }

  /** The pre-scan skips the three header lines, so it counts nothing in a file that has no
      more lines than those. */
  lemma ShortFileEmpty(lines: seq<string>)
    requires |lines| <= 3
    ensures PreScanCount(lines) == 0
  {
  }

  /** With three lines present the header never reports the end of the file. */
  lemma HeaderNoEof(lines: seq<string>, zonename: string)
    requires |lines| >= 3
    ensures Header(lines, zonename).Failure? ==>
      && Header(lines, zonename).error != NameEof(zonename)
      && Header(lines, zonename).error != ConstantsEof(zonename)
  {
  }

  /** The range check and the command loop never report the end of the file while reading
      the name or the constants. */
  lemma LoadBodyNoEof(lines: seq<string>, zonename: string, numOfCmds: nat, h: ZoneHeader)
    requires 3 <= |lines|
    ensures LoadBody(lines, zonename, numOfCmds, h).Failure? ==>
      && LoadBody(lines, zonename, numOfCmds, h).error != NameEof(zonename)
      && LoadBody(lines, zonename, numOfCmds, h).error != ConstantsEof(zonename)
  {
    CommandsFailure(lines, 3, zonename);
  }

  /** The header errors of load_zones once the pre-scan has counted a command: an empty first
      line, a first line without '#', a number that int() rejects, a constants line that does
      not read (among them one with fewer than four words), and a range whose bottom is above
      its top. */
  lemma LoadHeaderErrors(lines: seq<string>, zonename: string)
    requires PreScanCount(lines) > 0
    ensures |lines| > 3
    ensures lines[0] == [] ==> Load(lines, zonename) == Failure(MissingHeader(zonename))
    ensures lines[0] != [] && lines[0][0] != '#' ==> Load(lines, zonename) == Failure(HeaderWithoutHash(zonename, 1))
    ensures lines[0] != [] && lines[0][0] == '#' && ParseInt(lines[0][1..]).None? ==>
      Load(lines, zonename) == Failure(HeaderNotNumber(zonename, 1))
    ensures lines[0] != [] && lines[0][0] == '#' && ParseInt(lines[0][1..]).Some? ==>
      && (ParseConstants(lines[2]).None? ==> Load(lines, zonename) == Failure(ConstantsFormat(zonename)))
      && (|Split(lines[2])| < 4 ==> Load(lines, zonename) == Failure(ConstantsFormat(zonename)))
      && (ParseConstants(lines[2]).Some? && ParseConstants(lines[2]).value.bot > ParseConstants(lines[2]).value.top ==>
            var k := ParseConstants(lines[2]).value;
            Load(lines, zonename) == Failure(BottomAboveTop(ParseInt(lines[0][1..]).value, k.bot, k.top)))
  {
  }
}
