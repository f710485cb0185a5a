# CircleMUD zone files: reader and converters

A Dafny model of the zone-file tooling of a Python port of CircleMUD.

- `load_zones` reads a zone file. A zone is a numbered region of rooms with a script of reset commands.
- It reads the file in two passes. First a pre-scan counts the command lines. Then a parse reads the header, the name and the numeric constants, followed by the commands up to the first `S` or `$`.
- It accepts the zone only when the parsed commands agree with the count. Every other outcome is one of its logged errors.
- Two converters project an accepted zone into dicts. One is written as YAML, the other as JSON:
  - The YAML converter renames each command after its code. It strips unset fields with `remove_none_values` and stops at the first `S`.
  - The JSON converter keeps the raw code and writes every command.

The modules:

- `Results`: `Option` and `Result`.
- `Seqs`: generic facts about slices and concatenation.
- `Text`: the string operations the reader relies on (`lstrip`, `strip`, `find`, `split`, `int`, the `\d+` runs of its patterns).
- `Zone` (`tools/lib/zone.py`): the records, `get_line`, the pre-scan, the header, name and constants lines, the command loop, and `load_zones`. `load_zones` is the method `ZoneTable.LoadZones`. The class holds the module counter `top_of_zone_table`.
  - The method is proved equal to the function `Load`. `Load` is the pre-scan count (`PreScanCount`) checked against the parse (`LoadWithCount`).
  - Loops are methods with invariants: `CountCommands`, whose second loop is `CountRun`, and `ReadCommands`. They are proved against the functions `PreScanCount` and `Commands`.
- `ZoneFormat`: the file layout the reader expects (`FormatZone`). Round trips: a command line, the constants line and the header parse back to what was written, and whole zones load back. This module also holds the double count of the pre-scan (see Findings).
- `ZoneLines`: what the reader makes of lines it did not write. Command integers may be separated by any whitespace. Lines with too few integers are rejected with the format error of their letter and their line number. The header errors of `load_zones` are stated over whole files.
- `Values`: Python values (None, int, str, list, dict) and `remove_none_values`.
  - A dict is its ordered entries, with `d[k] = v` and `d.pop(k)` as Python performs them.
  - `remove_none_values` is the method `RemoveNoneValues`, a loop proved equal to the function `Cleaned`.
  - `Cleaned` is related to an independent filter, `KeptEntries`, and shown to be clean, idempotent and a fixpoint on clean dicts.
- `ConvertZoneYaml` (`tools/convertzone_yaml.py`):
  - The per-command projection (`ProjectCommand`) starts from the ten-key placeholder dict. It performs the code's assignments and pops, then cleans the dict. It is proved equal to an explicit per-code dict, `YamlCommand`.
  - The zone loop (`ProjectZone`) breaks at `S` and is proved equal to `YamlZone`.
- `ConvertZone` (`tools/convertzone.py`):
  - The per-command projection builds each dict from an empty dict and is proved equal to `JsonCommand`.
  - The zone loop writes every command.
  - `custom_dump_default` is modelled together with an inverse.
  - Lemmas compare the two converters command by command and for accepted zones.

The model keeps these behaviours of the code:
- The pre-scan skips three lines.
- It stops at the first blank line.
- It counts the fourth line twice.
- `arg3` is 0, not absent, for three-argument codes.
- `line` stays 0.
- The counter `top_of_zone_table` is kept.

## Model

| member | source | states |
|---|---|---|
| Zone.GetLine | tools/lib/zone.py:2-14 | the next line without its newline and 1 line read, or None and 0 at the end of the file |
| Zone.CountCommands | tools/lib/zone.py:96-130 | the two counting loops compute PreScanCount: three lines skipped, the fourth line counted by the first loop and again by the second, counting stopped at the first blank line or the end |
| Zone.CountRun | tools/lib/zone.py:120-130 | the second loop counts the qualifying lines from the cursor up to the first blank line or the end of the file |
| Zone.PreScanFromCursor | tools/lib/zone.py:101-130 | from the cursor the first loop leaves, the second loop's count completes PreScanCount, whether the fourth line is missing, blank or present |
| Zone.PreScanCountsFourthLineTwice | tools/lib/zone.py:102-130 | a qualifying fourth line contributes 2 to the count |
| Zone.PreScanStopsAtBlank | tools/lib/zone.py:121-125 | once a blank line appears at the fourth line or later, the lines after it never change the count |
| Zone.PreScanSkipsThreeLines | tools/lib/zone.py:96-99 | the first three lines never change the count |
| Zone.PreScanAfterHeader | tools/lib/zone.py:96-130 | after the three skipped lines the count depends only on the rest: 0 with no fourth line, the run after a blank fourth line, otherwise the fourth line counted on top of the run that starts with it |
| Zone.EmptyZoneIffNoCommands | tools/lib/zone.py:136-139 | the reader reports an empty zone exactly when the pre-scan counts nothing |
| Zone.ReadHeader | tools/lib/zone.py:144-193 | the header, name and constants lines are read as the function Header says, leaving the cursor at line 3 |
| Zone.ZoneName | tools/lib/zone.py:171-175 | the name is the longest prefix of the line without '~' and ends where the first '~' stood |
| Zone.NameStopsAtTilde | tools/lib/zone.py:171-175 | a name followed by '~' and anything is read back as the name |
| Zone.ParseCommand | tools/lib/zone.py:273-304 | a parsed command has the line's first character as its code, line 0, a stripped one-line comment, and arg3 0 for codes outside MOEPD |
| Zone.ClassifyLine | tools/lib/zone.py:210-304 | a parsed command line gives a regular command; a malformed one gives a format error carrying its line number |
| Zone.ReadLine | tools/lib/zone.py:210-304 | one pass of the command loop's body classifies the line as ClassifyLine does |
| Zone.ReadCommands | tools/lib/zone.py:200-307 | the command loop returns Commands from its start line, with cmd_no one less than the commands returned |
| Zone.CommandsFailure | tools/lib/zone.py:202-307 | the command loop fails only at the end of the file or on an unparsable line, which it names by number |
| Zone.CommandsStep | tools/lib/zone.py:202-307 | one line of the loop: skip, stop with the StopCommand appended, fail, or keep the parsed command in front |
| Zone.CommandsEndWithStop | tools/lib/zone.py:222-229 | every command list the loop returns ends with its only 'S' command |
| Zone.LoadBodyOutcome | tools/lib/zone.py:195-314 | after the header the reader never reports an empty zone; on success the zone holds the header's fields, bot <= top, and the loop's commands, as many as the count |
| Zone.LoadWithCountOutcome | tools/lib/zone.py:136-320 | an empty-zone error exactly for a zero count; on success the header line is '#' and the number, the constants line gives the range, the name comes from line 2, and the commands are the loop's, as many as the count |
| Zone.LoadedZoneShape | tools/lib/zone.py:74-320 | an accepted zone: '#' header, a name without '~', bot <= top, commands ending in their only 'S', and exactly as many as the pre-scan counted |
| Zone.AcceptedEndsWithStop | tools/lib/zone.py:200-314 | whatever count the parse is checked against, an accepted zone's commands end with their only 'S' |
| Zone.ZoneTable.LoadZones | tools/lib/zone.py:74-320 | load_zones returns Load's outcome, and the counter top_of_zone_table advances by one exactly when the zone is accepted |
| Zone.IntendedPreScanCount | tools/lib/zone.py:96-130 | the corrected count is the written count, less one exactly when the fourth line qualifies |
| Text.LStrip | tools/lib/zone.py:17-22 | the suffix left after removing the leading whitespace, starting with a non-space |
| Text.Strip | tools/lib/zone.py:236 | the result has no surrounding whitespace and leaves a stripped string unchanged |
| Text.Find | tools/lib/zone.py:172 | -1 exactly when the character is absent, otherwise the index of its first occurrence |
| Text.ParseIntToString | tools/lib/zone.py:159 | int() reads a decimal integer back as itself |
| Text.SplitJoinSpace | tools/lib/zone.py:186 | split() of space-joined words gives the words back |
| Text.DigitRun | tools/lib/zone.py:278 | the longest run of leading decimal digits, as `\d+` matches it |
| ZoneFormat.ParseCommandText | tools/lib/zone.py:273-304 | any command the loop can build (a letter other than S, $, * or whitespace, line 0, a stripped one-line comment, arg3 0 outside MOEPD), written as a command line, parses back to itself |
| ZoneFormat.ClassifyCommandLine | tools/lib/zone.py:210-304 | the command loop reads the written line of any command it can build as that command |
| ZoneFormat.ParseHeader | tools/lib/zone.py:151-162 | a header line '#' and a number gives the number back |
| ZoneFormat.ParseConstantsLine | tools/lib/zone.py:184-193 | the written constants line gives back bot, top, lifespan and reset mode |
| ZoneFormat.HeaderSpelled | tools/lib/zone.py:144-193 | the first three lines of a written zone read back as its number, name and constants |
| ZoneFormat.LoadWithCountParsed | tools/lib/zone.py:136-314 | when the header and the command loop read as a zone with bot <= top, the parse gives that zone for its own count, an empty-zone error for 0 and a count mismatch for any other count |
| ZoneFormat.PreScanSpelled | tools/lib/zone.py:96-130 | the pre-scan counts a written zone's commands once each plus one for the fourth line unless a comment line precedes them; the corrected count is exact |
| ZoneFormat.CommandsRun | tools/lib/zone.py:202-229 | a run of command lines ended by 'S' reads back as the commands and the StopCommand |
| ZoneFormat.CommandLinesRead | tools/lib/zone.py:202-304 | the lines of commands that lines can spell, followed by "S", are read by the loop as those commands and then a stop |
| ZoneFormat.CommandsFromThree | tools/lib/zone.py:200-307 | the command loop reads a written zone's commands back from line 3 |
| ZoneFormat.LoadFormatZone | tools/lib/zone.py:74-320 | a zone written with a comment line before its commands loads back as itself |
| ZoneFormat.FormatZoneWithoutCommentRejected | tools/lib/zone.py:101-130 | a zone written with its first command right after the constants line is always rejected with a count mismatch of one |
| ZoneFormat.LoadIntendedFormatZone | tools/lib/zone.py:96-320 | with the corrected pre-scan, both layouts load back as the zone |
| ZoneLines.MatchIntsGroups | tools/lib/zone.py:281-300 | n digit groups separated by any non-empty whitespace groups, followed by text that does not start with a digit, match with the value of each group and leave that text |
| ZoneLines.MatchIntsTooFew | tools/lib/zone.py:281-300 | fewer digit groups than the pattern asks for, with no further group after them, do not match |
| ZoneLines.ParseCommandGroups | tools/lib/zone.py:273-297 | a command line whose stripped arguments hold as many digit groups as its letter needs (four for MOEPD, three otherwise), with any whitespace between them, parses to the groups' values and the stripped rest as comment |
| ZoneLines.ClassifyTooFew | tools/lib/zone.py:273-300 | a command line with fewer digit groups than its letter needs is rejected with FourArgFormat for MOEPD and ThreeArgFormat otherwise, carrying its line number and text |
| ZoneLines.ClassifyShortLine | tools/lib/zone.py:273-300 | a letter, a space and fewer integers than the letter needs is rejected with the format error of that letter and its line number |
| ZoneLines.ClassifyNoInts | tools/lib/zone.py:273-300 | a command line whose arguments do not start with a digit is rejected with the format error of its letter |
| ZoneLines.CommandsFailAt | tools/lib/zone.py:202-300 | when every earlier line is skipped or parsed, the command loop stops with the error of the first line it cannot parse |
| ZoneLines.LoadFailsAtLine | tools/lib/zone.py:136-300 | with a readable header and an ordered range, load_zones fails with the error of the first unparsable command line, naming its line number |
| ZoneLines.LoadRejectsTooFew | tools/lib/zone.py:136-300 | a command line with too few integers that the loop reaches makes load_zones fail with its letter's format error and its line number |
| ZoneLines.ParseConstantsOutcome | tools/lib/zone.py:184-191 | the constants line fails exactly when it has fewer than four words or one of the first four is not an integer; otherwise those four words give bot, top, lifespan and reset mode |
| ZoneLines.ShortFileEmpty | tools/lib/zone.py:96-130 | a file of at most three lines has a pre-scan count of 0 |
| ZoneLines.LoadNeverHeaderEof | tools/lib/zone.py:136-181 | load_zones never reports the end of the file at the name or constants line, because a file that short is rejected as empty first |
| ZoneLines.LoadHeaderErrors | tools/lib/zone.py:136-198 | once the pre-scan counts a command: an empty first line gives the missing-header error, a first line without '#' gives HeaderWithoutHash at line 1, a number int() rejects gives HeaderNotNumber at line 1, a constants line that does not read (among them one with fewer than four words) gives ConstantsFormat, and bot > top gives BottomAboveTop with the number and the range |
| Values.AssignGet | tools/convertzone_yaml.py:19 | after d[k] = v, k gives v and every other key what it gave before |
| Values.AssignKeys | tools/convertzone_yaml.py:19 | d[k] = v keeps the key order and appends k when it is new |
| Values.AssignNew | tools/convertzone.py:48-50 | assigning a new key appends the entry |
| Values.AssignAt | tools/convertzone_yaml.py:68 | assigning a present key replaces its entry in place |
| Values.AssignDistinct | tools/convertzone_yaml.py:19 | assignment keeps the keys distinct |
| Values.GetAt | tools/convertzone_yaml.py:54-65 | every entry of a dict is found under its key |
| Values.PopGet | tools/convertzone_yaml.py:87 | after pop(k), k is absent and every other key gives what it gave before |
| Values.PopAt | tools/convertzone_yaml.py:87 | pop removes exactly the entry of its key, keeping the order of the rest |
| Values.AssignPop | tools/convertzone_yaml.py:87-96 | popping one key and assigning another commute |
| Values.RemoveNoneValues | tools/convertzone_yaml.py:9-26 | the loop computes Cleaned, and returns any value that is not a dict unchanged |
| Values.CleanList | tools/convertzone_yaml.py:21 | the comprehension cleans the dict items of a list and keeps the others |
| Values.CleanPrefixKept | tools/convertzone_yaml.py:13-24 | the dict built by assignment after n entries equals the filter KeptEntries of those entries |
| Values.CleanedKeeps | tools/convertzone_yaml.py:13-26 | remove_none_values of a dict is exactly its entries without None values, in order, each value cleaned |
| Values.KeptEntriesGet | tools/convertzone_yaml.py:14-24 | after cleaning, a key with a None value or no entry is absent, and any other key gives its cleaned value |
| Values.KeptEntriesKeys | tools/convertzone_yaml.py:14-16 | the keys after cleaning are exactly the keys whose value is not None, in order |
| Values.CleanedIsClean | tools/convertzone_yaml.py:17-22 | no None is left as a dict value at any depth reached through dicts and lists |
| Values.CleanedWellFormed | tools/convertzone_yaml.py:13-26 | cleaning keeps every dict's keys distinct |
| Values.CleanFixpoint | tools/convertzone_yaml.py:9-26 | a clean value is returned unchanged |
| Values.CleanedIff | tools/convertzone_yaml.py:9-26 | a dict is left unchanged exactly when it is clean |
| Values.CleanedIdempotent | tools/convertzone_yaml.py:9-26 | cleaning twice is cleaning once |
| Values.CleanedPop | tools/convertzone_yaml.py:87-101 | popping a key and then cleaning equals setting it to None and then cleaning |
| ConvertZoneYaml.CleanedSlots | tools/convertzone_yaml.py:54-65 | cleaning the placeholder dict keeps the fields that are not None, in the dict's key order |
| ConvertZoneYaml.SpawnMob | tools/convertzone_yaml.py:67-70 | an M command becomes spawn_mob with if_flag, max_existing, mob = arg1 and room = arg3 |
| ConvertZoneYaml.SpawnObject | tools/convertzone_yaml.py:71-74 | an O command becomes spawn_object with if_flag, max_existing, obj = arg1 and room = arg3 |
| ConvertZoneYaml.GiveObject | tools/convertzone_yaml.py:75-77 | a G command becomes give_object with if_flag, max_existing and obj = arg1 |
| ConvertZoneYaml.EquipMob | tools/convertzone_yaml.py:78-81 | an E command becomes equip_mob with if_flag, max_existing, obj = arg1 and eq_pos = arg3 |
| ConvertZoneYaml.PutObject | tools/convertzone_yaml.py:82-85 | a P command becomes put_object with if_flag, max_existing, obj = arg1 and container = arg3 |
| ConvertZoneYaml.DoorState | tools/convertzone_yaml.py:86-91 | a D command loses max_existing and becomes door_state with if_flag, room = arg1, exit = arg2 and state = arg3 |
| ConvertZoneYaml.RemoveObject | tools/convertzone_yaml.py:92-96 | an R command loses max_existing and becomes remove_object with if_flag, then obj = arg2 before room = arg1 in the placeholder order |
| ConvertZoneYaml.UnknownCode | tools/convertzone_yaml.py:99-101 | an unknown code keeps its letter, if_flag and max_existing |
| ConvertZoneYaml.ProjectCommand | tools/convertzone_yaml.py:54-101 | stop exactly for 'S'; otherwise the cleaned dict is the command's YamlCommand |
| ConvertZoneYaml.StopIndex | tools/convertzone_yaml.py:97-98 | the index of the first 'S', or the length when there is none |
| ConvertZoneYaml.StopIndexAt | tools/convertzone_yaml.py:97-98 | an index with no 'S' before it and an 'S' or the end at it is where the loop stops |
| ConvertZoneYaml.ProjectZone | tools/convertzone_yaml.py:43-102 | the zone dict holds the zone's fields, a None script and the command dicts of the commands before the first 'S' |
| ConvertZoneYaml.YamlCommandClean | tools/convertzone_yaml.py:101 | a written command dict has no None and no repeated key, so cleaning it again changes nothing |
| ConvertZoneYaml.StopIndexOfLoaded | tools/convertzone_yaml.py:97-98 | for an accepted zone's commands the loop stops at the last command |
| ConvertZoneYaml.YamlOfLoaded | tools/convertzone_yaml.py:53-102 | an accepted zone is written with every command but the closing 'S', in order |
| ConvertZoneYaml.YamlZoneKeepsScript | tools/convertzone_yaml.py:50 | the zone dict keeps its None script, so it is not clean |
| ConvertZone.OpeningAssigned | tools/convertzone.py:47-50 | the empty dict with command, if_flag and max_existing assigned holds those three in that order |
| ConvertZone.JsonTwoFields | tools/convertzone.py:52-65 | the two fields of M, O, E and P are appended after the opening three |
| ConvertZone.GiveFields | tools/convertzone.py:58-59 | G appends obj = arg1 |
| ConvertZone.DoorFields | tools/convertzone.py:66-70 | D pops max_existing and appends room, exit and state |
| ConvertZone.RemoveFields | tools/convertzone.py:71-74 | R pops max_existing and appends room then obj |
| ConvertZone.ProjectCommand | tools/convertzone.py:47-76 | the command dict is JsonCommand: the raw code, if_flag, max_existing unless D or R, and the code's fields in assignment order; S and unknown codes keep only the opening three |
| ConvertZone.ProjectZone | tools/convertzone.py:37-77 | the zone dict holds the zone's fields and one command dict per command, in order, with no early stop |
| ConvertZone.YamlRenamesJson | tools/convertzone.py:47-70 | except for R, the YAML command dict is the JSON one with the code replaced by its name |
| ConvertZone.YamlReordersRemove | tools/convertzone.py:71-74 | for R, the YAML dict also lists obj before room, where the JSON dict has room first |
| ConvertZone.JsonEndsWithStop | tools/convertzone.py:46-77 | a command list ending in its only stop is written in full, the stop last as command S with zero if_flag and max_existing |
| ConvertZone.JsonKeepsStop | tools/convertzone.py:46-77 | for an accepted zone, the JSON list has exactly one dict more than the YAML list: the closing stop |
| ConvertZone.CustomDumpDefault | tools/convertzone.py:8-20 | succeeds exactly for a zone; anything else is a TypeError "Not ZoneData" |
| ConvertZone.DumpRoundTrip | tools/convertzone.py:12-20 | the seven fields give the zone back, and every dict that reads back as a zone is the hook's output for it |
| ConvertZone.DumpRefusesCommands | tools/convertzone.py:9-14 | the hook's cmd field holds command objects, which the hook itself refuses |

## Left out

- File I/O is replaced by a list of lines with their newlines removed, and the file position by an index. This covers `readline`, `tell` and `seek`. The rewind between the passes becomes "start again at index 0".
- Logging and `exit_with_error` are not modelled. Each exit site returns its own `ZoneError` variant instead of ending the process.
- The block quoted out at tools/lib/zone.py:243-271 is not modelled. It is never executed, so `ResetCommand.line` stays 0.
- The regular expressions are modelled as digit-run and space-run scanning. The model's `Text.ParseInt` and digit runs accept only ASCII digits (with an optional sign for `int()`) and no underscores. Python's `int()` and `\d` also accept other Unicode decimal digits, and `int()` accepts single underscores between digits (`int('1_000') == 1000`); those inputs are parsed by Python but rejected by the model. Whitespace outside the listed set is not modelled.
- `Text.ParseInt` and `Zone.MatchInts`: read digit strings of any length. Since Python 3.11 (and 3.10.7), `int()` raises ValueError on a string of more than 4300 digits. For the header number (tools/lib/zone.py:157-161) and the constants (tools/lib/zone.py:184-191) that error is caught and reported as `HeaderNotNumber` and `ConstantsFormat`. In the command loop (tools/lib/zone.py:283-286 and 298-300) it is not caught, so `load_zones` ends with an uncaught exception. The model parses such numbers instead, because the limit depends on the interpreter version and its settings.
- `Values.Pop` requires its key to be present. The source pops only `max_existing`, which is always present there, so the KeyError path is not modelled.
- Both converters: argument checks, printing, `sys.exit` and the exception handlers are not modelled.
- Both converters: the YAML and JSON writers, `pyjson5.encode_noop` and the read-back validation are library calls on the dicts. They are not modelled; the model ends at the dict handed to the writer.
- Both converters: `zone_info is None` never happens, because `load_zones` either returns a zone or exits.
- The converters' appends to `new_zone["cmd"]` are modelled by collecting the command dicts in a local list and storing it under `cmd` once the loop ends. This gives the same final dict; the aliasing of the list object is not modelled.
- `ConvertZone.CustomDumpDefault`: no code in the repository passes it to `json.dumps`, so how the serialiser would use it is not modelled. Its objects are reduced to the three kinds the zone data can hold.
- The reader's other files are not part of this model: the network server, the zone script stub and the record constructors. They are not part of the reader or the converters.

## Findings

| source | as written | input that shows it | evidently intended | confidence | as-written member | corrected member |
|---|---|---|---|---|---|---|
| tools/lib/zone.py:101-130 | the first counting loop reads the fourth line, seeks back to it, and the second loop counts it again, so a qualifying fourth line is counted twice | any zone whose first command line (or its `S`) directly follows the constants line, e.g. `#1`, `Test~`, `1 2 3 4`, `M 0 1 0 1`, `S`: the count is 3, the parse finds 2, and the zone is rejected with a count mismatch | every command line counted once, so that any zone written in the file layout loads back | not executed | ZoneFormat.FormatZoneWithoutCommentRejected | ZoneFormat.LoadIntendedFormatZone |
