/**
  The JSON projection of tools/convertzone.py (lines 37-77): a loaded zone becomes a dict of
  its fields and a list with one dict per command, the closing 'S' included.  Each command
  dict is built up from an empty dict in assignment order.  Also the serialisation hook
  custom_dump_default (lines 8-20).  Writing, re-reading and validating the JSON text are
  not part of this model.
 */
module ConvertZone {
  import opened Results
  import opened Zone
  import opened Values
  import ConvertZoneYaml

  /** The command dict the file holds for c: the raw code, if_flag, max_existing except for
      D and R, then the fields the code sets, in the order they are assigned. */
  function JsonCommand(c: ResetCommand): Value
  {
    var code := ("command", Str([c.command]));
    var ifFlag := ("if_flag", Int(c.ifFlag));
    var maxExisting := ("max_existing", Int(c.arg2));
    Dict(
      match c.command
      case 'M' => [code, ifFlag, maxExisting, ("mob", Int(c.arg1)), ("room", Int(c.arg3))]
      case 'O' => [code, ifFlag, maxExisting, ("obj", Int(c.arg1)), ("room", Int(c.arg3))]
      case 'G' => [code, ifFlag, maxExisting, ("obj", Int(c.arg1))]
      case 'E' => [code, ifFlag, maxExisting, ("obj", Int(c.arg1)), ("eq_pos", Int(c.arg3))]
      case 'P' => [code, ifFlag, maxExisting, ("obj", Int(c.arg1)), ("container", Int(c.arg3))]
      case 'D' => [code, ifFlag, ("room", Int(c.arg1)), ("exit", Int(c.arg2)), ("state", Int(c.arg3))]
      case 'R' => [code, ifFlag, ("room", Int(c.arg1)), ("obj", Int(c.arg2))]
      case _ => [code, ifFlag, maxExisting])
  }

  /** The three entries every command starts with (lines 48-50). */
  function Opening(c: ResetCommand): Entries
  {
    [("command", Str([c.command])), ("if_flag", Int(c.ifFlag)), ("max_existing", Int(c.arg2))]
  }

  // ---------------------------------------------------------------------------
  // Building a command dict from the empty dict

  /** Assigning a key the dict does not hold appends it. */
  lemma AssignFresh(es: Entries, k: string, v: Value)
    requires forall j :: 0 <= j < |es| ==> es[j].0 != k
    ensures Assign(es, k, v) == es + [(k, v)]
  {
    GetAbsent(es, k);
    AssignNew(es, k, v);
  }

  lemma OpeningAssigned(c: ResetCommand)
    ensures Assign(Assign(Assign([], "command", Str([c.command])), "if_flag", Int(c.ifFlag)),
      "max_existing", Int(c.arg2)) == Opening(c)
  {
    var e0: Entries := [("command", Str([c.command]))];
    AssignFresh(e0, "if_flag", Int(c.ifFlag));
    var e1 := e0 + [("if_flag", Int(c.ifFlag))];
    AssignFresh(e1, "max_existing", Int(c.arg2));
  }

  /** Two assignments of keys the dict does not hold, in order. */
  lemma AssignTwoFresh(es: Entries, k1: string, v1: Value, k2: string, v2: Value)
    requires k1 != k2
    requires forall j :: 0 <= j < |es| ==> es[j].0 != k1 && es[j].0 != k2
    ensures Assign(Assign(es, k1, v1), k2, v2) == es + [(k1, v1), (k2, v2)]
  {
    AssignFresh(es, k1, v1);
    AssignFresh(es + [(k1, v1)], k2, v2);
  }

  /** Popping max_existing leaves the code and if_flag. */
  lemma OpeningPopped(c: ResetCommand)
    ensures Get(Opening(c), "max_existing").Some?
    ensures Pop(Opening(c), "max_existing") == Opening(c)[..2]
  {
    PopAt(Opening(c), 2, "max_existing");
  }

  /** The cases of lines 51-76, each ending in JsonCommand. */
  lemma JsonTwoFields(c: ResetCommand, k1: string, v1: Value, k2: string, v2: Value)
    requires c.command in "MOEP"
    requires JsonCommand(c).entries == Opening(c) + [(k1, v1), (k2, v2)]
    requires k1 in ["mob", "obj"] && k2 in ["room", "eq_pos", "container"]
    ensures Assign(Assign(Opening(c), k1, v1), k2, v2) == JsonCommand(c).entries
  {
    AssignTwoFresh(Opening(c), k1, v1, k2, v2);
  }

  lemma GiveFields(c: ResetCommand)
    requires c.command == 'G'
    ensures Assign(Opening(c), "obj", Int(c.arg1)) == JsonCommand(c).entries
  {
    AssignFresh(Opening(c), "obj", Int(c.arg1));
  }

  lemma DoorFields(c: ResetCommand)
    requires c.command == 'D'
    ensures Get(Opening(c), "max_existing").Some?
    ensures Assign(Assign(Assign(Pop(Opening(c), "max_existing"), "room", Int(c.arg1)), "exit", Int(c.arg2)),
      "state", Int(c.arg3)) == JsonCommand(c).entries
  {
    OpeningPopped(c);
    var e := Opening(c)[..2];
    AssignTwoFresh(e, "room", Int(c.arg1), "exit", Int(c.arg2));
    AssignFresh(e + [("room", Int(c.arg1)), ("exit", Int(c.arg2))], "state", Int(c.arg3));
  }

  lemma RemoveFields(c: ResetCommand)
    requires c.command == 'R'
    ensures Get(Opening(c), "max_existing").Some?
    ensures Assign(Assign(Pop(Opening(c), "max_existing"), "room", Int(c.arg1)), "obj", Int(c.arg2))
      == JsonCommand(c).entries
  {
    OpeningPopped(c);
    AssignTwoFresh(Opening(c)[..2], "room", Int(c.arg1), "obj", Int(c.arg2));
  }

  /** Lines 47-76 for one command: an empty dict, the code, if_flag and max_existing, then
      the assignments and pops of its code's case.  An unknown code, 'S' among them, only
      prints a message (line 76) and keeps the three opening entries. */
  method ProjectCommand(c: ResetCommand) returns (command: Value)
    ensures command == JsonCommand(c)
  {
    var d: Entries := [];
    d := Assign(d, "command", Str([c.command]));
    d := Assign(d, "if_flag", Int(c.ifFlag));
    d := Assign(d, "max_existing", Int(c.arg2));
    OpeningAssigned(c);
    match c.command {
      case 'M' =>
        JsonTwoFields(c, "mob", Int(c.arg1), "room", Int(c.arg3));
        d := Assign(d, "mob", Int(c.arg1));
        d := Assign(d, "room", Int(c.arg3));
      case 'O' =>
        JsonTwoFields(c, "obj", Int(c.arg1), "room", Int(c.arg3));
        d := Assign(d, "obj", Int(c.arg1));
        d := Assign(d, "room", Int(c.arg3));
      case 'G' =>
        GiveFields(c);
        d := Assign(d, "obj", Int(c.arg1));
      case 'E' =>
        JsonTwoFields(c, "obj", Int(c.arg1), "eq_pos", Int(c.arg3));
        d := Assign(d, "obj", Int(c.arg1));
        d := Assign(d, "eq_pos", Int(c.arg3));
      case 'P' =>
        JsonTwoFields(c, "obj", Int(c.arg1), "container", Int(c.arg3));
        d := Assign(d, "obj", Int(c.arg1));
        d := Assign(d, "container", Int(c.arg3));
      case 'D' =>
        DoorFields(c);
        d := Pop(d, "max_existing");
        d := Assign(d, "room", Int(c.arg1));
        d := Assign(d, "exit", Int(c.arg2));
        d := Assign(d, "state", Int(c.arg3));
      case 'R' =>
        RemoveFields(c);
        d := Pop(d, "max_existing");
        d := Assign(d, "room", Int(c.arg1));
        d := Assign(d, "obj", Int(c.arg2));
      case _ =>
    }
    command := Dict(d);
  }

  // ---------------------------------------------------------------------------
  // The zone

  function JsonCommands(cs: seq<ResetCommand>): seq<Value>
  {
    seq(|cs|, i requires 0 <= i < |cs| => JsonCommand(cs[i]))
  }

  /** The zone dict the file holds: the zone's fields and the dicts of all its commands. */
  function JsonZone(z: ZoneData): Value
  {
    Dict([("number", Int(z.number)), ("name", Str(z.name)), ("bot", Int(z.bot)), ("top", Int(z.top)),
          ("lifespan", Int(z.lifespan)), ("reset_mode", Int(z.resetMode)),
          ("cmd", List(JsonCommands(z.cmd)))])
  }

  /** Lines 37-77: new_zone with an empty command list, then one dict appended per command. */
  method ProjectZone(z: ZoneData) returns (newZone: Value)
    ensures newZone == JsonZone(z)
  {
    var zoneEntries: Entries :=
      [("number", Int(z.number)), ("name", Str(z.name)), ("bot", Int(z.bot)), ("top", Int(z.top)),
       ("lifespan", Int(z.lifespan)), ("reset_mode", Int(z.resetMode)), ("cmd", List([]))];
    var cmds: seq<Value> := [];
    for i := 0 to |z.cmd|
      invariant cmds == JsonCommands(z.cmd[..i])
    {
      var command := ProjectCommand(z.cmd[i]);
      cmds := cmds + [command];
    }
    assert z.cmd[..|z.cmd|] == z.cmd;
    AssignAt(zoneEntries, 6, "cmd", List(cmds));
    newZone := Dict(Assign(zoneEntries, "cmd", List(cmds)));
  }

  // ---------------------------------------------------------------------------
  // The two converters side by side

  /** Apart from R, a YAML command dict is the JSON one with the code replaced by its name. */
  lemma YamlRenamesJson(c: ResetCommand)
    requires c.command != 'R'
    ensures ConvertZoneYaml.YamlCommand(c).entries
      == JsonCommand(c).entries[0 := ("command", Str(ConvertZoneYaml.CommandName(c.command)))]
  {
  }

  /** For R the YAML dict also lists obj before room: it fills slots of a dict whose key
      order was fixed in advance, where the JSON dict appends in assignment order. */
  lemma YamlReordersRemove(c: ResetCommand)
    requires c.command == 'R'
    ensures var j := JsonCommand(c).entries;
      ConvertZoneYaml.YamlCommand(c).entries == [("command", Str("remove_object")), j[1], j[3], j[2]]
  {
  }

  lemma JsonCommandsButLast(cs: seq<ResetCommand>)
    requires cs != []
    ensures JsonCommands(cs) == JsonCommands(cs[..|cs| - 1]) + [JsonCommand(cs[|cs| - 1])]
  {
  }

  /** A command list that ends in its only stop is written in full, the stop last as the dict
      with code S and zero if_flag and max_existing; the YAML list has all but that dict. */
  lemma JsonEndsWithStop(z: ZoneData)
    requires EndsWithOneStop(z.cmd)
    ensures JsonZone(z).entries[6].1.items == JsonCommands(z.cmd[..|z.cmd| - 1]) + [JsonCommand(StopCommand)]
    ensures JsonCommand(StopCommand) == Dict([("command", Str("S")), ("if_flag", Int(0)), ("max_existing", Int(0))])
    ensures ConvertZoneYaml.YamlZone(z).entries[7].1.items == ConvertZoneYaml.YamlCommands(z.cmd[..|z.cmd| - 1])
  {
    JsonCommandsButLast(z.cmd);
    ConvertZoneYaml.StopIndexOfLoaded(z.cmd);
  }

  /** For a zone the reader accepts (with the pre-scan as written or as corrected), the JSON
      list has one more dict than the YAML list: the closing stop. */
  lemma JsonKeepsStop(lines: seq<string>, zonename: string, numOfCmds: nat)
    requires LoadWithCount(lines, zonename, numOfCmds).Success?
    ensures var z := LoadWithCount(lines, zonename, numOfCmds).value;
      && JsonZone(z).entries[6].1.items == JsonCommands(z.cmd[..|z.cmd| - 1]) + [JsonCommand(StopCommand)]
      && ConvertZoneYaml.YamlZone(z).entries[7].1.items == ConvertZoneYaml.YamlCommands(z.cmd[..|z.cmd| - 1])
  {
    AcceptedEndsWithStop(lines, zonename, numOfCmds);
    JsonEndsWithStop(LoadWithCount(lines, zonename, numOfCmds).value);
  }

  // ---------------------------------------------------------------------------
  // custom_dump_default

  /** What the serialiser may hand to the hook: a zone, a command, or anything else. */
  datatype PyObject = ZoneObject(zone: ZoneData) | CommandObject(command: ResetCommand) | OtherObject(value: Value)

  /** A value of the dict the hook returns. */
  datatype Field = Number(n: int) | Text(s: string) | CommandList(cs: seq<ResetCommand>)

  datatype DumpError = TypeError(message: string)

  /** Lines 8-20: a zone becomes its seven fields, keys in alphabetical order; anything else
      is refused with a TypeError. */
  function CustomDumpDefault(obj: PyObject): (r: Result<seq<(string, Field)>, DumpError>)
    ensures r.Success? <==> obj.ZoneObject?
    ensures r.Failure? ==> r.error == TypeError("Not ZoneData")
  {
    match obj
    case ZoneObject(z) =>
      Success([("bot", Number(z.bot)), ("cmd", CommandList(z.cmd)), ("lifespan", Number(z.lifespan)),
               ("name", Text(z.name)), ("number", Number(z.number)), ("reset_mode", Number(z.resetMode)),
               ("top", Number(z.top))])
    case _ => Failure(TypeError("Not ZoneData"))
  }

  /** Reading a zone back from the hook's dict. */
  function ZoneOfDump(fs: seq<(string, Field)>): Option<ZoneData>
  {
    if && |fs| == 7
       && fs[0].0 == "bot" && fs[0].1.Number?
       && fs[1].0 == "cmd" && fs[1].1.CommandList?
       && fs[2].0 == "lifespan" && fs[2].1.Number?
       && fs[3].0 == "name" && fs[3].1.Text?
       && fs[4].0 == "number" && fs[4].1.Number?
       && fs[5].0 == "reset_mode" && fs[5].1.Number?
       && fs[6].0 == "top" && fs[6].1.Number?
    then Some(ZoneData(fs[4].1.n, fs[3].1.s, fs[0].1.n, fs[6].1.n, fs[2].1.n, fs[5].1.n, fs[1].1.cs))
    else None
  }

  /** The hook loses nothing of a zone, and every dict that reads back as a zone is the
      hook's output for that zone. */
  lemma DumpRoundTrip(z: ZoneData, fs: seq<(string, Field)>)
    ensures ZoneOfDump(CustomDumpDefault(ZoneObject(z)).value) == Some(z)
    ensures ZoneOfDump(fs) == Some(z) ==> CustomDumpDefault(ZoneObject(z)) == Success(fs)
  {
    if ZoneOfDump(fs) == Some(z) {
      assert fs == [fs[0], fs[1], fs[2], fs[3], fs[4], fs[5], fs[6]];
    }
  }

  /** The hook refuses the command objects its own cmd field holds, so a zone with commands
      cannot be serialised through it alone. */
  lemma DumpRefusesCommands(z: ZoneData)
    requires z.cmd != []
    ensures CustomDumpDefault(ZoneObject(z)).value[1].1 == CommandList(z.cmd)
    ensures CustomDumpDefault(CommandObject(z.cmd[0])) == Failure(TypeError("Not ZoneData"))
  {
  }
}
