/**
  The YAML projection of tools/convertzone_yaml.py (lines 43-102): a loaded zone becomes a
  dict of its fields, a None script and a list with one dict per command before the first
  'S'.  Each command dict is renamed after its code and loses every field its code does not
  set.  Writing the YAML text and reading it back are not part of this model.
 */
module ConvertZoneYaml {
  import opened Results
  import opened Zone
  import opened Values

  /** The name a command is written under (lines 67-96); an unknown code keeps its letter. */
  function CommandName(code: char): string
  {
    match code
    case 'M' => "spawn_mob"
    case 'O' => "spawn_object"
    case 'G' => "give_object"
    case 'E' => "equip_mob"
    case 'P' => "put_object"
    case 'D' => "door_state"
    case 'R' => "remove_object"
    case _ => [code]
  }

  /** The command dict the file holds for c: the name, if_flag, max_existing except for D
      and R, and the fields the code sets, in the key order of the dict the loop starts from. */
  function YamlCommand(c: ResetCommand): Value
  {
    var name := ("command", Str(CommandName(c.command)));
    var ifFlag := ("if_flag", Int(c.ifFlag));
    var maxExisting := ("max_existing", Int(c.arg2));
    Dict(
      match c.command
      case 'M' => [name, ifFlag, maxExisting, ("mob", Int(c.arg1)), ("room", Int(c.arg3))]
      case 'O' => [name, ifFlag, maxExisting, ("obj", Int(c.arg1)), ("room", Int(c.arg3))]
      case 'G' => [name, ifFlag, maxExisting, ("obj", Int(c.arg1))]
      case 'E' => [name, ifFlag, maxExisting, ("obj", Int(c.arg1)), ("eq_pos", Int(c.arg3))]
      case 'P' => [name, ifFlag, maxExisting, ("obj", Int(c.arg1)), ("container", Int(c.arg3))]
      case 'D' => [name, ifFlag, ("room", Int(c.arg1)), ("exit", Int(c.arg2)), ("state", Int(c.arg3))]
      case 'R' => [name, ifFlag, ("obj", Int(c.arg2)), ("room", Int(c.arg1))]
      case _ => [name, ifFlag, maxExisting])
  }

  /** The values of the ten keys of the dict of lines 54-65. */
  datatype Slots = Slots(
    command: Value, ifFlag: Value, maxExisting: Value, mob: Value, obj: Value,
    room: Value, eqPos: Value, container: Value, exit: Value, state: Value)

  /** The dict with the ten keys in the order of lines 54-65. */
  function SlotEntries(s: Slots): Entries
  {
    [("command", s.command)] + ([("if_flag", s.ifFlag)] + ([("max_existing", s.maxExisting)]
    + ([("mob", s.mob)] + ([("obj", s.obj)] + ([("room", s.room)] + ([("eq_pos", s.eqPos)]
    + ([("container", s.container)] + ([("exit", s.exit)] + [("state", s.state)]))))))))
  }

  /** The slots of lines 54-65: the code, if_flag, max_existing = arg2, and None elsewhere. */
  function PlaceholderSlots(c: ResetCommand): Slots
  {
    Slots(Str([c.command]), Int(c.ifFlag), Int(c.arg2), Null, Null, Null, Null, Null, Null, Null)
  }

  function Placeholders(c: ResetCommand): Entries
  {
    SlotEntries(PlaceholderSlots(c))
  }

  predicate Scalar(v: Value)
  {
    v.Null? || v.Int? || v.Str?
  }

  predicate ScalarSlots(s: Slots)
  {
    && Scalar(s.command) && Scalar(s.ifFlag) && Scalar(s.maxExisting) && Scalar(s.mob) && Scalar(s.obj)
    && Scalar(s.room) && Scalar(s.eqPos) && Scalar(s.container) && Scalar(s.exit) && Scalar(s.state)
  }

  /** The entry for k, unless v is None. */
  function Kept(k: string, v: Value): Entries
  {
    if v.Null? then [] else [(k, v)]
  }

  // ---------------------------------------------------------------------------
  // The ten-key dict under assignment, pop and remove_none_values

  lemma SlotsDistinct(s: Slots)
    ensures DistinctKeys(SlotEntries(s))
  {
  }

  /** remove_none_values on a dict whose first value is a scalar. */
  lemma KeptCons(e: (string, Value), rest: Entries)
    requires Scalar(e.1)
    ensures KeptEntries([e] + rest) == Kept(e.0, e.1) + KeptEntries(rest)
  {
    assert ([e] + rest)[0] == e;
    assert ([e] + rest)[1..] == rest;
  }

  /** remove_none_values keeps the slots that are not None, in key order. */
  lemma CleanedSlots(s: Slots)
    requires ScalarSlots(s)
    ensures Cleaned(Dict(SlotEntries(s))) == Dict(
      Kept("command", s.command) + (Kept("if_flag", s.ifFlag) + (Kept("max_existing", s.maxExisting)
      + (Kept("mob", s.mob) + (Kept("obj", s.obj) + (Kept("room", s.room) + (Kept("eq_pos", s.eqPos)
      + (Kept("container", s.container) + (Kept("exit", s.exit) + Kept("state", s.state))))))))))
  {
    var t9: Entries := [("state", s.state)];
    assert KeptEntries(t9) == Kept("state", s.state);
    var t8 := [("exit", s.exit)] + t9;
    KeptCons(("exit", s.exit), t9);
    var t7 := [("container", s.container)] + t8;
    KeptCons(("container", s.container), t8);
    var t6 := [("eq_pos", s.eqPos)] + t7;
    KeptCons(("eq_pos", s.eqPos), t7);
    var t5 := [("room", s.room)] + t6;
    KeptCons(("room", s.room), t6);
    var t4 := [("obj", s.obj)] + t5;
    KeptCons(("obj", s.obj), t5);
    var t3 := [("mob", s.mob)] + t4;
    KeptCons(("mob", s.mob), t4);
    var t2 := [("max_existing", s.maxExisting)] + t3;
    KeptCons(("max_existing", s.maxExisting), t3);
    var t1 := [("if_flag", s.ifFlag)] + t2;
    KeptCons(("if_flag", s.ifFlag), t2);
    var t0 := [("command", s.command)] + t1;
    KeptCons(("command", s.command), t1);
    SlotsDistinct(s);
    CleanedKeeps(Dict(SlotEntries(s)));
  }

  lemma SetCommand(s: Slots, v: Value)
    ensures Assign(SlotEntries(s), "command", v) == SlotEntries(s.(command := v))
  {
    AssignAt(SlotEntries(s), 0, "command", v);
  }

  lemma SetMob(s: Slots, v: Value)
    ensures Assign(SlotEntries(s), "mob", v) == SlotEntries(s.(mob := v))
  {
    AssignAt(SlotEntries(s), 3, "mob", v);
  }

  lemma SetObj(s: Slots, v: Value)
    ensures Assign(SlotEntries(s), "obj", v) == SlotEntries(s.(obj := v))
  {
    AssignAt(SlotEntries(s), 4, "obj", v);
  }

  lemma SetRoom(s: Slots, v: Value)
    ensures Assign(SlotEntries(s), "room", v) == SlotEntries(s.(room := v))
  {
    AssignAt(SlotEntries(s), 5, "room", v);
  }

  lemma SetEqPos(s: Slots, v: Value)
    ensures Assign(SlotEntries(s), "eq_pos", v) == SlotEntries(s.(eqPos := v))
  {
    AssignAt(SlotEntries(s), 6, "eq_pos", v);
  }

  lemma SetContainer(s: Slots, v: Value)
    ensures Assign(SlotEntries(s), "container", v) == SlotEntries(s.(container := v))
  {
    AssignAt(SlotEntries(s), 7, "container", v);
  }

  lemma SetExit(s: Slots, v: Value)
    ensures Assign(SlotEntries(s), "exit", v) == SlotEntries(s.(exit := v))
  {
    AssignAt(SlotEntries(s), 8, "exit", v);
  }

  lemma SetState(s: Slots, v: Value)
    ensures Assign(SlotEntries(s), "state", v) == SlotEntries(s.(state := v))
  {
    AssignAt(SlotEntries(s), 9, "state", v);
  }

  /** Assigning a key other than max_existing after popping max_existing is popping after
      assigning it. */
  lemma AssignAfterPop(s: Slots, k: string, v: Value, t: Slots)
    requires k != "max_existing" && Assign(SlotEntries(s), k, v) == SlotEntries(t)
    ensures Get(SlotEntries(s), "max_existing").Some? && Get(SlotEntries(t), "max_existing").Some?
    ensures Assign(Pop(SlotEntries(s), "max_existing"), k, v) == Pop(SlotEntries(t), "max_existing")
  {
    SlotsDistinct(s);
    GetAt(SlotEntries(s), 2);
    AssignPop(SlotEntries(s), "max_existing", k, v);
  }

  /** remove_none_values after popping max_existing. */
  lemma CleanedPopped(s: Slots)
    requires ScalarSlots(s)
    ensures Get(SlotEntries(s), "max_existing").Some?
    ensures Cleaned(Dict(Pop(SlotEntries(s), "max_existing"))) == Cleaned(Dict(SlotEntries(s.(maxExisting := Null))))
  {
    SlotsDistinct(s);
    CleanedPop(SlotEntries(s), 2, "max_existing");
    assert SlotEntries(s)[2 := ("max_existing", Null)] == SlotEntries(s.(maxExisting := Null));
  }

  // ---------------------------------------------------------------------------
  // The cases of lines 66-100

  lemma SpawnMob(c: ResetCommand)
    requires c.command == 'M'
    ensures Cleaned(Dict(Assign(Assign(Assign(Placeholders(c),
      "command", Str("spawn_mob")), "mob", Int(c.arg1)), "room", Int(c.arg3)))) == YamlCommand(c)
  {
    var s0 := PlaceholderSlots(c);
    var s1 := s0.(command := Str("spawn_mob"));
    var s2 := s1.(mob := Int(c.arg1));
    var s3 := s2.(room := Int(c.arg3));
    SetCommand(s0, Str("spawn_mob"));
    SetMob(s1, Int(c.arg1));
    SetRoom(s2, Int(c.arg3));
    CleanedSlots(s3);
    var s := s3;
    var tail := Kept("mob", s.mob) + (Kept("obj", s.obj) + (Kept("room", s.room) + (Kept("eq_pos", s.eqPos)
      + (Kept("container", s.container) + (Kept("exit", s.exit) + Kept("state", s.state))))));
    assert tail == [("mob", Int(c.arg1)), ("room", Int(c.arg3))];
    YamlSpawnMob(c);
  }

  /** The YAML form of an M command. */
  lemma YamlSpawnMob(c: ResetCommand)
    requires c.command == 'M'
    ensures YamlCommand(c)
            == Dict([("command", Str("spawn_mob")), ("if_flag", Int(c.ifFlag)), ("max_existing", Int(c.arg2)), ("mob", Int(c.arg1)), ("room", Int(c.arg3))])
  {
  }

  lemma SpawnObject(c: ResetCommand)
    requires c.command == 'O'
    ensures Cleaned(Dict(Assign(Assign(Assign(Placeholders(c),
      "command", Str("spawn_object")), "obj", Int(c.arg1)), "room", Int(c.arg3)))) == YamlCommand(c)
  {
    var s0 := PlaceholderSlots(c);
    var s1 := s0.(command := Str("spawn_object"));
    var s2 := s1.(obj := Int(c.arg1));
    var s3 := s2.(room := Int(c.arg3));
    SetCommand(s0, Str("spawn_object"));
    SetObj(s1, Int(c.arg1));
    SetRoom(s2, Int(c.arg3));
    CleanedSlots(s3);
    var s := s3;
    var tail := Kept("mob", s.mob) + (Kept("obj", s.obj) + (Kept("room", s.room) + (Kept("eq_pos", s.eqPos)
      + (Kept("container", s.container) + (Kept("exit", s.exit) + Kept("state", s.state))))));
    assert tail == [("obj", Int(c.arg1)), ("room", Int(c.arg3))];
    YamlSpawnObject(c);
  }

  /** The YAML form of an O command. */
  lemma YamlSpawnObject(c: ResetCommand)
    requires c.command == 'O'
    ensures YamlCommand(c)
            == Dict([("command", Str("spawn_object")), ("if_flag", Int(c.ifFlag)), ("max_existing", Int(c.arg2)), ("obj", Int(c.arg1)), ("room", Int(c.arg3))])
  {
  }

  lemma GiveObject(c: ResetCommand)
    requires c.command == 'G'
    ensures Cleaned(Dict(Assign(Assign(Placeholders(c),
      "command", Str("give_object")), "obj", Int(c.arg1)))) == YamlCommand(c)
  {
    var s0 := PlaceholderSlots(c);
    var s1 := s0.(command := Str("give_object"));
    var s2 := s1.(obj := Int(c.arg1));
    SetCommand(s0, Str("give_object"));
    SetObj(s1, Int(c.arg1));
    CleanedSlots(s2);
    var s := s2;
    var tail := Kept("mob", s.mob) + (Kept("obj", s.obj) + (Kept("room", s.room) + (Kept("eq_pos", s.eqPos)
      + (Kept("container", s.container) + (Kept("exit", s.exit) + Kept("state", s.state))))));
    assert tail == [("obj", Int(c.arg1))];
    YamlGiveObject(c);
  }

  /** The YAML form of a G command. */
  lemma YamlGiveObject(c: ResetCommand)
    requires c.command == 'G'
    ensures YamlCommand(c)
            == Dict([("command", Str("give_object")), ("if_flag", Int(c.ifFlag)), ("max_existing", Int(c.arg2)), ("obj", Int(c.arg1))])
  {
  }

  lemma EquipMob(c: ResetCommand)
    requires c.command == 'E'
    ensures Cleaned(Dict(Assign(Assign(Assign(Placeholders(c),
      "command", Str("equip_mob")), "obj", Int(c.arg1)), "eq_pos", Int(c.arg3)))) == YamlCommand(c)
  {
    var s0 := PlaceholderSlots(c);
    var s1 := s0.(command := Str("equip_mob"));
    var s2 := s1.(obj := Int(c.arg1));
    var s3 := s2.(eqPos := Int(c.arg3));
    SetCommand(s0, Str("equip_mob"));
    SetObj(s1, Int(c.arg1));
    SetEqPos(s2, Int(c.arg3));
    CleanedSlots(s3);
    var s := s3;
    var tail := Kept("mob", s.mob) + (Kept("obj", s.obj) + (Kept("room", s.room) + (Kept("eq_pos", s.eqPos)
      + (Kept("container", s.container) + (Kept("exit", s.exit) + Kept("state", s.state))))));
    assert tail == [("obj", Int(c.arg1)), ("eq_pos", Int(c.arg3))];
    YamlEquipMob(c);
  }

  /** The YAML form of an E command. */
  lemma YamlEquipMob(c: ResetCommand)
    requires c.command == 'E'
    ensures YamlCommand(c)
            == Dict([("command", Str("equip_mob")), ("if_flag", Int(c.ifFlag)), ("max_existing", Int(c.arg2)), ("obj", Int(c.arg1)), ("eq_pos", Int(c.arg3))])
  {
  }

  lemma PutObject(c: ResetCommand)
    requires c.command == 'P'
    ensures Cleaned(Dict(Assign(Assign(Assign(Placeholders(c),
      "command", Str("put_object")), "obj", Int(c.arg1)), "container", Int(c.arg3)))) == YamlCommand(c)
  {
    var s0 := PlaceholderSlots(c);
    var s1 := s0.(command := Str("put_object"));
    var s2 := s1.(obj := Int(c.arg1));
    var s3 := s2.(container := Int(c.arg3));
    SetCommand(s0, Str("put_object"));
    SetObj(s1, Int(c.arg1));
    SetContainer(s2, Int(c.arg3));
    CleanedSlots(s3);
    var s := s3;
    var tail := Kept("mob", s.mob) + (Kept("obj", s.obj) + (Kept("room", s.room) + (Kept("eq_pos", s.eqPos)
      + (Kept("container", s.container) + (Kept("exit", s.exit) + Kept("state", s.state))))));
    assert tail == [("obj", Int(c.arg1)), ("container", Int(c.arg3))];
    YamlPutObject(c);
  }

  /** The YAML form of a P command. */
  lemma YamlPutObject(c: ResetCommand)
    requires c.command == 'P'
    ensures YamlCommand(c)
            == Dict([("command", Str("put_object")), ("if_flag", Int(c.ifFlag)), ("max_existing", Int(c.arg2)), ("obj", Int(c.arg1)), ("container", Int(c.arg3))])
  {
  }

  /** The slots door_state leaves after its assignments. */
  function DoorSlots(c: ResetCommand): Slots
  {
    PlaceholderSlots(c).(command := Str("door_state"), room := Int(c.arg1), exit := Int(c.arg2), state := Int(c.arg3))
  }

  lemma DoorStateAssigned(c: ResetCommand)
    ensures Get(Placeholders(c), "max_existing").Some? && Get(SlotEntries(DoorSlots(c)), "max_existing").Some?
    ensures Assign(Assign(Assign(Assign(Pop(Placeholders(c), "max_existing"),
      "command", Str("door_state")), "room", Int(c.arg1)), "exit", Int(c.arg2)), "state", Int(c.arg3))
      == Pop(SlotEntries(DoorSlots(c)), "max_existing")
  {
    var s0 := PlaceholderSlots(c);
    var s1 := s0.(command := Str("door_state"));
    var s2 := s1.(room := Int(c.arg1));
    var s3 := s2.(exit := Int(c.arg2));
    SetCommand(s0, Str("door_state"));
    AssignAfterPop(s0, "command", Str("door_state"), s1);
    SetRoom(s1, Int(c.arg1));
    AssignAfterPop(s1, "room", Int(c.arg1), s2);
    SetExit(s2, Int(c.arg2));
    AssignAfterPop(s2, "exit", Int(c.arg2), s3);
    SetState(s3, Int(c.arg3));
    AssignAfterPop(s3, "state", Int(c.arg3), DoorSlots(c));
  }

  lemma DoorState(c: ResetCommand)
    requires c.command == 'D'
    ensures Get(Placeholders(c), "max_existing").Some?
    ensures Cleaned(Dict(Assign(Assign(Assign(Assign(Pop(Placeholders(c), "max_existing"),
      "command", Str("door_state")), "room", Int(c.arg1)), "exit", Int(c.arg2)), "state", Int(c.arg3))))
      == YamlCommand(c)
  {
    DoorStateAssigned(c);
    CleanedPopped(DoorSlots(c));
    DoorStateCleaned(c);
  }

  lemma DoorStateCleaned(c: ResetCommand)
    requires c.command == 'D'
    ensures Cleaned(Dict(SlotEntries(DoorSlots(c).(maxExisting := Null)))) == YamlCommand(c)
  {
    var s := DoorSlots(c).(maxExisting := Null);
    CleanedSlots(s);
    var tail := Kept("mob", s.mob) + (Kept("obj", s.obj) + (Kept("room", s.room) + (Kept("eq_pos", s.eqPos)
      + (Kept("container", s.container) + (Kept("exit", s.exit) + Kept("state", s.state))))));
    assert tail == [("room", Int(c.arg1)), ("exit", Int(c.arg2)), ("state", Int(c.arg3))];
    assert Kept("command", s.command) + (Kept("if_flag", s.ifFlag) + (Kept("max_existing", s.maxExisting) + tail))
      == [("command", Str("door_state")), ("if_flag", Int(c.ifFlag))] + tail;
    YamlDoorState(c);
  }

  /** The YAML form of a D command. */
  lemma YamlDoorState(c: ResetCommand)
    requires c.command == 'D'
    ensures YamlCommand(c)
            == Dict([("command", Str("door_state")), ("if_flag", Int(c.ifFlag)),
                     ("room", Int(c.arg1)), ("exit", Int(c.arg2)), ("state", Int(c.arg3))])
  {
  }

  /** The slots remove_object leaves after its assignments. */
  function RemoveSlots(c: ResetCommand): Slots
  {
    PlaceholderSlots(c).(command := Str("remove_object"), room := Int(c.arg1), obj := Int(c.arg2))
  }

  lemma RemoveObjectAssigned(c: ResetCommand)
    ensures Get(Placeholders(c), "max_existing").Some? && Get(SlotEntries(RemoveSlots(c)), "max_existing").Some?
    ensures Assign(Assign(Assign(Pop(Placeholders(c), "max_existing"),
      "command", Str("remove_object")), "room", Int(c.arg1)), "obj", Int(c.arg2))
      == Pop(SlotEntries(RemoveSlots(c)), "max_existing")
  {
    var s0 := PlaceholderSlots(c);
    var s1 := s0.(command := Str("remove_object"));
    var s2 := s1.(room := Int(c.arg1));
    SetCommand(s0, Str("remove_object"));
    AssignAfterPop(s0, "command", Str("remove_object"), s1);
    SetRoom(s1, Int(c.arg1));
    AssignAfterPop(s1, "room", Int(c.arg1), s2);
    SetObj(s2, Int(c.arg2));
    AssignAfterPop(s2, "obj", Int(c.arg2), RemoveSlots(c));
  }

  lemma RemoveObject(c: ResetCommand)
    requires c.command == 'R'
    ensures Get(Placeholders(c), "max_existing").Some?
    ensures Cleaned(Dict(Assign(Assign(Assign(Pop(Placeholders(c), "max_existing"),
      "command", Str("remove_object")), "room", Int(c.arg1)), "obj", Int(c.arg2))))
      == YamlCommand(c)
  {
    RemoveObjectAssigned(c);
    CleanedPopped(RemoveSlots(c));
    RemoveObjectCleaned(c);
  }

  lemma RemoveObjectCleaned(c: ResetCommand)
    requires c.command == 'R'
    ensures Cleaned(Dict(SlotEntries(RemoveSlots(c).(maxExisting := Null)))) == YamlCommand(c)
  {
    var s := RemoveSlots(c).(maxExisting := Null);
    CleanedSlots(s);
    var tail := Kept("mob", s.mob) + (Kept("obj", s.obj) + (Kept("room", s.room) + (Kept("eq_pos", s.eqPos)
      + (Kept("container", s.container) + (Kept("exit", s.exit) + Kept("state", s.state))))));
    assert tail == [("obj", Int(c.arg2)), ("room", Int(c.arg1))];
    assert Kept("command", s.command) + (Kept("if_flag", s.ifFlag) + (Kept("max_existing", s.maxExisting) + tail))
      == [("command", Str("remove_object")), ("if_flag", Int(c.ifFlag))] + tail;
    YamlRemoveObject(c);
  }

  /** The YAML form of an R command. */
  lemma YamlRemoveObject(c: ResetCommand)
    requires c.command == 'R'
    ensures YamlCommand(c)
            == Dict([("command", Str("remove_object")), ("if_flag", Int(c.ifFlag)), ("obj", Int(c.arg2)), ("room", Int(c.arg1))])
  {
  }

  lemma UnknownCode(c: ResetCommand)
    requires c.command !in "MOGEPDRS"
    ensures Cleaned(Dict(Placeholders(c))) == YamlCommand(c)
  {
    var s := PlaceholderSlots(c);
    CleanedSlots(s);
    var tail := Kept("mob", s.mob) + (Kept("obj", s.obj) + (Kept("room", s.room) + (Kept("eq_pos", s.eqPos)
      + (Kept("container", s.container) + (Kept("exit", s.exit) + Kept("state", s.state))))));
    assert tail == [];
    YamlOtherCode(c);
  }

  /** The YAML form of a command with any other letter. */
  lemma YamlOtherCode(c: ResetCommand)
    requires c.command !in "MOGEPDRS"
    ensures YamlCommand(c)
            == Dict([("command", Str(CommandName(c.command))), ("if_flag", Int(c.ifFlag)), ("max_existing", Int(c.arg2))])
  {
  }

  /** Lines 54-101 for one command: the dict of lines 54-65, the assignments and pops of its
      code's case, then remove_none_values (line 101).  `stop` is the break of line 98,
      taken before anything is cleaned or appended. */
  method ProjectCommand(c: ResetCommand) returns (command: Value, stop: bool)
    ensures stop <==> c.command == 'S'
    ensures !stop ==> command == YamlCommand(c)
  {
    var d := Placeholders(c);
    match c.command {
      case 'M' =>
        SpawnMob(c);
        d := Assign(d, "command", Str("spawn_mob"));
        d := Assign(d, "mob", Int(c.arg1));
        d := Assign(d, "room", Int(c.arg3));
      case 'O' =>
        SpawnObject(c);
        d := Assign(d, "command", Str("spawn_object"));
        d := Assign(d, "obj", Int(c.arg1));
        d := Assign(d, "room", Int(c.arg3));
      case 'G' =>
        GiveObject(c);
        d := Assign(d, "command", Str("give_object"));
        d := Assign(d, "obj", Int(c.arg1));
      case 'E' =>
        EquipMob(c);
        d := Assign(d, "command", Str("equip_mob"));
        d := Assign(d, "obj", Int(c.arg1));
        d := Assign(d, "eq_pos", Int(c.arg3));
      case 'P' =>
        PutObject(c);
        d := Assign(d, "command", Str("put_object"));
        d := Assign(d, "obj", Int(c.arg1));
        d := Assign(d, "container", Int(c.arg3));
      case 'D' =>
        DoorState(c);
        d := Pop(d, "max_existing");
        d := Assign(d, "command", Str("door_state"));
        d := Assign(d, "room", Int(c.arg1));
        d := Assign(d, "exit", Int(c.arg2));
        d := Assign(d, "state", Int(c.arg3));
      case 'R' =>
        RemoveObject(c);
        d := Pop(d, "max_existing");
        d := Assign(d, "command", Str("remove_object"));
        d := Assign(d, "room", Int(c.arg1));
        d := Assign(d, "obj", Int(c.arg2));
      case 'S' =>
        return Dict(d), true;
      case _ =>
        UnknownCode(c);
    }
    command := RemoveNoneValues(Dict(d));
    stop := false;
  }

  // ---------------------------------------------------------------------------
  // The zone

  /** The index of the first 'S' command, or the number of commands when there is none. */
  function StopIndex(cs: seq<ResetCommand>): (n: nat)
    ensures n <= |cs|
    ensures forall j :: 0 <= j < n ==> cs[j].command != 'S'
    ensures n < |cs| ==> cs[n].command == 'S'
  {
    if cs == [] || cs[0].command == 'S' then 0 else 1 + StopIndex(cs[1..])
  }

  function YamlCommands(cs: seq<ResetCommand>): seq<Value>
  {
    seq(|cs|, i requires 0 <= i < |cs| => YamlCommand(cs[i]))
  }

  /** The zone dict the file holds: the zone's fields, a None script, and the command dicts
      of the commands before the first 'S'. */
  /** One more command, one more command dict. */
  lemma YamlCommandsSnoc(cs: seq<ResetCommand>, i: nat)
    requires i < |cs|
    ensures YamlCommands(cs[..i + 1]) == YamlCommands(cs[..i]) + [YamlCommand(cs[i])]
  {
  }

  /** The first 'S', or the end when there is none. */
  lemma StopIndexAt(cs: seq<ResetCommand>, i: nat)
    requires i <= |cs| && (forall j :: 0 <= j < i ==> cs[j].command != 'S')
    requires i < |cs| ==> cs[i].command == 'S'
    ensures i == StopIndex(cs)
  {
  }

  function YamlZone(z: ZoneData): Value
  {
    Dict([("number", Int(z.number)), ("name", Str(z.name)), ("bot", Int(z.bot)), ("top", Int(z.top)),
          ("lifespan", Int(z.lifespan)), ("reset_mode", Int(z.resetMode)), ("script", Null),
          ("cmd", List(YamlCommands(z.cmd[..StopIndex(z.cmd)])))])
  }

  /** Lines 43-102: new_zone with an empty command list, then one cleaned dict appended per
      command until the first 'S'. */
  method ProjectZone(z: ZoneData) returns (newZone: Value)
    ensures newZone == YamlZone(z)
  {
    var zoneEntries: Entries :=
      [("number", Int(z.number)), ("name", Str(z.name)), ("bot", Int(z.bot)), ("top", Int(z.top)),
       ("lifespan", Int(z.lifespan)), ("reset_mode", Int(z.resetMode)), ("script", Null),
       ("cmd", List([]))];
    var cmds: seq<Value> := [];
    var i := 0;
    while i < |z.cmd|
      invariant i <= |z.cmd|
      invariant forall j :: 0 <= j < i ==> z.cmd[j].command != 'S'
      invariant cmds == YamlCommands(z.cmd[..i])
    {
      var command, stop := ProjectCommand(z.cmd[i]);
      if stop {
        break;
      }
      YamlCommandsSnoc(z.cmd, i);
      cmds := cmds + [command];
      i := i + 1;
    }
    StopIndexAt(z.cmd, i);
    AssignAt(zoneEntries, 7, "cmd", List(cmds));
    newZone := Dict(Assign(zoneEntries, "cmd", List(cmds)));
  }
  // ---------------------------------------------------------------------------
  // What the file holds

  /** A dict of distinct keys whose values are integers and strings is clean and well formed. */
  lemma ScalarDictClean(es: Entries)
    requires DistinctKeys(es)
    requires forall i :: 0 <= i < |es| ==> es[i].1.Int? || es[i].1.Str?
    ensures WellFormed(Dict(es)) && IsClean(Dict(es))
  {
  }

  lemma YamlCommandDistinct(c: ResetCommand)
    ensures DistinctKeys(YamlCommand(c).entries)
  {
  }

  lemma YamlCommandScalar(c: ResetCommand)
    ensures forall i :: 0 <= i < |YamlCommand(c).entries| ==> YamlCommand(c).entries[i].1.Int? || YamlCommand(c).entries[i].1.Str?
  {
  }

  /** A command dict as written has no None value and no repeated key, so cleaning it once
      more changes nothing. */
  lemma YamlCommandClean(c: ResetCommand)
    ensures WellFormed(YamlCommand(c)) && IsClean(YamlCommand(c))
    ensures Cleaned(YamlCommand(c)) == YamlCommand(c)
  {
    YamlCommandDistinct(c);
    YamlCommandScalar(c);
    ScalarDictClean(YamlCommand(c).entries);
    CleanedIff(YamlCommand(c));
  }

  /** The commands of a successful load end with their only 'S'. */
  lemma StopIndexOfLoaded(cs: seq<ResetCommand>)
    requires EndsWithOneStop(cs)
    ensures StopIndex(cs) == |cs| - 1
  {
  }

  /** A zone the reader accepts, checked against the pre-scan as written (Load) or as
      corrected (LoadIntended), is written with every command but the closing 'S', in order. */
  lemma YamlOfLoaded(lines: seq<string>, zonename: string, numOfCmds: nat)
    requires LoadWithCount(lines, zonename, numOfCmds).Success?
    ensures var z := LoadWithCount(lines, zonename, numOfCmds).value;
      YamlZone(z).entries[7] == ("cmd", List(YamlCommands(z.cmd[..|z.cmd| - 1])))
  {
    AcceptedEndsWithStop(lines, zonename, numOfCmds);
    StopIndexOfLoaded(LoadWithCount(lines, zonename, numOfCmds).value.cmd);
  }

  /** Only the command dicts are cleaned: the zone dict keeps its None script. */
  lemma YamlZoneKeepsScript(z: ZoneData)
    ensures Get(YamlZone(z).entries, "script") == Some(Null)
    ensures !IsClean(YamlZone(z))
  {
    GetAt(YamlZone(z).entries, 6);
  }
}
