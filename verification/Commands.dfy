/**
 The two forms of a unit order: the AI interface's command structs and the engine's
 Command, an id with a list of parameters. newCommand encodes, extractAICommandTopic
 classifies an encoded order by its id and parameter count, executeCommand decodes.
 */
module Commands {
  import opened Wrappers

  // ---------------------------------------------------------------- the engine's ids

  const CMD_STOP := 0
  const CMD_WAIT := 5
  const CMD_TIMEWAIT := 6
  const CMD_DEATHWAIT := 7
  const CMD_SQUADWAIT := 8
  const CMD_GATHERWAIT := 9
  const CMD_MOVE := 10
  const CMD_PATROL := 15
  const CMD_FIGHT := 16
  const CMD_ATTACK := 20
  const CMD_GUARD := 25
  const CMD_AISELECT := 30
  const CMD_GROUPADD := 36
  const CMD_GROUPCLEAR := 37
  const CMD_REPAIR := 40
  const CMD_FIRE_STATE := 45
  const CMD_MOVE_STATE := 50
  const CMD_SETBASE := 55
  const CMD_SELFD := 65
  const CMD_LOAD_UNITS := 75
  const CMD_LOAD_ONTO := 76
  const CMD_UNLOAD_UNITS := 80
  const CMD_UNLOAD_UNIT := 81
  const CMD_ONOFF := 85
  const CMD_RECLAIM := 90
  const CMD_CLOAK := 95
  const CMD_STOCKPILE := 100
  const CMD_MANUALFIRE := 105
  const CMD_RESTORE := 110
  const CMD_REPEAT := 115
  const CMD_TRAJECTORY := 120
  const CMD_RESURRECT := 125
  const CMD_CAPTURE := 130
  const CMD_AUTOREPAIRLEVEL := 135
  const CMD_IDLEMODE := 145

  const BUILD_NO_FACING := -1
  const INT_MAX := 0x7FFF_FFFF

  // ---------------------------------------------------------------- the two forms

  /** The unit topics of the AI interface. */
  datatype Topic =
    | Build | Stop | Wait | WaitTime | WaitDeath | WaitSquad | WaitGather
    | Move | Patrol | Fight | Attack | AttackArea | Guard | AiSelect
    | GroupAdd | GroupClear | Repair | SetFireState | SetMoveState | SetBase | SelfDestroy
    | LoadUnits | LoadUnitsArea | LoadOnto | UnloadUnitsArea | UnloadUnit | SetOnOff
    | ReclaimUnit | ReclaimFeature | ReclaimArea | Cloak | Stockpile | DGun | DGunPos
    | RestoreArea | SetRepeat | SetTrajectory | Resurrect | ResurrectArea
    | Capture | CaptureArea | SetAutoRepairLevel | SetIdleMode | Custom

  datatype Pos = Pos(x: real, y: real, z: real)

  /** The members that a topic's struct has beside the common ones. */
  datatype Payload =
    | Nothing
    | Number(value: int)
    | Flag(on: bool)
    | At(pos: Pos)
    | Area(pos: Pos, radius: real)
    | Drop(pos: Pos, unit: int)
    | Units(ids: seq<int>)
    | Site(unitDef: int, where: Option<Pos>, facing: int)
    | Raw(cmdId: int, params: seq<real>)

  datatype Kind = KNothing | KNumber | KFlag | KAt | KArea | KDrop | KUnits | KSite | KRaw

  function KindOf(topic: Topic): Kind {
    match topic
    case Stop | Wait | WaitGather | AiSelect | GroupClear | SelfDestroy | Stockpile => KNothing
    case WaitTime | WaitDeath | WaitSquad | Attack | Guard | GroupAdd | Repair => KNumber
    case SetFireState | SetMoveState | LoadOnto | ReclaimUnit | ReclaimFeature | DGun => KNumber
    case SetTrajectory | Resurrect | Capture | SetAutoRepairLevel | SetIdleMode => KNumber
    case SetOnOff | Cloak | SetRepeat => KFlag
    case Move | Patrol | Fight | SetBase | DGunPos => KAt
    case AttackArea | LoadUnitsArea | UnloadUnitsArea | ReclaimArea | RestoreArea | ResurrectArea | CaptureArea => KArea
    case UnloadUnit => KDrop
    case LoadUnits => KUnits
    case Build => KSite
    case Custom => KRaw
  }

  function KindOfPayload(payload: Payload): Kind {
    match payload
    case Nothing => KNothing
    case Number(_) => KNumber
    case Flag(_) => KFlag
    case At(_) => KAt
    case Area(_, _) => KArea
    case Drop(_, _) => KDrop
    case Units(_) => KUnits
    case Site(_, _, _) => KSite
    case Raw(_, _) => KRaw
  }

  /** An S*UnitCommand struct together with the topic that says which struct it is. */
  datatype AICommand = AICommand(topic: Topic, unitId: int, groupId: int, options: int, timeOut: int, payload: Payload)

  predicate WellTyped(cmd: AICommand) {
    KindOf(cmd.topic) == KindOfPayload(cmd.payload)
  }

  /** The value of an engine Command; its options are one byte. */
  datatype EngineCommand = EngineCommand(id: int, options: int, timeOut: int, params: seq<real>)

  predicate IsByte(x: int) {
    0 <= x < 256
  }

  // ---------------------------------------------------------------- encoding

  /** toInternalUnitCommandTopic */
  function InternalTopic(cmd: AICommand): int
    requires WellTyped(cmd)
  {
    match cmd.topic
    case Build => -cmd.payload.unitDef
    case Stop => CMD_STOP
    case Wait => CMD_WAIT
    case WaitTime => CMD_TIMEWAIT
    case WaitDeath => CMD_DEATHWAIT
    case WaitSquad => CMD_SQUADWAIT
    case WaitGather => CMD_GATHERWAIT
    case Move => CMD_MOVE
    case Patrol => CMD_PATROL
    case Fight => CMD_FIGHT
    case Attack | AttackArea => CMD_ATTACK
    case Guard => CMD_GUARD
    case AiSelect => CMD_AISELECT
    case GroupAdd => CMD_GROUPADD
    case GroupClear => CMD_GROUPCLEAR
    case Repair => CMD_REPAIR
    case SetFireState => CMD_FIRE_STATE
    case SetMoveState => CMD_MOVE_STATE
    case SetBase => CMD_SETBASE
    case SelfDestroy => CMD_SELFD
    case LoadUnits | LoadUnitsArea => CMD_LOAD_UNITS
    case LoadOnto => CMD_LOAD_ONTO
    case UnloadUnitsArea => CMD_UNLOAD_UNITS
    case UnloadUnit => CMD_UNLOAD_UNIT
    case SetOnOff => CMD_ONOFF
    case ReclaimUnit | ReclaimFeature | ReclaimArea => CMD_RECLAIM
    case Cloak => CMD_CLOAK
    case Stockpile => CMD_STOCKPILE
    case DGun | DGunPos => CMD_MANUALFIRE
    case RestoreArea => CMD_RESTORE
    case SetRepeat => CMD_REPEAT
    case SetTrajectory => CMD_TRAJECTORY
    case Resurrect | ResurrectArea => CMD_RESURRECT
    case Capture | CaptureArea => CMD_CAPTURE
    case SetAutoRepairLevel => CMD_AUTOREPAIRLEVEL
    case SetIdleMode => CMD_IDLEMODE
    case Custom => cmd.payload.cmdId
  }

  function PosParams(pos: Pos): seq<real> {
    [pos.x, pos.y, pos.z]
  }

  function AsReals(ids: seq<int>): seq<real> {
    seq(|ids|, i requires 0 <= i < |ids| => ids[i] as real)
  }

  /** The parameter list that stands for a payload. */
  function ParamsOf(cmd: AICommand, maxUnits: nat): seq<real> {
    match cmd.payload
    case Nothing => []
    case Number(value) => [(if cmd.topic == ReclaimFeature then maxUnits + value else value) as real]
    case Flag(on) => [if on then 1.0 else 0.0]
    case At(pos) => PosParams(pos)
    case Area(pos, radius) => PosParams(pos) + [radius]
    case Drop(pos, unit) => PosParams(pos) + [unit as real]
    case Units(ids) => AsReals(ids)
    case Site(_, where, facing) =>
      (if where.Some? then PosParams(where.value) else []) + (if facing != BUILD_NO_FACING then [facing as real] else [])
    case Raw(_, params) => params
  }

  /** The engine command that an AI command stands for. There is none for AiSelect. */
  function Encode(cmd: AICommand, maxUnits: nat): Option<EngineCommand>
    requires WellTyped(cmd)
  {
    if cmd.topic == AiSelect then None
    else Some(EngineCommand(InternalTopic(cmd), cmd.options % 256, cmd.timeOut, ParamsOf(cmd, maxUnits)))
  }

  const MAX_COMMAND_PARAMS := 8

  /** Command: parameters are inline up to eight of them and move to a pool page with the ninth. */
  class Command {
    var id: int
    var options: int
    var timeOut: int
    var numParams: nat
    var page: Option<seq<real>>
    const inlineParams: array<real>

    ghost predicate Valid()
      reads this, inlineParams
    {
      && inlineParams.Length == MAX_COMMAND_PARAMS
      && (page.None? ==> numParams <= MAX_COMMAND_PARAMS)
      && (page.Some? ==> numParams == |page.value| > MAX_COMMAND_PARAMS)
    }

    ghost function Value(): EngineCommand
      requires Valid()
      reads this, inlineParams
    {
      EngineCommand(id, options, timeOut, if page.Some? then page.value else inlineParams[..numParams])
    }

    constructor ()
      ensures Valid() && fresh(inlineParams) && Value() == EngineCommand(0, 0, INT_MAX, [])
    {
      id, options, timeOut, numParams, page := 0, 0, INT_MAX, 0, None;
      inlineParams := new real[MAX_COMMAND_PARAMS];
    }

    /** Assignment of a fresh Command(cmdId, cmdOptions); the option bits are cut to one byte. */
    method Assign(cmdId: int, cmdOptions: int)
      requires Valid()
      modifies this
      ensures Valid() && Value() == EngineCommand(cmdId, cmdOptions % 256, INT_MAX, [])
    {
      id, options, timeOut, numParams, page := cmdId, cmdOptions % 256, INT_MAX, 0, None;
    }

    method SetTimeOut(cmdTimeOut: int)
      requires Valid()
      modifies this`timeOut
      ensures Valid() && Value() == old(Value()).(timeOut := cmdTimeOut)
    {
      timeOut := cmdTimeOut;
    }

    method PushParam(param: real)
      requires Valid()
      modifies this`numParams, this`page, inlineParams
      ensures Valid() && Value() == old(Value()).(params := old(Value()).params + [param])
    {
      if numParams < MAX_COMMAND_PARAMS {
        inlineParams[numParams] := param;
        numParams := numParams + 1;
        return;
      }
      if page.None? {
        page := Some(inlineParams[..numParams]);
        forall i | 0 <= i < MAX_COMMAND_PARAMS {
          inlineParams[i] := 0.0;
        }
      }
      page := Some(page.value + [param]);
      numParams := |page.value|;
    }

    method PushPos(pos: Pos)
      requires Valid()
      modifies this`numParams, this`page, inlineParams
      ensures Valid() && Value() == old(Value()).(params := old(Value()).params + PosParams(pos))
    {
      PushParam(pos.x);
      PushParam(pos.y);
      PushParam(pos.z);
    }

    method PushParams(params: seq<real>)
      requires Valid()
      modifies this`numParams, this`page, inlineParams
      ensures Valid() && Value() == old(Value()).(params := old(Value()).params + params)
    {
      for i := 0 to |params|
        invariant Valid() && Value() == old(Value()).(params := old(Value()).params + params[..i])
      {
        PushParam(params[i]);
      }
    }

    /** The orders without, with one, with three and with four parameters, as newCommand builds them. */
    method Plain(cmdId: int, cmdOptions: int, cmdTimeOut: int)
      requires Valid()
      modifies this
      ensures Valid() && Value() == EngineCommand(cmdId, cmdOptions % 256, cmdTimeOut, [])
    {
      Assign(cmdId, cmdOptions);
      SetTimeOut(cmdTimeOut);
    }

    method WithParam(cmdId: int, cmdOptions: int, cmdTimeOut: int, param: real)
      requires Valid()
      modifies this, inlineParams
      ensures Valid() && Value() == EngineCommand(cmdId, cmdOptions % 256, cmdTimeOut, [param])
    {
      Assign(cmdId, cmdOptions);
      PushParam(param);
      SetTimeOut(cmdTimeOut);
    }

    method WithPos(cmdId: int, cmdOptions: int, cmdTimeOut: int, pos: Pos)
      requires Valid()
      modifies this, inlineParams
      ensures Valid() && Value() == EngineCommand(cmdId, cmdOptions % 256, cmdTimeOut, PosParams(pos))
    {
      Plain(cmdId, cmdOptions, cmdTimeOut);
      PushPos(pos);
    }

    method WithPosAndParam(cmdId: int, cmdOptions: int, cmdTimeOut: int, pos: Pos, param: real)
      requires Valid()
      modifies this, inlineParams
      ensures Valid() && Value() == EngineCommand(cmdId, cmdOptions % 256, cmdTimeOut, PosParams(pos) + [param])
    {
      WithPos(cmdId, cmdOptions, cmdTimeOut, pos);
      PushParam(param);
    }
  }

  // newCommand's switch, one method for the topics of each kind.

  method NewPlainCommand(cmd: AICommand, maxUnits: nat, c: Command)
    requires WellTyped(cmd) && KindOf(cmd.topic) == KNothing && cmd.topic != AiSelect && c.Valid()
    modifies c, c.inlineParams
    ensures c.Valid() && Encode(cmd, maxUnits) == Some(c.Value())
  {
    match cmd.topic {
      case Stop => c.Plain(CMD_STOP, cmd.options, cmd.timeOut);
      case Wait => c.Plain(CMD_WAIT, cmd.options, cmd.timeOut);
      case WaitGather => c.Plain(CMD_GATHERWAIT, cmd.options, cmd.timeOut);
      case GroupClear => c.Plain(CMD_GROUPCLEAR, cmd.options, cmd.timeOut);
      case SelfDestroy => c.Plain(CMD_SELFD, cmd.options, cmd.timeOut);
      case Stockpile => c.Plain(CMD_STOCKPILE, cmd.options, cmd.timeOut);
    }
  }

  method NewNumberCommand(cmd: AICommand, maxUnits: nat, c: Command)
    requires WellTyped(cmd) && KindOf(cmd.topic) == KNumber && c.Valid()
    modifies c, c.inlineParams
    ensures c.Valid() && Encode(cmd, maxUnits) == Some(c.Value())
  {
    match cmd.topic {
      case WaitTime => c.WithParam(CMD_TIMEWAIT, cmd.options, cmd.timeOut, cmd.payload.value as real);
      case WaitDeath => c.WithParam(CMD_DEATHWAIT, cmd.options, cmd.timeOut, cmd.payload.value as real);
      case WaitSquad => c.WithParam(CMD_SQUADWAIT, cmd.options, cmd.timeOut, cmd.payload.value as real);
      case Attack => c.WithParam(CMD_ATTACK, cmd.options, cmd.timeOut, cmd.payload.value as real);
      case Guard => c.WithParam(CMD_GUARD, cmd.options, cmd.timeOut, cmd.payload.value as real);
      case GroupAdd => c.WithParam(CMD_GROUPADD, cmd.options, cmd.timeOut, cmd.payload.value as real);
      case Repair => c.WithParam(CMD_REPAIR, cmd.options, cmd.timeOut, cmd.payload.value as real);
      case SetFireState => c.WithParam(CMD_FIRE_STATE, cmd.options, cmd.timeOut, cmd.payload.value as real);
      case SetMoveState => c.WithParam(CMD_MOVE_STATE, cmd.options, cmd.timeOut, cmd.payload.value as real);
      case LoadOnto => c.WithParam(CMD_LOAD_ONTO, cmd.options, cmd.timeOut, cmd.payload.value as real);
      case ReclaimUnit => c.WithParam(CMD_RECLAIM, cmd.options, cmd.timeOut, cmd.payload.value as real);
      case ReclaimFeature => c.WithParam(CMD_RECLAIM, cmd.options, cmd.timeOut, (maxUnits + cmd.payload.value) as real);
      case DGun => c.WithParam(CMD_MANUALFIRE, cmd.options, cmd.timeOut, cmd.payload.value as real);
      case SetTrajectory => c.WithParam(CMD_TRAJECTORY, cmd.options, cmd.timeOut, cmd.payload.value as real);
      case Resurrect => c.WithParam(CMD_RESURRECT, cmd.options, cmd.timeOut, cmd.payload.value as real);
      case Capture => c.WithParam(CMD_CAPTURE, cmd.options, cmd.timeOut, cmd.payload.value as real);
      case SetAutoRepairLevel => c.WithParam(CMD_AUTOREPAIRLEVEL, cmd.options, cmd.timeOut, cmd.payload.value as real);
      case SetIdleMode => c.WithParam(CMD_IDLEMODE, cmd.options, cmd.timeOut, cmd.payload.value as real);
    }
  }

  method NewFlagCommand(cmd: AICommand, maxUnits: nat, c: Command)
    requires WellTyped(cmd) && KindOf(cmd.topic) == KFlag && c.Valid()
    modifies c, c.inlineParams
    ensures c.Valid() && Encode(cmd, maxUnits) == Some(c.Value())
  {
    match cmd.topic {
      case SetOnOff => c.WithParam(CMD_ONOFF, cmd.options, cmd.timeOut, if cmd.payload.on then 1.0 else 0.0);
      case Cloak => c.WithParam(CMD_CLOAK, cmd.options, cmd.timeOut, if cmd.payload.on then 1.0 else 0.0);
      case SetRepeat => c.WithParam(CMD_REPEAT, cmd.options, cmd.timeOut, if cmd.payload.on then 1.0 else 0.0);
    }
  }

  method NewAtCommand(cmd: AICommand, maxUnits: nat, c: Command)
    requires WellTyped(cmd) && KindOf(cmd.topic) == KAt && c.Valid()
    modifies c, c.inlineParams
    ensures c.Valid() && Encode(cmd, maxUnits) == Some(c.Value())
  {
    match cmd.topic {
      case Move => c.WithPos(CMD_MOVE, cmd.options, cmd.timeOut, cmd.payload.pos);
      case Patrol => c.WithPos(CMD_PATROL, cmd.options, cmd.timeOut, cmd.payload.pos);
      case Fight => c.WithPos(CMD_FIGHT, cmd.options, cmd.timeOut, cmd.payload.pos);
      case SetBase => c.WithPos(CMD_SETBASE, cmd.options, cmd.timeOut, cmd.payload.pos);
      case DGunPos => c.WithPos(CMD_MANUALFIRE, cmd.options, cmd.timeOut, cmd.payload.pos);
    }
  }

  method NewAreaCommand(cmd: AICommand, maxUnits: nat, c: Command)
    requires WellTyped(cmd) && KindOf(cmd.topic) == KArea && c.Valid()
    modifies c, c.inlineParams
    ensures c.Valid() && Encode(cmd, maxUnits) == Some(c.Value())
  {
    match cmd.topic {
      case AttackArea => c.WithPosAndParam(CMD_ATTACK, cmd.options, cmd.timeOut, cmd.payload.pos, cmd.payload.radius);
      case LoadUnitsArea => c.WithPosAndParam(CMD_LOAD_UNITS, cmd.options, cmd.timeOut, cmd.payload.pos, cmd.payload.radius);
      case UnloadUnitsArea => c.WithPosAndParam(CMD_UNLOAD_UNITS, cmd.options, cmd.timeOut, cmd.payload.pos, cmd.payload.radius);
      case ReclaimArea => c.WithPosAndParam(CMD_RECLAIM, cmd.options, cmd.timeOut, cmd.payload.pos, cmd.payload.radius);
      case RestoreArea => c.WithPosAndParam(CMD_RESTORE, cmd.options, cmd.timeOut, cmd.payload.pos, cmd.payload.radius);
      case ResurrectArea => c.WithPosAndParam(CMD_RESURRECT, cmd.options, cmd.timeOut, cmd.payload.pos, cmd.payload.radius);
      case CaptureArea => c.WithPosAndParam(CMD_CAPTURE, cmd.options, cmd.timeOut, cmd.payload.pos, cmd.payload.radius);
    }
  }

  method NewBuildCommand(cmd: AICommand, maxUnits: nat, c: Command)
    requires WellTyped(cmd) && cmd.topic == Build && c.Valid()
    modifies c, c.inlineParams
    ensures c.Valid() && Encode(cmd, maxUnits) == Some(c.Value())
  {
    c.Plain(-cmd.payload.unitDef, cmd.options, cmd.timeOut);
    if cmd.payload.where.Some? {
      c.PushPos(cmd.payload.where.value);
    }
    if cmd.payload.facing != BUILD_NO_FACING {
      c.PushParam(cmd.payload.facing as real);
    }
    assert c.Value().params == ParamsOf(cmd, maxUnits);
  }

  method NewLoadUnitsCommand(cmd: AICommand, maxUnits: nat, c: Command)
    requires WellTyped(cmd) && cmd.topic == LoadUnits && c.Valid()
    modifies c, c.inlineParams
    ensures c.Valid() && Encode(cmd, maxUnits) == Some(c.Value())
  {
    c.Plain(CMD_LOAD_UNITS, cmd.options, cmd.timeOut);
    c.PushParams(AsReals(cmd.payload.ids));
    assert c.Value().params == ParamsOf(cmd, maxUnits);
  }

  method NewUnloadUnitCommand(cmd: AICommand, maxUnits: nat, c: Command)
    requires WellTyped(cmd) && cmd.topic == UnloadUnit && c.Valid()
    modifies c, c.inlineParams
    ensures c.Valid() && Encode(cmd, maxUnits) == Some(c.Value())
  {
    c.WithPosAndParam(CMD_UNLOAD_UNIT, cmd.options, cmd.timeOut, cmd.payload.pos, cmd.payload.unit as real);
  }

  method NewCustomCommand(cmd: AICommand, maxUnits: nat, c: Command)
    requires WellTyped(cmd) && cmd.topic == Custom && c.Valid()
    modifies c, c.inlineParams
    ensures c.Valid() && Encode(cmd, maxUnits) == Some(c.Value())
  {
    c.Plain(cmd.payload.cmdId, cmd.options, cmd.timeOut);
    c.PushParams(cmd.payload.params);
    assert c.Value().params == ParamsOf(cmd, maxUnits);
  }

  /** newCommand: fills c in place, topic by topic. */
  method NewCommand(cmd: AICommand, maxUnits: nat, c: Command) returns (known: bool)
    requires WellTyped(cmd) && c.Valid()
    modifies c, c.inlineParams
    ensures c.Valid() && known == Encode(cmd, maxUnits).Some?
    ensures if known then c.Value() == Encode(cmd, maxUnits).value else c.Value() == old(c.Value())
  {
    if cmd.topic == AiSelect {
      return false;
    }
    match cmd.payload {
      case Nothing => NewPlainCommand(cmd, maxUnits, c);
      case Number(_) => NewNumberCommand(cmd, maxUnits, c);
      case Flag(_) => NewFlagCommand(cmd, maxUnits, c);
      case At(_) => NewAtCommand(cmd, maxUnits, c);
      case Area(_, _) => NewAreaCommand(cmd, maxUnits, c);
      case Drop(_, _) => NewUnloadUnitCommand(cmd, maxUnits, c);
      case Units(_) => NewLoadUnitsCommand(cmd, maxUnits, c);
      case Site(_, _, _) => NewBuildCommand(cmd, maxUnits, c);
      case Raw(_, _) => NewCustomCommand(cmd, maxUnits, c);
    }
    return true;
  }
}
