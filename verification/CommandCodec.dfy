/**
 The way back: classifying an engine command by its id and parameter count, decoding it
 into an AI command, and what a command becomes when executeCommand sends it on.
 */
module CommandCodec {
  import opened Commands
  import opened Wrappers

  // ---------------------------------------------------------------- classifying

  /** extractAICommandTopic, of a command with this id, this many parameters and this first one. */
  function Classify(id: int, numParams: nat, param0: real, maxUnits: nat): Topic {
    if id == CMD_STOP then Stop
    else if id == CMD_WAIT then Wait
    else if id == CMD_TIMEWAIT then WaitTime
    else if id == CMD_DEATHWAIT then WaitDeath
    else if id == CMD_SQUADWAIT then WaitSquad
    else if id == CMD_GATHERWAIT then WaitGather
    else if id == CMD_MOVE then Move
    else if id == CMD_PATROL then Patrol
    else if id == CMD_FIGHT then Fight
    else if id == CMD_ATTACK then (if numParams < 3 then Attack else AttackArea)
    else if id == CMD_GUARD then Guard
    else if id == CMD_AISELECT then AiSelect
    else if id == CMD_GROUPADD then GroupAdd
    else if id == CMD_GROUPCLEAR then GroupClear
    else if id == CMD_REPAIR then Repair
    else if id == CMD_FIRE_STATE then SetFireState
    else if id == CMD_MOVE_STATE then SetMoveState
    else if id == CMD_SETBASE then SetBase
    else if id == CMD_SELFD then SelfDestroy
    else if id == CMD_LOAD_UNITS then (if numParams < 3 then LoadUnits else LoadUnitsArea)
    else if id == CMD_LOAD_ONTO then LoadOnto
    else if id == CMD_UNLOAD_UNITS then UnloadUnitsArea
    else if id == CMD_UNLOAD_UNIT then UnloadUnit
    else if id == CMD_ONOFF then SetOnOff
    else if id == CMD_RECLAIM then
      (if numParams < 3 || numParams == 5 then (if param0 < maxUnits as real then ReclaimUnit else ReclaimFeature)
       else ReclaimArea)
    else if id == CMD_CLOAK then Cloak
    else if id == CMD_STOCKPILE then Stockpile
    else if id == CMD_MANUALFIRE then (if numParams < 3 then DGun else DGunPos)
    else if id == CMD_RESTORE then RestoreArea
    else if id == CMD_REPEAT then SetRepeat
    else if id == CMD_TRAJECTORY then SetTrajectory
    else if id == CMD_RESURRECT then (if numParams < 3 then Resurrect else ResurrectArea)
    else if id == CMD_CAPTURE then (if numParams < 3 || numParams == 5 then Capture else CaptureArea)
    else if id == CMD_AUTOREPAIRLEVEL then SetAutoRepairLevel
    else if id == CMD_IDLEMODE then SetIdleMode
    else if id < 0 then Build
    else Custom
  }

  /** The ids that the classifier's switch names. */
  predicate IsKnownId(id: int) {
    id in {CMD_STOP, CMD_WAIT, CMD_TIMEWAIT, CMD_DEATHWAIT, CMD_SQUADWAIT, CMD_GATHERWAIT, CMD_MOVE, CMD_PATROL,
           CMD_FIGHT, CMD_ATTACK, CMD_GUARD, CMD_AISELECT, CMD_GROUPADD, CMD_GROUPCLEAR, CMD_REPAIR, CMD_FIRE_STATE,
           CMD_MOVE_STATE, CMD_SETBASE, CMD_SELFD, CMD_LOAD_UNITS, CMD_LOAD_ONTO, CMD_UNLOAD_UNITS, CMD_UNLOAD_UNIT,
           CMD_ONOFF, CMD_RECLAIM, CMD_CLOAK, CMD_STOCKPILE, CMD_MANUALFIRE, CMD_RESTORE, CMD_REPEAT, CMD_TRAJECTORY,
           CMD_RESURRECT, CMD_CAPTURE, CMD_AUTOREPAIRLEVEL, CMD_IDLEMODE}
  }

  /** GetParam(0): 0 if there is no parameter. */
  function Param0(params: seq<real>): real {
    if params == [] then 0.0 else params[0]
  }

  /** The topic of a command whose parameters are all in place. */
  function TopicOf(c: EngineCommand, maxUnits: nat): Topic {
    Classify(c.id, |c.params|, Param0(c.params), maxUnits)
  }

  /** The least positive float, 2 to the power of -149. */
  const TINY: real := 1.0 / 713623846352979940529142984724747568191373312.0

  /**
   The first parameter after FromRawCommand, which copies as many bytes as there are parameters.
   Of one or two bytes of a float only low mantissa bits arrive, the others being 0; from four
   parameters on, the first one is complete. With three, the classifier does not look at it.
   */
  function CopiedParam0(bits: real -> nat, params: seq<real>): real {
    if |params| == 1 then (bits(params[0]) % 0x100) as real * TINY
    else if |params| == 2 then (bits(params[0]) % 0x1_0000) as real * TINY
    else Param0(params)
  }

  /** The topic that executeCommand acts on. */
  function CopiedTopicOf(bits: real -> nat, c: EngineCommand, maxUnits: nat): Topic {
    Classify(c.id, |c.params|, CopiedParam0(bits, c.params), maxUnits)
  }

  // ---------------------------------------------------------------- decoding

  /** Conversion of a float to int drops the fraction. */
  function Trunc(r: real): int {
    if r >= 0.0 then r.Floor else -(-r).Floor
  }

  /** The parameters that the decoder reads without a check; with fewer it reads beyond the list. */
  function ParamsRead(topic: Topic): nat {
    KindReads(KindOf(topic))
  }

  function KindReads(kind: Kind): nat {
    match kind
    case KNothing | KUnits | KSite | KRaw => 0
    case KNumber | KFlag => 1
    case KAt | KArea => 3
    case KDrop => 4
  }

  function PosAt(params: seq<real>): Pos
    requires |params| >= 3
  {
    Pos(params[0], params[1], params[2])
  }

  function TruncAll(params: seq<real>): seq<int> {
    seq(|params|, i requires 0 <= i < |params| => Trunc(params[i]))
  }

  function DecodePayload(c: EngineCommand, topic: Topic, maxUnits: nat): Payload
    requires |c.params| >= ParamsRead(topic)
  {
    match KindOf(topic)
    case KNothing => Nothing
    case KNumber => Number(Trunc(c.params[0]) - (if topic == ReclaimFeature then maxUnits else 0))
    case KFlag => Flag(c.params[0] != 0.0)
    case KAt => At(PosAt(c.params))
    case KArea => Area(PosAt(c.params), if |c.params| >= 4 then c.params[3] else 0.0)
    case KDrop => Drop(PosAt(c.params), Trunc(c.params[3]))
    case KUnits => Units(TruncAll(c.params))
    case KSite =>
      Site(-c.id, if |c.params| >= 3 then Some(PosAt(c.params)) else None,
           if |c.params| >= 4 then Trunc(c.params[3]) else BUILD_NO_FACING)
    case KRaw => Raw(c.id, c.params)
  }

  /** The AI command that executeCommand fills for this topic; none for loading no units. */
  function Decode(c: EngineCommand, topic: Topic, maxUnits: nat, unitId: int, groupId: int): Option<AICommand>
    requires |c.params| >= ParamsRead(topic)
  {
    if topic == LoadUnits && c.params == [] then None
    else Some(AICommand(topic, unitId, groupId, c.options, c.timeOut, DecodePayload(c, topic, maxUnits)))
  }

  // ---------------------------------------------------------------- round trip

  /** Whether the classifier tells this command's encoding from every other topic's. */
  predicate Unambiguous(cmd: AICommand, maxUnits: nat)
    requires WellTyped(cmd)
  {
    match cmd.topic
    case Build => cmd.payload.unitDef > 0
    case LoadUnits => |cmd.payload.ids| < 3
    case ReclaimUnit => cmd.payload.value < maxUnits
    case ReclaimFeature => cmd.payload.value >= 0
    case Custom => cmd.payload.cmdId >= 0 && !IsKnownId(cmd.payload.cmdId)
    case _ => true
  }

  /** Whether the encoding keeps every member: one byte of options, a unit to load, no facing without a place. */
  predicate Keepable(cmd: AICommand)
    requires WellTyped(cmd)
  {
    && IsByte(cmd.options)
    && (cmd.topic == LoadUnits ==> cmd.payload.ids != [])
    && (cmd.topic == Build ==> cmd.payload.where.Some? || cmd.payload.facing == BUILD_NO_FACING)
  }

  /** An encoded command has the id toInternalUnitCommandTopic names, and its topic back iff it is unambiguous. */
  lemma TopicRoundTrip(cmd: AICommand, maxUnits: nat)
    requires WellTyped(cmd) && cmd.topic != AiSelect
    ensures var c := Encode(cmd, maxUnits).value;
            c.id == InternalTopic(cmd) && (TopicOf(c, maxUnits) == cmd.topic <==> Unambiguous(cmd, maxUnits))
  {
    var params := ParamsOf(cmd, maxUnits);
    ParamsOfKind(cmd, maxUnits);
    ClassifiedBack(cmd, maxUnits, |params|, Param0(params));
  }

  /** What the classifier looks at besides the id: the number of parameters, and the first of a reclaim. */
  predicate HasShape(cmd: AICommand, maxUnits: nat, n: nat, p: real)
    requires WellTyped(cmd)
  {
    match KindOf(cmd.topic)
    case KNumber =>
      n == 1 && p == ((if cmd.topic == ReclaimFeature then maxUnits else 0) + cmd.payload.value) as real
    case KFlag => n == 1
    case KAt => n == 3
    case KArea | KDrop => n == 4
    case KUnits => n == |cmd.payload.ids|
    case _ => true
  }

  lemma ParamsOfKind(cmd: AICommand, maxUnits: nat)
    requires WellTyped(cmd)
    ensures var params := ParamsOf(cmd, maxUnits); HasShape(cmd, maxUnits, |params|, Param0(params))
  {
  }

  lemma ClassifiedBack(cmd: AICommand, maxUnits: nat, n: nat, p: real)
    requires WellTyped(cmd) && cmd.topic != AiSelect && HasShape(cmd, maxUnits, n, p)
    ensures Classify(InternalTopic(cmd), n, p, maxUnits) == cmd.topic <==> Unambiguous(cmd, maxUnits)
  {
    match KindOf(cmd.topic) {
      case KRaw =>
        RawClassifiedBack(cmd.payload.cmdId, n, p, maxUnits);
      case KNumber =>
        NumberClassifiedBack(cmd, maxUnits, n, p);
      case KNothing | KFlag =>
        SettingClassifiedBack(cmd, maxUnits, n, p);
      case _ =>
        PlaceClassifiedBack(cmd, maxUnits, n, p);
    }
  }

  lemma RawClassifiedBack(id: int, n: nat, p: real, maxUnits: nat)
    ensures Classify(id, n, p, maxUnits) == Custom <==> id >= 0 && !IsKnownId(id)
  {
  }

  lemma NumberClassifiedBack(cmd: AICommand, maxUnits: nat, n: nat, p: real)
    requires WellTyped(cmd) && KindOf(cmd.topic) == KNumber && HasShape(cmd, maxUnits, n, p)
    ensures Classify(InternalTopic(cmd), n, p, maxUnits) == cmd.topic <==> Unambiguous(cmd, maxUnits)
  {
    if cmd.topic in {ReclaimUnit, ReclaimFeature} {
      ReclaimClassified(n, p, maxUnits);
    } else {
      OtherNumberClassifiedBack(cmd, maxUnits, n, p);
    }
  }

  lemma ReclaimClassified(n: nat, p: real, maxUnits: nat)
    requires n == 1
    ensures Classify(CMD_RECLAIM, n, p, maxUnits) == if p < maxUnits as real then ReclaimUnit else ReclaimFeature
  {
  }

  lemma OtherNumberClassifiedBack(cmd: AICommand, maxUnits: nat, n: nat, p: real)
    requires WellTyped(cmd) && KindOf(cmd.topic) == KNumber && n == 1 && cmd.topic !in {ReclaimUnit, ReclaimFeature}
    ensures Classify(InternalTopic(cmd), n, p, maxUnits) == cmd.topic
  {
  }

  lemma SettingClassifiedBack(cmd: AICommand, maxUnits: nat, n: nat, p: real)
    requires WellTyped(cmd) && cmd.topic != AiSelect && KindOf(cmd.topic) in {KNothing, KFlag}
    ensures Classify(InternalTopic(cmd), n, p, maxUnits) == cmd.topic
  {
  }

  lemma PlaceClassifiedBack(cmd: AICommand, maxUnits: nat, n: nat, p: real)
    requires WellTyped(cmd) && KindOf(cmd.topic) in {KAt, KArea, KDrop, KUnits, KSite} && HasShape(cmd, maxUnits, n, p)
    ensures Classify(InternalTopic(cmd), n, p, maxUnits) == cmd.topic <==> Unambiguous(cmd, maxUnits)
  {
  }

  lemma TruncExact(n: int)
    ensures Trunc(n as real) == n
  {
    assert (-(n as real)) == (-n) as real;
  }

  lemma SiteRoundTrip(cmd: AICommand, maxUnits: nat)
    requires WellTyped(cmd) && cmd.topic == Build
    ensures DecodePayload(Encode(cmd, maxUnits).value, Build, maxUnits) == cmd.payload
      <==> cmd.payload.where.Some? || cmd.payload.facing == BUILD_NO_FACING
  {
    var c := Encode(cmd, maxUnits).value;
    TruncExact(cmd.payload.facing);
    if cmd.payload.where.Some? {
      assert c.params[..3] == PosParams(cmd.payload.where.value);
    }
  }

  lemma UnitsRoundTrip(cmd: AICommand, maxUnits: nat)
    requires WellTyped(cmd) && cmd.topic == LoadUnits
    ensures DecodePayload(Encode(cmd, maxUnits).value, LoadUnits, maxUnits) == cmd.payload
  {
    var c, ids := Encode(cmd, maxUnits).value, cmd.payload.ids;
    forall i | 0 <= i < |ids|
      ensures Trunc(c.params[i]) == ids[i]
    {
      TruncExact(ids[i]);
    }
    assert TruncAll(c.params) == ids;
  }

  lemma NumberRoundTrip(cmd: AICommand, maxUnits: nat)
    requires WellTyped(cmd) && KindOf(cmd.topic) == KNumber
    ensures var c := Encode(cmd, maxUnits).value;
            |c.params| == 1 && DecodePayload(c, cmd.topic, maxUnits) == cmd.payload
  {
    TruncExact(cmd.payload.value);
    TruncExact(maxUnits + cmd.payload.value);
  }

  lemma PayloadRoundTrip(cmd: AICommand, maxUnits: nat)
    requires WellTyped(cmd) && cmd.topic != AiSelect
    ensures var c := Encode(cmd, maxUnits).value;
            |c.params| >= ParamsRead(cmd.topic)
            && (DecodePayload(c, cmd.topic, maxUnits) == cmd.payload
                <==> (cmd.topic == Build ==> cmd.payload.where.Some? || cmd.payload.facing == BUILD_NO_FACING))
  {
    match cmd.payload {
      case Number(_) =>
        NumberRoundTrip(cmd, maxUnits);
      case Drop(_, unit) =>
        TruncExact(unit);
      case Units(_) =>
        UnitsRoundTrip(cmd, maxUnits);
      case Site(_, _, _) =>
        SiteRoundTrip(cmd, maxUnits);
      case _ =>
    }
  }

  lemma DecodeGives(c: EngineCommand, topic: Topic, maxUnits: nat, cmd: AICommand)
    requires |c.params| >= ParamsRead(topic)
    ensures Decode(c, topic, maxUnits, cmd.unitId, cmd.groupId) == Some(cmd)
      <==> && topic == cmd.topic && !(topic == LoadUnits && c.params == [])
           && c.options == cmd.options && c.timeOut == cmd.timeOut
           && DecodePayload(c, topic, maxUnits) == cmd.payload
  {
  }

  /** The members besides the payload, and when there is anything to encode. */
  lemma FrameRoundTrip(cmd: AICommand, maxUnits: nat)
    requires WellTyped(cmd) && cmd.topic != AiSelect
    ensures var c := Encode(cmd, maxUnits).value;
            c.timeOut == cmd.timeOut && (c.options == cmd.options <==> IsByte(cmd.options))
            && (cmd.topic == LoadUnits ==> (c.params == [] <==> cmd.payload.ids == []))
  {
  }

  /** Decoding the encoding gives the command back exactly on the unambiguous, keepable commands. */
  lemma RoundTrip(cmd: AICommand, maxUnits: nat)
    requires WellTyped(cmd) && cmd.topic != AiSelect
    ensures var c := Encode(cmd, maxUnits).value;
            var topic := TopicOf(c, maxUnits);
            (|c.params| >= ParamsRead(topic) && Decode(c, topic, maxUnits, cmd.unitId, cmd.groupId) == Some(cmd))
            <==> Unambiguous(cmd, maxUnits) && Keepable(cmd)
  {
    TopicRoundTrip(cmd, maxUnits);
    PayloadRoundTrip(cmd, maxUnits);
    FrameRoundTrip(cmd, maxUnits);
    var c := Encode(cmd, maxUnits).value;
    if |c.params| >= ParamsRead(TopicOf(c, maxUnits)) {
      DecodeGives(c, TopicOf(c, maxUnits), maxUnits, cmd);
    }
  }

  // ---------------------------------------------------------------- executing a raw command

  /** What reaches GiveOrder or GiveGroupOrder. */
  datatype Order = Order(toGroup: bool, target: int, command: EngineCommand)

  /** The unit-command branch of handleCommand. */
  function Handle(cmd: AICommand, maxUnits: nat): Option<Order>
    requires WellTyped(cmd)
  {
    match Encode(cmd, maxUnits)
    case None => None
    case Some(c) => Some(if cmd.unitId >= 0 then Order(false, cmd.unitId, c) else Order(true, cmd.groupId, c))
  }

  function ExecuteAs(c: EngineCommand, topic: Topic, maxUnits: nat, unitId: int, groupId: int): Option<Order>
    requires |c.params| >= ParamsRead(topic)
  {
    match Decode(c, topic, maxUnits, unitId, groupId)
    case None => None
    case Some(cmd) => Handle(cmd, maxUnits)
  }

  ghost predicate HasParams(c: EngineCommand, maxUnits: nat) {
    |c.params| >= ParamsRead(TopicOf(c, maxUnits))
  }

  /** One and two copied bytes are a number below any id, so a lone target always reads as a unit. */
  lemma CopiedTopic(bits: real -> nat, c: EngineCommand, maxUnits: nat)
    ensures var topic, copied := TopicOf(c, maxUnits), CopiedTopicOf(bits, c, maxUnits);
            if c.id == CMD_RECLAIM && 1 <= |c.params| <= 2 && maxUnits > 0 then copied == ReclaimUnit
            else copied == topic || (maxUnits == 0 && {copied, topic} == {ReclaimUnit, ReclaimFeature})
  {
  }

  /** The short copy can change the topic, but never the order that is given. */
  lemma ShortCopyIsHarmless(bits: real -> nat, c: EngineCommand, maxUnits: nat, unitId: int, groupId: int)
    ensures HasParams(c, maxUnits) <==> |c.params| >= ParamsRead(CopiedTopicOf(bits, c, maxUnits))
    ensures HasParams(c, maxUnits) ==>
              ExecuteAs(c, CopiedTopicOf(bits, c, maxUnits), maxUnits, unitId, groupId) ==
              ExecuteAs(c, TopicOf(c, maxUnits), maxUnits, unitId, groupId)
  {
    CopiedTopic(bits, c, maxUnits);
  }

  /** What the copied topic makes of an encoding is what its own topic makes of it, or a unit to reclaim. */
  lemma CopiedEncoding(bits: real -> nat, cmd: AICommand, maxUnits: nat)
    requires WellTyped(cmd) && cmd.topic != AiSelect && maxUnits > 0
    ensures var c := Encode(cmd, maxUnits).value;
            var topic, copied := TopicOf(c, maxUnits), CopiedTopicOf(bits, c, maxUnits);
            if cmd.topic in {ReclaimUnit, ReclaimFeature} then copied == ReclaimUnit
            else copied == topic || (copied == ReclaimUnit && topic in {ReclaimUnit, ReclaimFeature})
  {
    CopiedTopic(bits, Encode(cmd, maxUnits).value, maxUnits);
  }

  lemma CopiedBack(bits: real -> nat, cmd: AICommand, maxUnits: nat)
    requires WellTyped(cmd) && cmd.topic != AiSelect && maxUnits > 0
    ensures CopiedTopicOf(bits, Encode(cmd, maxUnits).value, maxUnits) == cmd.topic
            <==> cmd.topic != ReclaimFeature && (cmd.topic == ReclaimUnit || Unambiguous(cmd, maxUnits))
  {
    CopiedEncoding(bits, cmd, maxUnits);
    TopicRoundTrip(cmd, maxUnits);
  }

  /** executeCommand keeps the topic and members of exactly these commands: a lone feature comes back as a unit. */
  lemma ExecutedRoundTrip(bits: real -> nat, cmd: AICommand, maxUnits: nat)
    requires WellTyped(cmd) && cmd.topic != AiSelect && maxUnits > 0
    ensures var c := Encode(cmd, maxUnits).value;
            var topic := CopiedTopicOf(bits, c, maxUnits);
            (|c.params| >= ParamsRead(topic) && Decode(c, topic, maxUnits, cmd.unitId, cmd.groupId) == Some(cmd))
            <==> cmd.topic != ReclaimFeature && (cmd.topic == ReclaimUnit || Unambiguous(cmd, maxUnits)) && Keepable(cmd)
  {
    var c := Encode(cmd, maxUnits).value;
    CopiedBack(bits, cmd, maxUnits);
    PayloadRoundTrip(cmd, maxUnits);
    FrameRoundTrip(cmd, maxUnits);
    if |c.params| >= ParamsRead(CopiedTopicOf(bits, c, maxUnits)) {
      DecodeGives(c, CopiedTopicOf(bits, c, maxUnits), maxUnits, cmd);
    }
  }

  predicate Integral(r: real) {
    Trunc(r) as real == r
  }

  /** The commands that executeCommand passes on as they are. */
  predicate Canonical(c: EngineCommand, maxUnits: nat) {
    IsByte(c.options) && TopicOf(c, maxUnits) != AiSelect && CanonicalParams(KindOf(TopicOf(c, maxUnits)), c.params)
  }

  predicate CanonicalParams(kind: Kind, params: seq<real>) {
    match kind
    case KNothing => params == []
    case KNumber => |params| == 1 && Integral(params[0])
    case KFlag => params == [0.0] || params == [1.0]
    case KAt => |params| == 3
    case KArea => |params| == 4
    case KDrop => |params| == 4 && Integral(params[3])
    case KUnits => params != [] && forall p :: p in params ==> Integral(p)
    case KSite => params == [] || |params| == 3 || (|params| == 4 && Integral(params[3]) && params[3] != -1.0)
    case KRaw => true
  }

  function Normalised(c: EngineCommand, maxUnits: nat): seq<real>
    requires HasParams(c, maxUnits)
  {
    var topic := TopicOf(c, maxUnits);
    ParamsOf(AICommand(topic, 0, 0, c.options, c.timeOut, DecodePayload(c, topic, maxUnits)), maxUnits)
  }

  /** What is left of the parameters of a command of this kind. */
  function ByKind(kind: Kind, params: seq<real>): seq<real>
    requires |params| >= KindReads(kind)
  {
    match kind
    case KNothing => []
    case KNumber => [Trunc(params[0]) as real]
    case KFlag => [if params[0] == 0.0 then 0.0 else 1.0]
    case KAt => params[..3]
    case KArea => params[..3] + [if |params| == 3 then 0.0 else params[3]]
    case KDrop => params[..3] + [Trunc(params[3]) as real]
    case KUnits => seq(|params|, i requires 0 <= i < |params| => Trunc(params[i]) as real)
    case KSite =>
      if |params| < 3 then [] else if |params| == 3 || Trunc(params[3]) == -1 then params[..3]
      else params[..3] + [Trunc(params[3]) as real]
    case KRaw => params
  }

  lemma NormalisedByKind(c: EngineCommand, maxUnits: nat)
    requires HasParams(c, maxUnits)
    ensures Normalised(c, maxUnits) == ByKind(KindOf(TopicOf(c, maxUnits)), c.params)
  {
  }

  lemma ByKindFixes(kind: Kind, params: seq<real>)
    requires |params| >= KindReads(kind) && (kind == KUnits ==> params != [])
    ensures ByKind(kind, params) == params <==> CanonicalParams(kind, params)
  {
    match kind {
      case KUnits =>
        assert forall i :: 0 <= i < |params| ==> ByKind(kind, params)[i] == Trunc(params[i]) as real && params[i] in params;
      case KSite =>
        assert |ByKind(kind, params)| in {0, 3, 4};
      case _ =>
    }
  }

  lemma NormalisedFixesCanonical(c: EngineCommand, maxUnits: nat)
    requires HasParams(c, maxUnits) && IsByte(c.options) && TopicOf(c, maxUnits) != AiSelect
    requires TopicOf(c, maxUnits) == LoadUnits ==> c.params != []
    ensures Normalised(c, maxUnits) == c.params <==> Canonical(c, maxUnits)
  {
    NormalisedByKind(c, maxUnits);
    ByKindFixes(KindOf(TopicOf(c, maxUnits)), c.params);
  }

  /** As many parameters as normalising leaves of a kind of command. */
  predicate FullCount(kind: Kind, before: nat, after: nat) {
    match kind
    case KNumber => after == 1
    case KAt => after == 3
    case KArea => after == 4
    case KUnits => after == before
    case _ => true
  }

  lemma KindByCount(id: int, n: nat, p: real, n': nat, p': real, maxUnits: nat)
    requires FullCount(KindOf(Classify(id, n, p, maxUnits)), n, n')
    ensures KindOf(Classify(id, n', p', maxUnits)) == KindOf(Classify(id, n, p, maxUnits))
    ensures Classify(id, n', p', maxUnits) == AiSelect <==> Classify(id, n, p, maxUnits) == AiSelect
  {
  }

  lemma NormalisedCount(c: EngineCommand, maxUnits: nat)
    requires HasParams(c, maxUnits)
    ensures FullCount(KindOf(TopicOf(c, maxUnits)), |c.params|, |Normalised(c, maxUnits)|)
  {
  }

  lemma NormalisedParamsCanonical(c: EngineCommand, maxUnits: nat, topic: Topic, params: seq<real>)
    requires HasParams(c, maxUnits) && topic == TopicOf(c, maxUnits) && params == Normalised(c, maxUnits)
    requires topic != AiSelect && (topic == LoadUnits ==> c.params != [])
    ensures CanonicalParams(KindOf(topic), params)
  {
    match KindOf(topic) {
      case KNumber =>
        TruncExact(Trunc(c.params[0]));
      case KDrop =>
        TruncExact(Trunc(c.params[3]));
      case KUnits =>
        forall p | p in params
          ensures Integral(p)
        {
          var i :| 0 <= i < |params| && params[i] == p;
          TruncExact(Trunc(c.params[i]));
        }
      case KSite =>
        if |c.params| >= 4 {
          TruncExact(Trunc(c.params[3]));
        }
      case _ =>
    }
  }

  lemma NormalisedIsCanonical(c: EngineCommand, maxUnits: nat)
    requires HasParams(c, maxUnits) && IsByte(c.options) && TopicOf(c, maxUnits) != AiSelect
    requires TopicOf(c, maxUnits) == LoadUnits ==> c.params != []
    ensures Canonical(c.(params := Normalised(c, maxUnits)), maxUnits)
  {
    var params := Normalised(c, maxUnits);
    NormalisedCount(c, maxUnits);
    KindByCount(c.id, |c.params|, Param0(c.params), |params|, Param0(params), maxUnits);
    NormalisedParamsCanonical(c, maxUnits, TopicOf(c, maxUnits), params);
  }

  lemma IdKept(c: EngineCommand, maxUnits: nat)
    requires HasParams(c, maxUnits)
    ensures var topic := TopicOf(c, maxUnits);
            InternalTopic(AICommand(topic, 0, 0, c.options, c.timeOut, DecodePayload(c, topic, maxUnits))) == c.id
  {
  }

  /** The order that a command becomes: the same id, options and timeout, and the normalised parameters. */
  lemma ExecuteGives(c: EngineCommand, maxUnits: nat, unitId: int, groupId: int)
    requires HasParams(c, maxUnits)
    ensures ExecuteAs(c, TopicOf(c, maxUnits), maxUnits, unitId, groupId) ==
            if TopicOf(c, maxUnits) == AiSelect || (TopicOf(c, maxUnits) == LoadUnits && c.params == []) then None
            else Some(Order(unitId < 0, if unitId < 0 then groupId else unitId,
                            EngineCommand(c.id, c.options % 256, c.timeOut, Normalised(c, maxUnits))))
  {
    var topic := TopicOf(c, maxUnits);
    if topic != AiSelect && (topic == LoadUnits ==> c.params != []) {
      IdKept(c, maxUnits);
      var base := AICommand(topic, 0, 0, c.options, c.timeOut, DecodePayload(c, topic, maxUnits));
      var cmd := base.(unitId := unitId, groupId := groupId);
      SameEncoding(base, cmd, maxUnits);
    }
  }

  /** The addressee takes no part in the encoding. */
  lemma SameEncoding(a: AICommand, b: AICommand, maxUnits: nat)
    requires WellTyped(a) && b == a.(unitId := b.unitId, groupId := b.groupId)
    ensures InternalTopic(a) == InternalTopic(b) && ParamsOf(a, maxUnits) == ParamsOf(b, maxUnits)
  {
  }

  /** Executing a command gives a canonical one, or none for AiSelect and for loading no units; it fixes only those. */
  lemma ExecuteNormalises(bits: real -> nat, c: EngineCommand, maxUnits: nat, unitId: int, groupId: int)
    requires HasParams(c, maxUnits) && IsByte(c.options)
    ensures |c.params| >= ParamsRead(CopiedTopicOf(bits, c, maxUnits))
    ensures var order := ExecuteAs(c, CopiedTopicOf(bits, c, maxUnits), maxUnits, unitId, groupId);
            && (order.None? <==> TopicOf(c, maxUnits) == AiSelect || (TopicOf(c, maxUnits) == LoadUnits && c.params == []))
            && (order.Some? ==> Canonical(order.value.command, maxUnits)
                                && (order.value.command == c <==> Canonical(c, maxUnits)))
  {
    ShortCopyIsHarmless(bits, c, maxUnits, unitId, groupId);
    ExecuteGives(c, maxUnits, unitId, groupId);
    var topic := TopicOf(c, maxUnits);
    if topic != AiSelect && (topic == LoadUnits ==> c.params != []) {
      NormalisedFixesCanonical(c, maxUnits);
      NormalisedIsCanonical(c, maxUnits);
    }
  }

  /** A canonical command is passed on as it is. */
  lemma ExecuteKeepsCanonical(bits: real -> nat, c: EngineCommand, maxUnits: nat, unitId: int, groupId: int)
    requires Canonical(c, maxUnits)
    ensures HasParams(c, maxUnits) && |c.params| >= ParamsRead(CopiedTopicOf(bits, c, maxUnits))
    ensures ExecuteAs(c, CopiedTopicOf(bits, c, maxUnits), maxUnits, unitId, groupId)
      == Some(Order(unitId < 0, if unitId < 0 then groupId else unitId, c))
  {
    CanonicalHasParams(c, maxUnits);
    ShortCopyIsHarmless(bits, c, maxUnits, unitId, groupId);
    ExecuteGives(c, maxUnits, unitId, groupId);
    NormalisedFixesCanonical(c, maxUnits);
  }

  lemma CanonicalHasParams(c: EngineCommand, maxUnits: nat)
    requires Canonical(c, maxUnits)
    ensures HasParams(c, maxUnits) && (TopicOf(c, maxUnits) == LoadUnits ==> c.params != [])
  {
  }

  /** Executing the order's command again gives the same order. */
  lemma ExecuteTwice(bits: real -> nat, c: EngineCommand, maxUnits: nat, unitId: int, groupId: int)
    requires HasParams(c, maxUnits) && IsByte(c.options)
    requires TopicOf(c, maxUnits) != AiSelect && (TopicOf(c, maxUnits) == LoadUnits ==> c.params != [])
    ensures |c.params| >= ParamsRead(CopiedTopicOf(bits, c, maxUnits))
    ensures var order := ExecuteAs(c, CopiedTopicOf(bits, c, maxUnits), maxUnits, unitId, groupId).value;
            |order.command.params| >= ParamsRead(CopiedTopicOf(bits, order.command, maxUnits))
            && ExecuteAs(order.command, CopiedTopicOf(bits, order.command, maxUnits), maxUnits, unitId, groupId) == Some(order)
  {
    ShortCopyIsHarmless(bits, c, maxUnits, unitId, groupId);
    ExecuteGives(c, maxUnits, unitId, groupId);
    NormalisedIsCanonical(c, maxUnits);
    ExecuteKeepsCanonical(bits, c.(params := Normalised(c, maxUnits)), maxUnits, unitId, groupId);
  }

  // ---------------------------------------------------------------- what a raw command becomes

  /** What executeCommand makes of a raw command's parameters: an order with these, no order, or a read beyond the list. */
  datatype Effect = Beyond | NoOrder | Gives(params: seq<real>)

  const WITHOUT_PARAMS := {CMD_STOP, CMD_WAIT, CMD_GATHERWAIT, CMD_GROUPCLEAR, CMD_SELFD, CMD_STOCKPILE}
  const WITH_NUMBER := {CMD_TIMEWAIT, CMD_DEATHWAIT, CMD_SQUADWAIT, CMD_GUARD, CMD_GROUPADD, CMD_REPAIR, CMD_FIRE_STATE,
                        CMD_MOVE_STATE, CMD_LOAD_ONTO, CMD_TRAJECTORY, CMD_AUTOREPAIRLEVEL, CMD_IDLEMODE}
  const WITH_SWITCH := {CMD_ONOFF, CMD_CLOAK, CMD_REPEAT}
  const WITH_PLACE := {CMD_MOVE, CMD_PATROL, CMD_FIGHT, CMD_SETBASE}
  const WITH_AREA := {CMD_UNLOAD_UNITS, CMD_RESTORE}

  /** The ids that name one target with few parameters, and a place or an area with more. */
  predicate IsTarget(id: int, n: nat) {
    (id in {CMD_ATTACK, CMD_RESURRECT, CMD_MANUALFIRE} && n < 3) || (id in {CMD_RECLAIM, CMD_CAPTURE} && (n < 3 || n == 5))
  }

  predicate IsArea(id: int, n: nat) {
    || id in WITH_AREA
    || (id in {CMD_ATTACK, CMD_RESURRECT, CMD_LOAD_UNITS} && n >= 3)
    || (id in {CMD_RECLAIM, CMD_CAPTURE} && n >= 3 && n != 5)
  }

  /** Said by engine id and number of parameters; the unit limit plays no part. */
  function EffectOf(id: int, params: seq<real>): Effect {
    var n := |params|;
    if id in WITHOUT_PARAMS then Gives([])
    else if id == CMD_AISELECT || (id == CMD_LOAD_UNITS && n == 0) then NoOrder
    else if id in WITH_NUMBER || IsTarget(id, n) then
      if n < 1 then Beyond else Gives([Trunc(params[0]) as real])
    else if id in WITH_SWITCH then
      if n < 1 then Beyond else Gives([if params[0] == 0.0 then 0.0 else 1.0])
    else if id in WITH_PLACE || id == CMD_MANUALFIRE then
      if n < 3 then Beyond else Gives(params[..3])
    else if IsArea(id, n) then
      if n < 3 then Beyond else Gives(params[..3] + [if n == 3 then 0.0 else params[3]])
    else if id == CMD_UNLOAD_UNIT then
      if n < 4 then Beyond else Gives(params[..3] + [Trunc(params[3]) as real])
    else if id == CMD_LOAD_UNITS then Gives(seq(n, i requires 0 <= i < n => Trunc(params[i]) as real))
    else if id < 0 then
      Gives(if n < 3 then [] else if n == 3 || Trunc(params[3]) == -1 then params[..3] else params[..3] + [Trunc(params[3]) as real])
    else Gives(params)
  }

  /** Trunc is the integer part: between 0 and the number, and less than 1 away. */
  lemma TruncTowardsZero(r: real, n: int)
    ensures n == Trunc(r) <==>
            (if r >= 0.0 then 0.0 <= n as real <= r < n as real + 1.0 else n as real - 1.0 < r <= n as real <= 0.0)
  {
  }

  /** The kind of a command by its id and number of parameters. */
  predicate IsKind(id: int, n: nat, kind: Kind) {
    match kind
    case KNothing => id in WITHOUT_PARAMS || id == CMD_AISELECT
    case KNumber => id in WITH_NUMBER || IsTarget(id, n)
    case KFlag => id in WITH_SWITCH
    case KAt => id in WITH_PLACE || (id == CMD_MANUALFIRE && n >= 3)
    case KArea => IsArea(id, n)
    case KDrop => id == CMD_UNLOAD_UNIT
    case KUnits => id == CMD_LOAD_UNITS && n < 3
    case KSite => id < 0
    case KRaw => id >= 0 && !IsKnownId(id)
  }

  lemma KindOfClassified(id: int, n: nat, p: real, maxUnits: nat)
    ensures IsKind(id, n, KindOf(Classify(id, n, p, maxUnits)))
    ensures Classify(id, n, p, maxUnits) == AiSelect <==> id == CMD_AISELECT
    ensures Classify(id, n, p, maxUnits) == LoadUnits <==> id == CMD_LOAD_UNITS && n < 3
    ensures Classify(id, n, p, maxUnits) == Build <==> id < 0
  {
  }

  lemma EffectByKind(id: int, params: seq<real>, kind: Kind)
    requires IsKind(id, |params|, kind)
    ensures EffectOf(id, params) ==
            if id == CMD_AISELECT || (id == CMD_LOAD_UNITS && params == []) then NoOrder
            else if |params| < KindReads(kind) then Beyond
            else Gives(ByKind(kind, params))
  {
  }

  /** Every command's order has the parameters that EffectOf says, is missing or reads beyond the list. */
  lemma EffectOfExecuting(c: EngineCommand, maxUnits: nat, unitId: int, groupId: int)
    ensures HasParams(c, maxUnits) <==> !EffectOf(c.id, c.params).Beyond?
    ensures HasParams(c, maxUnits) ==>
              ExecuteAs(c, TopicOf(c, maxUnits), maxUnits, unitId, groupId) ==
              match EffectOf(c.id, c.params)
              case Gives(params) =>
                Some(Order(unitId < 0, if unitId < 0 then groupId else unitId, EngineCommand(c.id, c.options % 256, c.timeOut, params)))
              case _ => None
  {
    KindOfClassified(c.id, |c.params|, Param0(c.params), maxUnits);
    EffectByKind(c.id, c.params, KindOf(TopicOf(c, maxUnits)));
    if HasParams(c, maxUnits) {
      NormalisedByKind(c, maxUnits);
      ExecuteGives(c, maxUnits, unitId, groupId);
    }
  }

  method HandleCommand(cmd: AICommand, maxUnits: nat) returns (order: Option<Order>)
    requires WellTyped(cmd)
    ensures order == Handle(cmd, maxUnits)
  {
    var c := new Command();
    var known := NewCommand(cmd, maxUnits, c);
    if !known {
      return None;
    }
    var value := EngineCommand(c.id, c.options, c.timeOut, if c.page.Some? then c.page.value else c.inlineParams[..c.numParams]);
    return Some(if cmd.unitId >= 0 then Order(false, cmd.unitId, value) else Order(true, cmd.groupId, value));
  }

  method FillUnits(params: seq<real>) returns (ids: seq<int>)
    ensures ids == TruncAll(params)
  {
    ids := [];
    for u := 0 to |params|
      invariant ids == TruncAll(params)[..u]
    {
      ids := ids + [Trunc(params[u])];
    }
  }

  /** The struct members of the topics that name a place. */
  method FillPlace(rc: EngineCommand, topic: Topic) returns (payload: Payload)
    requires |rc.params| >= ParamsRead(topic) && KindOf(topic) in {KAt, KArea, KDrop}
    ensures payload == DecodePayload(rc, topic, 0)
  {
    match topic {
      case Move | Patrol | Fight | SetBase | DGunPos =>
        payload := At(PosAt(rc.params));
      case AttackArea | LoadUnitsArea | UnloadUnitsArea | ReclaimArea | RestoreArea | ResurrectArea | CaptureArea =>
        payload := Area(PosAt(rc.params), if |rc.params| >= 4 then rc.params[3] else 0.0);
      case UnloadUnit =>
        payload := Drop(PosAt(rc.params), Trunc(rc.params[3]));
    }
  }

  /** Those of the topics that name a unit or a setting. */
  method FillSetting(rc: EngineCommand, topic: Topic, maxUnits: nat) returns (payload: Payload)
    requires |rc.params| >= ParamsRead(topic) && KindOf(topic) in {KNumber, KFlag}
    ensures payload == DecodePayload(rc, topic, maxUnits)
  {
    match topic {
      case WaitTime | WaitDeath | WaitSquad | Attack | Guard | GroupAdd | Repair | SetFireState | SetMoveState =>
        payload := Number(Trunc(rc.params[0]));
      case LoadOnto | ReclaimUnit | DGun | SetTrajectory | Resurrect | Capture | SetAutoRepairLevel | SetIdleMode =>
        payload := Number(Trunc(rc.params[0]));
      case ReclaimFeature =>
        payload := Number(Trunc(rc.params[0]) - maxUnits);
      case SetOnOff | Cloak | SetRepeat =>
        payload := Flag(rc.params[0] != 0.0);
    }
  }

  /** The struct members that executeCommand fills, topic by topic. */
  method FillPayload(rc: EngineCommand, topic: Topic, maxUnits: nat) returns (payload: Payload)
    requires |rc.params| >= ParamsRead(topic)
    ensures payload == DecodePayload(rc, topic, maxUnits)
  {
    match KindOf(topic) {
      case KNothing =>
        payload := Nothing;
      case KNumber | KFlag =>
        payload := FillSetting(rc, topic, maxUnits);
      case KAt | KArea | KDrop =>
        payload := FillPlace(rc, topic);
      case KUnits =>
        var ids := FillUnits(rc.params);
        payload := Units(ids);
      case KSite =>
        payload := Site(-rc.id, if |rc.params| >= 3 then Some(PosAt(rc.params)) else None,
                        if |rc.params| >= 4 then Trunc(rc.params[3]) else BUILD_NO_FACING);
      case KRaw =>
        payload := Raw(rc.id, rc.params);
    }
  }

  /** One case of the switch; without units to load nothing is handled. */
  method FillAndHandle(rc: EngineCommand, topic: Topic, maxUnits: nat, unitId: int, groupId: int)
    returns (order: Option<Order>)
    requires |rc.params| >= ParamsRead(topic)
    ensures order == ExecuteAs(rc, topic, maxUnits, unitId, groupId)
  {
    if topic == LoadUnits && |rc.params| == 0 {
      return None;
    }
    var payload := FillPayload(rc, topic, maxUnits);
    var cmd := AICommand(topic, unitId, groupId, rc.options, rc.timeOut, payload);
    order := HandleCommand(cmd, maxUnits);
  }

  /** With too few parameters for its topic, the decoder reads beyond the list. */
  datatype Outcome = ReadsBeyond | Gave(order: Option<Order>)

  /** skirmishAiCallback_Engine_executeCommand: fills one struct and hands it to handleCommand. */
  method ExecuteCommand(bits: real -> nat, rc: EngineCommand, maxUnits: nat, unitId: int, groupId: int)
    returns (outcome: Outcome)
    ensures outcome ==
      match EffectOf(rc.id, rc.params)
      case Beyond => ReadsBeyond
      case NoOrder => Gave(None)
      case Gives(params) =>
        Gave(Some(Order(unitId < 0, if unitId < 0 then groupId else unitId,
                        EngineCommand(rc.id, rc.options % 256, rc.timeOut, params))))
  {
    ShortCopyIsHarmless(bits, rc, maxUnits, unitId, groupId);
    EffectOfExecuting(rc, maxUnits, unitId, groupId);
    var topic := CopiedTopicOf(bits, rc, maxUnits);
    if |rc.params| < ParamsRead(topic) {
      return ReadsBeyond;
    }
    var order := FillAndHandle(rc, topic, maxUnits, unitId, groupId);
    return Gave(order);
  }
}
