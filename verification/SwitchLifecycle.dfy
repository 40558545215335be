/**
 * Creating, connecting to and removing switches: the set of allocated switch indexes
 * (lib/VirtualObjectIdManager.cpp), the container of held switches (lib/SwitchContainer.cpp), and
 * how far lib/RedisRemoteSaiInterface.cpp keeps them in agreement.
 */
module SwitchLifecycle {
  import opened Common
  import opened ObjectId
  import opened SwitchConfigs
  import opened VidAllocation

  // ---------------------------------------------------------------- hardware info

  const SAI_MAX_HARDWARE_ID_LEN: nat := 255

  /** `sai_s8_list_t`: None is a null pointer; a list that is there holds at least `count` characters. */
  datatype S8List = S8List(count: nat, list: Option<string>)

  /** `strnlen` of the first `count` characters. */
  function NulAt(s: string, count: nat): (n: nat)
    requires count <= |s|
    ensures n <= count
    ensures '\0' !in s[..n] && (n < count ==> s[n] == '\0')
    decreases count
  {
    if count == 0 then 0
    else
      var n := NulAt(s, count - 1);
      if n < count - 1 || s[count - 1] == '\0' then n else count
  }

  /** `Globals::getHardwareInfo`: the text up to the first null character, limited in length. */
  function GetHardwareInfo(attr: Option<S8List>): (r: string)
    requires attr.Some? && attr.value.list.Some? ==> attr.value.count <= |attr.value.list.value|
    ensures |r| <= SAI_MAX_HARDWARE_ID_LEN && '\0' !in r
    ensures attr.None? || attr.value.list.None? ==> r == ""
    ensures attr.Some? && attr.value.list.Some? ==>
              var S8List(count, Some(text)) := attr.value;
              && r <= text && |r| <= count
              && (|r| < count && |r| < SAI_MAX_HARDWARE_ID_LEN ==> text[|r|] == '\0')
  {
    if attr.None? || attr.value.count == 0 || attr.value.list.None? then ""
    else
      var count := if attr.value.count > SAI_MAX_HARDWARE_ID_LEN then SAI_MAX_HARDWARE_ID_LEN else attr.value.count;
      attr.value.list.value[..NulAt(attr.value.list.value, count)]
  }

  // ---------------------------------------------------------------- one step

  type Configs = map<string, SwitchConfig>

  /** What `SwitchConfigContainer` guarantees: every hardware info has an index of its own. */
  ghost predicate ConfigsOk(configs: Configs) {
    forall h, k :: h in configs && k in configs && configs[h].index == configs[k].index ==> h == k
  }

  lemma ContainersAreOk(container: SwitchConfigContainer)
    requires container.Valid()
    ensures ConfigsOk(container.hwinfoToConfig)
  {
    forall h, k | h in container.hwinfoToConfig && k in container.hwinfoToConfig
      ensures container.hwinfoToConfig[h].index == container.hwinfoToConfig[k].index ==> h == k
    {
      container.HardwareInfosHaveDistinctIndexes(h, k);
    }
  }

  /** The switch id of every switch index, in one context. */
  type Ids = nat -> Oid

  function SwitchIds(context: nat): Ids
    requires context <= FIELD_MAX
  {
    (index: nat) => if index <= FIELD_MAX then SwitchIdAt(index, context) else NULL_OID
  }

  ghost predicate Lawful(ids: Ids) {
    forall i: nat :: i <= FIELD_MAX ==>
      ids(i) != NULL_OID && ObjectTypeQuery(ids(i)) == TYPE_SWITCH && SwitchField(ids(i)) == i
  }

  lemma SwitchIdsAreLawful(context: nat)
    requires context <= FIELD_MAX
    ensures Lawful(SwitchIds(context))
  {
    forall i: nat | i <= FIELD_MAX
      ensures var id := SwitchIds(context)(i);
              id != NULL_OID && ObjectTypeQuery(id) == TYPE_SWITCH && SwitchField(id) == i
    {
      SwitchIdDecodes(i, context);
    }
  }

  /** Held switches by id, each with its hardware info. */
  datatype State = State(indexes: set<nat>, held: map<Oid, string>)

  datatype Event =
    | Create(hardwareInfo: string, remote: Result<Status>)   // INIT_SWITCH true or absent; how the remote create ends
    | Connect(hardwareInfo: string, dumped: bool)            // INIT_SWITCH false; is the switch in the table dump?
    | Remove(switchId: Oid, remote: Result<Status>)
    | InitView

  datatype Outcome = Outcome(state: State, result: Result<(Status, Oid)>)

  /** `SwitchContainer::insert` throws for a held id and for a held hardware info. */
  function Inserted(held: map<Oid, string>, id: Oid, hardwareInfo: string): Option<map<Oid, string>> {
    if id in held || exists k :: k in held && held[k] == hardwareInfo then None else Some(held[id := hardwareInfo])
  }

  function Released(indexes: set<nat>, id: Oid): Option<set<nat>> {
    if ObjectTypeQuery(id) != TYPE_SWITCH then Some(indexes)
    else if SwitchField(id) in indexes then Some(indexes - {SwitchField(id)})
    else None
  }

  function Hold(s: State, id: Oid, hardwareInfo: string): Outcome {
    match Inserted(s.held, id, hardwareInfo)
    case None => Outcome(s, Thrown)
    case Some(held) => Outcome(State(s.indexes, held), Returned((SUCCESS, id)))
  }

  /** A create or connect that failed gives the index back. */
  function GiveBack(s: State, id: Oid, status: Status): Outcome {
    match Released(s.indexes, id)
    case None => Outcome(s, Thrown)
    case Some(indexes) => Outcome(State(indexes, s.held), Returned((status, id)))
  }

  datatype Allocation = Refused(result: Result<(Status, Oid)>) | Allocated(id: Oid, marked: State)

  /** `allocateNewSwitchObjectId` and what `create` makes of a null id. */
  function Allocate(configs: Configs, ids: Ids, s: State, h: string): Allocation
  {
    if h !in configs then Refused(Returned((FAILURE, NULL_OID)))
    else if configs[h].index > FIELD_MAX then Refused(Thrown)
    else Allocated(ids(configs[h].index), State(s.indexes + {configs[h].index}, s.held))
  }

  function Step(configs: Configs, ids: Ids, s: State, e: Event): Outcome
  {
    match e
    case InitView => Outcome(State({}, map[]), Returned((SUCCESS, NULL_OID)))
    case Remove(id, remote) =>
      if remote.Thrown? then Outcome(s, Thrown)
      else if remote.value != SUCCESS then Outcome(s, Returned((remote.value, id)))
      else
        (match Released(s.indexes, id)
         case None => Outcome(s, Thrown)
         case Some(indexes) =>
           if id !in s.held then Outcome(State(indexes, s.held), Thrown)
           else Outcome(State(indexes, s.held - {id}), Returned((SUCCESS, id))))
    case Create(h, remote) =>
      (match Allocate(configs, ids, s, h)
       case Refused(status) => Outcome(s, status)
       case Allocated(id, marked) =>
         if remote.Thrown? then Outcome(marked, Thrown)
         else if remote.value == SUCCESS then Hold(marked, id, h)
         else GiveBack(marked, id, remote.value))
    case Connect(h, dumped) =>
      (match Allocate(configs, ids, s, h)
       case Refused(status) => Outcome(s, status)
       case Allocated(id, marked) =>
         if id in s.held then Outcome(marked, Returned((SUCCESS, id)))
         else if !dumped then GiveBack(marked, id, FAILURE)
         else Hold(marked, id, h))
  }

  // ---------------------------------------------------------------- the invariant

  predicate Usable(configs: Configs, h: string) { h in configs && configs[h].index <= FIELD_MAX }

  function IdOf(configs: Configs, ids: Ids, h: string): Oid
    requires Usable(configs, h)
  {
    ids(configs[h].index)
  }

  ghost predicate HeldOk(configs: Configs, ids: Ids, held: map<Oid, string>) {
    forall id :: id in held ==> Usable(configs, held[id]) && id == IdOf(configs, ids, held[id])
  }

  ghost function IndexesOf(held: map<Oid, string>): set<nat> { set id | id in held :: SwitchField(id) }

  /** Every held switch has the id of its hardware info, and the allocated indexes are those of the held switches. */
  ghost predicate Inv(configs: Configs, ids: Ids, s: State) {
    HeldOk(configs, ids, s.held) && s.indexes == IndexesOf(s.held)
  }

  lemma IdsDecode(configs: Configs, ids: Ids, h: string)
    requires Usable(configs, h) && Lawful(ids)
    ensures var id := IdOf(configs, ids, h);
            id != NULL_OID && ObjectTypeQuery(id) == TYPE_SWITCH && SwitchField(id) == configs[h].index
  {
  }

  /** Is this a create with INIT_SWITCH true for a switch that is already held? */
  predicate RecreatesHeld(configs: Configs, ids: Ids, s: State, e: Event)
  {
    e.Create? && Usable(configs, e.hardwareInfo) && IdOf(configs, ids, e.hardwareInfo) in s.held
  }

  /** A switch whose id is not held has a hardware info that is not held. */
  lemma HardwareInfoIsNew(configs: Configs, ids: Ids, held: map<Oid, string>, h: string)
    requires HeldOk(configs, ids, held) && Usable(configs, h)
    ensures var id := IdOf(configs, ids, h);
            Inserted(held, id, h) == if id in held then None else Some(held[id := h])
  {
  }

  /**
   * When steps throw: when the remote call does, for a configured index that does not fit its field,
   * for a successful remote create of a held switch, and for the successful remote removal of a
   * switch that is not held.
   * The hardware info check of the container is never the reason, and removing a held switch
   * never throws.
   */
  lemma ThrowsExactly(configs: Configs, ids: Ids, s: State, e: Event)
    requires Lawful(ids) && Inv(configs, ids, s)
    ensures Step(configs, ids, s, e).result.Thrown? <==>
              match e
              case InitView => false
              case Remove(id, remote) => remote.Thrown? || (remote == Returned(SUCCESS) && id !in s.held)
              case Connect(h, _) => h in configs && configs[h].index > FIELD_MAX
              case Create(h, remote) =>
                || (h in configs && (configs[h].index > FIELD_MAX || remote.Thrown?))
                || (remote == Returned(SUCCESS) && RecreatesHeld(configs, ids, s, e))
  {
    match e
    case InitView =>
    case Remove(id, remote) =>
      if id in s.held {
        IdsDecode(configs, ids, s.held[id]);
      }
    case Create(h, _) =>
      if Usable(configs, h) {
        IdsDecode(configs, ids, h);
        HardwareInfoIsNew(configs, ids, s.held, h);
      }
    case Connect(h, _) =>
      if Usable(configs, h) {
        IdsDecode(configs, ids, h);
        HardwareInfoIsNew(configs, ids, s.held, h);
      }
  }

  // ---------------------------------------------------------------- what steps do

  predicate AllocatesFor(e: Event, h: string) { (e.Create? || e.Connect?) && e.hardwareInfo == h }

  /**
   * A create or connect that returns success returns the id of the configured index, and leaves that
   * switch held with its hardware info, its index allocated, and everything else as it was.
   */
  lemma SuccessHoldsTheSwitch(configs: Configs, ids: Ids, s: State, e: Event, h: string)
    requires Lawful(ids) && ConfigsOk(configs) && HeldOk(configs, ids, s.held) && AllocatesFor(e, h)
    requires Step(configs, ids, s, e).result.Returned? && Step(configs, ids, s, e).result.value.0 == SUCCESS
    ensures h in configs && configs[h].index <= FIELD_MAX
    ensures var index := configs[h].index;
            Step(configs, ids, s, e)
            == Outcome(State(s.indexes + {index}, s.held[ids(index) := h]), Returned((SUCCESS, ids(index))))
  {
    IdsDecode(configs, ids, h);
    HardwareInfoIsNew(configs, ids, s.held, h);
  }

  /**
   * One that does not return success holds nothing new and lets nothing go. If it returns, the index
   * of a configured switch is free afterwards, and the status is that of the remote create, or a
   * failure for a switch that is not configured or that is neither held nor in the table dump. If it
   * throws, an index that fits its field stays allocated.
   */
  lemma FailureHoldsNothing(configs: Configs, ids: Ids, s: State, e: Event, h: string)
    requires Lawful(ids) && AllocatesFor(e, h)
    ensures var after := Step(configs, ids, s, e);
            && (!(after.result.Returned? && after.result.value.0 == SUCCESS) ==> after.state.held == s.held)
            && (after.result.Returned? && after.result.value.0 != SUCCESS ==>
                  if h in configs
                  then after.state.indexes == s.indexes - {configs[h].index}
                       && after.result.value.1 == ids(configs[h].index)
                  else after.state.indexes == s.indexes && after.result.value == (FAILURE, NULL_OID))
            && (after.result.Thrown? ==>
                  h in configs && after.state.indexes ==
                    s.indexes + if configs[h].index <= FIELD_MAX then {configs[h].index} else {})
            && (after.result.Returned? && h in configs ==>
                  after.result.value.0 == match e
                                          case Create(_, remote) => remote.value
                                          case Connect(_, dumped) =>
                                            if dumped || ids(configs[h].index) in s.held then SUCCESS else FAILURE)
  {
    if Usable(configs, h) {
      IdsDecode(configs, ids, h);
    }
  }

  /**
   * A remove that returns success takes away exactly that switch and its index; any other end of it
   * leaves all held switches, and one that the remote side refuses leaves the indexes too. INIT_VIEW
   * takes everything away.
   */
  lemma RemovalTakesOneSwitch(configs: Configs, ids: Ids, s: State, id: Oid, remote: Result<Status>)
    requires Lawful(ids) && HeldOk(configs, ids, s.held)
    ensures var after := Step(configs, ids, s, Remove(id, remote));
            if after.result.Returned? && after.result.value.0 == SUCCESS then
              && id in s.held && remote == Returned(SUCCESS) && after.result.value.1 == id
              && after.state == State(s.indexes - {SwitchField(id)}, s.held - {id})
            else
              && after.state.held == s.held
              && (remote != Returned(SUCCESS) ==> after.state == s)
              && (remote == Returned(SUCCESS) ==>
                    after.result.Thrown? && after.state.indexes ==
                      s.indexes - if ObjectTypeQuery(id) == TYPE_SWITCH then {SwitchField(id)} else {})
              && (after.result.Returned? ==> remote.Returned? && after.result.value == (remote.value, id))
    ensures Step(configs, ids, s, InitView) == Outcome(State({}, map[]), Returned((SUCCESS, NULL_OID)))
  {
    if id in s.held {
      IdsDecode(configs, ids, s.held[id]);
    }
  }

  // ---------------------------------------------------------------- what steps keep

  /** The index of a hardware info is allocated exactly when its switch is held. */
  lemma IndexMeansHeld(configs: Configs, ids: Ids, held: map<Oid, string>, h: string)
    requires Lawful(ids) && HeldOk(configs, ids, held) && ConfigsOk(configs) && Usable(configs, h)
    ensures configs[h].index in IndexesOf(held) <==> IdOf(configs, ids, h) in held
  {
    IdsDecode(configs, ids, h);
    if configs[h].index in IndexesOf(held) {
      var id :| id in held && SwitchField(id) == configs[h].index;
      IdsDecode(configs, ids, held[id]);
    }
  }

  lemma HoldKeepsInv(configs: Configs, ids: Ids, s: State, h: string)
    requires Lawful(ids) && Inv(configs, ids, s) && Usable(configs, h)
    ensures Inv(configs, ids, State(s.indexes + {configs[h].index}, s.held[IdOf(configs, ids, h) := h]))
  {
    var id := IdOf(configs, ids, h);
    var held := s.held[id := h];
    IdsDecode(configs, ids, h);
    forall i ensures i in IndexesOf(held) <==> i in s.indexes + {configs[h].index} {
      if i in IndexesOf(s.held) {
        var k :| k in s.held && SwitchField(k) == i;
        assert k in held;
      }
      assert id in held;
    }
  }

  lemma RemoveKeepsInv(configs: Configs, ids: Ids, s: State, id: Oid)
    requires Lawful(ids) && ConfigsOk(configs) && Inv(configs, ids, s) && id in s.held
    ensures Inv(configs, ids, State(s.indexes - {SwitchField(id)}, s.held - {id}))
  {
    var held := s.held - {id};
    forall i ensures i in IndexesOf(held) <==> i in s.indexes - {SwitchField(id)} {
      if i in s.indexes && i != SwitchField(id) {
        var k :| k in s.held && SwitchField(k) == i;
        assert k in held;
      }
      if i in IndexesOf(held) {
        var k :| k in held && SwitchField(k) == i;
        IdsDecode(configs, ids, held[k]);
        IdsDecode(configs, ids, s.held[id]);
      }
    }
  }

  lemma AllocatedStepKeepsInv(configs: Configs, ids: Ids, s: State, h: string)
    requires Lawful(ids) && ConfigsOk(configs) && Inv(configs, ids, s) && Usable(configs, h)
    ensures var id := IdOf(configs, ids, h);
            var marked := State(s.indexes + {configs[h].index}, s.held);
            if id in s.held then
              marked == s && !Inv(configs, ids, State(marked.indexes - {configs[h].index}, s.held))
            else
              && State(marked.indexes - {configs[h].index}, s.held) == s
              && Inv(configs, ids, State(marked.indexes, s.held[id := h]))
  {
    IdsDecode(configs, ids, h);
    IndexMeansHeld(configs, ids, s.held, h);
    HoldKeepsInv(configs, ids, s, h);
  }

  lemma CreateKeepsInvExactly(configs: Configs, ids: Ids, s: State, h: string, remote: Result<Status>)
    requires Lawful(ids) && ConfigsOk(configs) && Inv(configs, ids, s)
    requires Step(configs, ids, s, Create(h, remote)).result.Returned?
    ensures Inv(configs, ids, Step(configs, ids, s, Create(h, remote)).state) <==>
              !(RecreatesHeld(configs, ids, s, Create(h, remote)) && remote != Returned(SUCCESS))
  {
    if Usable(configs, h) {
      IdsDecode(configs, ids, h);
      HardwareInfoIsNew(configs, ids, s.held, h);
      AllocatedStepKeepsInv(configs, ids, s, h);
    }
  }

  lemma ConnectKeepsInv(configs: Configs, ids: Ids, s: State, h: string, dumped: bool)
    requires Lawful(ids) && ConfigsOk(configs) && Inv(configs, ids, s)
    requires Step(configs, ids, s, Connect(h, dumped)).result.Returned?
    ensures Inv(configs, ids, Step(configs, ids, s, Connect(h, dumped)).state)
  {
    if Usable(configs, h) {
      IdsDecode(configs, ids, h);
      HardwareInfoIsNew(configs, ids, s.held, h);
      AllocatedStepKeepsInv(configs, ids, s, h);
    }
  }

  /**
   * A step that does not throw keeps the invariant, with one exception: a create with INIT_SWITCH
   * true for a held switch that fails remotely takes the index of the held switch away.
   */
  lemma StepKeepsInvExactly(configs: Configs, ids: Ids, s: State, e: Event)
    requires Lawful(ids) && ConfigsOk(configs) && Inv(configs, ids, s)
    requires Step(configs, ids, s, e).result.Returned?
    ensures Inv(configs, ids, Step(configs, ids, s, e).state) <==>
              !(RecreatesHeld(configs, ids, s, e) && e.remote != Returned(SUCCESS))
  {
    match e
    case InitView =>
    case Remove(id, remote) =>
      if remote == Returned(SUCCESS) {
        IdsDecode(configs, ids, s.held[id]);
        RemoveKeepsInv(configs, ids, s, id);
      }
    case Create(h, remote) =>
      CreateKeepsInvExactly(configs, ids, s, h, remote);
    case Connect(h, dumped) =>
      ConnectKeepsInv(configs, ids, s, h, dumped);
  }

  // ---------------------------------------------------------------- whole runs

  /** The state after a run from the start; None once a step has thrown. */
  function Run(configs: Configs, ids: Ids, events: seq<Event>): Option<State> {
    if events == [] then Some(State({}, map[]))
    else
      match Run(configs, ids, events[..|events| - 1])
      case None => None
      case Some(s) =>
        var outcome := Step(configs, ids, s, events[|events| - 1]);
        if outcome.result.Thrown? then None else Some(outcome.state)
  }

  /** No create with INIT_SWITCH true for a switch that is held at that point of the run. */
  predicate NeverRecreates(configs: Configs, ids: Ids, events: seq<Event>) {
    events == [] ||
    (NeverRecreates(configs, ids, events[..|events| - 1]) &&
     match Run(configs, ids, events[..|events| - 1])
     case None => true
     case Some(s) => !RecreatesHeld(configs, ids, s, events[|events| - 1]))
  }

  lemma {:induction false} RunKeepsInv(configs: Configs, ids: Ids, events: seq<Event>)
    requires Lawful(ids) && ConfigsOk(configs) && NeverRecreates(configs, ids, events)
    requires Run(configs, ids, events).Some?
    ensures Inv(configs, ids, Run(configs, ids, events).value)
    decreases |events|
  {
    if events == [] {
      assert IndexesOf(map[]) == {};
    } else {
      var front := events[..|events| - 1];
      RunKeepsInv(configs, ids, front);
      StepKeepsInvExactly(configs, ids, Run(configs, ids, front).value, events[|events| - 1]);
    }
  }

  /**
   * After every run without an exception and without a create for a held switch, the allocated
   * indexes are those of the held switches, held switches have different hardware infos, and
   * removing any of them does not throw.
   */
  lemma SwitchesAgree(configs: Configs, context: nat, events: seq<Event>)
    requires context <= FIELD_MAX && ConfigsOk(configs)
    requires NeverRecreates(configs, SwitchIds(context), events) && Run(configs, SwitchIds(context), events).Some?
    ensures var s := Run(configs, SwitchIds(context), events).value;
            && s.indexes == IndexesOf(s.held)
            && (forall id, k :: id in s.held && k in s.held && s.held[id] == s.held[k] ==> id == k)
            && (forall id, status :: id in s.held ==>
                  Step(configs, SwitchIds(context), s, Remove(id, Returned(status))).result.Returned?)
  {
    var ids := SwitchIds(context);
    SwitchIdsAreLawful(context);
    RunKeepsInv(configs, ids, events);
    var s := Run(configs, ids, events).value;
    forall id, status | id in s.held ensures Step(configs, ids, s, Remove(id, Returned(status))).result.Returned? {
      ThrowsExactly(configs, ids, s, Remove(id, Returned(status)));
    }
  }

  /**
   * The exception to the rule: a create for a held switch that fails remotely returns, and leaves
   * a switch that is held but cannot be removed without an exception.
   */
  lemma FailedRecreateStrandsTheSwitch(configs: Configs, ids: Ids, s: State, h: string, status: Status)
    requires Lawful(ids) && ConfigsOk(configs) && Inv(configs, ids, s) && Usable(configs, h)
    requires IdOf(configs, ids, h) in s.held && status != SUCCESS
    ensures var id := IdOf(configs, ids, h);
            var after := Step(configs, ids, s, Create(h, Returned(status)));
            && after.result == Returned((status, id)) && id in after.state.held
            && Step(configs, ids, after.state, Remove(id, Returned(SUCCESS))).result == Thrown
  {
    IdsDecode(configs, ids, h);
  }

  // ---------------------------------------------------------------- runs that go on after exceptions

  /** The state after a history in which exceptions are caught. */
  function RunOn(configs: Configs, ids: Ids, events: seq<Event>): State {
    if events == [] then State({}, map[])
    else Step(configs, ids, RunOn(configs, ids, events[..|events| - 1]), events[|events| - 1]).state
  }

  lemma StepKeepsHeldOk(configs: Configs, ids: Ids, s: State, e: Event)
    requires HeldOk(configs, ids, s.held)
    ensures HeldOk(configs, ids, Step(configs, ids, s, e).state.held)
  {}

  lemma {:induction false} HeldStaysOk(configs: Configs, ids: Ids, events: seq<Event>)
    ensures HeldOk(configs, ids, RunOn(configs, ids, events).held)
    decreases |events|
  {
    if events != [] {
      var front := events[..|events| - 1];
      HeldStaysOk(configs, ids, front);
      StepKeepsHeldOk(configs, ids, RunOn(configs, ids, front), events[|events| - 1]);
    }
  }

  predicate HoldsSwitch(configs: Configs, ids: Ids, s: State, h: string) {
    Usable(configs, h) && IdOf(configs, ids, h) in s.held
  }

  /** A create that fails remotely, or the successful remote removal of another switch id with the same index. */
  predicate TakesIndex(configs: Configs, ids: Ids, h: string, e: Event)
    requires Usable(configs, h)
  {
    match e
    case Create(hardwareInfo, remote) => hardwareInfo == h && remote.Returned? && remote.value != SUCCESS
    case Remove(id, remote) =>
      && remote == Returned(SUCCESS) && id != IdOf(configs, ids, h)
      && ObjectTypeQuery(id) == TYPE_SWITCH && SwitchField(id) == configs[h].index
    case _ => false
  }

  /** A connect, or a create that does not fail remotely: it may succeed or throw. */
  predicate AllocatesIndex(h: string, e: Event) {
    match e
    case Create(hardwareInfo, remote) => hardwareInfo == h && (remote.Thrown? || remote.value == SUCCESS)
    case Connect(hardwareInfo, _) => hardwareInfo == h
    case _ => false
  }

  /** Does a step leave the index of a switch free, if it leaves the switch held? */
  ghost predicate FreeAfter(configs: Configs, ids: Ids, s: State, h: string, e: Event)
    requires Usable(configs, h)
  {
    && HoldsSwitch(configs, ids, s, h)
    && (TakesIndex(configs, ids, h, e) || (configs[h].index !in s.indexes && !AllocatesIndex(h, e)))
  }

  lemma RemoveFreesIndex(configs: Configs, ids: Ids, s: State, h: string, e: Event)
    requires Lawful(ids) && ConfigsOk(configs) && HeldOk(configs, ids, s.held) && e.Remove?
    requires HoldsSwitch(configs, ids, Step(configs, ids, s, e).state, h)
    ensures configs[h].index !in Step(configs, ids, s, e).state.indexes <==> FreeAfter(configs, ids, s, h, e)
  {
    IdsDecode(configs, ids, h);
    if e.switchId in s.held {
      IdsDecode(configs, ids, s.held[e.switchId]);
    }
  }

  /** Creating or connecting to the switch itself. */
  lemma OwnAllocationFreesIndex(configs: Configs, ids: Ids, s: State, h: string, e: Event)
    requires Lawful(ids) && HeldOk(configs, ids, s.held) && (e.Create? || e.Connect?) && e.hardwareInfo == h
    requires HoldsSwitch(configs, ids, Step(configs, ids, s, e).state, h)
    ensures configs[h].index !in Step(configs, ids, s, e).state.indexes <==> FreeAfter(configs, ids, s, h, e)
  {
    IdsDecode(configs, ids, h);
    HardwareInfoIsNew(configs, ids, s.held, h);
  }

  /** Creating or connecting to another switch changes nothing for this one. */
  lemma OtherAllocationKeeps(configs: Configs, ids: Ids, s: State, h: string, e: Event)
    requires Lawful(ids) && ConfigsOk(configs) && Usable(configs, h)
    requires (e.Create? || e.Connect?) && e.hardwareInfo != h
    ensures HoldsSwitch(configs, ids, Step(configs, ids, s, e).state, h) <==> HoldsSwitch(configs, ids, s, h)
    ensures configs[h].index in Step(configs, ids, s, e).state.indexes <==> configs[h].index in s.indexes
  {
    IdsDecode(configs, ids, h);
    if Usable(configs, e.hardwareInfo) {
      IdsDecode(configs, ids, e.hardwareInfo);
    }
  }

  /** One step: when the index of a held switch is free. */
  lemma FreeIndexStep(configs: Configs, ids: Ids, s: State, h: string, e: Event)
    requires Lawful(ids) && ConfigsOk(configs) && HeldOk(configs, ids, s.held)
    requires HoldsSwitch(configs, ids, Step(configs, ids, s, e).state, h)
    ensures configs[h].index !in Step(configs, ids, s, e).state.indexes <==> FreeAfter(configs, ids, s, h, e)
  {
    if e.Remove? {
      RemoveFreesIndex(configs, ids, s, h, e);
    } else if (e.Create? || e.Connect?) && e.hardwareInfo == h {
      OwnAllocationFreesIndex(configs, ids, s, h, e);
    } else if e.Create? || e.Connect? {
      OtherAllocationKeeps(configs, ids, s, h, e);
    }
  }

  predicate TakesIndexAt(configs: Configs, ids: Ids, events: seq<Event>, h: string, i: nat)
    requires i < |events|
  {
    HoldsSwitch(configs, ids, RunOn(configs, ids, events[..i]), h) && TakesIndex(configs, ids, h, events[i])
  }

  /** The index was taken at `i` from the held switch, and has not been allocated again since. */
  predicate TakenSince(configs: Configs, ids: Ids, events: seq<Event>, h: string, i: nat) {
    && i < |events| && TakesIndexAt(configs, ids, events, h, i)
    && forall j :: i < j < |events| ==> !AllocatesIndex(h, events[j])
  }

  predicate TakenAway(configs: Configs, ids: Ids, events: seq<Event>, h: string) {
    exists i :: 0 <= i < |events| && TakenSince(configs, ids, events, h, i)
  }

  lemma TakenSinceBefore(configs: Configs, ids: Ids, events: seq<Event>, h: string, i: nat)
    requires i + 1 < |events|
    ensures var n := |events| - 1;
            TakenSince(configs, ids, events, h, i) <==>
              TakenSince(configs, ids, events[..n], h, i) && !AllocatesIndex(h, events[n])
  {
    var front := events[..|events| - 1];
    assert front[..i] == events[..i];
    assert forall j :: 0 <= j < |front| ==> front[j] == events[j];
  }

  lemma TakenAwayStep(configs: Configs, ids: Ids, events: seq<Event>, h: string)
    requires events != []
    ensures var n := |events| - 1;
            TakenAway(configs, ids, events, h) <==>
              || TakesIndexAt(configs, ids, events, h, n)
              || (TakenAway(configs, ids, events[..n], h) && !AllocatesIndex(h, events[n]))
  {
    var n := |events| - 1;
    forall i: nat | i < n
      ensures TakenSince(configs, ids, events, h, i) <==>
                TakenSince(configs, ids, events[..n], h, i) && !AllocatesIndex(h, events[n])
    {
      TakenSinceBefore(configs, ids, events, h, i);
    }
    assert TakenSince(configs, ids, events, h, n) <==> TakesIndexAt(configs, ids, events, h, n);
  }

  /** The index of a held switch is free exactly when it was taken away. */
  lemma {:induction false} FreeIndexHistories(configs: Configs, ids: Ids, events: seq<Event>, h: string)
    requires Lawful(ids) && ConfigsOk(configs) && HoldsSwitch(configs, ids, RunOn(configs, ids, events), h)
    ensures configs[h].index !in RunOn(configs, ids, events).indexes <==> TakenAway(configs, ids, events, h)
    decreases |events|
  {
    if events != [] {
      var n := |events| - 1;
      var before := RunOn(configs, ids, events[..n]);
      HeldStaysOk(configs, ids, events[..n]);
      FreeIndexStep(configs, ids, before, h, events[n]);
      TakenAwayStep(configs, ids, events, h);
      if HoldsSwitch(configs, ids, before, h) {
        FreeIndexHistories(configs, ids, events[..n], h);
      } else {
        HoldingAllocates(configs, ids, before, h, events[n]);
      }
    }
  }

  /** A switch that a step begins to hold has its index allocated by that step. */
  lemma HoldingAllocates(configs: Configs, ids: Ids, s: State, h: string, e: Event)
    requires Lawful(ids) && ConfigsOk(configs) && Usable(configs, h)
    requires !HoldsSwitch(configs, ids, s, h) && HoldsSwitch(configs, ids, Step(configs, ids, s, e).state, h)
    ensures AllocatesIndex(h, e)
  {
    if (e.Create? || e.Connect?) && e.hardwareInfo != h {
      OtherAllocationKeeps(configs, ids, s, h, e);
    }
  }

  /**
   * After every history, with exceptions caught, a held switch can be removed exactly when nothing
   * has taken its index since the index was last allocated. Two things take it from a held switch:
   * a create for it that fails remotely, and the successful remote removal of another switch id with
   * its index, such as that of another context.
   */
  lemma RemovableExactly(configs: Configs, context: nat, events: seq<Event>, id: Oid)
    requires context <= FIELD_MAX && ConfigsOk(configs)
    requires id in RunOn(configs, SwitchIds(context), events).held
    ensures var ids, s := SwitchIds(context), RunOn(configs, SwitchIds(context), events);
            Step(configs, ids, s, Remove(id, Returned(SUCCESS))).result.Returned? <==>
              !TakenAway(configs, ids, events, s.held[id])
  {
    var ids, s := SwitchIds(context), RunOn(configs, SwitchIds(context), events);
    SwitchIdsAreLawful(context);
    HeldStaysOk(configs, ids, events);
    IdsDecode(configs, ids, s.held[id]);
    FreeIndexHistories(configs, ids, events, s.held[id]);
  }

  lemma RunOnTwo(configs: Configs, ids: Ids, e: Event, f: Event)
    ensures RunOn(configs, ids, [e, f])
         == Step(configs, ids, Step(configs, ids, State({}, map[]), e).state, f).state
  {
    assert [e, f][..1] == [e] && [e][..0] == [];
    assert RunOn(configs, ids, [e]) == Step(configs, ids, State({}, map[]), e).state;
  }

  /** One stray removal is enough: it throws, and so does the removal of the held switch from then on. */
  lemma StrayRemovalStrandsTheSwitch(configs: Configs, ids: Ids, stray: Oid, h: string)
    requires Lawful(ids) && ConfigsOk(configs) && Usable(configs, h)
    requires TakesIndex(configs, ids, h, Remove(stray, Returned(SUCCESS)))
    ensures var events := [Create(h, Returned(SUCCESS)), Remove(stray, Returned(SUCCESS))];
            var s := RunOn(configs, ids, events);
            && IdOf(configs, ids, h) in s.held
            && Step(configs, ids, s, Remove(IdOf(configs, ids, h), Returned(SUCCESS))).result == Thrown
  {
    RunOnTwo(configs, ids, Create(h, Returned(SUCCESS)), Remove(stray, Returned(SUCCESS)));
    IdsDecode(configs, ids, h);
  }

  // ---------------------------------------------------------------- the objects

  class SwitchContainer {
    var switchMap: map<Oid, string>

    constructor ()
      ensures switchMap == map[]
    {
      switchMap := map[];
    }

    method GetSwitchByHardwareInfo(hardwareInfo: string) returns (r: Option<Oid>)
      ensures r.Some? ==> r.value in switchMap && switchMap[r.value] == hardwareInfo
      ensures r.None? ==> forall id :: id in switchMap ==> switchMap[id] != hardwareInfo
    {
      var rest := switchMap.Keys;
      while rest != {}
        invariant rest <= switchMap.Keys
        invariant forall id :: id in switchMap && id !in rest ==> switchMap[id] != hardwareInfo
        decreases |rest|
      {
        var id :| id in rest;
        if switchMap[id] == hardwareInfo {
          return Some(id);
        }
        rest := rest - {id};
      }
      return None;
    }

    method Insert(switchId: Oid, hardwareInfo: string) returns (ok: bool)
      modifies this
      ensures match Inserted(old(switchMap), switchId, hardwareInfo)
              case None => !ok && switchMap == old(switchMap)
              case Some(held) => ok && switchMap == held
    {
      if switchId in switchMap {
        return false;
      }
      var other := GetSwitchByHardwareInfo(hardwareInfo);
      if other.Some? {
        return false;
      }
      switchMap := switchMap[switchId := hardwareInfo];
      return true;
    }

    method RemoveSwitch(switchId: Oid) returns (ok: bool)
      modifies this
      ensures ok == (switchId in old(switchMap)) && switchMap == old(switchMap) - {switchId}
    {
      if switchId !in switchMap {
        return false;
      }
      switchMap := switchMap - {switchId};
      return true;
    }
  }

  /** An operation left this state and returned this status, with this id, or threw. */
  predicate Ended(end: Outcome, s: State, objectId: Oid, r: Result<Status>) {
    s == end.state && end.result == if r.Returned? then Returned((r.value, objectId)) else Thrown
  }

  /** The part of `RedisRemoteSaiInterface` that creates and removes switches. */
  class RedisSwitches {
    const context: nat
    const configs: SwitchConfigContainer
    const generator: RedisVidIndexGenerator
    var manager: VirtualObjectIdManager
    var container: SwitchContainer

    ghost predicate Valid()
      reads this, configs, manager
    {
      && manager.container == configs && manager.globalContext == context && manager.generator == generator
      && manager.Valid()
    }

    ghost function View(): State
      reads this, manager, container
    {
      State(manager.switchIndexes, container.switchMap)
    }

    ghost function After(s: State, e: Event): Outcome
      requires context <= FIELD_MAX
      reads configs
    {
      Step(configs.hwinfoToConfig, SwitchIds(context), s, e)
    }

    constructor (context: nat, configs: SwitchConfigContainer, generator: RedisVidIndexGenerator)
      requires context <= FIELD_MAX && configs.Valid()
      ensures Valid() && View() == State({}, map[]) && fresh(manager) && fresh(container)
      ensures this.context == context && this.configs == configs && this.generator == generator
    {
      this.context, this.configs, this.generator := context, configs, generator;
      manager := new VirtualObjectIdManager(context, configs, generator);
      container := new SwitchContainer();
    }

    method HoldNew(objectId: Oid, hardwareInfo: string) returns (r: Result<Status>)
      requires Valid()
      modifies container
      ensures Valid() && manager.switchIndexes == old(manager.switchIndexes)
      ensures Ended(Hold(old(View()), objectId, hardwareInfo), View(), objectId, r)
    {
      var ok := container.Insert(objectId, hardwareInfo);
      return if ok then Returned(SUCCESS) else Thrown;
    }

    method GiveBackId(objectId: Oid, status: Status) returns (r: Result<Status>)
      requires Valid()
      modifies manager
      ensures Valid() && container.switchMap == old(container.switchMap)
      ensures Ended(GiveBack(old(View()), objectId, status), View(), objectId, r)
    {
      var released := manager.ReleaseObjectId(objectId);
      return if released.Thrown? then Thrown else Returned(status);
    }

    /** The first part of `create`: None while the id is good, otherwise how `create` ends. */
    method AllocateSwitchId(hardwareInfo: string) returns (objectId: Oid, stop: Option<Result<Status>>)
      requires Valid()
      modifies manager
      ensures Valid() && container.switchMap == old(container.switchMap)
      ensures match Allocate(configs.hwinfoToConfig, SwitchIds(context), old(View()), hardwareInfo)
              case Refused(result) =>
                && View() == old(View()) && stop.Some?
                && (if stop.value.Returned? then result == Returned((stop.value.value, objectId)) else result == Thrown)
              case Allocated(id, marked) => stop.None? && objectId == id && View() == marked
    {
      objectId := NULL_OID;
      var switchId := manager.AllocateNewSwitchObjectId(hardwareInfo);
      if switchId.Thrown? {
        return objectId, Some(Thrown);
      }
      objectId := switchId.value;
      if hardwareInfo in configs.hwinfoToConfig {
        SwitchIdDecodes(configs.hwinfoToConfig[hardwareInfo].index, context);
      }
      if objectId == NULL_OID {
        return objectId, Some(Returned(FAILURE));
      }
      stop := None;
    }

    /** `create` for a switch; `init` is the INIT_SWITCH attribute, if given. */
    method CreateSwitch(hardwareInfo: string, init: Option<bool>, dumped: bool, remote: Result<Status>)
      returns (objectId: Oid, r: Result<Status>)
      requires Valid()
      modifies manager, container
      ensures Valid() && manager == old(manager) && container == old(container)
      ensures var e := if init == Some(false) then Connect(hardwareInfo, dumped) else Create(hardwareInfo, remote);
              Ended(After(old(View()), e), View(), objectId, r)
    {
      var stop;
      objectId, stop := AllocateSwitchId(hardwareInfo);
      if stop.Some? {
        return objectId, stop.value;
      }
      if init == Some(false) {
        if objectId in container.switchMap {
          return objectId, Returned(SUCCESS);
        }
        if !dumped {
          r := GiveBackId(objectId, FAILURE);
        } else {
          r := HoldNew(objectId, hardwareInfo);
        }
      } else if remote.Thrown? {
        r := Thrown;
      } else if remote.value == SUCCESS {
        r := HoldNew(objectId, hardwareInfo);
      } else {
        r := GiveBackId(objectId, remote.value);
      }
    }

    /** `remove` for a switch. */
    method RemoveSwitch(objectId: Oid, remote: Result<Status>) returns (r: Result<Status>)
      requires Valid()
      modifies manager, container
      ensures Valid() && manager == old(manager) && container == old(container)
      ensures Ended(After(old(View()), Remove(objectId, remote)), View(), objectId, r)
    {
      if remote == Returned(SUCCESS) {
        var released := manager.ReleaseObjectId(objectId);
        if released.Thrown? {
          return Thrown;
        }
        var ok := container.RemoveSwitch(objectId);
        if !ok {
          return Thrown;
        }
      }
      return remote;
    }

    /** INIT_VIEW forgets everything. */
    method ClearLocalState()
      requires Valid()
      modifies this
      ensures Valid() && fresh(manager) && fresh(container)
      ensures View() == After(old(View()), InitView).state
    {
      container := new SwitchContainer();
      manager := new VirtualObjectIdManager(context, configs, generator);
    }

    /** One event of a run; `ok` is false when it throws. */
    method Perform(e: Event) returns (ok: bool)
      requires Valid()
      modifies this, manager, container
      ensures Valid() && (manager == old(manager) || fresh(manager)) && (container == old(container) || fresh(container))
      ensures var after := After(old(View()), e);
              ok == after.result.Returned? && View() == after.state
    {
      match e {
        case Create(hardwareInfo, remote) =>
          var objectId, r := CreateSwitch(hardwareInfo, None, false, remote);
          return r.Returned?;
        case Connect(hardwareInfo, dumped) =>
          var objectId, r := CreateSwitch(hardwareInfo, Some(false), dumped, Thrown);
          return r.Returned?;
        case Remove(switchId, remote) =>
          var r := RemoveSwitch(switchId, remote);
          return r.Returned?;
        case InitView =>
          ClearLocalState();
          return true;
      }
    }

    /**
     * Any run from the start, on whatever the configuration container holds: while nothing throws and
     * no held switch is recreated, the two objects agree, and any held switch can be removed.
     */
    method RunEvents(events: seq<Event>) returns (ok: bool)
      requires Valid() && View() == State({}, map[])
      modifies this, manager, container
      ensures Valid()
      ensures ok == Run(configs.hwinfoToConfig, SwitchIds(context), events).Some?
      ensures ok && NeverRecreates(configs.hwinfoToConfig, SwitchIds(context), events) ==>
                && manager.switchIndexes == IndexesOf(container.switchMap)
                && (forall id, k :: id in container.switchMap && k in container.switchMap ==>
                      (container.switchMap[id] == container.switchMap[k] <==> id == k))
                && (forall id, status :: id in container.switchMap ==>
                      After(View(), Remove(id, Returned(status))).result.Returned?)
    {
      ghost var hwinfos, ids := configs.hwinfoToConfig, SwitchIds(context);
      for i := 0 to |events|
        invariant Valid() && Run(hwinfos, ids, events[..i]) == Some(View())
        invariant manager == old(manager) || fresh(manager)
        invariant container == old(container) || fresh(container)
      {
        assert events[..i + 1][..i] == events[..i];
        ok := Perform(events[i]);
        if !ok {
          RunStops(hwinfos, ids, events, i + 1);
          return false;
        }
      }
      assert events[..|events|] == events;
      ContainersAreOk(configs);
      if NeverRecreates(hwinfos, ids, events) {
        SwitchesAgree(hwinfos, context, events);
      }
      return true;
    }

    /**
     * Any history from the start in which exceptions are caught: the two objects are where it leads,
     * and a held switch can be removed exactly when nothing has taken its index away.
     */
    method RunThrough(events: seq<Event>)
      requires Valid() && View() == State({}, map[])
      modifies this, manager, container
      ensures Valid() && View() == RunOn(configs.hwinfoToConfig, SwitchIds(context), events)
      ensures forall id :: id in container.switchMap ==>
                (After(View(), Remove(id, Returned(SUCCESS))).result.Returned? <==>
                   !TakenAway(configs.hwinfoToConfig, SwitchIds(context), events, container.switchMap[id]))
    {
      ghost var hwinfos, ids := configs.hwinfoToConfig, SwitchIds(context);
      for i := 0 to |events|
        invariant Valid() && RunOn(hwinfos, ids, events[..i]) == View()
        invariant manager == old(manager) || fresh(manager)
        invariant container == old(container) || fresh(container)
      {
        assert events[..i + 1][..i] == events[..i];
        var ok := Perform(events[i]);
      }
      assert events[..|events|] == events;
      ContainersAreOk(configs);
      forall id | id in container.switchMap
        ensures After(View(), Remove(id, Returned(SUCCESS))).result.Returned? <==>
                  !TakenAway(hwinfos, ids, events, container.switchMap[id])
      {
        RemovableExactly(hwinfos, context, events, id);
      }
    }
  }

  lemma {:induction false} RunStops(configs: Configs, ids: Ids, events: seq<Event>, n: nat)
    requires n <= |events| && Run(configs, ids, events[..n]) == None
    ensures Run(configs, ids, events) == None
    decreases |events|
  {
    if n < |events| {
      assert events[..|events| - 1][..n] == events[..n];
      RunStops(configs, ids, events[..|events| - 1], n);
    } else {
      assert events[..n] == events;
    }
  }
}
