/**
 * The front object of lib/Sai.cpp: it holds one context per loaded configuration, routes each call by
 * the context field of an object id, and sends sairedis attributes to several contexts at once.
 */
module Sai {
  import opened Common
  import opened ObjectId
  import opened VidAllocation
  import opened Transport
  import opened ContextConfigs

  /** A context: its configuration and the transport state of its remote interface. */
  datatype Context = Context(config: ContextConfig, transport: State)

  type Contexts = map<nat, Context>

  // ---------------------------------------------------------------- attributes on several contexts

  /** A sairedis attribute, and the contexts that would succeed in opening a ZMQ channel for it. */
  datatype Request = Request(attribute: Attribute, opens: set<nat>) {
    function For(g: nat): Attribute {
      if attribute.CommunicationMode? then CommunicationMode(attribute.mode, g in opens) else attribute
    }
  }

  function SetOn(c: Context, g: nat, request: Request): After<Status> {
    AfterAttribute(c.config.zmqEnable, c.transport, request.For(g))
  }

  predicate ThrowsAt(contexts: Contexts, targets: set<nat>, request: Request, g: nat) {
    g in contexts && g in targets && SetOn(contexts[g], g, request).result.Thrown?
  }

  /** Contexts are visited in the order of their guids, up to the first one that throws. */
  predicate Visited(contexts: Contexts, targets: set<nat>, request: Request, g: nat) {
    g in contexts && g in targets && forall h :: 0 <= h < g ==> !ThrowsAt(contexts, targets, request, h)
  }

  function SetOnThese(contexts: Contexts, visited: set<nat>, request: Request): Contexts {
    map g | g in contexts ::
      if g in visited then contexts[g].(transport := SetOn(contexts[g], g, request).state) else contexts[g]
  }

  predicate SucceedsOn(contexts: Contexts, visited: set<nat>, request: Request) {
    forall g :: g in contexts && g in visited ==> SetOn(contexts[g], g, request).result == Returned(SUCCESS)
  }

  function VisitedSet(contexts: Contexts, targets: set<nat>, request: Request): set<nat> {
    set g | g in contexts && Visited(contexts, targets, request, g)
  }

  /** A sairedis attribute set on some contexts. */
  function Broadcast(contexts: Contexts, targets: set<nat>, request: Request): (Contexts, Result<Status>) {
    (SetOnThese(contexts, VisitedSet(contexts, targets, request), request),
     if exists g :: g in contexts && ThrowsAt(contexts, targets, request, g) then Thrown
     else Returned(if SucceedsOn(contexts, contexts.Keys * targets, request) then SUCCESS else FAILURE))
  }

  // Routing.

  /** REDIS_CHECK_CONTEXT: the context an id is sent to, if it is loaded. */
  function Dispatch(contexts: set<nat>, oid: Oid): Option<nat> {
    if GetGlobalContext(oid) in contexts then Some(GetGlobalContext(oid)) else None
  }

  /** The attributes a create may carry that matter here: the context one, and any other. */
  datatype CreateAttribute = ContextAttribute(globalContext: nat) | OtherAttribute(id: nat)

  /** The context `create` uses, with the attributes it passes on; None when it fails. */
  function SelectForCreate(contexts: set<nat>, objectType: int, switchId: Oid, attrs: seq<CreateAttribute>)
    : Option<(nat, seq<CreateAttribute>)>
  {
    var byId := Dispatch(contexts, switchId);
    if byId == None then None
    else if objectType == TYPE_SWITCH && |attrs| > 0 then
      var last := attrs[|attrs| - 1];
      var g := if last.ContextAttribute? then last.globalContext else 0;
      var rest := if last.ContextAttribute? then attrs[..|attrs| - 1] else attrs;
      if g in contexts then Some((g, rest)) else None
    else Some((byId.value, attrs))
  }

  /** Every id context g hands out, of any type and index, goes back to g. */
  lemma IdsRouteHome(contexts: set<nat>, g: nat, objectTypes: seq<int>, switchId: Oid, counter: nat, k: nat)
    requires g in contexts && g <= FIELD_MAX && k < |objectTypes|
    requires AllocateIds(g, objectTypes, switchId, counter).result.Returned?
    ensures Dispatch(contexts, AllocateIds(g, objectTypes, switchId, counter).result.value[k]) == Some(g)
  {
    AllocatedIdsDecode(g, objectTypes, switchId, counter, k);
  }

  /** So do its switch ids; the null id goes to context 0. */
  lemma SwitchIdsRouteHome(contexts: set<nat>, g: nat, switchIndex: nat)
    requires g in contexts && g <= FIELD_MAX && switchIndex <= FIELD_MAX
    ensures Dispatch(contexts, SwitchIdAt(switchIndex, g)) == Some(g)
    ensures Dispatch(contexts, NULL_OID) == if 0 in contexts then Some(0) else None
  {
    SwitchIdDecodes(switchIndex, g);
    SwitchIdQueryIdempotent(NULL_OID);
  }

  /**
   * A switch created in context g and the objects created on it stay in g: the switch's create selects
   * g, and an object's create selects g by the switch id.
   */
  lemma ContextIsSticky(contexts: set<nat>, g: nat, attrs: seq<CreateAttribute>, switchIndex: nat, objectType: int,
                        objectAttrs: seq<CreateAttribute>)
    requires 0 in contexts && g in contexts && g <= FIELD_MAX && switchIndex <= FIELD_MAX
    requires objectType != TYPE_SWITCH
    ensures SelectForCreate(contexts, TYPE_SWITCH, NULL_OID, attrs + [ContextAttribute(g)]) == Some((g, attrs))
    ensures SelectForCreate(contexts, objectType, SwitchIdAt(switchIndex, g), objectAttrs) == Some((g, objectAttrs))
  {
    var all := attrs + [ContextAttribute(g)];
    assert all[..|all| - 1] == attrs;
    SwitchIdsRouteHome(contexts, g, switchIndex);
  }

  /**
   * Creating a switch passes the null id, so it needs context 0 to be loaded in every case, and
   * besides it the context that the last attribute names, if it names one. It needs nothing else.
   */
  lemma SwitchCreateNeedsContextZero(contexts: set<nat>, attrs: seq<CreateAttribute>)
    ensures SelectForCreate(contexts, TYPE_SWITCH, NULL_OID, attrs).Some? <==>
              && 0 in contexts
              && (attrs != [] && attrs[|attrs| - 1].ContextAttribute? ==>
                    attrs[|attrs| - 1].globalContext in contexts)
  {
    SwitchIdQueryIdempotent(NULL_OID);
  }

  /**
   * What a create passes on: a switch create goes where its last attribute says, without that
   * attribute, and to context 0 with all attributes when the last one says nothing; any other create
   * goes to the context of its switch. The context of the switch id has to be loaded in every case.
   */
  lemma CreateSelects(contexts: set<nat>, objectType: int, switchId: Oid, attrs: seq<CreateAttribute>, g: nat, id: nat)
    ensures GetGlobalContext(switchId) !in contexts ==> SelectForCreate(contexts, objectType, switchId, attrs) == None
    ensures GetGlobalContext(switchId) in contexts && objectType != TYPE_SWITCH ==>
              SelectForCreate(contexts, objectType, switchId, attrs) == Some((GetGlobalContext(switchId), attrs))
    ensures 0 in contexts ==>
              && SelectForCreate(contexts, TYPE_SWITCH, NULL_OID, []) == Some((0, []))
              && SelectForCreate(contexts, TYPE_SWITCH, NULL_OID, attrs + [OtherAttribute(id)])
                 == Some((0, attrs + [OtherAttribute(id)]))
              && SelectForCreate(contexts, TYPE_SWITCH, NULL_OID, attrs + [ContextAttribute(g)])
                 == if g in contexts then Some((g, attrs)) else None
  {
    var all := attrs + [ContextAttribute(g)];
    assert all[..|all| - 1] == attrs;
    SwitchIdQueryIdempotent(NULL_OID);
  }

  // ---------------------------------------------------------------- whole runs

  datatype SaiState = SaiState(initialized: bool, contexts: Contexts)

  /**
   * `StartApi` names the contexts that succeed in opening a ZMQ channel and those that were
   * created before one that threw; the order of creation is that of a set of pointers. The
   * targets of an attribute are all contexts, or those that hold the switch it was set on.
   */
  datatype SaiEvent =
    | StartApi(opens: set<nat>, reached: set<nat>)
    | StopApi
    | SetAttribute(targets: set<nat>, request: Request)
    | CallOn(oid: Oid, call: Call, command: string, net: ReqChannel.Network, redisStatus: Status)

  datatype Handled = Handled(state: SaiState, result: Result<Status>)

  predicate Creatable(g: nat, config: ContextConfig, opens: set<nat>) {
    g <= FIELD_MAX && (config.zmqEnable.Enabled? ==> g in opens)
  }

  function NewContext(config: ContextConfig): Context {
    Context(config, AfterInitialize(config.zmqEnable, CREATED, true).state)
  }

  function NewContexts(configs: map<nat, ContextConfig>, these: set<nat>): Contexts {
    map g | g in configs && g in these :: NewContext(configs[g])
  }

  function CreatableSet(configs: map<nat, ContextConfig>, opens: set<nat>): set<nat> {
    set g | g in configs && Creatable(g, configs[g], opens)
  }

  /** One call of the API. A second initialization after one that threw finds the contexts that one created. */
  function Handle(configs: map<nat, ContextConfig>, s: SaiState, e: SaiEvent): Handled {
    if e.StartApi? then
      if s.initialized then Handled(s, Returned(FAILURE))
      else
        var creatable := CreatableSet(configs, e.opens);
        if creatable == configs.Keys then
          Handled(SaiState(true, s.contexts + NewContexts(configs, creatable)), Returned(SUCCESS))
        else
          Handled(SaiState(false, s.contexts + NewContexts(configs, creatable * e.reached)), Thrown)
    else if !s.initialized then Handled(s, Returned(FAILURE))
    else
      match e
      case StopApi => Handled(SaiState(false, map[]), Returned(SUCCESS))
      case SetAttribute(targets, request) =>
        var (contexts, result) := Broadcast(s.contexts, targets, request);
        Handled(s.(contexts := contexts), result)
      case CallOn(oid, call, command, net, redisStatus) =>
        match Dispatch(s.contexts.Keys, oid)
        case None => Handled(s, Returned(FAILURE))
        case Some(g) =>
          var end := AfterCall(s.contexts[g].transport, call, command, net, redisStatus);
          Handled(s.(contexts := s.contexts[g := s.contexts[g].(transport := end.state)]), end.result)
  }

  /** Where a run leads, and whether no call of it has thrown. Calls go on after one that threw. */
  datatype Reached = Reached(state: SaiState, calm: bool)

  function Run(configs: map<nat, ContextConfig>, events: seq<SaiEvent>): Reached {
    if events == [] then Reached(SaiState(false, map[]), true)
    else
      var before := Run(configs, events[..|events| - 1]);
      var handled := Handle(configs, before.state, events[|events| - 1]);
      Reached(handled.state, before.calm && handled.result.Returned?)
  }

  // What each call of the API does.

  /** One call on the transport of context g, its result passed on, and nothing else touched. */
  predicate ServedBy(s: SaiState, after: Handled, g: nat, end: CallEnd) {
    && g in s.contexts && after.result == end.result && after.state.initialized == s.initialized
    && after.state.contexts.Keys == s.contexts.Keys
    && forall h :: h in s.contexts ==>
         after.state.contexts[h] == if h == g then s.contexts[h].(transport := end.state) else s.contexts[h]
  }

  /** A call runs on the context that its id names and on no other; without that context it fails. */
  lemma CallsReachTheirContext(configs: map<nat, ContextConfig>, s: SaiState, oid: Oid, call: Call, command: string,
                               net: ReqChannel.Network, redisStatus: Status)
    ensures var handled := Handle(configs, s, CallOn(oid, call, command, net, redisStatus));
            var g := GetGlobalContext(oid);
            if s.initialized && g in s.contexts then
              ServedBy(s, handled, g, AfterCall(s.contexts[g].transport, call, command, net, redisStatus))
            else handled == Handled(s, Returned(FAILURE))
  {}

  /** What setting the attribute does to context g: a mode request is tried with that context's own channel. */
  function Outcome(c: Context, g: nat, request: Request): After<Status> {
    AfterAttribute(c.config.zmqEnable, c.transport,
                   match request.attribute
                   case CommunicationMode(mode, _) => CommunicationMode(mode, g in request.opens)
                   case _ => request.attribute)
  }

  predicate IsTarget(s: SaiState, targets: set<nat>, g: nat) { g in s.contexts && g in targets }

  lemma OutcomeIsSetOn(c: Context, g: nat, request: Request)
    ensures SetOn(c, g, request) == Outcome(c, g, request)
  {}

  lemma OutcomesAreSetOn(s: SaiState, targets: set<nat>, request: Request)
    ensures forall g: nat :: ThrowsAt(s.contexts, targets, request, g) <==>
              IsTarget(s, targets, g) && Outcome(s.contexts[g], g, request).result.Thrown?
    ensures forall g :: g in s.contexts ==>
              SetOn(s.contexts[g], g, request) == Outcome(s.contexts[g], g, request)
  {
    forall g | g in s.contexts ensures SetOn(s.contexts[g], g, request) == Outcome(s.contexts[g], g, request) {
      OutcomeIsSetOn(s.contexts[g], g, request);
    }
  }

  /** An attribute that no target refuses with an exception reaches all targets and no other context. */
  lemma AttributesReachTheirTargets(configs: map<nat, ContextConfig>, s: SaiState, targets: set<nat>, request: Request)
    requires s.initialized
    requires forall g :: IsTarget(s, targets, g) ==> Outcome(s.contexts[g], g, request).result.Returned?
    ensures var handled := Handle(configs, s, SetAttribute(targets, request));
            && handled.state.initialized && handled.state.contexts.Keys == s.contexts.Keys
            && (forall g :: g in s.contexts ==>
                  handled.state.contexts[g] ==
                    if g in targets then s.contexts[g].(transport := Outcome(s.contexts[g], g, request).state)
                    else s.contexts[g])
            && handled.result ==
               Returned(if forall g :: IsTarget(s, targets, g) ==>
                             Outcome(s.contexts[g], g, request).result == Returned(SUCCESS)
                        then SUCCESS else FAILURE)
  {
    OutcomesAreSetOn(s, targets, request);
    assert forall g :: g in s.contexts && g in s.contexts.Keys * targets <==> IsTarget(s, targets, g);
  }

  /** When a target throws, the targets up to the first such one are set, in the order of guids, and no others. */
  lemma AttributesStopAtAnException(configs: map<nat, ContextConfig>, s: SaiState, targets: set<nat>, request: Request,
                                    t: nat)
    requires s.initialized && IsTarget(s, targets, t) && Outcome(s.contexts[t], t, request).result.Thrown?
    requires forall g: nat :: IsTarget(s, targets, g) && g < t ==> Outcome(s.contexts[g], g, request).result.Returned?
    ensures var handled := Handle(configs, s, SetAttribute(targets, request));
            && handled.result.Thrown? && handled.state.initialized
            && handled.state.contexts.Keys == s.contexts.Keys
            && forall g :: g in s.contexts ==>
                 handled.state.contexts[g] ==
                   if g in targets && g <= t then s.contexts[g].(transport := Outcome(s.contexts[g], g, request).state)
                   else s.contexts[g]
  {
    OutcomesAreSetOn(s, targets, request);
    assert ThrowsAt(s.contexts, targets, request, t);
  }

  /** The contexts of the file that an initialization creates: all that can be, unless it stops before. */
  function CreatedBy(configs: map<nat, ContextConfig>, opens: set<nat>, reached: set<nat>): set<nat> {
    var can := set g | g in configs && g <= 255 && (configs[g].zmqEnable == Enabled ==> g in opens);
    if can == configs.Keys then can else can * reached
  }

  lemma CreatedIsCreatable(configs: map<nat, ContextConfig>, opens: set<nat>)
    ensures CreatableSet(configs, opens)
         == set g | g in configs && g <= 255 && (configs[g].zmqEnable == Enabled ==> g in opens)
    ensures CreatableSet(configs, opens) == configs.Keys <==>
              forall g :: g in configs ==> g <= 255 && (configs[g].zmqEnable == Enabled ==> g in opens)
  {
    var creatable := CreatableSet(configs, opens);
    assert creatable == configs.Keys <==> forall g :: g in configs ==> g in creatable;
  }

  /**
   * Initialization succeeds exactly when every guid fits an id and every context locked to ZMQ opens
   * its channel. It then has created every context of the file anew. Otherwise it throws and leaves
   * the API uninitialized; what it has created stays. The end of the API forgets all contexts.
   */
  lemma ApiBeginsAndEnds(configs: map<nat, ContextConfig>, s: SaiState, opens: set<nat>, reached: set<nat>)
    ensures var begun := Handle(configs, s, StartApi(opens, reached));
            var fits := forall g :: g in configs ==> g <= 255 && (configs[g].zmqEnable == Enabled ==> g in opens);
            if s.initialized then begun == Handled(s, Returned(FAILURE))
            else
              && begun.result == (if fits then Returned(SUCCESS) else Thrown) && begun.state.initialized == fits
              && begun.state.contexts.Keys == s.contexts.Keys + CreatedBy(configs, opens, reached)
              && forall g :: g in begun.state.contexts ==>
                   begun.state.contexts[g] ==
                     if g in CreatedBy(configs, opens, reached)
                     then Context(configs[g], AfterInitialize(configs[g].zmqEnable, CREATED, true).state)
                     else s.contexts[g]
    ensures Handle(configs, s, StopApi)
         == if s.initialized then Handled(SaiState(false, map[]), Returned(SUCCESS)) else Handled(s, Returned(FAILURE))
  {
    CreatedIsCreatable(configs, opens);
  }

  predicate AllFit(configs: map<nat, ContextConfig>) { forall g :: g in configs ==> g <= FIELD_MAX }

  /** A context of the file whose transport is in order, in full as long as nothing has thrown. */
  predicate ContextOk(configs: map<nat, ContextConfig>, g: nat, c: Context, calm: bool) {
    && g in configs && c.config == configs[g] && g <= FIELD_MAX && c.transport.initialized
    && Firm(configs[g].zmqEnable, c.transport)
    && (calm ==> Inv(configs[g].zmqEnable, c.transport))
    && (!AllFit(configs) && c.transport.channel.Zmq? ==> configs[g].zmqEnable.Enabled?)
  }

  predicate Consistent(configs: map<nat, ContextConfig>, r: Reached) {
    && (r.state.initialized ==> AllFit(configs) && r.state.contexts.Keys == configs.Keys)
    && (r.calm && !r.state.initialized ==> r.state.contexts == map[])
    && forall g :: g in r.state.contexts ==> ContextOk(configs, g, r.state.contexts[g], r.calm)
  }

  lemma NewContextIsOk(configs: map<nat, ContextConfig>, g: nat, calm: bool)
    requires g in configs && g <= FIELD_MAX
    ensures ContextOk(configs, g, NewContext(configs[g]), calm)
  {}

  lemma TransportStepIsOk(configs: map<nat, ContextConfig>, g: nat, c: Context, calm: bool, e: Event)
    requires AllFit(configs) && ContextOk(configs, g, c, calm) && (e.Attr? || e.Api?)
    ensures var after := Step(c.config.zmqEnable, c.transport, e);
            ContextOk(configs, g, c.(transport := after.state), calm && after.result.Returned?)
  {
    StepKeepsInv(c.config.zmqEnable, c.transport, e);
  }

  lemma BroadcastIsOk(
    configs: map<nat, ContextConfig>, contexts: Contexts, calm: bool, targets: set<nat>, request: Request)
    requires AllFit(configs) && forall g :: g in contexts ==> ContextOk(configs, g, contexts[g], calm)
    ensures var (after, result) := Broadcast(contexts, targets, request);
            after.Keys == contexts.Keys
            && forall g :: g in after ==> ContextOk(configs, g, after[g], calm && result.Returned?)
  {
    var (after, result) := Broadcast(contexts, targets, request);
    forall g | g in after ensures ContextOk(configs, g, after[g], calm && result.Returned?) {
      TransportStepIsOk(configs, g, contexts[g], calm, Attr(request.For(g)));
      if result.Returned? {
        assert !ThrowsAt(contexts, targets, request, g);
      }
    }
  }

  /**
   * In every reachable state, with attributes, calls, initializations and their ends in any order
   * and exceptions caught: every context is one of the file and keeps what exceptions do not break,
   * and as long as nothing has thrown its transport is fully in order.
   */
  lemma {:induction false} RunIsConsistent(configs: map<nat, ContextConfig>, events: seq<SaiEvent>)
    ensures Consistent(configs, Run(configs, events))
    decreases |events|
  {
    if events != [] {
      var before, e := Run(configs, events[..|events| - 1]), events[|events| - 1];
      RunIsConsistent(configs, events[..|events| - 1]);
      HandleIsConsistent(configs, before, e);
    }
  }

  lemma HandleIsConsistent(configs: map<nat, ContextConfig>, before: Reached, e: SaiEvent)
    requires Consistent(configs, before)
    ensures var handled := Handle(configs, before.state, e);
            Consistent(configs, Reached(handled.state, before.calm && handled.result.Returned?))
  {
    var s := before.state;
    match e
    case StartApi(opens, reached) =>
      if !s.initialized {
        InitializeIsConsistent(configs, before, opens, reached);
      }
    case StopApi =>
    case SetAttribute(targets, request) =>
      if s.initialized {
        BroadcastIsOk(configs, s.contexts, before.calm, targets, request);
      }
    case CallOn(oid, call, command, net, redisStatus) =>
      var to := Dispatch(s.contexts.Keys, oid);
      if s.initialized && to.Some? {
        var end := AfterCall(s.contexts[to.value].transport, call, command, net, redisStatus);
        TransportStepIsOk(configs, to.value, s.contexts[to.value], before.calm, Api(call, command, net, redisStatus));
      }
  }

  lemma InitializeIsConsistent(configs: map<nat, ContextConfig>, before: Reached, opens: set<nat>, reached: set<nat>)
    requires Consistent(configs, before) && !before.state.initialized
    ensures var handled := Handle(configs, before.state, StartApi(opens, reached));
            Consistent(configs, Reached(handled.state, before.calm && handled.result.Returned?))
  {
    forall g, calm | g in configs && g <= FIELD_MAX ensures ContextOk(configs, g, NewContext(configs[g]), calm) {
      NewContextIsOk(configs, g, calm);
    }
    var creatable := CreatableSet(configs, opens);
    if creatable == configs.Keys {
      assert forall g :: g in configs ==> g in creatable;
    }
  }

  /** An id of context g: one that an allocation returns, or a switch id. */
  predicate IsIdOf(g: nat, objectTypes: seq<int>, switchId: Oid, counter: nat, switchIndex: nat, oid: Oid)
    requires g <= FIELD_MAX && switchIndex <= FIELD_MAX
  {
    var ids := AllocateIds(g, objectTypes, switchId, counter).result;
    (ids.Returned? && oid in ids.value) || oid == SwitchIdAt(switchIndex, g)
  }

  lemma IdsNameTheirContext(g: nat, objectTypes: seq<int>, switchId: Oid, counter: nat, switchIndex: nat, oid: Oid)
    requires g <= FIELD_MAX && switchIndex <= FIELD_MAX
    ensures IsIdOf(g, objectTypes, switchId, counter, switchIndex, oid) ==> GetGlobalContext(oid) == g
  {
    var ids := AllocateIds(g, objectTypes, switchId, counter).result;
    if ids.Returned? && oid in ids.value {
      var k: nat :| k < |ids.value| && ids.value[k] == oid;
      AllocatedIdsDecode(g, objectTypes, switchId, counter, k);
    }
    SwitchIdDecodes(switchIndex, g);
  }

  /**
   * In every reachable state of the initialized API, a call on an id that context g of the file has
   * handed out runs on g and on no other context, and so does a call on a switch id of g.
   */
  lemma IdsAreServedAtHome(configs: map<nat, ContextConfig>, events: seq<SaiEvent>, g: nat,
                           objectTypes: seq<int>, switchId: Oid, counter: nat, switchIndex: nat, oid: Oid,
                           call: Call, command: string, net: ReqChannel.Network, redisStatus: Status)
    requires g in configs && g <= FIELD_MAX && switchIndex <= FIELD_MAX
    ensures var s := Run(configs, events).state;
            s.initialized && IsIdOf(g, objectTypes, switchId, counter, switchIndex, oid) ==>
              && g in s.contexts
              && ServedBy(s, Handle(configs, s, CallOn(oid, call, command, net, redisStatus)), g,
                          AfterCall(s.contexts[g].transport, call, command, net, redisStatus))
  {
    var s := Run(configs, events).state;
    RunIsConsistent(configs, events);
    if s.initialized && IsIdOf(g, objectTypes, switchId, counter, switchIndex, oid) {
      IdsNameTheirContext(g, objectTypes, switchId, counter, switchIndex, oid);
      CallsReachTheirContext(configs, s, oid, call, command, net, redisStatus);
    }
  }

  // ---------------------------------------------------------------- contexts on one address

  predicate ShareEndpoint(a: ContextConfig, b: ContextConfig) {
    a.zmqEndpoint == b.zmqEndpoint || a.zmqNtfEndpoint == b.zmqNtfEndpoint
  }

  /** One sends requests where the other receives notifications. */
  predicate Crossed(a: ContextConfig, b: ContextConfig) {
    a.zmqEndpoint == b.zmqNtfEndpoint || a.zmqNtfEndpoint == b.zmqEndpoint
  }

  predicate BothOnZmq(contexts: Contexts, g: nat, h: nat) {
    g in contexts && h in contexts && contexts[g].transport.channel.Zmq? && contexts[h].transport.channel.Zmq?
  }

  /**
   * In every reachable state two contexts on ZMQ share a request or a notification endpoint only
   * when the file left `zmq_enable` out of both.
   */
  lemma ZmqContextsDoNotCollide(file: Option<seq<Item>>, events: seq<SaiEvent>, g: nat, h: nat)
    requires g != h && BothOnZmq(Run(Load(file), events).state.contexts, g, h)
    ensures g in Load(file) && h in Load(file)
    ensures ShareEndpoint(Load(file)[g], Load(file)[h]) ==>
              Load(file)[g].zmqEnable.Unspecified? && Load(file)[h].zmqEnable.Unspecified?
  {
    RunIsConsistent(Load(file), events);
    LoadedContextsAreCompatible(file, g, h);
  }

  /** Neither is locked to Redis, and the load-time rule has not compared the address they share. */
  predicate Risky(a: ContextConfig, b: ContextConfig) {
    && !a.zmqEnable.Disabled? && !b.zmqEnable.Disabled?
    && (Crossed(a, b) || (a.zmqEnable.Unspecified? && b.zmqEnable.Unspecified? && ShareEndpoint(a, b)))
  }

  /**
   * Two contexts of the file that can be on ZMQ at one address. When some guid does not fit an id,
   * no initialization ever succeeds, and only contexts locked to ZMQ get there.
   */
  predicate CanMeet(configs: map<nat, ContextConfig>, g: nat, h: nat) {
    && g != h && g in configs && h in configs && g <= FIELD_MAX && h <= FIELD_MAX
    && Risky(configs[g], configs[h])
    && (AllFit(configs) || (configs[g].zmqEnable.Enabled? && configs[h].zmqEnable.Enabled?))
  }

  /** A run leads to two contexts on ZMQ that use one address, for whatever purpose. */
  predicate Meet(configs: map<nat, ContextConfig>, events: seq<SaiEvent>, g: nat, h: nat) {
    && g != h && BothOnZmq(Run(configs, events).state.contexts, g, h)
    && var (a, b) := (Run(configs, events).state.contexts[g].config, Run(configs, events).state.contexts[h].config);
       ShareEndpoint(a, b) || Crossed(a, b)
  }

  /** Initializes with every channel opening, and asks both contexts for ZMQ. */
  function MeetingRun(configs: map<nat, ContextConfig>, g: nat, h: nat): seq<SaiEvent> {
    [StartApi(configs.Keys, {g, h}),
     SetAttribute({g, h}, Request(CommunicationMode(ZMQ_SYNC, true), {g, h}))]
  }

  lemma InitializeReaches(configs: map<nat, ContextConfig>, g: nat, h: nat)
    requires g in configs && g <= FIELD_MAX
    ensures var after := Handle(configs, SaiState(false, map[]), StartApi(configs.Keys, {g, h})).state;
            && after.initialized == AllFit(configs)
            && g in after.contexts && after.contexts[g] == NewContext(configs[g])
  {
    var creatable := CreatableSet(configs, configs.Keys);
    assert g in creatable;
    assert AllFit(configs) ==> creatable == configs.Keys;
    assert creatable == configs.Keys ==> forall k :: k in configs ==> k in creatable;
  }

  lemma RunOfTwo(configs: map<nat, ContextConfig>, e: SaiEvent, f: SaiEvent)
    ensures Run(configs, [e, f]).state
         == Handle(configs, Handle(configs, SaiState(false, map[]), e).state, f).state
  {
    assert [e, f][..1] == [e] && [e][..0] == [];
    assert Run(configs, [e]).state == Handle(configs, SaiState(false, map[]), e).state;
  }

  lemma NewContextGoesToZmq(contexts: Contexts, config: ContextConfig, g: nat, h: nat)
    requires g in contexts && contexts[g] == NewContext(config) && !config.zmqEnable.Disabled?
    requires forall k :: k in contexts && k in {g, h} ==> contexts[k] == NewContext(contexts[k].config)
    ensures var after := Broadcast(contexts, {g, h}, Request(CommunicationMode(ZMQ_SYNC, true), {g, h})).0;
            g in after && after[g].config == config && after[g].transport.channel.Zmq?
  {
    var request := Request(CommunicationMode(ZMQ_SYNC, true), {g, h});
    assert Visited(contexts, {g, h}, request, g);
  }

  lemma MeetingRunMeets(configs: map<nat, ContextConfig>, g: nat, h: nat)
    requires CanMeet(configs, g, h)
    ensures Meet(configs, MeetingRun(configs, g, h), g, h)
  {
    var events := MeetingRun(configs, g, h);
    var first := Handle(configs, SaiState(false, map[]), events[0]).state;
    assert {g, h} == {h, g};
    InitializeReaches(configs, g, h);
    InitializeReaches(configs, h, g);
    RunOfTwo(configs, events[0], events[1]);
    assert events == [events[0], events[1]];
    if AllFit(configs) {
      NewContextGoesToZmq(first.contexts, configs[g], g, h);
      NewContextGoesToZmq(first.contexts, configs[h], h, g);
    }
  }

  /**
   * Exactly when two contexts can be on ZMQ at one address of any purpose: neither is locked to
   * Redis, and either their endpoints are crossed or both left `zmq_enable` out.
   */
  lemma MeetExactly(file: Option<seq<Item>>, g: nat, h: nat)
    ensures (exists events :: Meet(Load(file), events, g, h)) <==> CanMeet(Load(file), g, h)
  {
    var configs := Load(file);
    if events :| Meet(configs, events, g, h) {
      ZmqContextsDoNotCollide(file, events, g, h);
      RunIsConsistent(configs, events);
    }
    if CanMeet(configs, g, h) {
      MeetingRunMeets(configs, g, h);
    }
  }

  /** No two contexts on ZMQ have bound one notification endpoint. */
  ghost predicate BoundOnce(contexts: Contexts) {
    forall g, h :: g != h && BothOnZmq(contexts, g, h) ==>
      contexts[g].config.zmqNtfEndpoint != contexts[h].config.zmqNtfEndpoint
  }

  /** A run in which it is like that all the time, because binding a bound endpoint fails. */
  ghost predicate BindsOnce(configs: map<nat, ContextConfig>, events: seq<SaiEvent>) {
    forall n :: 0 <= n <= |events| ==> BoundOnce(Run(configs, events[..n]).state.contexts)
  }

  /** Contexts that left `zmq_enable` out are on Redis, except for these two. */
  predicate OnlyThesePromoted(contexts: Contexts, g: nat, h: nat) {
    forall k :: k in contexts && contexts[k].transport.channel.Zmq? && contexts[k].config.zmqEnable.Unspecified? ==>
      k == g || k == h
  }

  lemma PromotingKeepsOthers(configs: map<nat, ContextConfig>, s: SaiState, g: nat, h: nat, request: Request)
    requires OnlyThesePromoted(s.contexts, g, h)
    ensures OnlyThesePromoted(Handle(configs, s, SetAttribute({g, h}, request)).state.contexts, g, h)
  {}

  lemma InitializingPromotesNone(configs: map<nat, ContextConfig>, g: nat, h: nat, e: SaiEvent)
    requires e.StartApi?
    ensures OnlyThesePromoted(Handle(configs, SaiState(false, map[]), e).state.contexts, g, h)
  {}

  lemma RunOfOne(configs: map<nat, ContextConfig>, e: SaiEvent)
    ensures Run(configs, [e]).state == Handle(configs, SaiState(false, map[]), e).state
  {
    assert [e][..0] == [];
  }

  lemma MeetingRunPromotesTwo(configs: map<nat, ContextConfig>, g: nat, h: nat, n: nat)
    requires n <= 2
    ensures OnlyThesePromoted(Run(configs, MeetingRun(configs, g, h)[..n]).state.contexts, g, h)
  {
    var e, f := MeetingRun(configs, g, h)[0], MeetingRun(configs, g, h)[1];
    InitializingPromotesNone(configs, g, h, e);
    if n == 0 {
    } else if n == 1 {
      RunOfOne(configs, e);
      assert MeetingRun(configs, g, h)[..1] == [e];
    } else {
      RunOfTwo(configs, e, f);
      assert MeetingRun(configs, g, h)[..2] == [e, f];
      PromotingKeepsOthers(configs, Handle(configs, SaiState(false, map[]), e).state, g, h, f.request);
    }
  }

  lemma MeetingRunBindsOnce(file: Option<seq<Item>>, g: nat, h: nat)
    requires CanMeet(Load(file), g, h) && Load(file)[g].zmqNtfEndpoint != Load(file)[h].zmqNtfEndpoint
    ensures BindsOnce(Load(file), MeetingRun(Load(file), g, h))
  {
    var configs, events := Load(file), MeetingRun(Load(file), g, h);
    forall n | 0 <= n <= |events| ensures BoundOnce(Run(configs, events[..n]).state.contexts) {
      var contexts := Run(configs, events[..n]).state.contexts;
      MeetingRunPromotesTwo(configs, g, h, n);
      RunIsConsistent(configs, events[..n]);
      forall k, l | k != l && BothOnZmq(contexts, k, l)
        ensures contexts[k].config.zmqNtfEndpoint != contexts[l].config.zmqNtfEndpoint
      {
        ZmqContextsDoNotCollide(file, events[..n], k, l);
      }
    }
  }

  /**
   * The same where binding an endpoint a second time always fails: two contexts that share
   * their notification endpoint then never meet, and all others meet as before.
   */
  lemma MeetBoundOnceExactly(file: Option<seq<Item>>, g: nat, h: nat)
    ensures (exists events :: BindsOnce(Load(file), events) && Meet(Load(file), events, g, h)) <==>
              CanMeet(Load(file), g, h) && Load(file)[g].zmqNtfEndpoint != Load(file)[h].zmqNtfEndpoint
  {
    var configs := Load(file);
    if events :| BindsOnce(configs, events) && Meet(configs, events, g, h) {
      MeetExactly(file, g, h);
      RunIsConsistent(configs, events);
      assert events[..|events|] == events;
      assert BoundOnce(Run(configs, events).state.contexts);
    }
    if CanMeet(configs, g, h) && configs[g].zmqNtfEndpoint != configs[h].zmqNtfEndpoint {
      MeetingRunBindsOnce(file, g, h);
      MeetingRunMeets(configs, g, h);
    }
  }

  /** A file with two contexts locked to ZMQ, of which one sends requests where the other receives notifications. */
  function CrossedFile(): seq<Item> {
    [Item(0, "a", "a", "a", "a", "s", [], Some(true), Some("tcp://127.0.0.1:7001"), Some("tcp://127.0.0.1:7002")),
     Item(1, "b", "b", "b", "b", "s", [], Some(true), Some("tcp://127.0.0.1:7002"), Some("tcp://127.0.0.1:7003"))]
  }

  lemma CrossedConfigsPass()
    ensures !HasConflict(ConfigOf(CrossedFile()[0]), ConfigOf(CrossedFile()[1]))
  {
    var last := |"tcp://127.0.0.1:700"|;
    assert "a"[0] != "b"[0];
    assert "tcp://127.0.0.1:7001"[last] != "tcp://127.0.0.1:7002"[last];
    assert "tcp://127.0.0.1:7002"[last] != "tcp://127.0.0.1:7003"[last];
  }

  lemma TwoAreCompatible(a: ContextConfig, b: ContextConfig)
    requires !HasConflict(a, b)
    ensures Compatible([a, b])
  {}

  lemma TwoItemsLoad(items: seq<Item>)
    requires |items| == 2 && items[0].switches == [] && items[1].switches == []
    requires !HasConflict(ConfigOf(items[0]), ConfigOf(items[1]))
    ensures Loadable(items)
    ensures var configs := Load(Some(items));
            HoldsAll(configs, [ConfigOf(items[0]), ConfigOf(items[1])])
  {
    var a, b := ConfigOf(items[0]), ConfigOf(items[1]);
    assert Configs(items) == [a, b];
    TwoAreCompatible(a, b);
    ByGuidKeepsAll([a, b]);
  }

  /** Two contexts locked to ZMQ whose crossed endpoints pass the load-time rule meet. */
  lemma CrossedItemsMeet(items: seq<Item>)
    requires |items| == 2 && items[0].switches == [] && items[1].switches == []
    requires var (a, b) := (ConfigOf(items[0]), ConfigOf(items[1]));
             !HasConflict(a, b) && Crossed(a, b) && a.zmqEnable.Enabled? && b.zmqEnable.Enabled?
             && a.guid <= FIELD_MAX && b.guid <= FIELD_MAX && a.guid != b.guid
    ensures Loadable(items)
    ensures exists events :: Meet(Load(Some(items)), events, ConfigOf(items[0]).guid, ConfigOf(items[1]).guid)
  {
    var configs, both := Load(Some(items)), [ConfigOf(items[0]), ConfigOf(items[1])];
    TwoItemsLoad(items);
    assert configs[both[0].guid] == both[0] && configs[both[1].guid] == both[1];
    MeetingRunMeets(configs, both[0].guid, both[1].guid);
  }

  /** Such a file passes the load-time rule, and its contexts meet. */
  lemma CrossedEndpointsMeet()
    ensures Loadable(CrossedFile()) && exists events :: Meet(Load(Some(CrossedFile())), events, 0, 1)
  {
    CrossedConfigsPass();
    CrossedItemsMeet(CrossedFile());
  }

  // ---------------------------------------------------------------- the object

  lemma {:induction false} Least(guids: set<nat>) returns (least: nat)
    requires guids != {}
    ensures least in guids && forall h :: h in guids ==> least <= h
    decreases guids
  {
    least :| least in guids;
    var rest := guids - {least};
    assert guids == rest + {least};
    if rest != {} {
      var other := Least(rest);
      if other < least {
        least := other;
      }
    }
  }

  /** The visited contexts are a lower part of the targets, and none of them threw. */
  ghost predicate VisitedSoFar(contexts: Contexts, targets: set<nat>, request: Request, visited: set<nat>) {
    && visited <= contexts.Keys * targets
    && (forall g, h :: g in visited && h in contexts && h in targets && h !in visited ==> g < h)
    && (forall g :: g in visited ==> !ThrowsAt(contexts, targets, request, g))
  }

  lemma VisitOneMore(contexts: Contexts, targets: set<nat>, request: Request, visited: set<nat>, rest: set<nat>, g: nat)
    requires VisitedSoFar(contexts, targets, request, visited) && rest + visited == contexts.Keys * targets
    requires g in rest && g !in visited && !ThrowsAt(contexts, targets, request, g)
    requires forall h :: h in rest ==> g <= h
    ensures VisitedSoFar(contexts, targets, request, visited + {g})
    ensures SucceedsOn(contexts, visited + {g}, request) <==>
              SucceedsOn(contexts, visited, request) && SetOn(contexts[g], g, request).result == Returned(SUCCESS)
  {
    forall k, h | k in visited + {g} && h in contexts && h in targets && h !in visited + {g} ensures k < h {
      assert h in rest + visited;
    }
    assert g in visited + {g};
  }

  lemma LastVisited(contexts: Contexts, targets: set<nat>, request: Request, visited: set<nat>, g: nat)
    requires VisitedSoFar(contexts, targets, request, visited) && ThrowsAt(contexts, targets, request, g)
    requires g !in visited && forall h :: h in contexts && h in targets && h !in visited ==> g <= h
    ensures VisitedSet(contexts, targets, request) == visited + {g}
  {
    forall h ensures h in contexts && Visited(contexts, targets, request, h) <==> h in visited + {g} {
      if h in visited + {g} {
        forall k: nat | k < h ensures !ThrowsAt(contexts, targets, request, k) {
        }
      }
    }
  }

  lemma AllVisited(contexts: Contexts, targets: set<nat>, request: Request)
    requires VisitedSoFar(contexts, targets, request, contexts.Keys * targets)
    ensures VisitedSet(contexts, targets, request) == contexts.Keys * targets
    ensures !Broadcast(contexts, targets, request).1.Thrown?
  {
    forall h: nat ensures !ThrowsAt(contexts, targets, request, h) {
      if h in contexts && h in targets {
        assert h in contexts.Keys * targets;
      }
    }
  }

  lemma SetOneMore(contexts: Contexts, visited: set<nat>, request: Request, g: nat)
    requires g in contexts && g !in visited
    ensures SetOnThese(contexts, visited, request)[g] == contexts[g]
    ensures SetOnThese(contexts, visited + {g}, request)
         == SetOnThese(contexts, visited, request)
              [g := contexts[g].(transport := SetOn(contexts[g], g, request).state)]
  {}

  class SaiApi {
    /** The context configuration that the service method table names. */
    const file: Option<seq<Item>>
    var contextMap: Contexts
    var apiInitialized: bool

    ghost function View(): SaiState
      reads this
    {
      SaiState(apiInitialized, contextMap)
    }

    constructor (file: Option<seq<Item>>)
      ensures View() == SaiState(false, map[]) && this.file == file
    {
      this.file := file;
      contextMap, apiInitialized := map[], false;
    }

    /** `reached` are the contexts created before one that threw. */
    method ApiInitialize(opens: set<nat>) returns (r: Result<Status>, ghost reached: set<nat>)
      modifies this
      ensures Handled(View(), r) == Handle(Load(file), old(View()), StartApi(opens, reached))
    {
      reached := {};
      if apiInitialized {
        return Returned(FAILURE), reached;
      }
      var ccc := ContextConfigContainer.LoadFromFile(file);
      r, reached := CreateContexts(ccc.contexts, opens);
    }

    /** The loop over all loaded configurations, in any order. */
    method CreateContexts(configs: map<nat, ContextConfig>, opens: set<nat>)
      returns (r: Result<Status>, ghost reached: set<nat>)
      requires !apiInitialized
      modifies this
      ensures Handled(View(), r) == Handle(configs, old(View()), StartApi(opens, reached))
    {
      reached := {};
      var rest := configs.Keys;
      while rest != {}
        invariant rest <= configs.Keys && reached == configs.Keys - rest && !apiInitialized
        invariant reached <= CreatableSet(configs, opens)
        invariant contextMap == old(contextMap) + NewContexts(configs, reached)
        decreases rest
      {
        var g :| g in rest;
        if g > FIELD_MAX || (configs[g].zmqEnable.Enabled? && g !in opens) {
          CreationStops(configs, old(View()), opens, reached, g);
          return Thrown, reached;
        }
        CreateOneMore(configs, opens, old(contextMap), reached, g);
        contextMap := contextMap[g := NewContext(configs[g])];
        reached := reached + {g};
        rest := rest - {g};
      }
      CreationEnds(configs, old(View()), opens);
      assert reached == configs.Keys;
      apiInitialized := true;
      return Returned(SUCCESS), reached;
    }

    method ApiUninitialize() returns (r: Result<Status>)
      modifies this
      ensures Handled(View(), r) == Handle(Load(file), old(View()), StopApi)
    {
      if !apiInitialized {
        return Returned(FAILURE);
      }
      contextMap := map[];
      apiInitialized := false;
      return Returned(SUCCESS);
    }

    /** `set` with a sairedis attribute. */
    method SetRedisAttribute(targets: set<nat>, request: Request) returns (r: Result<Status>)
      modifies this
      ensures Handled(View(), r) == Handle(Load(file), old(View()), SetAttribute(targets, request))
    {
      if !apiInitialized {
        return Returned(FAILURE);
      }
      r := SetOnContexts(targets, request);
    }

    /** The loop of `set`: contexts in the order of the map, until one throws. */
    method SetOnContexts(targets: set<nat>, request: Request) returns (r: Result<Status>)
      modifies this`contextMap
      ensures (contextMap, r) == Broadcast(old(contextMap), targets, request)
    {
      ghost var before := contextMap;
      ghost var visited: set<nat> := {};
      var rest := contextMap.Keys * targets;
      var success := true;
      while rest != {}
        invariant rest + visited == before.Keys * targets && rest !! visited
        invariant VisitedSoFar(before, targets, request, visited)
        invariant contextMap == SetOnThese(before, visited, request)
        invariant success <==> SucceedsOn(before, visited, request)
        decreases rest
      {
        ghost var least := Least(rest);
        var g :| g in rest && forall h :: h in rest ==> g <= h;
        SetOneMore(before, visited, request, g);
        var after := SetOn(contextMap[g], g, request);
        contextMap := contextMap[g := contextMap[g].(transport := after.state)];
        if after.result.Thrown? {
          LastVisited(before, targets, request, visited, g);
          return Thrown;
        }
        VisitOneMore(before, targets, request, visited, rest, g);
        success := success && after.result.value == SUCCESS;
        visited := visited + {g};
        rest := rest - {g};
      }
      assert visited == before.Keys * targets;
      AllVisited(before, targets, request);
      return Returned(if success then SUCCESS else FAILURE);
    }

    /** A call that REDIS_CHECK_CONTEXT dispatches by an object id. */
    method Perform(oid: Oid, call: Call, command: string, net: ReqChannel.Network, redisStatus: Status)
      returns (r: Result<Status>)
      modifies this
      ensures Handled(View(), r) == Handle(Load(file), old(View()), CallOn(oid, call, command, net, redisStatus))
    {
      if !apiInitialized {
        return Returned(FAILURE);
      }
      var to := Dispatch(contextMap.Keys, oid);
      if to.None? {
        return Returned(FAILURE);
      }
      var end := AfterCall(contextMap[to.value].transport, call, command, net, redisStatus);
      contextMap := contextMap[to.value := contextMap[to.value].(transport := end.state)];
      return end.result;
    }
  }

  lemma CreationStops(configs: map<nat, ContextConfig>, s: SaiState, opens: set<nat>, reached: set<nat>, g: nat)
    requires !s.initialized && reached <= CreatableSet(configs, opens)
    requires g in configs && !Creatable(g, configs[g], opens)
    ensures Handle(configs, s, StartApi(opens, reached))
         == Handled(SaiState(false, s.contexts + NewContexts(configs, reached)), Thrown)
  {
    assert g !in CreatableSet(configs, opens);
    assert CreatableSet(configs, opens) * reached == reached;
  }

  lemma CreationEnds(configs: map<nat, ContextConfig>, s: SaiState, opens: set<nat>)
    requires !s.initialized && configs.Keys <= CreatableSet(configs, opens)
    ensures forall reached :: Handle(configs, s, StartApi(opens, reached))
                           == Handled(SaiState(true, s.contexts + NewContexts(configs, configs.Keys)), Returned(SUCCESS))
  {
    assert CreatableSet(configs, opens) == configs.Keys;
  }

  lemma CreateOneMore(configs: map<nat, ContextConfig>, opens: set<nat>, before: Contexts, these: set<nat>, g: nat)
    requires g in configs && Creatable(g, configs[g], opens) && these <= CreatableSet(configs, opens)
    ensures before + NewContexts(configs, these + {g})
         == (before + NewContexts(configs, these))[g := NewContext(configs[g])]
    ensures these + {g} <= CreatableSet(configs, opens)
  {}
}
