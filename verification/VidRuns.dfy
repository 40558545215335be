/**
 * Whole runs of id allocation. Several processes use each context; they share that context's
 * VIDCOUNTER and nothing else. One step is one atomic action: the INCR/INCRBY of a request, the
 * construction of its ids, the allocation of a switch id, or the local reset of INIT_VIEW.
 */
module VidRuns {
  import opened Common
  import opened ObjectId
  import opened VidAllocation

  /** A request whose indexes are reserved and whose ids are not yet constructed. */
  datatype Pending = Pending(objectTypes: seq<int>, switchId: Oid, first: nat) {
    predicate Holds(index: nat) { first <= index < first + |objectTypes| }
  }

  datatype ContextVids = ContextVids(
    counter: nat,
    pending: map<nat, Pending>,
    switchIndexes: map<nat, set<nat>>,
    objectVids: seq<Oid>,
    switchVids: set<Oid>)

  /** The contexts of the deployment, by global context number. */
  type World = map<nat, ContextVids>

  datatype Event =
    | ReserveIndexes(guid: nat, process: nat, objectTypes: seq<int>, switchId: Oid)
    | ConstructIds(guid: nat, process: nat)
    | AllocateSwitch(guid: nat, process: nat, switchIndex: nat)
    | InitView(guid: nat, process: nat)

  const NO_VIDS := ContextVids(0, map[], map[], [], {})

  function Init(guids: set<nat>): World { map g | g in guids :: NO_VIDS }

  /** What one process does next in its context. A process has at most one request in flight. */
  function ContextStep(g: nat, c: ContextVids, e: Event): ContextVids
    requires g <= FIELD_MAX && Inv(g, c)
  {
    match e
    case ReserveIndexes(_, process, objectTypes, switchId) =>
      if process in c.pending || |objectTypes| == 0 then c
      else
        var reserved := Reserve(objectTypes, switchId, c.counter);
        if reserved.result.Thrown? then c
        else c.(counter := reserved.counter,
                pending := c.pending[process := Pending(objectTypes, switchId, reserved.result.value)])
    case ConstructIds(_, process) =>
      if process !in c.pending then c
      else
        var p := c.pending[process];
        var ids := Emit(g, p.objectTypes, p.switchId, p.first);
        c.(pending := c.pending - {process},
           objectVids := c.objectVids + if ids.Thrown? then [] else ids.value)
    case AllocateSwitch(_, process, switchIndex) =>
      if switchIndex > FIELD_MAX then c
      else
        var held := if process in c.switchIndexes then c.switchIndexes[process] else {};
        c.(switchIndexes := c.switchIndexes[process := held + {switchIndex}],
           switchVids := c.switchVids + {SwitchIdAt(switchIndex, g)})
    case InitView(_, process) =>
      c.(switchIndexes := c.switchIndexes[process := {}])
  }

  /** An object id that context g may have issued while its counter was at most `counter`. */
  predicate ObjectVidOf(g: nat, counter: nat, vid: Oid) {
    && ObjectTypeQuery(vid) != TYPE_NULL && ObjectTypeQuery(vid) != TYPE_SWITCH
    && ContextField(vid) == g
    && 1 <= IndexField(vid) <= counter
  }

  /** Indexes are handed out once: to an issued id or to one pending request. */
  ghost predicate Inv(g: nat, c: ContextVids) {
    && (forall k :: 0 <= k < |c.objectVids| ==> ObjectVidOf(g, c.counter, c.objectVids[k]))
    && (forall j, k :: 0 <= j < k < |c.objectVids| ==> IndexField(c.objectVids[j]) != IndexField(c.objectVids[k]))
    && (forall p :: p in c.pending ==>
          && AllAllocatable(c.pending[p].objectTypes)
          && 1 <= c.pending[p].first && c.pending[p].first + |c.pending[p].objectTypes| - 1 <= c.counter)
    && (forall p, q, i :: p in c.pending && q in c.pending && p != q && c.pending[p].Holds(i) ==>
          !c.pending[q].Holds(i))
    && (forall p, k :: p in c.pending && 0 <= k < |c.objectVids| ==>
          !c.pending[p].Holds(IndexField(c.objectVids[k])))
    && (forall s :: s in c.switchVids ==> ObjectTypeQuery(s) == TYPE_SWITCH && ContextField(s) == g)
  }

  lemma EmittedAreObjectVids(g: nat, objectTypes: seq<int>, switchId: Oid, first: nat, k: nat)
    requires g <= FIELD_MAX && AllAllocatable(objectTypes) && 1 <= first && k < |objectTypes|
    requires Emit(g, objectTypes, switchId, first).Returned?
    ensures var vid := Emit(g, objectTypes, switchId, first).value[k];
            ObjectVidOf(g, first + k, vid) && IndexField(vid) == first + k
  {
    EmittedAt(g, objectTypes, switchId, first, k);
    EmittedIdDecodes(g, objectTypes[k], switchId, first + k);
  }

  /** Ids that carry exactly the indexes of a pending request take its place. */
  lemma IssueKeepsInv(g: nat, c: ContextVids, process: nat, ids: seq<Oid>)
    requires Inv(g, c) && process in c.pending && |ids| == |c.pending[process].objectTypes|
    requires forall k :: 0 <= k < |ids| ==>
               ObjectVidOf(g, c.counter, ids[k]) && IndexField(ids[k]) == c.pending[process].first + k
    ensures Inv(g, c.(pending := c.pending - {process}, objectVids := c.objectVids + ids))
  {
    var p, n, all := c.pending[process], |c.objectVids|, c.objectVids + ids;
    forall k | n <= k < |all| ensures p.Holds(IndexField(all[k])) {
      assert all[k] == ids[k - n];
    }
  }

  lemma ConstructKeepsInv(g: nat, c: ContextVids, e: Event)
    requires g <= FIELD_MAX && Inv(g, c) && e.ConstructIds? && e.process in c.pending
    ensures Inv(g, ContextStep(g, c, e))
  {
    var p := c.pending[e.process];
    var ids := Emit(g, p.objectTypes, p.switchId, p.first);
    if ids.Returned? {
      forall k | 0 <= k < |ids.value|
        ensures ObjectVidOf(g, c.counter, ids.value[k]) && IndexField(ids.value[k]) == p.first + k
      {
        EmittedAreObjectVids(g, p.objectTypes, p.switchId, p.first, k);
      }
      IssueKeepsInv(g, c, e.process, ids.value);
    }
  }

  lemma ReserveKeepsInv(g: nat, c: ContextVids, e: Event)
    requires g <= FIELD_MAX && Inv(g, c) && e.ReserveIndexes?
    ensures Inv(g, ContextStep(g, c, e))
  {}

  lemma NewSwitchVid(g: nat, switchIndex: nat)
    requires g <= FIELD_MAX && switchIndex <= FIELD_MAX
    ensures ObjectTypeQuery(SwitchIdAt(switchIndex, g)) == TYPE_SWITCH && ContextField(SwitchIdAt(switchIndex, g)) == g
  {
    DecodeConstructed(TYPE_SWITCH, switchIndex, switchIndex, g);
  }

  lemma OneMoreSwitchVid(g: nat, c: ContextVids, vid: Oid, switchIndexes: map<nat, set<nat>>)
    requires Inv(g, c) && ObjectTypeQuery(vid) == TYPE_SWITCH && ContextField(vid) == g
    ensures Inv(g, c.(switchIndexes := switchIndexes, switchVids := c.switchVids + {vid}))
  {}

  lemma AllocateSwitchAddsVid(g: nat, c: ContextVids, e: Event)
    requires g <= FIELD_MAX && Inv(g, c) && e.AllocateSwitch? && e.switchIndex <= FIELD_MAX
    ensures ContextStep(g, c, e) == c.(switchIndexes := ContextStep(g, c, e).switchIndexes,
                                       switchVids := c.switchVids + {SwitchIdAt(e.switchIndex, g)})
  {}

  lemma AllocateSwitchKeepsInv(g: nat, c: ContextVids, e: Event)
    requires g <= FIELD_MAX && Inv(g, c) && e.AllocateSwitch?
    ensures Inv(g, ContextStep(g, c, e))
  {
    if e.switchIndex <= FIELD_MAX {
      NewSwitchVid(g, e.switchIndex);
      AllocateSwitchAddsVid(g, c, e);
      OneMoreSwitchVid(g, c, SwitchIdAt(e.switchIndex, g), ContextStep(g, c, e).switchIndexes);
    }
  }

  lemma StepKeepsInv(g: nat, c: ContextVids, e: Event)
    requires g <= FIELD_MAX && Inv(g, c)
    ensures Inv(g, ContextStep(g, c, e))
  {
    match e
    case ReserveIndexes(_, _, _, _) =>
      ReserveKeepsInv(g, c, e);
    case ConstructIds(_, process) =>
      if process in c.pending {
        ConstructKeepsInv(g, c, e);
      }
    case AllocateSwitch(_, _, _) =>
      AllocateSwitchKeepsInv(g, c, e);
    case InitView(_, _) =>
  }

  ghost predicate WorldInv(w: World) {
    forall g :: g in w ==> g <= FIELD_MAX && Inv(g, w[g])
  }

  function Step(w: World, e: Event): (w': World)
    requires WorldInv(w)
    ensures w'.Keys == w.Keys && WorldInv(w')
  {
    if e.guid in w then
      StepKeepsInv(e.guid, w[e.guid], e);
      w[e.guid := ContextStep(e.guid, w[e.guid], e)]
    else w
  }

  function Run(w: World, events: seq<Event>): (w': World)
    requires WorldInv(w)
    ensures w'.Keys == w.Keys && WorldInv(w')
    decreases |events|
  {
    if |events| == 0 then w else Run(Step(w, events[0]), events[1..])
  }

  // ---------------------------------------------------------------- what is issued stays issued

  /** Nothing that was issued is forgotten, and the counter never falls. */
  predicate OnlyAdds(before: ContextVids, after: ContextVids) {
    before.objectVids <= after.objectVids && before.switchVids <= after.switchVids && before.counter <= after.counter
  }

  lemma ContextStepOnlyAdds(g: nat, c: ContextVids, e: Event)
    requires g <= FIELD_MAX && Inv(g, c)
    ensures OnlyAdds(c, ContextStep(g, c, e))
  {}

  lemma StepIsLocal(w: World, e: Event, g: nat)
    requires WorldInv(w) && g in w
    ensures Step(w, e)[g] == if e.guid == g then ContextStep(g, w[g], e) else w[g]
  {
    if e.guid in w {
      assert Step(w, e) == w[e.guid := ContextStep(e.guid, w[e.guid], e)];
    }
  }

  lemma StepOnlyAdds(w: World, e: Event, g: nat)
    requires WorldInv(w) && g in w
    ensures OnlyAdds(w[g], Step(w, e)[g]) && (e.guid != g ==> Step(w, e)[g] == w[g])
  {
    StepIsLocal(w, e, g);
    ContextStepOnlyAdds(g, w[g], e);
  }

  /** Over every run, with INIT_VIEW at any point, each context keeps all it has issued, in order. */
  lemma {:induction false} RunOnlyAdds(w: World, events: seq<Event>, g: nat)
    requires WorldInv(w) && g in w
    ensures OnlyAdds(w[g], Run(w, events)[g])
    decreases |events|
  {
    if |events| > 0 {
      StepOnlyAdds(w, events[0], g);
      RunOnlyAdds(Step(w, events[0]), events[1..], g);
    }
  }

  /** A step of this process's request in this context. */
  predicate IsRequestStep(e: Event, g: nat, process: nat) {
    e.guid == g && e.process == process && (e.ReserveIndexes? || e.ConstructIds?)
  }

  predicate SamePending(before: ContextVids, after: ContextVids, process: nat) {
    && (process in after.pending <==> process in before.pending)
    && (process in before.pending ==> after.pending[process] == before.pending[process])
  }

  lemma ContextStepKeepsPending(g: nat, c: ContextVids, e: Event, process: nat)
    requires g <= FIELD_MAX && Inv(g, c) && e.guid == g && !IsRequestStep(e, g, process)
    ensures SamePending(c, ContextStep(g, c, e), process)
  {}

  lemma StepKeepsPending(w: World, e: Event, g: nat, process: nat)
    requires WorldInv(w) && g in w && !IsRequestStep(e, g, process)
    ensures SamePending(w[g], Step(w, e)[g], process)
  {
    StepIsLocal(w, e, g);
    if e.guid == g {
      ContextStepKeepsPending(g, w[g], e, process);
    }
  }

  lemma {:induction false} RunKeepsPending(w: World, events: seq<Event>, g: nat, process: nat)
    requires WorldInv(w) && g in w && forall i :: 0 <= i < |events| ==> !IsRequestStep(events[i], g, process)
    ensures SamePending(w[g], Run(w, events)[g], process)
    decreases |events|
  {
    if |events| > 0 {
      StepKeepsPending(w, events[0], g, process);
      RunKeepsPending(Step(w, events[0]), events[1..], g, process);
    }
  }

  /** What a process with nothing pending gets when it reserves: the indexes of `AllocateIds`. */
  predicate AsksFor(c: ContextVids, process: nat, g: nat, issued: Result<seq<Oid>>)
    requires g <= FIELD_MAX && Inv(g, c)
  {
    ContextStep(g, c, ConstructIds(g, process)).objectVids
    == c.objectVids + if issued.Returned? then issued.value else []
  }

  lemma ReserveAsksFor(w: World, g: nat, process: nat, objectTypes: seq<int>, switchId: Oid, c: ContextVids)
    requires WorldInv(w) && g in w && process !in w[g].pending && Inv(g, c)
    requires SamePending(Step(w, ReserveIndexes(g, process, objectTypes, switchId))[g], c, process)
    ensures AsksFor(c, process, g, AllocateIds(g, objectTypes, switchId, w[g].counter).result)
    ensures Step(w, ReserveIndexes(g, process, objectTypes, switchId))[g].counter
         == AllocateIds(g, objectTypes, switchId, w[g].counter).counter
  {}

  /**
   * A process that reserves indexes and later constructs its ids, with any events of other processes
   * and contexts and any switch allocations and INIT_VIEWs in between, appends exactly the ids that
   * one undisturbed allocation would have returned at the moment of the reservation, or none where
   * that allocation throws.
   */
  lemma ReservedIdsAreIssued(w: World, g: nat, process: nat, objectTypes: seq<int>, switchId: Oid, others: seq<Event>)
    requires WorldInv(w) && g in w && process !in w[g].pending
    requires forall i :: 0 <= i < |others| ==> !IsRequestStep(others[i], g, process)
    ensures var reserve := ReserveIndexes(g, process, objectTypes, switchId);
            var alone := AllocateIds(g, objectTypes, switchId, w[g].counter);
            var before := Run(w, [reserve] + others);
            && Step(before, ConstructIds(g, process))[g].objectVids
               == before[g].objectVids + (if alone.result.Returned? then alone.result.value else [])
            && Step(w, reserve)[g].counter == alone.counter
  {
    var reserve := ReserveIndexes(g, process, objectTypes, switchId);
    var before := Run(w, [reserve] + others);
    assert ([reserve] + others)[1..] == others;
    RunKeepsPending(Step(w, reserve), others, g, process);
    ReserveAsksFor(w, g, process, objectTypes, switchId, before[g]);
  }

  lemma SwitchAllocationAdds(g: nat, c: ContextVids, process: nat, switchIndex: nat)
    requires g <= FIELD_MAX && Inv(g, c)
    ensures var after := ContextStep(g, c, AllocateSwitch(g, process, switchIndex));
            && (switchIndex <= FIELD_MAX ==>
                  && after.switchVids == c.switchVids + {SwitchIdAt(switchIndex, g)}
                  && process in after.switchIndexes && switchIndex in after.switchIndexes[process])
            && (switchIndex > FIELD_MAX ==> after == c)
            && after.(switchVids := c.switchVids, switchIndexes := c.switchIndexes) == c
  {}

  lemma InitViewUnmarks(g: nat, c: ContextVids, process: nat)
    requires g <= FIELD_MAX && Inv(g, c)
    ensures var after := ContextStep(g, c, InitView(g, process));
            && process in after.switchIndexes && after.switchIndexes[process] == {}
            && after.(switchIndexes := c.switchIndexes) == c
  {}

  /** A switch allocation adds its id and marks its index; INIT_VIEW unmarks the process's indexes and does no more. */
  lemma SwitchEventsDo(w: World, g: nat, process: nat, switchIndex: nat)
    requires WorldInv(w) && g in w
    ensures var after := Step(w, AllocateSwitch(g, process, switchIndex))[g];
            && (switchIndex <= FIELD_MAX ==>
                  && after.switchVids == w[g].switchVids + {SwitchIdAt(switchIndex, g)}
                  && process in after.switchIndexes && switchIndex in after.switchIndexes[process])
            && (switchIndex > FIELD_MAX ==> after == w[g])
            && after.(switchVids := w[g].switchVids, switchIndexes := w[g].switchIndexes) == w[g]
    ensures var after := Step(w, InitView(g, process))[g];
            && process in after.switchIndexes && after.switchIndexes[process] == {}
            && after.(switchIndexes := w[g].switchIndexes) == w[g]
  {
    StepIsLocal(w, AllocateSwitch(g, process, switchIndex), g);
    SwitchAllocationAdds(g, w[g], process, switchIndex);
    StepIsLocal(w, InitView(g, process), g);
    InitViewUnmarks(g, w[g], process);
  }

  lemma IdNamesItsContext(vid: Oid)
    requires ObjectTypeQuery(vid) != TYPE_NULL
    ensures vid != NULL_OID && GetGlobalContext(vid) == ContextField(vid)
  {
    SwitchIdQueryIdempotent(vid);
  }

  lemma IdsNameTheirContext(g: nat, c: ContextVids, vid: Oid)
    requires Inv(g, c) && (vid in c.objectVids || vid in c.switchVids)
    ensures vid != NULL_OID && GetGlobalContext(vid) == g
  {
    if vid in c.objectVids {
      var k :| 0 <= k < |c.objectVids| && c.objectVids[k] == vid;
      assert ObjectVidOf(g, c.counter, c.objectVids[k]);
    }
    IdNamesItsContext(vid);
  }

  /** The `j`-th object id of a context. */
  predicate IsObjectVid(w: World, g: nat, j: nat, vid: Oid) {
    g in w && j < |w[g].objectVids| && vid == w[g].objectVids[j]
  }

  predicate IsSwitchVid(w: World, g: nat, vid: Oid) { g in w && vid in w[g].switchVids }

  /** Object ids name their context, and differ unless they are the same entry of the same context. */
  lemma ObjectVidsDiffer(w: World, g: nat, j: nat, u: Oid, h: nat, k: nat, v: Oid)
    requires WorldInv(w)
    ensures IsObjectVid(w, g, j, u) ==> u != NULL_OID && GetGlobalContext(u) == g
    ensures IsObjectVid(w, g, j, u) && IsObjectVid(w, h, k, v) ==> (u == v <==> g == h && j == k)
  {
    if IsObjectVid(w, g, j, u) {
      IdsNameTheirContext(g, w[g], u);
      assert ObjectVidOf(g, w[g].counter, u);
    }
    if IsObjectVid(w, h, k, v) {
      assert ObjectVidOf(h, w[h].counter, v);
    }
  }

  lemma SwitchVidNamesItsContext(w: World, h: nat, s: Oid)
    requires WorldInv(w)
    ensures IsSwitchVid(w, h, s) ==> s != NULL_OID && GetGlobalContext(s) == h
  {
    if IsSwitchVid(w, h, s) {
      IdsNameTheirContext(h, w[h], s);
    }
  }

  lemma ObjectVidIsNoSwitchVid(w: World, g: nat, j: nat, u: Oid, h: nat, s: Oid)
    requires WorldInv(w)
    ensures IsObjectVid(w, g, j, u) && IsSwitchVid(w, h, s) ==> u != s
  {
    if IsObjectVid(w, g, j, u) {
      assert ObjectVidOf(g, w[g].counter, u);
    }
  }

  /**
   * After any run of any processes in any contexts, two issued object ids differ unless they are the
   * same entry of the same context; none of them is null; and each names the context that issued it.
   */
  lemma IssuedVidsAreUnique(guids: set<nat>, events: seq<Event>, g: nat, j: nat, u: Oid, h: nat, k: nat, v: Oid)
    requires forall i :: i in guids ==> i <= FIELD_MAX
    ensures var w := Run(Init(guids), events);
            && (IsObjectVid(w, g, j, u) ==> u != NULL_OID && GetGlobalContext(u) == g)
            && (IsObjectVid(w, g, j, u) && IsObjectVid(w, h, k, v) ==> (u == v <==> g == h && j == k))
  {
    ObjectVidsDiffer(Run(Init(guids), events), g, j, u, h, k, v);
  }

  /** After any run every switch id of any context, whatever else it has issued, is not null and names its context. */
  lemma SwitchVidsNameTheirContext(guids: set<nat>, events: seq<Event>, h: nat, s: Oid)
    requires forall i :: i in guids ==> i <= FIELD_MAX
    ensures IsSwitchVid(Run(Init(guids), events), h, s) ==> s != NULL_OID && GetGlobalContext(s) == h
  {
    SwitchVidNamesItsContext(Run(Init(guids), events), h, s);
  }

  /** After any run no object id of any context is a switch id of any context. */
  lemma ObjectVidsAreNoSwitchVids(guids: set<nat>, events: seq<Event>, g: nat, j: nat, u: Oid, h: nat, s: Oid)
    requires forall i :: i in guids ==> i <= FIELD_MAX
    ensures var w := Run(Init(guids), events);
            IsObjectVid(w, g, j, u) && IsSwitchVid(w, h, s) ==> u != s
  {
    ObjectVidIsNoSwitchVid(Run(Init(guids), events), g, j, u, h, s);
  }
}
