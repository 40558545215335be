/**
 * Context configuration: the conflict rules of lib/ContextConfig.cpp and the loading of
 * lib/ContextConfigContainer.cpp, from JSON that has already been parsed.
 */
module ContextConfigs {
  import opened Common
  import opened SwitchConfigs
  import opened Transport

  datatype ContextConfig = ContextConfig(
    guid: nat,
    name: string,
    dbAsic: string,
    dbCounters: string,
    dbFlex: string,
    dbState: string,
    zmqEnable: ZmqEnable,
    zmqEndpoint: string,
    zmqNtfEndpoint: string,
    switches: seq<SwitchConfig>)

  const DEFAULT_ENDPOINT := "tcp://127.0.0.1:5555"
  const DEFAULT_NTF_ENDPOINT := "tcp://127.0.0.1:5556"

  const DEFAULT_CONTEXT := ContextConfig(
    0, "syncd", "ASIC_DB", "COUNTERS_DB", "FLEX_COUNTER_DB", "STATE_DB",
    Unspecified, DEFAULT_ENDPOINT, DEFAULT_NTF_ENDPOINT, [SwitchConfig(0, "")])

  /** One element of "CONTEXTS". The last three keys are optional. */
  datatype Item = Item(
    guid: nat,
    name: string,
    dbAsic: string,
    dbCounters: string,
    dbFlex: string,
    dbState: string,
    switches: seq<SwitchConfig>,
    zmqEnable: Option<bool>,
    zmqEndpoint: Option<string>,
    zmqNtfEndpoint: Option<string>)

  function ConfigOf(item: Item): ContextConfig {
    ContextConfig(
      item.guid, item.name, item.dbAsic, item.dbCounters, item.dbFlex, item.dbState,
      match item.zmqEnable case None => Unspecified case Some(on) => if on then Enabled else Disabled,
      match item.zmqEndpoint case None => DEFAULT_ENDPOINT case Some(e) => e,
      match item.zmqNtfEndpoint case None => DEFAULT_NTF_ENDPOINT case Some(e) => e,
      item.switches)
  }

  predicate ZmqEndpointConflict(endpoint: string, other: string, zmqEnable: ZmqEnable, otherZmqEnable: ZmqEnable) {
    if endpoint != other then false
    else if zmqEnable.Disabled? || otherZmqEnable.Disabled? then false
    else if zmqEnable.Unspecified? && otherZmqEnable.Unspecified? then false
    else true
  }

  predicate HasConflict(a: ContextConfig, b: ContextConfig) {
    || a.guid == b.guid
    || a.name == b.name
    || a.dbAsic == b.dbAsic
    || a.dbCounters == b.dbCounters
    || a.dbFlex == b.dbFlex
    || ZmqEndpointConflict(a.zmqEndpoint, b.zmqEndpoint, a.zmqEnable, b.zmqEnable)
    || ZmqEndpointConflict(a.zmqNtfEndpoint, b.zmqNtfEndpoint, a.zmqEnable, b.zmqEnable)
  }

  predicate DistinctSwitches(switches: seq<SwitchConfig>) {
    forall i, j :: 0 <= i < j < |switches| ==>
      switches[i].index != switches[j].index && switches[i].hardwareInfo != switches[j].hardwareInfo
  }

  function SwitchIndexes(switches: seq<SwitchConfig>): set<nat> {
    set k | 0 <= k < |switches| :: switches[k].index
  }

  function HardwareInfos(switches: seq<SwitchConfig>): set<string> {
    set k | 0 <= k < |switches| :: switches[k].hardwareInfo
  }

  lemma OneMoreSwitch(switches: seq<SwitchConfig>, more: SwitchConfig)
    ensures SwitchIndexes(switches + [more]) == SwitchIndexes(switches) + {more.index}
    ensures HardwareInfos(switches + [more]) == HardwareInfos(switches) + {more.hardwareInfo}
    ensures DistinctSwitches(switches + [more])
       <==> && DistinctSwitches(switches)
            && more.index !in SwitchIndexes(switches) && more.hardwareInfo !in HardwareInfos(switches)
  {
    var all := switches + [more];
    assert forall k :: 0 <= k < |switches| ==> all[k] == switches[k];
    assert all[|switches|] == more;
  }

  predicate Compatible(configs: seq<ContextConfig>) {
    forall i, j :: 0 <= i < j < |configs| ==> !HasConflict(configs[i], configs[j])
  }

  function ByGuid(configs: seq<ContextConfig>): map<nat, ContextConfig> {
    if |configs| == 0 then map[]
    else
      var last := configs[|configs| - 1];
      ByGuid(configs[..|configs| - 1])[last.guid := last]
  }

  function Configs(items: seq<Item>): (configs: seq<ContextConfig>)
    ensures |configs| == |items| && forall i :: 0 <= i < |items| ==> configs[i] == ConfigOf(items[i])
  {
    seq(|items|, i requires 0 <= i < |items| => ConfigOf(items[i]))
  }

  predicate Loadable(items: seq<Item>) {
    && (forall i :: 0 <= i < |items| ==> DistinctSwitches(items[i].switches))
    && Compatible(Configs(items))
  }

  /** What loading yields: every listed context, or the default one when anything at all is wrong. */
  function Load(file: Option<seq<Item>>): map<nat, ContextConfig> {
    if file.Some? && Loadable(file.value) then ByGuid(Configs(file.value)) else map[0 := DEFAULT_CONTEXT]
  }

  /** The order of two contexts in the file does not matter for their conflict. */
  lemma ConflictIsSymmetric(a: ContextConfig, b: ContextConfig)
    ensures HasConflict(a, b) <==> HasConflict(b, a)
  {}

  /** A map holds exactly the given contexts, each under its guid. */
  ghost predicate HoldsAll(m: map<nat, ContextConfig>, configs: seq<ContextConfig>) {
    && (forall i :: 0 <= i < |configs| ==> configs[i].guid in m && m[configs[i].guid] == configs[i])
    && (forall g :: g in m ==> m[g].guid == g && exists i :: 0 <= i < |configs| && configs[i] == m[g])
  }

  lemma HoldsOneMore(m: map<nat, ContextConfig>, front: seq<ContextConfig>, last: ContextConfig)
    requires HoldsAll(m, front) && forall i :: 0 <= i < |front| ==> front[i].guid != last.guid
    ensures HoldsAll(m[last.guid := last], front + [last])
  {
    var all := front + [last];
    assert all[|front|] == last;
    forall g | g in m ensures exists i :: 0 <= i < |all| && all[i] == m[g] {
      var i :| 0 <= i < |front| && front[i] == m[g];
      assert all[i] == m[g];
    }
  }

  lemma {:induction false} ByGuidKeepsAll(configs: seq<ContextConfig>)
    requires Compatible(configs)
    ensures HoldsAll(ByGuid(configs), configs)
    decreases |configs|
  {
    if |configs| > 0 {
      var front, last := configs[..|configs| - 1], configs[|configs| - 1];
      assert HoldsAll(ByGuid(front), front) by {
        ByGuidKeepsAll(front);
      }
      forall i | 0 <= i < |front| ensures front[i].guid != last.guid {
        assert !HasConflict(configs[i], last);
      }
      HoldsOneMore(ByGuid(front), front, last);
      assert configs == front + [last];
    }
  }

  /** Checking a new context against the loaded ones is checking it against every earlier item. */
  lemma OneMoreContext(configs: seq<ContextConfig>, more: ContextConfig)
    requires Compatible(configs)
    ensures ByGuid(configs + [more]) == ByGuid(configs)[more.guid := more]
    ensures Compatible(configs + [more])
       <==> forall g :: g in ByGuid(configs) ==> !HasConflict(ByGuid(configs)[g], more)
  {
    var all := configs + [more];
    assert all[..|configs|] == configs;
    ByGuidKeepsAll(configs);
    assert forall i :: 0 <= i < |configs| ==> all[i] == configs[i];
    if Compatible(all) {
      forall g | g in ByGuid(configs)
        ensures !HasConflict(ByGuid(configs)[g], more)
      {
        var i :| 0 <= i < |configs| && configs[i] == ByGuid(configs)[g];
        assert !HasConflict(all[i], all[|configs|]);
      }
    }
  }

  lemma CompatiblePrefix(configs: seq<ContextConfig>, n: nat)
    requires n <= |configs|
    ensures Compatible(configs) ==> Compatible(configs[..n])
  {}

  /**
   * Two contexts that may stand in one file: they differ in their names and in three of their
   * databases, and share an endpoint of one purpose only if one of them is locked to Redis or
   * neither says whether it uses ZMQ.
   */
  predicate MayCoexist(a: ContextConfig, b: ContextConfig) {
    && a.guid != b.guid && a.name != b.name
    && a.dbAsic != b.dbAsic && a.dbCounters != b.dbCounters && a.dbFlex != b.dbFlex
    && (a.zmqEndpoint == b.zmqEndpoint || a.zmqNtfEndpoint == b.zmqNtfEndpoint ==>
          a.zmqEnable.Disabled? || b.zmqEnable.Disabled? || (a.zmqEnable == b.zmqEnable == Unspecified))
  }

  lemma ConflictExactly(a: ContextConfig, b: ContextConfig)
    ensures HasConflict(a, b) <==> !MayCoexist(a, b)
  {}

  /** Loaded contexts never conflict pairwise, whatever was in the file. */
  lemma LoadedContextsAreCompatible(file: Option<seq<Item>>, g: nat, h: nat)
    requires g in Load(file) && h in Load(file) && g != h
    ensures Load(file)[g].guid == g && Load(file)[h].guid == h
    ensures MayCoexist(Load(file)[g], Load(file)[h]) && !HasConflict(Load(file)[g], Load(file)[h])
  {
    if file.Some? && Loadable(file.value) {
      var configs := Configs(file.value);
      ByGuidKeepsAll(configs);
      var i :| 0 <= i < |configs| && configs[i] == Load(file)[g];
      var j :| 0 <= j < |configs| && configs[j] == Load(file)[h];
      ConflictIsSymmetric(configs[i], configs[j]);
    }
  }

  /** The context of an item: its own values, and the defaults for endpoints that it leaves out. */
  predicate IsContextOf(config: ContextConfig, item: Item) {
    && config.guid == item.guid && config.name == item.name && config.switches == item.switches
    && config.dbAsic == item.dbAsic && config.dbCounters == item.dbCounters
    && config.dbFlex == item.dbFlex && config.dbState == item.dbState
    && (config.zmqEnable.Enabled? <==> item.zmqEnable == Some(true))
    && (config.zmqEnable.Disabled? <==> item.zmqEnable == Some(false))
    && item.zmqEndpoint in {None, Some(config.zmqEndpoint)}
    && item.zmqNtfEndpoint in {None, Some(config.zmqNtfEndpoint)}
    && (item.zmqEndpoint == None ==> config.zmqEndpoint == "tcp://127.0.0.1:5555")
    && (item.zmqNtfEndpoint == None ==> config.zmqNtfEndpoint == "tcp://127.0.0.1:5556")
  }

  lemma ConfigsAreContexts(item: Item, config: ContextConfig)
    ensures IsContextOf(config, item) <==> config == ConfigOf(item)
  {}

  /**
   * The contexts of a file are in order: they may coexist, and the switches of each have indexes and
   * infos of their own.
   */
  predicate InOrder(configs: seq<ContextConfig>) {
    && (forall i, j :: 0 <= i < j < |configs| ==> MayCoexist(configs[i], configs[j]))
    && forall i, k, l :: 0 <= i < |configs| && 0 <= k < l < |configs[i].switches| ==>
         && configs[i].switches[k].index != configs[i].switches[l].index
         && configs[i].switches[k].hardwareInfo != configs[i].switches[l].hardwareInfo
  }

  lemma LoadableExactly(items: seq<Item>)
    ensures Loadable(items) <==> InOrder(Configs(items))
  {
    var configs := Configs(items);
    assert forall i, j :: 0 <= i < j < |configs| ==>
      (HasConflict(configs[i], configs[j]) <==> !MayCoexist(configs[i], configs[j]));
    assert forall i :: 0 <= i < |items| ==> configs[i].switches == items[i].switches;
  }

  /**
   * What loading yields: exactly the contexts of the items, each under its guid, if these are in
   * order; otherwise, or without a file, the default context alone.
   */
  lemma LoadsExactly(file: Option<seq<Item>>, configs: seq<ContextConfig>)
    requires file.Some? ==> |configs| == |file.value|
                            && forall i :: 0 <= i < |configs| ==> IsContextOf(configs[i], file.value[i])
    ensures if file.Some? && InOrder(configs)
            then HoldsAll(Load(file), configs)
            else Load(file) == map[0 := DEFAULT_CONTEXT]
  {
    if file.Some? {
      forall i | 0 <= i < |configs| ensures configs[i] == ConfigOf(file.value[i]) {
        ConfigsAreContexts(file.value[i], configs[i]);
      }
      assert configs == Configs(file.value);
      LoadableExactly(file.value);
      if InOrder(configs) {
        ByGuidKeepsAll(configs);
      }
    }
  }

  class ContextConfigContainer {
    var contexts: map<nat, ContextConfig>

    constructor ()
      ensures contexts == map[]
    {
      contexts := map[];
    }

    /** Throws, changing nothing, when the new context conflicts with one already present. */
    method Insert(config: ContextConfig) returns (r: Result<()>)
      modifies this
      ensures r.Thrown? <==> exists g :: g in old(contexts) && HasConflict(old(contexts)[g], config)
      ensures contexts == if r.Thrown? then old(contexts) else old(contexts)[config.guid := config]
    {
      var rest := contexts.Keys;
      while rest != {}
        invariant rest <= contexts.Keys && contexts == old(contexts)
        invariant forall g :: g in contexts && g !in rest ==> !HasConflict(contexts[g], config)
        decreases |rest|
      {
        var g :| g in rest;
        if HasConflict(contexts[g], config) {
          return Thrown;
        }
        rest := rest - {g};
      }
      contexts := contexts[config.guid := config];
      return Returned(());
    }

    /** One round of the loop over "switches". */
    static method InsertNext(scc: SwitchConfigContainer, ghost earlier: seq<SwitchConfig>, config: SwitchConfig)
      returns (r: Result<()>)
      requires scc.Valid() && DistinctSwitches(earlier)
      requires scc.indexToConfig.Keys == SwitchIndexes(earlier)
      requires scc.hwinfoToConfig.Keys == HardwareInfos(earlier)
      modifies scc
      ensures scc.Valid()
      ensures r.Returned? <==> DistinctSwitches(earlier + [config])
      ensures r.Returned? ==>
                && scc.indexToConfig.Keys == SwitchIndexes(earlier + [config])
                && scc.hwinfoToConfig.Keys == HardwareInfos(earlier + [config])
    {
      OneMoreSwitch(earlier, config);
      r := scc.Insert(config);
    }

    /** The loop over "switches": each is inserted into the context's own container. */
    static method SwitchesAccepted(switches: seq<SwitchConfig>) returns (ok: bool)
      ensures ok <==> DistinctSwitches(switches)
    {
      var scc := new SwitchConfigContainer();
      for k := 0 to |switches|
        invariant fresh(scc) && scc.Valid()
        invariant DistinctSwitches(switches[..k])
        invariant scc.indexToConfig.Keys == SwitchIndexes(switches[..k])
        invariant scc.hwinfoToConfig.Keys == HardwareInfos(switches[..k])
      {
        var inserted := InsertNext(scc, switches[..k], switches[k]);
        assert switches[..k + 1] == switches[..k] + [switches[k]];
        if inserted.Thrown? {
          return false;
        }
      }
      assert switches[..|switches|] == switches;
      return true;
    }

    static method GetDefault() returns (ccc: ContextConfigContainer)
      ensures fresh(ccc) && ccc.contexts == map[0 := DEFAULT_CONTEXT]
    {
      ccc := new ContextConfigContainer();
      ccc.contexts := map[0 := DEFAULT_CONTEXT];
    }

    /** `loadFromFile`: any exception on the way falls back to the default container. */
    static method LoadFromFile(file: Option<seq<Item>>) returns (ccc: ContextConfigContainer)
      ensures fresh(ccc) && ccc.contexts == Load(file)
    {
      if file.None? {
        ccc := GetDefault();
        return;
      }
      var items := file.value;
      ccc := new ContextConfigContainer();
      for idx := 0 to |items|
        invariant fresh(ccc) && LoadableUpTo(items, idx) && ccc.contexts == ByGuid(Configs(items)[..idx])
      {
        var cc := ConfigOf(items[idx]);
        NextItem(items, idx);
        var accepted := SwitchesAccepted(cc.switches);
        if !accepted {
          ccc := GetDefault();
          return;
        }
        var inserted := ccc.Insert(cc);
        if inserted.Thrown? {
          ccc := GetDefault();
          return;
        }
      }
      assert Configs(items)[..|items|] == Configs(items);
    }
  }

  predicate LoadableUpTo(items: seq<Item>, n: nat)
    requires n <= |items|
  {
    (forall i :: 0 <= i < n ==> DistinctSwitches(items[i].switches)) && Compatible(Configs(items)[..n])
  }

  /** One round of the loading loop: what it adds, and when it gives up on the whole file. */
  lemma NextItem(items: seq<Item>, idx: nat)
    requires idx < |items| && LoadableUpTo(items, idx)
    ensures var earlier, cc := ByGuid(Configs(items)[..idx]), ConfigOf(items[idx]);
            && ByGuid(Configs(items)[..idx + 1]) == earlier[cc.guid := cc]
            && (LoadableUpTo(items, idx + 1) <==>
                  DistinctSwitches(items[idx].switches) && forall g :: g in earlier ==> !HasConflict(earlier[g], cc))
            && (!LoadableUpTo(items, idx + 1) ==> !Loadable(items))
  {
    var configs := Configs(items);
    OneMoreContext(configs[..idx], configs[idx]);
    assert configs[..idx + 1] == configs[..idx] + [configs[idx]];
    CompatiblePrefix(configs, idx + 1);
  }
}
