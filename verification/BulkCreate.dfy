/**
 * Bulk create over the client/server channel: lib/ClientSai.cpp prints the request,
 * lib/ServerSai.cpp runs it and replies, and the client realigns statuses and ids.
 */
module BulkCreate {
  import opened Common
  import opened Text
  import opened Numerals
  import opened AttributeText
  import opened Sequences

  type Fields = seq<(string, string)>

  /** What travels between client and server: a key and a list of pairs. */
  datatype Message = Message(key: string, values: Fields)

  datatype Mode = StopOnError | IgnoreError

  datatype BulkRequest = BulkRequest(objectType: string, switchId: Oid, mode: Mode, lists: seq<seq<Attribute>>)

  datatype Kind = Unknown | ObjectIdType | EntryType

  /**
   * The server side that the model leaves open: the metadata, what SaiSerialize can read, and the
   * SAI implementation, which answers a bulk create with one status for the whole call and fills
   * one status and one id for every object.
   */
  datatype Host = Host(
    kind: string -> Kind,
    readable: Attribute -> bool,
    status: BulkRequest -> Status,
    statusOf: (BulkRequest, nat) -> Status,
    oidOf: (BulkRequest, nat) -> Oid)

  /** `2 * object_count` in 32 bits. */
  function Doubled(n: nat): nat { ToUint32(2 * n) }

  // ---------------------------------------------------------------- the request

  function RequestValues(switchId: Oid, lists: seq<seq<Attribute>>): (values: Fields)
    ensures |values| == |lists|
  {
    seq(|lists|, i requires 0 <= i < |lists| => (SerializeOid(switchId), RequestText(lists[i])))
  }

  function RequestOf(objectType: string, switchId: Oid, lists: seq<seq<Attribute>>): Message {
    Message(objectType + ":" + ToString(|lists|), RequestValues(switchId, lists))
  }

  // ---------------------------------------------------------------- the server

  function TypeInKey(key: string): string {
    match Find(key, ':', 0)
    case None => key
    case Some(i) => key[..i]
  }

  function ReadLists(values: Fields, readable: Attribute -> bool): (r: Result<seq<seq<Attribute>>>)
    ensures r.Returned? ==> |r.value| == |values|
  {
    if values == [] then Returned([])
    else
      var n := |values| - 1;
      match (ReadLists(values[..n], readable), Loaded(Parse(values[n].1), readable))
      case (Returned(lists), Returned(list)) => Returned(lists + [list])
      case _ => Thrown
  }

  function FieldsOf(values: Fields, n: nat): (fields: seq<string>)
    requires n <= |values|
    ensures |fields| == n && forall i :: 0 <= i < n ==> fields[i] == values[i].0
  {
    seq(n, i requires 0 <= i < n => values[i].0)
  }

  function ReadIds(texts: seq<string>): (r: Result<seq<Oid>>)
    ensures r.Returned? ==> |r.value| == |texts|
  {
    if texts == [] then Returned([])
    else
      var n := |texts| - 1;
      match (ReadIds(texts[..n]), DeserializeOid(texts[n]))
      case (Returned(ids), Returned(id)) => Returned(ids + [id])
      case _ => Thrown
  }

  function StatusesOf(host: Host, request: BulkRequest, n: nat): (statuses: seq<Status>)
    ensures |statuses| == n && forall i :: 0 <= i < n ==> statuses[i] == host.statusOf(request, i)
  {
    seq(n, i requires 0 <= i < n => host.statusOf(request, i))
  }

  function OidsOf(host: Host, request: BulkRequest, n: nat): (oids: seq<Oid>)
    ensures |oids| == n && forall i :: 0 <= i < n ==> oids[i] == host.oidOf(request, i)
  {
    seq<Oid>(n, i requires 0 <= i < n => host.oidOf(request, i))
  }

  function StatusPairs(statuses: seq<Status>): (pairs: Fields)
    ensures |pairs| == |statuses| && forall i :: 0 <= i < |pairs| ==> pairs[i] == (statuses[i], "")
  {
    seq(|statuses|, i requires 0 <= i < |statuses| => (statuses[i], ""))
  }

  function OidPair(oid: Oid): (string, string) { ("oid", SerializeOid(oid)) }

  function OidPairs(oids: seq<Oid>): (pairs: Fields)
    ensures |pairs| == |oids| && forall i :: 0 <= i < |pairs| ==> pairs[i] == OidPair(oids[i])
  {
    seq(|oids|, i requires 0 <= i < |oids| => OidPair(oids[i]))
  }

  /** The pairs of a reply: all statuses, then all ids. */
  function ReplyValues(statuses: seq<Status>, oids: seq<Oid>): Fields { StatusPairs(statuses) + OidPairs(oids) }

  function ReplyTo(host: Host, request: BulkRequest): Message {
    var n := |request.lists|;
    Message(host.status(request), ReplyValues(StatusesOf(host, request, n), OidsOf(host, request, n)))
  }

  /**
   * What the server sends back; nothing when it throws before it replies. A type that is not an
   * object id takes the path of entries, which is not part of this model.
   */
  function Serve(host: Host, message: Message): Result<Message>
    requires host.kind(TypeInKey(message.key)) != EntryType
  {
    var objectType := TypeInKey(message.key);
    if host.kind(objectType) == Unknown then Thrown
    else
      match (ReadLists(message.values, host.readable), ReadIds(FieldsOf(message.values, |message.values|)))
      case (Returned(lists), Returned(ids)) =>
        if |ids| == 0 then Thrown
        else Returned(ReplyTo(host, BulkRequest(objectType, ids[0], IgnoreError, lists)))
      case _ => Thrown
  }

  class ServerSai {
    const host: Host
    /** The messages handed to the selectable channel. */
    var sent: seq<Message>

    constructor (host: Host)
      ensures this.host == host && sent == []
    {
      this.host := host;
      sent := [];
    }

    method SendBulkApiResponse(status: Status, oids: seq<Oid>, statuses: seq<Status>)
      requires |oids| == |statuses|
      modifies this
      ensures sent == old(sent) + [Message(status, ReplyValues(statuses, oids))]
    {
      var entry: Fields := [];
      for idx := 0 to |statuses|
        invariant entry == StatusPairs(statuses)[..idx]
      {
        entry := entry + [(statuses[idx], "")];
      }
      for idx := 0 to |oids|
        invariant entry == StatusPairs(statuses) + OidPairs(oids)[..idx]
      {
        entry := entry + [("oid", SerializeOid(oids[idx]))];
      }
      assert OidPairs(oids)[..|oids|] == OidPairs(oids);
      sent := sent + [Message(status, entry)];
    }

    method ProcessBulkOid(objectType: string, strObjectIds: seq<string>, lists: seq<seq<Attribute>>)
      returns (ok: bool)
      requires |strObjectIds| == |lists|
      modifies this
      ensures var ids := ReadIds(strObjectIds);
              if ids.Returned? && |lists| > 0 then
                ok && sent == old(sent) + [ReplyTo(host, BulkRequest(objectType, ids.value[0], IgnoreError, lists))]
              else
                !ok && sent == old(sent)
    {
      var objectIds: seq<Oid> := [];
      for idx := 0 to |strObjectIds|
        invariant ReadIds(strObjectIds[..idx]) == Returned(objectIds)
      {
        assert strObjectIds[..idx + 1][..idx] == strObjectIds[..idx];
        match DeserializeOid(strObjectIds[idx]) {
          case Thrown =>
            UnreadableIdThrows(strObjectIds, idx + 1);
            return false;
          case Returned(oid) =>
            objectIds := objectIds + [oid];
        }
      }
      assert strObjectIds[..|strObjectIds|] == strObjectIds;
      if |objectIds| == 0 {
        return false;
      }
      var request := BulkRequest(objectType, objectIds[0], IgnoreError, lists);
      SendBulkApiResponse(host.status(request), OidsOf(host, request, |lists|), StatusesOf(host, request, |lists|));
      return true;
    }

    /** The loop that takes the request apart. */
    method ReadEntries(values: Fields)
      returns (ok: bool, objectIds: seq<string>, attributes: seq<seq<Attribute>>)
      ensures ok == ReadLists(values, host.readable).Returned?
      ensures ok ==> attributes == ReadLists(values, host.readable).value
      ensures ok ==> objectIds == FieldsOf(values, |values|)
    {
      objectIds, attributes := [], [];
      for idx := 0 to |values|
        invariant ReadLists(values[..idx], host.readable) == Returned(attributes)
        invariant objectIds == FieldsOf(values, idx)
      {
        NextList(values, idx, host.readable);
        FieldsOneMore(values, idx);
        objectIds := objectIds + [values[idx].0];
        var entries := SplitFieldValues(values[idx].1);
        var list := new SaiAttributeList();
        var loaded := list.Load(entries, host.readable);
        if !loaded {
          UnreadableListThrows(values, idx + 1, host.readable);
          return false, [], [];
        }
        attributes := attributes + [list.attributes];
      }
      assert values[..|values|] == values;
      ok := true;
    }

    method ProcessBulkQuadEvent(kco: Message) returns (ok: bool)
      requires host.kind(TypeInKey(kco.key)) != EntryType
      modifies this
      ensures match Serve(host, kco)
              case Thrown => !ok && sent == old(sent)
              case Returned(reply) => ok && sent == old(sent) + [reply]
    {
      var colon := Find(kco.key, ':', 0);
      var strObjectType := if colon.None? then kco.key else kco.key[..colon.value];
      if host.kind(strObjectType) == Unknown {
        return false;
      }
      var read, objectIds, attributes := ReadEntries(kco.values);
      if !read {
        return false;
      }
      ok := ProcessBulkOid(strObjectType, objectIds, attributes);
    }
  }

  lemma FieldsOneMore(values: Fields, idx: nat)
    requires idx < |values|
    ensures FieldsOf(values, idx + 1) == FieldsOf(values, idx) + [values[idx].0]
  {}

  lemma NextList(values: Fields, idx: nat, readable: Attribute -> bool)
    requires idx < |values| && ReadLists(values[..idx], readable).Returned?
    ensures var list := Loaded(Parse(values[idx].1), readable);
            ReadLists(values[..idx + 1], readable)
            == if list.Thrown? then Thrown else Returned(ReadLists(values[..idx], readable).value + [list.value])
  {
    assert values[..idx + 1][..idx] == values[..idx];
  }

  lemma {:induction false} UnreadableIdThrows(values: seq<string>, n: nat)
    requires n <= |values| && ReadIds(values[..n]) == Thrown
    ensures ReadIds(values) == Thrown
    decreases |values|
  {
    if n < |values| {
      assert values[..|values| - 1][..n] == values[..n];
      UnreadableIdThrows(values[..|values| - 1], n);
    } else {
      assert values[..n] == values;
    }
  }

  lemma {:induction false} UnreadableListThrows(values: Fields, n: nat, readable: Attribute -> bool)
    requires n <= |values| && ReadLists(values[..n], readable) == Thrown
    ensures ReadLists(values, readable) == Thrown
    decreases |values|
  {
    if n < |values| {
      assert values[..|values| - 1][..n] == values[..n];
      UnreadableListThrows(values[..|values| - 1], n, readable);
    } else {
      assert values[..n] == values;
    }
  }

  // ---------------------------------------------------------------- the client's reading of the reply

  /** The ids found in `values[lo..hi]`; `at` throws beyond the end, and so does text that is no id. */
  function CollectOids(values: Fields, lo: nat, hi: nat): (r: Result<seq<Oid>>)
    decreases hi
  {
    if hi <= lo then Returned([])
    else
      match CollectOids(values, lo, hi - 1)
      case Thrown => Thrown
      case Returned(oids) =>
        if hi > |values| then Thrown
        else if values[hi - 1].0 != "oid" then Returned(oids)
        else
          match DeserializeOid(values[hi - 1].1)
          case Thrown => Thrown
          case Returned(oid) => Returned(oids + [oid])
  }

  datatype BulkResult = BulkResult(status: Status, statuses: seq<Status>, oids: seq<Oid>)

  /**
   * `waitForBulkResponse` for a bulk create of `n` objects. A list shorter than `n` passes the
   * count check only where doubling wraps; reading past its end counts as a failure.
   */
  function BulkResponse(n: nat, reply: Message): Result<BulkResult> {
    if (|reply.values| != Doubled(n) && |reply.values| != n) || |reply.values| < n then Thrown
    else
      match CollectOids(reply.values, n, Doubled(n))
      case Thrown => Thrown
      case Returned(oids) =>
        Returned(BulkResult(reply.key, FieldsOf(reply.values, n), oids))
  }

  /** The ids the caller receives for its first `n` objects: that of the same position,
      or null where the object failed. */
  function Realigned(statuses: seq<Status>, oids: seq<Oid>, n: nat): (r: Result<seq<Oid>>)
    requires n <= |statuses|
    ensures r.Returned? ==> |r.value| == n
  {
    if n == 0 then Returned([])
    else
      match Realigned(statuses, oids, n - 1)
      case Thrown => Thrown
      case Returned(ids) =>
        if statuses[n - 1] != SUCCESS then Returned(ids + [NULL_OID])
        else if n <= |oids| then Returned(ids + [oids[n - 1]])
        else Thrown
  }

  /** What `wait` hands over when no reply comes before the timeout. */
  const NO_REPLY := Message(FAILURE, [])

  datatype Created = Created(status: Status, statuses: seq<Status>, ids: seq<Oid>)

  /** What the caller of a bulk create of `n` objects ends up with, given the reply. */
  function Received(n: nat, reply: Message): Result<Created> {
    match BulkResponse(n, reply)
    case Thrown => Thrown
    case Returned(result) =>
      match Realigned(result.statuses, result.oids, n)
      case Thrown => Thrown
      case Returned(ids) => Returned(Created(result.status, result.statuses, ids))
  }

  /** A whole remote bulk create as the caller sees it. The request has no place for the error mode. */
  function RemoteBulkCreate(host: Host, objectType: string, switchId: Oid, mode: Mode, lists: seq<seq<Attribute>>)
    : Result<Created>
    requires host.kind(TypeInKey(RequestOf(objectType, switchId, lists).key)) != EntryType
  {
    match Serve(host, RequestOf(objectType, switchId, lists))
    case Thrown => Received(|lists|, NO_REPLY)
    case Returned(reply) => Received(|lists|, reply)
  }

  /** Ids by position, null where the object failed. */
  function NullWhereFailed(statuses: seq<Status>, oids: seq<Oid>): (ids: seq<Oid>)
    requires |statuses| == |oids|
    ensures |ids| == |oids|
    ensures forall i :: 0 <= i < |ids| ==> ids[i] == if statuses[i] == SUCCESS then oids[i] else NULL_OID
  {
    seq(|oids|, i requires 0 <= i < |oids| => if statuses[i] == SUCCESS then oids[i] else NULL_OID)
  }

  /** The same call made on the SAI implementation itself, the ids of failed objects being null. */
  function LocalBulkCreate(host: Host, request: BulkRequest): Created {
    var n := |request.lists|;
    var statuses := StatusesOf(host, request, n);
    Created(host.status(request), statuses, NullWhereFailed(statuses, OidsOf(host, request, n)))
  }

  // ---------------------------------------------------------------- the round trip

  lemma TypeTravels(objectType: string, n: nat)
    requires ':' !in objectType
    ensures TypeInKey(objectType + ":" + ToString(n)) == objectType
  {
    FindAfterFree(objectType, ':', ToString(n));
    assert objectType + ":" + ToString(n) == objectType + [':'] + ToString(n);
  }

  /** The key of a request names the type and, behind the colon, the number of objects. */
  lemma RequestKeyReads(objectType: string, switchId: Oid, lists: seq<seq<Attribute>>)
    requires ':' !in objectType
    ensures var key := RequestOf(objectType, switchId, lists).key;
            && |objectType| < |key| && TypeInKey(key) == objectType
            && Stoi(key[|objectType| + 1..]) == InInt(|lists|)
  {
    TypeTravels(objectType, |lists|);
    StoiOfToString(|lists|);
    var key := objectType + ":" + ToString(|lists|);
    assert key[|objectType| + 1..] == ToString(|lists|);
  }

  predicate AllReadable(lists: seq<seq<Attribute>>, readable: Attribute -> bool) {
    forall i, k :: 0 <= i < |lists| && 0 <= k < |lists[i]| ==> readable(lists[i][k])
  }

  predicate AllDeliverable(lists: seq<seq<Attribute>>) {
    forall i :: 0 <= i < |lists| ==> Deliverable(lists[i])
  }

  lemma RequestValuesPrefix(switchId: Oid, lists: seq<seq<Attribute>>, n: nat)
    requires n <= |lists|
    ensures RequestValues(switchId, lists)[..n] == RequestValues(switchId, lists[..n])
  {}

  lemma LastListTravels(values: Fields, lists: seq<seq<Attribute>>, readable: Attribute -> bool)
    requires |values| == |lists| > 0
    ensures var n := |lists| - 1;
            ReadLists(values, readable) == Returned(lists)
            <==> ReadLists(values[..n], readable) == Returned(lists[..n])
                 && Loaded(Parse(values[n].1), readable) == Returned(lists[n])
  {
    var n := |lists| - 1;
    var front, last := ReadLists(values[..n], readable), Loaded(Parse(values[n].1), readable);
    AllButLast(lists);
    if front.Returned? && last.Returned? {
      AppendIsInjective(front.value, last.value, lists[..n], lists[n]);
    }
  }

  lemma DeliverableOneMore(lists: seq<seq<Attribute>>)
    requires lists != []
    ensures AllDeliverable(lists) <==> AllDeliverable(lists[..|lists| - 1]) && Deliverable(lists[|lists| - 1])
  {
    var front := lists[..|lists| - 1];
    assert forall i :: 0 <= i < |front| ==> lists[i] == front[i];
  }

  /** The server reads exactly these lists from these pairs. */
  predicate Travels(values: Fields, lists: seq<seq<Attribute>>, readable: Attribute -> bool) {
    ReadLists(values, readable) == Returned(lists)
  }

  lemma NextListTravels(switchId: Oid, lists: seq<seq<Attribute>>, readable: Attribute -> bool)
    requires AllReadable(lists, readable) && lists != []
    ensures var front, last := lists[..|lists| - 1], lists[|lists| - 1];
            Travels(RequestValues(switchId, lists), lists, readable)
            <==> Travels(RequestValues(switchId, front), front, readable) && Deliverable(last)
  {
    var n, values := |lists| - 1, RequestValues(switchId, lists);
    RequestValuesPrefix(switchId, lists, n);
    LastListTravels(values, lists, readable);
    assert Loaded(Parse(values[n].1), readable) == Returned(lists[n]) <==> Deliverable(lists[n]) by {
      DeliveredExactly(lists[n], readable);
    }
  }

  /** The server reads the client's lists, in order and unchanged, exactly when each one is deliverable. */
  lemma {:induction false} ListsTravelExactly(switchId: Oid, lists: seq<seq<Attribute>>, readable: Attribute -> bool)
    requires AllReadable(lists, readable)
    ensures ReadLists(RequestValues(switchId, lists), readable) == Returned(lists) <==> AllDeliverable(lists)
    decreases |lists|
  {
    if lists != [] {
      ListsTravelExactly(switchId, lists[..|lists| - 1], readable);
      NextListTravels(switchId, lists, readable);
      DeliverableOneMore(lists);
    }
  }

  lemma {:induction false} SwitchIdTravels(switchId: Oid, texts: seq<string>)
    requires forall i :: 0 <= i < |texts| ==> texts[i] == SerializeOid(switchId)
    ensures var ids := ReadIds(texts);
            ids.Returned? && forall i :: 0 <= i < |texts| ==> ids.value[i] == switchId
    decreases |texts|
  {
    if texts != [] {
      SwitchIdTravels(switchId, texts[..|texts| - 1]);
      OidRoundTrip(switchId);
    }
  }

  lemma OneMoreOid(values: Fields, lo: nat, hi: nat, oid: Oid)
    requires lo < hi <= |values| && values[hi - 1] == OidPair(oid)
    requires CollectOids(values, lo, hi - 1).Returned?
    ensures CollectOids(values, lo, hi) == Returned(CollectOids(values, lo, hi - 1).value + [oid])
  {
    OidRoundTrip(oid);
  }

  /** The pairs from `lo` on are those of the ids. */
  predicate OidsFrom(values: Fields, lo: nat, oids: seq<Oid>) {
    lo <= |values| && values[lo..] == OidPairs(oids)
  }

  /** The first `k` ids are collected. */
  predicate Collected(values: Fields, lo: nat, oids: seq<Oid>, k: nat) {
    k <= |oids| && CollectOids(values, lo, lo + k) == Returned(oids[..k])
  }

  lemma OidPairAt(values: Fields, lo: nat, oids: seq<Oid>, k: nat)
    requires OidsFrom(values, lo, oids) && k < |oids|
    ensures lo + k < |values| && values[lo + k] == OidPair(oids[k])
  {
    assert values[lo + k] == values[lo..][k];
  }

  lemma NextOidTravels(values: Fields, lo: nat, oids: seq<Oid>, k: nat)
    requires OidsFrom(values, lo, oids) && k < |oids| && Collected(values, lo, oids, k)
    ensures Collected(values, lo, oids, k + 1)
  {
    OidPairAt(values, lo, oids, k);
    OneMoreOid(values, lo, lo + k + 1, oids[k]);
    TakeOneMore(oids, k);
  }

  lemma {:induction false} OidsTravel(values: Fields, lo: nat, oids: seq<Oid>, k: nat)
    requires OidsFrom(values, lo, oids) && k <= |oids|
    ensures Collected(values, lo, oids, k)
    decreases k
  {
    if k > 0 {
      OidsTravel(values, lo, oids, k - 1);
      NextOidTravels(values, lo, oids, k - 1);
    }
  }

  lemma {:induction false} RealignedByPosition(statuses: seq<Status>, oids: seq<Oid>, n: nat)
    requires n <= |statuses| == |oids|
    ensures Realigned(statuses, oids, n) == Returned(NullWhereFailed(statuses, oids)[..n])
    decreases n
  {
    if n > 0 {
      RealignedByPosition(statuses, oids, n - 1);
      var ids := NullWhereFailed(statuses, oids);
      assert ids[..n] == ids[..n - 1] + [ids[n - 1]];
    }
  }

  lemma RightCount(n: nat, reply: Message, oids: seq<Oid>)
    requires |reply.values| == Doubled(n) && n <= |reply.values|
    requires CollectOids(reply.values, n, Doubled(n)) == Returned(oids)
    ensures BulkResponse(n, reply) == Returned(BulkResult(reply.key, FieldsOf(reply.values, n), oids))
  {}

  lemma StatusesTravel(statuses: seq<Status>, oids: seq<Oid>)
    ensures FieldsOf(ReplyValues(statuses, oids), |statuses|) == statuses
  {}

  lemma DoubledFits(n: nat)
    requires n < TWO_31
    ensures Doubled(n) == n + n
  {}

  lemma OidsFollowStatuses(statuses: seq<Status>, oids: seq<Oid>)
    ensures OidsFrom(ReplyValues(statuses, oids), |statuses|, oids)
  {}

  lemma AllCollected(values: Fields, lo: nat, oids: seq<Oid>, hi: nat)
    requires OidsFrom(values, lo, oids) && hi == lo + |oids|
    ensures CollectOids(values, lo, hi) == Returned(oids)
  {
    OidsTravel(values, lo, oids, |oids|);
    TakeAll(oids);
  }

  lemma AllOidsTravel(statuses: seq<Status>, oids: seq<Oid>)
    requires |statuses| == |oids| < TWO_31
    ensures CollectOids(ReplyValues(statuses, oids), |oids|, Doubled(|oids|)) == Returned(oids)
  {
    DoubledFits(|oids|);
    OidsFollowStatuses(statuses, oids);
    AllCollected(ReplyValues(statuses, oids), |oids|, oids, Doubled(|oids|));
  }

  lemma ReplyIsRead(status: Status, statuses: seq<Status>, oids: seq<Oid>)
    requires 0 < |statuses| == |oids| < TWO_31
    ensures BulkResponse(|oids|, Message(status, ReplyValues(statuses, oids)))
            == Returned(BulkResult(status, statuses, oids))
  {
    AllOidsTravel(statuses, oids);
    StatusesTravel(statuses, oids);
    RightCount(|oids|, Message(status, ReplyValues(statuses, oids)), oids);
  }

  /** The caller of a bulk create receives from the reply what the implementation answered. */
  lemma ReceivedIsLocal(host: Host, request: BulkRequest)
    requires 0 < |request.lists| < TWO_31
    ensures Received(|request.lists|, ReplyTo(host, request)) == Returned(LocalBulkCreate(host, request))
  {
    var n := |request.lists|;
    var statuses, oids := StatusesOf(host, request, n), OidsOf(host, request, n);
    ReplyIsRead(host.status(request), statuses, oids);
    RealignedByPosition(statuses, oids, n);
    assert NullWhereFailed(statuses, oids)[..n] == NullWhereFailed(statuses, oids);
  }

  lemma RequestIsServed(host: Host, objectType: string, switchId: Oid, lists: seq<seq<Attribute>>)
    requires host.kind(objectType) == ObjectIdType && ':' !in objectType
    requires 0 < |lists| && AllReadable(lists, host.readable) && AllDeliverable(lists)
    ensures TypeInKey(RequestOf(objectType, switchId, lists).key) == objectType
    ensures Serve(host, RequestOf(objectType, switchId, lists))
            == Returned(ReplyTo(host, BulkRequest(objectType, switchId, IgnoreError, lists)))
  {
    TypeTravels(objectType, |lists|);
    ListsTravelExactly(switchId, lists, host.readable);
    SwitchIdTravels(switchId, FieldsOf(RequestValues(switchId, lists), |lists|));
  }

  /** Every attribute in the text is readable or named NULL. */
  predicate TextReads(text: string, readable: Attribute -> bool) {
    forall a :: a in Parse(text) ==> a.field == "NULL" || readable(a)
  }

  lemma TextReadsExactly(text: string, readable: Attribute -> bool)
    ensures TextReads(text, readable) <==> Loaded(Parse(text), readable).Returned?
  {
    LoadedThrowsExactly(Parse(text), readable);
  }

  predicate AllRead(values: Fields, readable: Attribute -> bool) {
    forall i :: 0 <= i < |values| ==> TextReads(values[i].1, readable)
  }

  lemma AllReadOneMore(values: Fields, readable: Attribute -> bool)
    requires values != []
    ensures AllRead(values, readable) <==>
              AllRead(values[..|values| - 1], readable) && TextReads(values[|values| - 1].1, readable)
  {
    var front := values[..|values| - 1];
    assert forall i :: 0 <= i < |front| ==> front[i] == values[i];
  }

  lemma OneMoreListReads(values: Fields, readable: Attribute -> bool)
    requires values != []
    ensures ReadLists(values, readable).Returned? <==>
              && ReadLists(values[..|values| - 1], readable).Returned?
              && Loaded(Parse(values[|values| - 1].1), readable).Returned?
  {}

  lemma {:induction false} ListsReadExactly(values: Fields, readable: Attribute -> bool)
    ensures ReadLists(values, readable).Returned? <==> AllRead(values, readable)
    decreases |values|
  {
    if values != [] {
      ListsReadExactly(values[..|values| - 1], readable);
      TextReadsExactly(values[|values| - 1].1, readable);
      AllReadOneMore(values, readable);
      OneMoreListReads(values, readable);
    }
  }

  lemma {:induction false} IdsReadExactly(texts: seq<string>)
    ensures ReadIds(texts).Returned? <==> forall i :: 0 <= i < |texts| ==> DeserializeOid(texts[i]).Returned?
    decreases |texts|
  {
    if texts != [] {
      IdsReadExactly(texts[..|texts| - 1]);
    }
  }

  lemma FieldsReadExactly(values: Fields)
    ensures ReadIds(FieldsOf(values, |values|)).Returned? <==>
              forall i :: 0 <= i < |values| ==> DeserializeOid(values[i].0).Returned?
  {
    var texts := FieldsOf(values, |values|);
    IdsReadExactly(texts);
    assert forall i :: 0 <= i < |values| ==> texts[i] == values[i].0;
  }

  /**
   * The server answers exactly the requests of a known type that have values, all with a readable
   * list and a readable id; it throws on any other one.
   */
  lemma ServerAnswersExactly(host: Host, message: Message)
    requires host.kind(TypeInKey(message.key)) != EntryType
    ensures Serve(host, message).Returned? <==>
              && host.kind(TypeInKey(message.key)) == ObjectIdType && message.values != []
              && AllRead(message.values, host.readable)
              && (forall i :: 0 <= i < |message.values| ==> DeserializeOid(message.values[i].0).Returned?)
  {
    ListsReadExactly(message.values, host.readable);
    FieldsReadExactly(message.values);
  }

  /**
   * The ids of a reply are read from its "oid" pairs alone: pairs of any other name are skipped, and
   * the reading throws exactly for an "oid" pair that holds no id.
   */
  lemma {:induction false} OnlyOidPairsAreRead(values: Fields, lo: nat, hi: nat)
    requires lo <= hi <= |values|
    ensures CollectOids(values, lo, hi).Thrown? <==>
              exists i :: lo <= i < hi && values[i].0 == "oid" && DeserializeOid(values[i].1).Thrown?
    ensures (forall i :: lo <= i < hi ==> values[i].0 != "oid") ==> CollectOids(values, lo, hi) == Returned([])
    ensures lo < hi && values[hi - 1].0 != "oid" ==> CollectOids(values, lo, hi) == CollectOids(values, lo, hi - 1)
    decreases hi
  {
    if lo < hi {
      OnlyOidPairsAreRead(values, lo, hi - 1);
    }
  }

  lemma {:induction false} NoIdsBeyondTheEnd(values: Fields, lo: nat, hi: nat)
    requires |values| <= lo < hi
    ensures CollectOids(values, lo, hi) == Thrown
    decreases hi
  {
    if hi > lo + 1 {
      NoIdsBeyondTheEnd(values, lo, hi - 1);
    }
  }

  /** Without a reply, or with one that does not hold a status and an id for every object, the caller throws. */
  lemma OtherRepliesThrow(n: nat, reply: Message)
    requires 0 < n < TWO_31 && |reply.values| != 2 * n
    ensures Received(n, reply) == Thrown && Received(n, NO_REPLY) == Thrown
  {
    DoubledFits(n);
    if |reply.values| == n {
      NoIdsBeyondTheEnd(reply.values, n, 2 * n);
    }
  }

  /**
   * Remote bulk create is a local bulk create: for every server-side result, the server is asked
   * with the caller's lists and switch, and the caller receives every status, and every id whose
   * object succeeded, at its own position. The caller's error mode is replaced by IgnoreError.
   */
  lemma RemoteIsLocal(host: Host, objectType: string, switchId: Oid, mode: Mode, lists: seq<seq<Attribute>>)
    requires host.kind(objectType) == ObjectIdType && ':' !in objectType
    requires 0 < |lists| < TWO_31
    requires AllReadable(lists, host.readable) && AllDeliverable(lists)
    ensures TypeInKey(RequestOf(objectType, switchId, lists).key) == objectType
    ensures RemoteBulkCreate(host, objectType, switchId, mode, lists)
            == Returned(LocalBulkCreate(host, BulkRequest(objectType, switchId, IgnoreError, lists)))
  {
    RequestIsServed(host, objectType, switchId, lists);
    ReceivedIsLocal(host, BulkRequest(objectType, switchId, IgnoreError, lists));
  }

  /** A server that knows the type and can read the lists. */
  ghost predicate Suits(host: Host, objectType: string, lists: seq<seq<Attribute>>) {
    host.kind(objectType) == ObjectIdType && AllReadable(lists, host.readable)
  }

  /** A SAI implementation whose answer shows the mode it was asked with. */
  function ModeShowingHost(): Host {
    Host(_ => ObjectIdType, _ => true,
         (request: BulkRequest) => if request.mode == IgnoreError then SUCCESS else FAILURE,
         (_, _) => SUCCESS, (_, _) => NULL_OID)
  }

  /**
   * The caller's error mode does not travel: whatever the server's implementation does, a remote
   * bulk create is the local one with the caller's own mode exactly when that mode is IgnoreError.
   */
  lemma ModeTravelsExactly(objectType: string, switchId: Oid, mode: Mode, lists: seq<seq<Attribute>>)
    requires ':' !in objectType && 0 < |lists| < TWO_31 && AllDeliverable(lists)
    ensures TypeInKey(RequestOf(objectType, switchId, lists).key) == objectType
    ensures (forall host: Host :: Suits(host, objectType, lists) ==>
               RemoteBulkCreate(host, objectType, switchId, mode, lists)
               == Returned(LocalBulkCreate(host, BulkRequest(objectType, switchId, mode, lists))))
            <==> mode == IgnoreError
  {
    TypeTravels(objectType, |lists|);
    forall host: Host | Suits(host, objectType, lists)
      ensures RemoteBulkCreate(host, objectType, switchId, mode, lists)
              == Returned(LocalBulkCreate(host, BulkRequest(objectType, switchId, IgnoreError, lists)))
    {
      RemoteIsLocal(host, objectType, switchId, mode, lists);
    }
    if mode != IgnoreError {
      var host := ModeShowingHost();
      assert Suits(host, objectType, lists);
      assert LocalBulkCreate(host, BulkRequest(objectType, switchId, mode, lists)).status == FAILURE;
      assert LocalBulkCreate(host, BulkRequest(objectType, switchId, IgnoreError, lists)).status == SUCCESS;
    }
  }

  lemma ReplyLength(host: Host, message: Message)
    requires host.kind(TypeInKey(message.key)) != EntryType
    ensures Serve(host, message).Returned? ==> |Serve(host, message).value.values| == 2 * |message.values|
    ensures message.values == [] ==> Serve(host, message) == Thrown
  {}

  lemma WrappedCountThrows(n: nat, reply: Message)
    requires TWO_31 <= n < TWO_32 && (|reply.values| == 0 || |reply.values| == 2 * n)
    ensures Received(n, reply) == Thrown
  {
    assert Doubled(n) == 2 * n - TWO_32 < n;
  }

  lemma NothingIsReceived()
    ensures Received(0, NO_REPLY) == Returned(Created(FAILURE, [], []))
  {
    assert FieldsOf([], 0) == [];
  }

  /**
   * Outside 1 to 2^31 - 1 objects there is no round trip: from 2^31 on the doubled count wraps and
   * every reply the server can give is refused; without objects the server throws instead of
   * replying and the caller sees a failure.
   */
  lemma CountsOutOfRange(host: Host, objectType: string, switchId: Oid, mode: Mode, lists: seq<seq<Attribute>>)
    requires host.kind(TypeInKey(RequestOf(objectType, switchId, lists).key)) != EntryType
    requires |lists| < TWO_32
    ensures TWO_31 <= |lists| ==> RemoteBulkCreate(host, objectType, switchId, mode, lists) == Thrown
    ensures |lists| == 0 ==>
              RemoteBulkCreate(host, objectType, switchId, mode, lists) == Returned(Created(FAILURE, [], []))
  {
    var served := Serve(host, RequestOf(objectType, switchId, lists));
    ReplyLength(host, RequestOf(objectType, switchId, lists));
    if TWO_31 <= |lists| {
      WrappedCountThrows(|lists|, if served.Thrown? then NO_REPLY else served.value);
    } else if |lists| == 0 {
      NothingIsReceived();
    }
  }

  class ClientSai {
    /** The other end of the communication channel. */
    const server: ServerSai
    var lastCreateOids: seq<Oid>

    constructor (server: ServerSai)
      ensures this.server == server && lastCreateOids == []
    {
      this.server := server;
      lastCreateOids := [];
    }

    method WaitForBulkResponse(objectCount: nat, kco: Message, objectStatuses: array<Status>)
      returns (r: Result<Status>)
      requires objectStatuses.Length == objectCount < TWO_32
      modifies this, objectStatuses
      ensures match BulkResponse(objectCount, kco)
              case Thrown => r.Thrown?
              case Returned(result) =>
                && r == Returned(result.status)
                && objectStatuses[..] == result.statuses
                && lastCreateOids == result.oids
    {
      var values := kco.values;
      if |values| != ToUint32(2 * objectCount) && |values| != objectCount {
        return Thrown;
      }
      if |values| < objectCount {
        return Thrown;
      }
      for idx := 0 to objectCount
        invariant forall i :: 0 <= i < idx ==> objectStatuses[i] == values[i].0
      {
        objectStatuses[idx] := values[idx].0;
      }
      lastCreateOids := [];
      var end := ToUint32(2 * objectCount);
      var idx := objectCount;
      while idx < end
        invariant objectCount <= idx && (objectCount <= end ==> idx <= end)
        invariant end < objectCount ==> idx == objectCount
        invariant CollectOids(values, objectCount, idx) == Returned(lastCreateOids)
        invariant forall i :: 0 <= i < objectCount ==> objectStatuses[i] == values[i].0
      {
        if idx >= |values| {
          ThrowsOnceThrown(values, objectCount, idx + 1, end);
          return Thrown;
        }
        if values[idx].0 == "oid" {
          match DeserializeOid(values[idx].1) {
            case Thrown =>
              ThrowsOnceThrown(values, objectCount, idx + 1, end);
              return Thrown;
            case Returned(oid) =>
              lastCreateOids := lastCreateOids + [oid];
          }
        }
        idx := idx + 1;
      }
      return Returned(kco.key);
    }

    /** The last loop of `bulkCreate`: every object takes the id at its own position. */
    method TakeOids(objectId: array<Oid>, objectStatuses: array<Status>) returns (ok: bool)
      requires objectId.Length == objectStatuses.Length
      modifies objectId
      ensures match Realigned(objectStatuses[..], lastCreateOids, objectId.Length)
              case Thrown => !ok
              case Returned(ids) => ok && objectId[..] == ids
    {
      ghost var statuses := objectStatuses[..];
      for idx := 0 to objectId.Length
        invariant objectStatuses[..] == statuses
        invariant Realigned(objectStatuses[..], lastCreateOids, idx) == Returned(objectId[..idx])
      {
        if objectStatuses[idx] == SUCCESS {
          if idx >= |lastCreateOids| {
            NotEnoughOids(objectStatuses[..], lastCreateOids, idx + 1, objectId.Length);
            return false;
          }
          objectId[idx] := lastCreateOids[idx];
        } else {
          objectId[idx] := NULL_OID;
        }
        assert objectId[..idx + 1] == objectId[..idx] + [objectId[idx]];
      }
      assert objectId[..objectId.Length] == objectId[..];
      return true;
    }

    method Request(objectType: string, switchId: Oid, lists: seq<seq<Attribute>>) returns (request: Message)
      ensures request == RequestOf(objectType, switchId, lists)
    {
      var entries: Fields := [];
      for idx := 0 to |lists|
        invariant entries == RequestValues(switchId, lists)[..idx]
      {
        var entry := lists[idx];
        if entry == [] {
          entry := entry + [PLACEHOLDER];
        }
        var strAttr := JoinFieldValues(entry);
        entries := entries + [(SerializeOid(switchId), strAttr)];
      }
      return Message(objectType + ":" + ToString(|entries|), entries);
    }

    method BulkCreate(objectType: string, switchId: Oid, lists: seq<seq<Attribute>>, mode: Mode,
                      objectId: array<Oid>, objectStatuses: array<Status>)
      returns (r: Result<Status>)
      requires |lists| == objectId.Length == objectStatuses.Length < TWO_32
      requires server.host.kind(TypeInKey(RequestOf(objectType, switchId, lists).key)) != EntryType
      modifies this, server, objectId, objectStatuses
      ensures match RemoteBulkCreate(server.host, objectType, switchId, mode, lists)
              case Thrown => r.Thrown?
              case Returned(created) =>
                && r == Returned(created.status)
                && objectStatuses[..] == created.statuses
                && objectId[..] == created.ids
    {
      var request := Request(objectType, switchId, lists);
      var replied := server.ProcessBulkQuadEvent(request);
      var reply := if replied then server.sent[|server.sent| - 1] else NO_REPLY;
      r := WaitForBulkResponse(|lists|, reply, objectStatuses);
      if r.Returned? {
        var taken := TakeOids(objectId, objectStatuses);
        if !taken {
          r := Thrown;
        }
      }
    }
  }

  lemma {:induction false} ThrowsOnceThrown(values: Fields, lo: nat, k: nat, hi: nat)
    requires k <= hi && CollectOids(values, lo, k) == Thrown
    ensures CollectOids(values, lo, hi) == Thrown
    decreases hi
  {
    if k < hi {
      ThrowsOnceThrown(values, lo, k, hi - 1);
    }
  }

  lemma {:induction false} NotEnoughOids(statuses: seq<Status>, oids: seq<Oid>, k: nat, n: nat)
    requires k <= n <= |statuses| && Realigned(statuses, oids, k) == Thrown
    ensures Realigned(statuses, oids, n) == Thrown
    decreases n
  {
    if k < n {
      NotEnoughOids(statuses, oids, k, n - 1);
    }
  }
}
