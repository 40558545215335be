/** Object keys, their hand-written equality and their hash (meta/MetaKeyHasher.cpp). */
module MetaKeys {
  import opened Common

  type Byte = n: nat | n < 256

  type Mac = s: seq<Byte> | |s| == 6 witness [0, 0, 0, 0, 0, 0]

  /** A 16-byte union: an IPv4 address uses the first four bytes, the rest is whatever was there. */
  type Bytes16 = s: seq<Byte> | |s| == 16 witness [0, 0, 0, 0, 0, 0, 0, 0, 0, 0, 0, 0, 0, 0, 0, 0]

  datatype Family = Ipv4 | Ipv6 | OtherFamily(code: int)

  datatype IpAddress = IpAddress(family: Family, addr: Bytes16)

  datatype IpPrefix = IpPrefix(family: Family, addr: Bytes16, mask: Bytes16)

  datatype NatData = NatData(srcIp: nat, dstIp: nat, proto: nat, l4SrcPort: nat, l4DstPort: nat)

  datatype Range = Range(min: nat, max: nat)

  /**
   * `sai_object_meta_key_t`: the object type is the constructor, except that all types identified
   * by an object id share one, and all types that the hasher does not handle share another.
   */
  datatype MetaKey =
    | ObjectIdKey(objectType: nat, objectId: Oid)
    | RouteEntry(switchId: Oid, vrId: Oid, prefix: IpPrefix)
    | NeighborEntry(switchId: Oid, rifId: Oid, ipAddress: IpAddress)
    | FdbEntry(switchId: Oid, bvId: Oid, mac: Mac)
    | NatEntry(switchId: Oid, vrId: Oid, natType: nat, data: NatData, dataMask: NatData)
    | InsegEntry(switchId: Oid, mplsLabel: nat)
    | MySidEntry(switchId: Oid, vrId: Oid, locatorBlockLen: nat, locatorNodeLen: nat, functionLen: nat, argsLen: nat,
                 sid: Bytes16)
    | McastFdbEntry(switchId: Oid, bvId: Oid, mac: Mac)
    | L2mcEntry(switchId: Oid, bvId: Oid, groupType: nat, group: IpAddress, source: IpAddress)
    | IpmcEntry(switchId: Oid, vrId: Oid, groupType: nat, group: IpAddress, source: IpAddress)
    | DirectionLookupEntry(switchId: Oid, vni: nat)
    | EniEtherAddressMapEntry(switchId: Oid, mac: Mac)
    | VipEntry(switchId: Oid, vip: IpAddress)
    | InboundRoutingEntry(switchId: Oid, eniId: Oid, vni: nat, sip: IpAddress, sipMask: IpAddress, priority: nat)
    | PaValidationEntry(switchId: Oid, vnetId: Oid, sip: IpAddress)
    | OutboundRoutingEntry(switchId: Oid, prefix: IpPrefix, routingGroupId: Oid)
    | OutboundCaToPaEntry(switchId: Oid, dstVnetId: Oid, dip: IpAddress)
    | OutboundPortMapPortRangeEntry(switchId: Oid, portMapId: Oid, range: Range)
    | GlobalTrustedVniEntry(switchId: Oid, range: Range)
    | EniTrustedVniEntry(switchId: Oid, eniId: Oid, range: Range)
    | MeterBucketEntry(switchId: Oid, eniId: Oid, meterClass: nat)
    | UnhandledKey(objectType: nat)

  // ---------------------------------------------------------------- equality

  /** C++ `&&`: the second operand is evaluated, and may throw, only if the first one holds. */
  function And(first: Result<bool>, second: Result<bool>): Result<bool> {
    if first == Returned(true) then second else first
  }

  function SameAddress(a: IpAddress, b: IpAddress): Result<bool> {
    if a.family != b.family then Returned(false)
    else
      match a.family
      case Ipv4 => Returned(a.addr[..4] == b.addr[..4])
      case Ipv6 => Returned(a.addr == b.addr)
      case OtherFamily(_) => Thrown
  }

  function SamePrefix(a: IpPrefix, b: IpPrefix): Result<bool> {
    if a.family != b.family then Returned(false)
    else
      match a.family
      case Ipv4 => Returned(a.addr[..4] == b.addr[..4] && a.mask[..4] == b.mask[..4])
      case Ipv6 => Returned(a.addr == b.addr && a.mask == b.mask)
      case OtherFamily(_) => Thrown
  }

  /** Route, neighbor and multicast keys look at the family of the first operand alone. */
  function PartAndAddress(part: bool, a: IpAddress, b: IpAddress): Result<bool> {
    match a.family
    case Ipv4 => Returned(part && a.addr[..4] == b.addr[..4])
    case Ipv6 => Returned(part && a.addr == b.addr)
    case OtherFamily(_) => Thrown
  }

  function PartAndPrefix(part: bool, a: IpPrefix, b: IpPrefix): Result<bool> {
    match a.family
    case Ipv4 => Returned(part && a.addr[..4] == b.addr[..4] && a.mask[..4] == b.mask[..4])
    case Ipv6 => Returned(part && a.addr == b.addr && a.mask == b.mask)
    case OtherFamily(_) => Thrown
  }

  function PartAndGroup(part: bool, group: IpAddress, group': IpAddress, source: IpAddress, source': IpAddress)
    : Result<bool>
  {
    match PartAndAddress(part, group, group')
    case Thrown => Thrown
    case Returned(rest) => PartAndAddress(rest, source, source')
  }

  /** `MetaKeyHasher::operator()` on two keys. */
  function Equal(a: MetaKey, b: MetaKey): Result<bool> {
    match a
    case ObjectIdKey(objectType, id) =>
      Returned(b.ObjectIdKey? && objectType == b.objectType && id == b.objectId)
    case RouteEntry(switchId, vrId, prefix) =>
      if !b.RouteEntry? then Returned(false)
      else PartAndPrefix(switchId == b.switchId && vrId == b.vrId && prefix.family == b.prefix.family, prefix, b.prefix)
    case NeighborEntry(switchId, rifId, ip) =>
      if !b.NeighborEntry? then Returned(false)
      else PartAndAddress(switchId == b.switchId && rifId == b.rifId && ip.family == b.ipAddress.family, ip, b.ipAddress)
    case FdbEntry(switchId, bvId, mac) =>
      Returned(b.FdbEntry? && switchId == b.switchId && bvId == b.bvId && mac == b.mac)
    case NatEntry(switchId, vrId, natType, data, mask) =>
      Returned(b.NatEntry? && switchId == b.switchId && vrId == b.vrId && natType == b.natType
               && data == b.data && mask == b.dataMask)
    case InsegEntry(switchId, mplsLabel) =>
      Returned(b.InsegEntry? && switchId == b.switchId && mplsLabel == b.mplsLabel)
    case MySidEntry(switchId, vrId, blockLen, nodeLen, functionLen, argsLen, sid) =>
      Returned(b.MySidEntry? && switchId == b.switchId && vrId == b.vrId && blockLen == b.locatorBlockLen
               && nodeLen == b.locatorNodeLen && functionLen == b.functionLen && argsLen == b.argsLen && sid == b.sid)
    case McastFdbEntry(switchId, bvId, mac) =>
      Returned(b.McastFdbEntry? && switchId == b.switchId && bvId == b.bvId && mac == b.mac)
    case L2mcEntry(switchId, bvId, groupType, group, source) =>
      if !b.L2mcEntry? then Returned(false)
      else PartAndGroup(switchId == b.switchId && bvId == b.bvId && groupType == b.groupType
                        && group.family == b.group.family && source.family == b.source.family,
                        group, b.group, source, b.source)
    case IpmcEntry(switchId, vrId, groupType, group, source) =>
      if !b.IpmcEntry? then Returned(false)
      else PartAndGroup(switchId == b.switchId && vrId == b.vrId && groupType == b.groupType
                        && group.family == b.group.family && source.family == b.source.family,
                        group, b.group, source, b.source)
    case DirectionLookupEntry(switchId, vni) =>
      Returned(b.DirectionLookupEntry? && switchId == b.switchId && vni == b.vni)
    case EniEtherAddressMapEntry(switchId, mac) =>
      Returned(b.EniEtherAddressMapEntry? && switchId == b.switchId && mac == b.mac)
    case VipEntry(switchId, vip) =>
      if !b.VipEntry? then Returned(false)
      else And(Returned(switchId == b.switchId), SameAddress(vip, b.vip))
    case InboundRoutingEntry(switchId, eniId, vni, sip, sipMask, priority) =>
      if !b.InboundRoutingEntry? then Returned(false)
      else And(Returned(switchId == b.switchId && eniId == b.eniId && vni == b.vni),
               And(SameAddress(sip, b.sip), And(SameAddress(sipMask, b.sipMask), Returned(priority == b.priority))))
    case PaValidationEntry(switchId, vnetId, sip) =>
      if !b.PaValidationEntry? then Returned(false)
      else And(Returned(switchId == b.switchId && vnetId == b.vnetId), SameAddress(sip, b.sip))
    case OutboundRoutingEntry(switchId, prefix, groupId) =>
      if !b.OutboundRoutingEntry? then Returned(false)
      else And(Returned(switchId == b.switchId), And(SamePrefix(prefix, b.prefix), Returned(groupId == b.routingGroupId)))
    case OutboundCaToPaEntry(switchId, vnetId, dip) =>
      if !b.OutboundCaToPaEntry? then Returned(false)
      else And(Returned(switchId == b.switchId && vnetId == b.dstVnetId), SameAddress(dip, b.dip))
    case OutboundPortMapPortRangeEntry(switchId, portMapId, range) =>
      Returned(b.OutboundPortMapPortRangeEntry? && switchId == b.switchId && portMapId == b.portMapId && range == b.range)
    case GlobalTrustedVniEntry(switchId, range) =>
      Returned(b.GlobalTrustedVniEntry? && switchId == b.switchId && range == b.range)
    case EniTrustedVniEntry(switchId, eniId, range) =>
      Returned(b.EniTrustedVniEntry? && switchId == b.switchId && eniId == b.eniId && range == b.range)
    case MeterBucketEntry(switchId, eniId, meterClass) =>
      Returned(b.MeterBucketEntry? && switchId == b.switchId && eniId == b.eniId && meterClass == b.meterClass)
    case UnhandledKey(objectType) =>
      if b.UnhandledKey? && objectType == b.objectType then Thrown else Returned(false)
  }

  // ---------------------------------------------------------------- hash

  /** Four bytes copied into a 32-bit number. */
  function Word(bytes: seq<Byte>): nat
    requires |bytes| == 4
  {
    (bytes[0] as nat) + 0x100 * (bytes[1] as nat) + 0x1_0000 * (bytes[2] as nat) + 0x100_0000 * (bytes[3] as nat)
  }

  function Xor(a: nat, b: nat): nat
    decreases a + b
  {
    if a == 0 then b
    else if b == 0 then a
    else (if a % 2 != b % 2 then 1 else 0) + 2 * Xor(a / 2, b / 2)
  }

  function XorWords(b: Bytes16): nat { Xor(Xor(Xor(Word(b[..4]), Word(b[4..8])), Word(b[8..12])), Word(b[12..])) }

  /** `boost::hash_combine`, whatever it computes. */
  type Combine = (nat, nat) -> nat

  function CombineAll(combine: Combine, seed: nat, values: seq<nat>): nat
    decreases |values|
  {
    if values == [] then seed else CombineAll(combine, combine(seed, values[0]), values[1..])
  }

  function Words(b: Bytes16): seq<nat> { [Word(b[..4]), Word(b[4..8]), Word(b[8..12]), Word(b[12..])] }

  function AddressHash(combine: Combine, ip: IpAddress): Result<nat> {
    match ip.family
    case Ipv4 => Returned(combine(0, Word(ip.addr[..4])))
    case Ipv6 => Returned(CombineAll(combine, 0, Words(ip.addr)))
    case OtherFamily(_) => Thrown
  }

  function PrefixHash(combine: Combine, p: IpPrefix): Result<nat> {
    match p.family
    case Ipv4 => Returned(combine(combine(0, Word(p.addr[..4])), Word(p.mask[..4])))
    case Ipv6 => Returned(CombineAll(combine, 0, Words(p.addr) + Words(p.mask)))
    case OtherFamily(_) => Thrown
  }

  /** The hash of route, neighbor and multicast keys. */
  function PlainHash(family: Family, addr: Bytes16): Result<nat> {
    match family
    case Ipv4 => Returned(Word(addr[..4]))
    case Ipv6 => Returned(XorWords(addr))
    case OtherFamily(_) => Thrown
  }

  function RangeHash(combine: Combine, range: Range): nat { combine(combine(0, range.min), range.max) }

  /** Hashes of parts, each of which may throw, folded into a seed of 0. */
  function Folded(combine: Combine, parts: seq<Result<nat>>): Result<nat> {
    if exists i :: 0 <= i < |parts| && parts[i].Thrown? then Thrown
    else Returned(CombineAll(combine, 0, seq(|parts|, i requires 0 <= i < |parts| => parts[i].value)))
  }

  /** `MetaKeyHasher::operator()` on one key. */
  function Hash(combine: Combine, k: MetaKey): Result<nat> {
    match k
    case ObjectIdKey(_, id) => Returned(id)
    case RouteEntry(_, _, prefix) => PlainHash(prefix.family, prefix.addr)
    case NeighborEntry(_, _, ip) => PlainHash(ip.family, ip.addr)
    case FdbEntry(_, _, mac) => Returned(Word(mac[2..]))
    case NatEntry(_, _, _, data, _) =>
      Returned(Xor(Xor(Xor(Xor(data.srcIp, data.dstIp), data.proto), data.l4SrcPort), data.l4DstPort))
    case InsegEntry(_, mplsLabel) => Returned(mplsLabel)
    case MySidEntry(_, _, _, _, _, _, sid) => Returned(XorWords(sid))
    case McastFdbEntry(_, _, mac) => Returned(Word(mac[2..]))
    case L2mcEntry(_, _, _, group, _) => PlainHash(group.family, group.addr)
    case IpmcEntry(_, _, _, group, _) => PlainHash(group.family, group.addr)
    case DirectionLookupEntry(_, vni) => Folded(combine, [Returned(vni)])
    case EniEtherAddressMapEntry(_, mac) => Returned(CombineAll(combine, 0, mac))
    case VipEntry(_, vip) => Folded(combine, [AddressHash(combine, vip)])
    case InboundRoutingEntry(_, eniId, vni, sip, sipMask, priority) =>
      Folded(combine, [AddressHash(combine, sip), AddressHash(combine, sipMask),
                       Returned(eniId), Returned(vni), Returned(priority)])
    case PaValidationEntry(_, vnetId, sip) => Folded(combine, [Returned(vnetId), AddressHash(combine, sip)])
    case OutboundRoutingEntry(_, prefix, groupId) =>
      Folded(combine, [PrefixHash(combine, prefix), Returned(groupId)])
    case OutboundCaToPaEntry(_, vnetId, dip) => Folded(combine, [Returned(vnetId), AddressHash(combine, dip)])
    case OutboundPortMapPortRangeEntry(_, portMapId, range) =>
      Folded(combine, [Returned(portMapId), Returned(RangeHash(combine, range))])
    case GlobalTrustedVniEntry(_, range) => Folded(combine, [Returned(RangeHash(combine, range))])
    case EniTrustedVniEntry(_, eniId, range) =>
      Folded(combine, [Returned(eniId), Returned(RangeHash(combine, range))])
    case MeterBucketEntry(_, eniId, meterClass) => Folded(combine, [Returned(eniId), Returned(meterClass)])
    case UnhandledKey(_) => Thrown
  }

  // ---------------------------------------------------------------- normal form

  const ZEROS: seq<Byte> := [0, 0, 0, 0, 0, 0, 0, 0, 0, 0, 0, 0]

  /** An address without the bytes outside the active family. */
  function ActiveBytes(family: Family, addr: Bytes16): Bytes16 {
    if family.Ipv4? then addr[..4] + ZEROS else addr
  }

  function NormalAddress(ip: IpAddress): IpAddress { IpAddress(ip.family, ActiveBytes(ip.family, ip.addr)) }

  function NormalPrefix(p: IpPrefix): IpPrefix {
    IpPrefix(p.family, ActiveBytes(p.family, p.addr), ActiveBytes(p.family, p.mask))
  }

  /** The key with every unused address byte cleared. */
  function Normal(k: MetaKey): MetaKey {
    match k
    case RouteEntry(switchId, vrId, prefix) => RouteEntry(switchId, vrId, NormalPrefix(prefix))
    case NeighborEntry(switchId, rifId, ip) => NeighborEntry(switchId, rifId, NormalAddress(ip))
    case L2mcEntry(switchId, bvId, groupType, group, source) =>
      L2mcEntry(switchId, bvId, groupType, NormalAddress(group), NormalAddress(source))
    case IpmcEntry(switchId, vrId, groupType, group, source) =>
      IpmcEntry(switchId, vrId, groupType, NormalAddress(group), NormalAddress(source))
    case VipEntry(switchId, vip) => VipEntry(switchId, NormalAddress(vip))
    case InboundRoutingEntry(switchId, eniId, vni, sip, sipMask, priority) =>
      InboundRoutingEntry(switchId, eniId, vni, NormalAddress(sip), NormalAddress(sipMask), priority)
    case PaValidationEntry(switchId, vnetId, sip) => PaValidationEntry(switchId, vnetId, NormalAddress(sip))
    case OutboundRoutingEntry(switchId, prefix, groupId) =>
      OutboundRoutingEntry(switchId, NormalPrefix(prefix), groupId)
    case OutboundCaToPaEntry(switchId, vnetId, dip) => OutboundCaToPaEntry(switchId, vnetId, NormalAddress(dip))
    case _ => k
  }

  predicate KnownFamily(ip: IpAddress) { !ip.family.OtherFamily? }

  /** The keys the hasher is written for: a handled type whose addresses are IPv4 or IPv6. */
  predicate Handled(k: MetaKey) {
    match k
    case RouteEntry(_, _, prefix) => !prefix.family.OtherFamily?
    case NeighborEntry(_, _, ip) => KnownFamily(ip)
    case L2mcEntry(_, _, _, group, source) => KnownFamily(group) && KnownFamily(source)
    case IpmcEntry(_, _, _, group, source) => KnownFamily(group) && KnownFamily(source)
    case VipEntry(_, vip) => KnownFamily(vip)
    case InboundRoutingEntry(_, _, _, sip, sipMask, _) => KnownFamily(sip) && KnownFamily(sipMask)
    case PaValidationEntry(_, _, sip) => KnownFamily(sip)
    case OutboundRoutingEntry(_, prefix, _) => !prefix.family.OtherFamily?
    case OutboundCaToPaEntry(_, _, dip) => KnownFamily(dip)
    case UnhandledKey(_) => false
    case _ => true
  }

  // ---------------------------------------------------------------- laws

  lemma ActiveBytesCompare(family: Family, a: Bytes16, b: Bytes16)
    ensures ActiveBytes(family, a) == ActiveBytes(family, b)
            <==> if family.Ipv4? then a[..4] == b[..4] else a == b
  {
    assert (a[..4] + ZEROS)[..4] == a[..4] && (b[..4] + ZEROS)[..4] == b[..4];
  }

  lemma AddressesCompare(a: IpAddress, b: IpAddress)
    requires KnownFamily(a) && KnownFamily(b)
    ensures SameAddress(a, b) == Returned(NormalAddress(a) == NormalAddress(b))
  {
    ActiveBytesCompare(a.family, a.addr, b.addr);
  }

  lemma PartsCompare(part: bool, a: IpAddress, b: IpAddress)
    requires KnownFamily(a) && KnownFamily(b) && (part ==> a.family == b.family)
    ensures PartAndAddress(part, a, b) == Returned(part && NormalAddress(a) == NormalAddress(b))
  {
    ActiveBytesCompare(a.family, a.addr, b.addr);
  }

  lemma PrefixesCompare(part: bool, a: IpPrefix, b: IpPrefix)
    requires !a.family.OtherFamily? && !b.family.OtherFamily?
    ensures SamePrefix(a, b) == Returned(NormalPrefix(a) == NormalPrefix(b))
    ensures (part ==> a.family == b.family) ==>
              PartAndPrefix(part, a, b) == Returned(part && NormalPrefix(a) == NormalPrefix(b))
  {
    ActiveBytesCompare(a.family, a.addr, b.addr);
    ActiveBytesCompare(a.family, a.mask, b.mask);
  }

  lemma GroupsCompare(part: bool, group: IpAddress, group': IpAddress, source: IpAddress, source': IpAddress)
    requires KnownFamily(group) && KnownFamily(group') && KnownFamily(source) && KnownFamily(source')
    requires part ==> group.family == group'.family && source.family == source'.family
    ensures PartAndGroup(part, group, group', source, source')
            == Returned(part && NormalAddress(group) == NormalAddress(group')
                        && NormalAddress(source) == NormalAddress(source'))
  {
    PartsCompare(part, group, group');
    PartsCompare(part && NormalAddress(group) == NormalAddress(group'), source, source');
  }

  lemma MulticastEquality(a: MetaKey, b: MetaKey)
    requires Handled(a) && Handled(b) && (a.L2mcEntry? || a.IpmcEntry?)
    ensures Equal(a, b) == Returned(Normal(a) == Normal(b))
  {
    if a.L2mcEntry? && b.L2mcEntry? {
      GroupsCompare(a.switchId == b.switchId && a.bvId == b.bvId && a.groupType == b.groupType
                    && a.group.family == b.group.family && a.source.family == b.source.family,
                    a.group, b.group, a.source, b.source);
    } else if a.IpmcEntry? && b.IpmcEntry? {
      GroupsCompare(a.switchId == b.switchId && a.vrId == b.vrId && a.groupType == b.groupType
                    && a.group.family == b.group.family && a.source.family == b.source.family,
                    a.group, b.group, a.source, b.source);
    }
  }

  lemma RouteEquality(a: MetaKey, b: MetaKey)
    requires Handled(a) && Handled(b) && (a.RouteEntry? || a.NeighborEntry?)
    ensures Equal(a, b) == Returned(Normal(a) == Normal(b))
  {
    if a.RouteEntry? && b.RouteEntry? {
      PrefixesCompare(a.switchId == b.switchId && a.vrId == b.vrId && a.prefix.family == b.prefix.family,
                      a.prefix, b.prefix);
    } else if a.NeighborEntry? && b.NeighborEntry? {
      PartsCompare(a.switchId == b.switchId && a.rifId == b.rifId && a.ipAddress.family == b.ipAddress.family,
                   a.ipAddress, b.ipAddress);
    }
  }

  predicate HasDashAddress(k: MetaKey) {
    k.VipEntry? || k.InboundRoutingEntry? || k.PaValidationEntry? || k.OutboundRoutingEntry? || k.OutboundCaToPaEntry?
  }

  lemma InboundEquality(a: MetaKey, b: MetaKey)
    requires Handled(a) && Handled(b) && a.InboundRoutingEntry?
    ensures Equal(a, b) == Returned(Normal(a) == Normal(b))
  {
    if b.InboundRoutingEntry? {
      AddressesCompare(a.sip, b.sip);
      AddressesCompare(a.sipMask, b.sipMask);
    }
  }

  lemma VipEquality(a: MetaKey, b: MetaKey)
    requires Handled(a) && Handled(b) && a.VipEntry?
    ensures Equal(a, b) == Returned(Normal(a) == Normal(b))
  {
    if b.VipEntry? {
      AddressesCompare(a.vip, b.vip);
    }
  }

  lemma PaValidationEquality(a: MetaKey, b: MetaKey)
    requires Handled(a) && Handled(b) && a.PaValidationEntry?
    ensures Equal(a, b) == Returned(Normal(a) == Normal(b))
  {
    if b.PaValidationEntry? {
      AddressesCompare(a.sip, b.sip);
    }
  }

  lemma CaToPaEquality(a: MetaKey, b: MetaKey)
    requires Handled(a) && Handled(b) && a.OutboundCaToPaEntry?
    ensures Equal(a, b) == Returned(Normal(a) == Normal(b))
  {
    if b.OutboundCaToPaEntry? {
      AddressesCompare(a.dip, b.dip);
    }
  }

  lemma OutboundRoutingEquality(a: MetaKey, b: MetaKey)
    requires Handled(a) && Handled(b) && a.OutboundRoutingEntry?
    ensures Equal(a, b) == Returned(Normal(a) == Normal(b))
  {
    if b.OutboundRoutingEntry? {
      PrefixesCompare(true, a.prefix, b.prefix);
    }
  }

  lemma DashEquality(a: MetaKey, b: MetaKey)
    requires Handled(a) && Handled(b) && HasDashAddress(a)
    ensures Equal(a, b) == Returned(Normal(a) == Normal(b))
  {
    match a
    case VipEntry(_, _) => VipEquality(a, b);
    case InboundRoutingEntry(_, _, _, _, _, _) => InboundEquality(a, b);
    case PaValidationEntry(_, _, _) => PaValidationEquality(a, b);
    case OutboundRoutingEntry(_, _, _) => OutboundRoutingEquality(a, b);
    case OutboundCaToPaEntry(_, _, _) => CaToPaEquality(a, b);
  }

  /** On handled keys equality never throws and compares normal forms: unused address bytes do not count. */
  lemma EqualityIsNormalForm(a: MetaKey, b: MetaKey)
    requires Handled(a) && Handled(b)
    ensures Equal(a, b) == Returned(Normal(a) == Normal(b))
  {
    if a.L2mcEntry? || a.IpmcEntry? {
      MulticastEquality(a, b);
    } else if a.RouteEntry? || a.NeighborEntry? {
      RouteEquality(a, b);
    } else if HasDashAddress(a) {
      DashEquality(a, b);
    }
  }

  /** The families of the addresses in a key. */
  function Families(k: MetaKey): set<Family> {
    match k
    case RouteEntry(_, _, prefix) => {prefix.family}
    case OutboundRoutingEntry(_, prefix, _) => {prefix.family}
    case NeighborEntry(_, _, ip) => {ip.family}
    case VipEntry(_, vip) => {vip.family}
    case PaValidationEntry(_, _, sip) => {sip.family}
    case OutboundCaToPaEntry(_, _, dip) => {dip.family}
    case L2mcEntry(_, _, _, group, source) => {group.family, source.family}
    case IpmcEntry(_, _, _, group, source) => {group.family, source.family}
    case InboundRoutingEntry(_, _, _, sip, sipMask, _) => {sip.family, sipMask.family}
    case _ => {}
  }

  /** Handled are all keys of handled types in which every address is IPv4 or IPv6. */
  lemma HandledExactly(k: MetaKey)
    ensures Handled(k) <==> !k.UnhandledKey? && Families(k) <= {Ipv4, Ipv6}
  {}

  /** The bytes outside an IPv4 address are zeros, all others as they were. */
  predicate BytesCleared(family: Family, addr: Bytes16, cleared: Bytes16) {
    && cleared[..4] == addr[..4]
    && cleared[4..] == if family == Ipv4 then [0, 0, 0, 0, 0, 0, 0, 0, 0, 0, 0, 0] else addr[4..]
  }

  predicate AddressCleared(ip: IpAddress, cleared: IpAddress) {
    cleared.family == ip.family && BytesCleared(ip.family, ip.addr, cleared.addr)
  }

  predicate PrefixCleared(p: IpPrefix, cleared: IpPrefix) {
    && cleared.family == p.family
    && BytesCleared(p.family, p.addr, cleared.addr) && BytesCleared(p.family, p.mask, cleared.mask)
  }

  /** The same key with the unused bytes of its addresses cleared, and nothing else changed. */
  predicate Cleared(k: MetaKey, n: MetaKey) {
    match k
    case RouteEntry(switchId, vrId, prefix) =>
      n.RouteEntry? && n.switchId == switchId && n.vrId == vrId && PrefixCleared(prefix, n.prefix)
    case OutboundRoutingEntry(switchId, prefix, groupId) =>
      && n.OutboundRoutingEntry? && n.switchId == switchId && n.routingGroupId == groupId
      && PrefixCleared(prefix, n.prefix)
    case NeighborEntry(switchId, rifId, ip) =>
      n.NeighborEntry? && n.switchId == switchId && n.rifId == rifId && AddressCleared(ip, n.ipAddress)
    case VipEntry(switchId, vip) => n.VipEntry? && n.switchId == switchId && AddressCleared(vip, n.vip)
    case PaValidationEntry(switchId, vnetId, sip) =>
      n.PaValidationEntry? && n.switchId == switchId && n.vnetId == vnetId && AddressCleared(sip, n.sip)
    case OutboundCaToPaEntry(switchId, vnetId, dip) =>
      n.OutboundCaToPaEntry? && n.switchId == switchId && n.dstVnetId == vnetId && AddressCleared(dip, n.dip)
    case L2mcEntry(switchId, bvId, groupType, group, source) =>
      && n.L2mcEntry? && n.switchId == switchId && n.bvId == bvId && n.groupType == groupType
      && AddressCleared(group, n.group) && AddressCleared(source, n.source)
    case IpmcEntry(switchId, vrId, groupType, group, source) =>
      && n.IpmcEntry? && n.switchId == switchId && n.vrId == vrId && n.groupType == groupType
      && AddressCleared(group, n.group) && AddressCleared(source, n.source)
    case InboundRoutingEntry(switchId, eniId, vni, sip, sipMask, priority) =>
      && n.InboundRoutingEntry? && n.switchId == switchId && n.eniId == eniId && n.vni == vni && n.priority == priority
      && AddressCleared(sip, n.sip) && AddressCleared(sipMask, n.sipMask)
    case _ => n == k
  }

  lemma BytesClearedExactly(family: Family, addr: Bytes16, cleared: Bytes16)
    ensures BytesCleared(family, addr, cleared) <==> cleared == ActiveBytes(family, addr)
  {
    assert addr == addr[..4] + addr[4..] && cleared == cleared[..4] + cleared[4..];
    assert (addr[..4] + ZEROS)[..4] == addr[..4] && (addr[..4] + ZEROS)[4..] == ZEROS;
  }

  lemma AddressClearedExactly(ip: IpAddress, cleared: IpAddress)
    ensures AddressCleared(ip, cleared) <==> cleared == NormalAddress(ip)
  {
    BytesClearedExactly(ip.family, ip.addr, cleared.addr);
  }

  lemma PrefixClearedExactly(p: IpPrefix, cleared: IpPrefix)
    ensures PrefixCleared(p, cleared) <==> cleared == NormalPrefix(p)
  {
    BytesClearedExactly(p.family, p.addr, cleared.addr);
    BytesClearedExactly(p.family, p.mask, cleared.mask);
  }

  lemma NormalIsCleared(k: MetaKey)
    ensures Cleared(k, Normal(k))
  {
    match k
    case RouteEntry(_, _, prefix) => PrefixClearedExactly(prefix, NormalPrefix(prefix));
    case OutboundRoutingEntry(_, prefix, _) => PrefixClearedExactly(prefix, NormalPrefix(prefix));
    case NeighborEntry(_, _, ip) => AddressClearedExactly(ip, NormalAddress(ip));
    case VipEntry(_, vip) => AddressClearedExactly(vip, NormalAddress(vip));
    case PaValidationEntry(_, _, sip) => AddressClearedExactly(sip, NormalAddress(sip));
    case OutboundCaToPaEntry(_, _, dip) => AddressClearedExactly(dip, NormalAddress(dip));
    case L2mcEntry(_, _, _, group, source) => TwoCleared(group, source);
    case IpmcEntry(_, _, _, group, source) => TwoCleared(group, source);
    case InboundRoutingEntry(_, _, _, sip, sipMask, _) => TwoCleared(sip, sipMask);
    case _ =>
  }

  lemma TwoCleared(a: IpAddress, b: IpAddress)
    ensures AddressCleared(a, NormalAddress(a)) && AddressCleared(b, NormalAddress(b))
  {
    AddressClearedExactly(a, NormalAddress(a));
    AddressClearedExactly(b, NormalAddress(b));
  }

  lemma BytesClearedOnce(family: Family, addr: Bytes16, m: Bytes16, n: Bytes16)
    requires BytesCleared(family, addr, m) && BytesCleared(family, addr, n)
    ensures m == n
  {
    BytesClearedExactly(family, addr, m);
    BytesClearedExactly(family, addr, n);
  }

  lemma ClearedOnce(k: MetaKey, m: MetaKey, n: MetaKey)
    requires Cleared(k, m) && Cleared(k, n)
    ensures m == n
  {
    match k
    case RouteEntry(_, _, prefix) =>
      PrefixClearedExactly(prefix, m.prefix);
      PrefixClearedExactly(prefix, n.prefix);
    case OutboundRoutingEntry(_, prefix, _) =>
      PrefixClearedExactly(prefix, m.prefix);
      PrefixClearedExactly(prefix, n.prefix);
    case NeighborEntry(_, _, ip) => BytesClearedOnce(ip.family, ip.addr, m.ipAddress.addr, n.ipAddress.addr);
    case VipEntry(_, vip) => BytesClearedOnce(vip.family, vip.addr, m.vip.addr, n.vip.addr);
    case PaValidationEntry(_, _, sip) => BytesClearedOnce(sip.family, sip.addr, m.sip.addr, n.sip.addr);
    case OutboundCaToPaEntry(_, _, dip) => BytesClearedOnce(dip.family, dip.addr, m.dip.addr, n.dip.addr);
    case L2mcEntry(_, _, _, group, source) =>
      BytesClearedOnce(group.family, group.addr, m.group.addr, n.group.addr);
      BytesClearedOnce(source.family, source.addr, m.source.addr, n.source.addr);
    case IpmcEntry(_, _, _, group, source) =>
      BytesClearedOnce(group.family, group.addr, m.group.addr, n.group.addr);
      BytesClearedOnce(source.family, source.addr, m.source.addr, n.source.addr);
    case InboundRoutingEntry(_, _, _, sip, sipMask, _) =>
      BytesClearedOnce(sip.family, sip.addr, m.sip.addr, n.sip.addr);
      BytesClearedOnce(sipMask.family, sipMask.addr, m.sipMask.addr, n.sipMask.addr);
    case _ =>
  }

  /** Handled keys are equal exactly when clearing the unused bytes of their addresses makes one key of them. */
  lemma EqualityComparesUsedBytes(a: MetaKey, b: MetaKey)
    requires Handled(a) && Handled(b)
    ensures Equal(a, b).Returned?
    ensures Equal(a, b).value <==> exists n :: Cleared(a, n) && Cleared(b, n)
  {
    EqualityIsNormalForm(a, b);
    NormalIsCleared(a);
    NormalIsCleared(b);
    if n :| Cleared(a, n) && Cleared(b, n) {
      ClearedOnce(a, n, Normal(a));
      ClearedOnce(b, n, Normal(b));
    }
  }

  /** Equality of handled keys is an equivalence. */
  lemma EqualityIsEquivalence(a: MetaKey, b: MetaKey, c: MetaKey)
    requires Handled(a) && Handled(b) && Handled(c)
    ensures Equal(a, a) == Returned(true)
    ensures Equal(a, b) == Equal(b, a)
    ensures Equal(a, b) == Returned(true) && Equal(b, c) == Returned(true) ==> Equal(a, c) == Returned(true)
  {
    EqualityIsNormalForm(a, a);
    EqualityIsNormalForm(a, b);
    EqualityIsNormalForm(b, a);
    EqualityIsNormalForm(b, c);
    EqualityIsNormalForm(a, c);
  }

  /** A key equals itself exactly when it is handled; otherwise the comparison throws. */
  lemma ReflexiveExactly(k: MetaKey)
    ensures Equal(k, k) == if Handled(k) then Returned(true) else Thrown
  {
    if Handled(k) {
      EqualityIsNormalForm(k, k);
    }
  }

  /** Two keys whose comparison looks at the address families of its first operand alone. */
  predicate FirstOperandDecides(a: MetaKey, b: MetaKey) {
    || (a.RouteEntry? && b.RouteEntry?) || (a.NeighborEntry? && b.NeighborEntry?)
    || (a.L2mcEntry? && b.L2mcEntry?) || (a.IpmcEntry? && b.IpmcEntry?)
  }

  lemma FirstOperandThrows(a: MetaKey, b: MetaKey)
    requires FirstOperandDecides(a, b)
    ensures Equal(a, b).Thrown? <==> !Handled(a)
  {}

  lemma DashSymmetric(a: MetaKey, b: MetaKey)
    requires HasDashAddress(a) && HasDashAddress(b)
    ensures Equal(a, b) == Equal(b, a)
  {}

  lemma OtherwiseSymmetric(a: MetaKey, b: MetaKey)
    requires !FirstOperandDecides(a, b)
    ensures Equal(a, b) == Equal(b, a)
  {
    if HasDashAddress(a) && HasDashAddress(b) {
      DashSymmetric(a, b);
    }
  }

  /**
   * When equality is symmetric, for all keys: except for two routes, neighbors or multicast entries
   * of which exactly one has an unknown family.
   */
  lemma SymmetricExactly(a: MetaKey, b: MetaKey)
    ensures Equal(a, b) == Equal(b, a) <==> (FirstOperandDecides(a, b) ==> (Handled(a) <==> Handled(b)))
  {
    if !FirstOperandDecides(a, b) {
      OtherwiseSymmetric(a, b);
    } else {
      FirstOperandThrows(a, b);
      FirstOperandThrows(b, a);
      if Handled(a) && Handled(b) {
        EqualityIsNormalForm(a, b);
        EqualityIsNormalForm(b, a);
      }
    }
  }

  lemma SameAddressHash(combine: Combine, ip: IpAddress)
    ensures AddressHash(combine, NormalAddress(ip)) == AddressHash(combine, ip)
    ensures PlainHash(ip.family, NormalAddress(ip).addr) == PlainHash(ip.family, ip.addr)
  {
    assert (ip.addr[..4] + ZEROS)[..4] == ip.addr[..4];
  }

  lemma SamePrefixHash(combine: Combine, p: IpPrefix)
    ensures PrefixHash(combine, NormalPrefix(p)) == PrefixHash(combine, p)
    ensures PlainHash(p.family, NormalPrefix(p).addr) == PlainHash(p.family, p.addr)
  {
    assert (p.addr[..4] + ZEROS)[..4] == p.addr[..4];
    assert (p.mask[..4] + ZEROS)[..4] == p.mask[..4];
  }

  lemma DashHashIgnoresUnusedBytes(combine: Combine, k: MetaKey)
    requires HasDashAddress(k)
    ensures Hash(combine, Normal(k)) == Hash(combine, k)
  {
    match k
    case VipEntry(_, vip) => SameAddressHash(combine, vip);
    case InboundRoutingEntry(_, _, _, sip, sipMask, _) =>
      SameAddressHash(combine, sip);
      SameAddressHash(combine, sipMask);
    case PaValidationEntry(_, _, sip) => SameAddressHash(combine, sip);
    case OutboundRoutingEntry(_, prefix, _) => SamePrefixHash(combine, prefix);
    case OutboundCaToPaEntry(_, _, dip) => SameAddressHash(combine, dip);
  }

  lemma HashIgnoresUnusedBytes(combine: Combine, k: MetaKey)
    ensures Hash(combine, Normal(k)) == Hash(combine, k)
  {
    match k
    case RouteEntry(_, _, prefix) => SamePrefixHash(combine, prefix);
    case NeighborEntry(_, _, ip) => SameAddressHash(combine, ip);
    case L2mcEntry(_, _, _, group, _) => SameAddressHash(combine, group);
    case IpmcEntry(_, _, _, group, _) => SameAddressHash(combine, group);
    case _ =>
      if HasDashAddress(k) {
        DashHashIgnoresUnusedBytes(combine, k);
      }
  }

  lemma HandledDashKeysHaveHashes(combine: Combine, k: MetaKey)
    requires Handled(k) && HasDashAddress(k)
    ensures Hash(combine, k).Returned?
  {}

  lemma HandledKeysHaveHashes(combine: Combine, k: MetaKey)
    requires Handled(k)
    ensures Hash(combine, k).Returned?
  {
    if HasDashAddress(k) {
      HandledDashKeysHaveHashes(combine, k);
    }
  }

  /** Equal handled keys have the same hash, whatever `hash_combine` computes. */
  lemma EqualKeysHashEqually(combine: Combine, a: MetaKey, b: MetaKey)
    requires Handled(a) && Handled(b) && Equal(a, b) == Returned(true)
    ensures Hash(combine, a) == Hash(combine, b) && Hash(combine, a).Returned?
  {
    EqualityIsNormalForm(a, b);
    assert Hash(combine, a) == Hash(combine, b) by {
      HashIgnoresUnusedBytes(combine, a);
      HashIgnoresUnusedBytes(combine, b);
    }
    HandledKeysHaveHashes(combine, a);
  }

  /** The hasher throws exactly on keys that are not handled, except for multicast keys with a known group family. */
  lemma HashThrowsExactly(combine: Combine, k: MetaKey)
    ensures Hash(combine, k).Thrown? <==>
              !Handled(k) && ((k.L2mcEntry? || k.IpmcEntry?) ==> k.group.family.OtherFamily?)
  {
    if Handled(k) {
      HandledKeysHaveHashes(combine, k);
    } else if HasDashAddress(k) {
      UnhandledDashKeysThrow(combine, k);
    }
  }

  lemma UnhandledDashKeysThrow(combine: Combine, k: MetaKey)
    requires HasDashAddress(k) && !Handled(k)
    ensures Hash(combine, k).Thrown?
  {
    match k
    case VipEntry(_, vip) =>
      assert [AddressHash(combine, vip)][0].Thrown?;
    case InboundRoutingEntry(_, eniId, vni, sip, sipMask, priority) =>
      var parts := [AddressHash(combine, sip), AddressHash(combine, sipMask),
                    Returned(eniId), Returned(vni), Returned(priority)];
      assert parts[0].Thrown? || parts[1].Thrown?;
    case PaValidationEntry(_, vnetId, sip) =>
      assert [Returned(vnetId), AddressHash(combine, sip)][1].Thrown?;
    case OutboundRoutingEntry(_, prefix, groupId) =>
      assert [PrefixHash(combine, prefix), Returned(groupId)][0].Thrown?;
    case OutboundCaToPaEntry(_, vnetId, dip) =>
      assert [Returned(vnetId), AddressHash(combine, dip)][1].Thrown?;
  }

  /**
   * What the hash looks at where it does not combine: the id, the last four bytes of a MAC, the label,
   * an IPv4 address.
   */
  function HashedPart(k: MetaKey): Option<seq<nat>> {
    match k
    case ObjectIdKey(_, id) => Some([id])
    case InsegEntry(_, mplsLabel) => Some([mplsLabel])
    case FdbEntry(_, _, mac) => Some(mac[2..])
    case McastFdbEntry(_, _, mac) => Some(mac[2..])
    case RouteEntry(_, _, p) => if p.family == Ipv4 then Some(p.addr[..4]) else None
    case NeighborEntry(_, _, ip) => if ip.family == Ipv4 then Some(ip.addr[..4]) else None
    case L2mcEntry(_, _, _, g, _) => if g.family == Ipv4 then Some(g.addr[..4]) else None
    case IpmcEntry(_, _, _, g, _) => if g.family == Ipv4 then Some(g.addr[..4]) else None
    case _ => None
  }

  lemma HashedPartDecides(combine: Combine, k: MetaKey)
    requires HashedPart(k).Some?
    ensures var part := HashedPart(k).value;
            if k.ObjectIdKey? || k.InsegEntry? then |part| == 1 && Hash(combine, k) == Returned(part[0])
            else |part| == 4 && (forall i :: 0 <= i < 4 ==> part[i] < 256)
                 && Hash(combine, k) == Returned(part[0] + 0x100 * part[1] + 0x1_0000 * part[2] + 0x100_0000 * part[3])
  {}

  /** Among the keys whose hash is one number or four bytes, those of one sort collide exactly on equal parts. */
  lemma PlainHashesCollideExactly(combine: Combine, a: MetaKey, b: MetaKey)
    requires HashedPart(a).Some? && HashedPart(b).Some? && |HashedPart(a).value| == |HashedPart(b).value|
    ensures Hash(combine, a) == Hash(combine, b) <==> HashedPart(a) == HashedPart(b)
  {
    HashedPartDecides(combine, a);
    HashedPartDecides(combine, b);
    var p, q := HashedPart(a).value, HashedPart(b).value;
    if |p| == 4 && Hash(combine, a) == Hash(combine, b) {
      assert p[0] == q[0] && p[1] == q[1] && p[2] == q[2] && p[3] == q[3];
      assert p == q;
    } else if |p| == 1 && Hash(combine, a) == Hash(combine, b) {
      assert p == q;
    }
  }

  /**
   * Outside the handled keys equality is not symmetric, and a multicast key whose source family is
   * unknown has a hash although comparing it with itself throws.
   */
  lemma UnknownFamiliesBreakTheLaws(combine: Combine, addr: Bytes16)
    ensures var bad, good := IpPrefix(OtherFamily(7), addr, addr), IpPrefix(Ipv4, addr, addr);
            && Equal(RouteEntry(1, 2, bad), RouteEntry(1, 2, good)) == Thrown
            && Equal(RouteEntry(1, 2, good), RouteEntry(1, 2, bad)) == Returned(false)
    ensures var k := L2mcEntry(1, 2, 0, IpAddress(Ipv4, addr), IpAddress(OtherFamily(7), addr));
            Hash(combine, k).Returned? && Equal(k, k) == Thrown
  {}
}
