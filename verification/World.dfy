/** The state of the proxy as a value, and what each event does to it.  The classes of
    `Interfaces` carry these steps out in place; `LockProtocol` interleaves their parts. */
module World {
  import opened Wrappers
  import opened Grasp
  import opened Registrars

  // ---------- options ----------

  datatype RoosterOptions = RoosterOptions(
    ignoredInterfaces: seq<string>,
    acpInterfaces: seq<string>,
    joinlinkInterfaces: seq<string>)
  {
    predicate IsValidAcpInterface(ifname: string) {
      ifname !in ignoredInterfaces && ifname in acpInterfaces
    }

    predicate IsValidJoinlinkInterface(ifname: string) {
      ifname !in ignoredInterfaces && (ifname in joinlinkInterfaces || joinlinkInterfaces == [])
    }
  }

  // ---------- netlink messages ----------

  datatype OperState =
    | Unknown | NotPresent | Down | LowerLayerDown | Testing | Dormant | Up | OtherState(code: uint8)

  /** The attributes of a link message.  `OtherLinkAttr` stands for those that are only printed
      or skipped. */
  datatype LinkAttr =
    | IfName(name: string)
    | Mtu(bytes: uint32)
    | LinkAddress(octets: seq<uint8>)
    | OperStateAttr(state: OperState)
    | Link(lower: uint32)
    | Master(ifmaster: uint32)
    | OtherLinkAttr

  datatype AddrAttr = Address(octets: seq<uint8>) | CacheInfo | Flags | OtherAddrAttr

  // ---------- one interface ----------

  /** An interface.  A daemon is running when its part is present: the registrar table for the
      ACP daemon, the HTTPS port for the join daemon.  The counters say how often each was started. */
  datatype IfRecord = IfRecord(
    ifindex: IfIndex,
    ifname: string,
    ignored: bool,
    mtu: uint32,
    linklocal6: Ipv6Addr,
    operState: OperState,
    table: Option<seq<Registrar>>,
    joinPort: Option<uint16>,
    acpStarts: nat,
    joinStarts: nat)

  function EmptyRecord(k: IfIndex): IfRecord {
    IfRecord(k, "", false, 0, UNSPECIFIED, Down, None, None, 0, 0)
  }

  function ApplyLinkAttr(rec: IfRecord, attr: LinkAttr): IfRecord {
    match attr
    case IfName(name) => rec.(ifname := name)
    case Mtu(bytes) => rec.(mtu := bytes)
    case OperStateAttr(state) => rec.(operState := state)
    case Master(_) => rec.(ignored := true)
    case _ => rec
  }

  function ApplyLinkAttrs(rec: IfRecord, attrs: seq<LinkAttr>): IfRecord {
    if attrs == [] then rec
    else ApplyLinkAttr(ApplyLinkAttrs(rec, attrs[..|attrs|-1]), attrs[|attrs|-1])
  }

  /** Sixteen octets whose first two are fe80. */
  predicate IsLinkLocal(octets: seq<uint8>) {
    |octets| == 16 && octets[0] == 0xfe && octets[1] == 0x80
  }

  function ApplyAddrAttr(rec: IfRecord, attr: AddrAttr): IfRecord {
    if attr.Address? && IsLinkLocal(attr.octets) then rec.(linklocal6 := attr.octets) else rec
  }

  function ApplyAddrAttrs(rec: IfRecord, attrs: seq<AddrAttr>): IfRecord {
    if attrs == [] then rec
    else ApplyAddrAttr(ApplyAddrAttrs(rec, attrs[..|attrs|-1]), attrs[|attrs|-1])
  }

  // ---------- all interfaces ----------

  /** The maps to shared interfaces appear as their key sets: that equal keys mean the same
      object is part of the invariant of the class. */
  datatype World = World(
    interfaces: map<IfIndex, IfRecord>,
    acp: set<IfIndex>,
    joinlinks: set<IfIndex>,
    proxies: Proxies,
    flag: bool)

  /** Nothing known, and the cache marked out of date. */
  const INITIAL := World(map[], {}, {}, NONE_AVAILABLE, true)

  function Entry(w: World, k: IfIndex): IfRecord {
    if k in w.interfaces then w.interfaces[k] else EmptyRecord(k)
  }

  function Put(w: World, k: IfIndex, rec: IfRecord): World {
    w.(interfaces := w.interfaces[k := rec])
  }

  /** A started ACP daemon has a fresh, empty table; the flag is not touched. */
  function StartAcp(w: World, k: IfIndex): World {
    var rec := Entry(w, k);
    Put(w, k, rec.(table := Some([]), acpStarts := rec.acpStarts + 1)).(acp := w.acp + {k})
  }

  function StartJoin(w: World, k: IfIndex, httpsPort: uint16): World {
    var rec := Entry(w, k);
    Put(w, k, rec.(joinPort := Some(httpsPort), joinStarts := rec.joinStarts + 1)).(joinlinks := w.joinlinks + {k})
  }

  /** What a link message triggers after its attributes were stored. */
  function ComesUp(options: RoosterOptions, w: World, k: IfIndex, httpsPort: uint16): World {
    var ifname := Entry(w, k).ifname;
    var w1 := if options.IsValidAcpInterface(ifname) then StartAcp(w, k) else w;
    if options.IsValidJoinlinkInterface(ifname) then StartJoin(w1, k, httpsPort) else w1
  }

  /** The transition that makes a link message start daemons: not up before, up after all of its
      attributes, and not part of a bridge. */
  predicate GoesUp(before: IfRecord, after: IfRecord) {
    before.operState != Up && after.operState == Up && !after.ignored
  }

  function StoreLink(options: RoosterOptions, w: World, k: IfIndex, attrs: seq<LinkAttr>, httpsPort: uint16): World {
    var before := Entry(w, k);
    var after := ApplyLinkAttrs(before, attrs);
    if GoesUp(before, after) then ComesUp(options, Put(w, k, after), k, httpsPort) else Put(w, k, after)
  }

  function StoreAddr(w: World, k: IfIndex, attrs: seq<AddrAttr>): World {
    Put(w, k, ApplyAddrAttrs(Entry(w, k), attrs))
  }

  /** A message heard by the ACP daemon of an interface. */
  function Hear(w: World, k: IfIndex, m: GraspMessage): World {
    var rec := Entry(w, k);
    if rec.table.None? then w
    else Put(w, k, rec.(table := Some(AddAll(rec.table.value, Accepted(m))))).(flag := w.flag || Accepted(m) != [])
  }

  /** A message heard by a daemon that was replaced, if the interface ever had one: its own table
      is out of reach, but it still raises the shared flag. */
  function HearReplaced(w: World, k: IfIndex, m: GraspMessage): World {
    if Entry(w, k).acpStarts < 2 then w else w.(flag := w.flag || Accepted(m) != [])
  }

  /** The table that the scans find on an interface. */
  function TableOf(w: World, k: IfIndex): seq<Registrar> {
    Entry(w, k).table.GetOr([])
  }

  predicate KindAvailable(w: World, kind: Kind) {
    exists k :: k in w.acp && HasKind(TableOf(w, k), kind)
  }

  /** The kinds that some ACP interface holds. */
  function Scan(w: World): Proxies {
    Proxies(KindAvailable(w, Http), KindAvailable(w, Stateful), KindAvailable(w, Stateless))
  }

  function Update(w: World): World {
    (if w.flag then w.(proxies := Scan(w)) else w).(flag := false)
  }

  // ---------- runs ----------

  datatype Event =
    | LinkMsg(ifindex: IfIndex, linkAttrs: seq<LinkAttr>, httpsPort: uint16)
    | AddrMsg(ifindex: IfIndex, addrAttrs: seq<AddrAttr>)
    | GraspMsg(ifindex: IfIndex, message: GraspMessage)
    | ReplacedMsg(ifindex: IfIndex, message: GraspMessage)
    | UpdateTick

  function Step(options: RoosterOptions, w: World, e: Event): World {
    match e
    case LinkMsg(k, attrs, port) => StoreLink(options, w, k, attrs, port)
    case AddrMsg(k, attrs) => StoreAddr(w, k, attrs)
    case GraspMsg(k, m) => Hear(w, k, m)
    case ReplacedMsg(k, m) => HearReplaced(w, k, m)
    case UpdateTick => Update(w)
  }

  function Run(options: RoosterOptions, events: seq<Event>): World {
    if events == [] then INITIAL
    else Step(options, Run(options, events[..|events|-1]), events[|events|-1])
  }

  // ---------- the scans, in the order a hash map happens to give ----------

  /** Every enumeration of a set, as iterating over a hash map may produce it. */
  ghost predicate Enumerates(order: seq<IfIndex>, keys: set<IfIndex>) {
    forall k :: k in order <==> k in keys
  }

  function ScanInOrder(w: World, order: seq<IfIndex>): Proxies {
    if order == [] then NONE_AVAILABLE
    else ScanInOrder(w, order[..|order|-1]).Or(Available(TableOf(w, order[|order|-1])))
  }

  /** The first HTTP registrar on the first interface that has one. */
  function PickInOrder(w: World, order: seq<IfIndex>): Option<SocketAddr> {
    if order == [] then None
    else if FirstHttp(TableOf(w, order[0])).Some? then FirstHttp(TableOf(w, order[0]))
    else PickInOrder(w, order[1..])
  }
}
