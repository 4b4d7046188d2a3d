/** The shared, mutable objects of the proxy.  `AllInterfaces.Valid` says how the maps alias the
    interface objects and ties them to the value they stand for, the ghost field `view`; every
    method is proved against the step of `World` it carries out in place.

    Locks are not shown here: each method is what happens while its locks are held. */
module Interfaces {
  import opened Wrappers
  import opened Grasp
  import opened Registrars
  import opened RegistrarProperties
  import opened World
  import opened WorldProperties

  const IPPROTO_TCP: uint8 := 6

  /** The flood a join daemon sends. */
  function AnProxyMessage(linklocal6: Ipv6Addr, httpsPort: uint16, proxies: Proxies, id: uint32): GraspMessage {
    GraspMessage(M_FLOOD, id, linklocal6, 1,
                 if proxies.httpAvail
                 then [GraspObjective("AN_Proxy", 0, 1, Some(""), Some(O_IPv6_LOCATOR(linklocal6, IPPROTO_TCP, httpsPort)))]
                 else [])
  }

  class JoinInterface {
    var httpsPort: uint16

    constructor (httpsPort: uint16)
      ensures this.httpsPort == httpsPort
    {
      this.httpsPort := httpsPort;
    }

    /** Nothing is announced yet for the two CoAP kinds. */
    method BuildAnProxy(ifn: Interface, proxies: Proxies, id: uint32) returns (tree: Cbor)
      ensures tree == MessageTree(AnProxyMessage(ifn.linklocal6, httpsPort, proxies, id))
    {
      var initiator := ifn.linklocal6;
      var gm := GraspMessage(M_FLOOD, id, initiator, 1, []);
      if proxies.httpAvail {
        gm := gm.(objectives := gm.objectives + [
          GraspObjective("AN_Proxy", 0, 1, Some(""), Some(O_IPv6_LOCATOR(initiator, IPPROTO_TCP, httpsPort)))]);
      }
      tree := EncodeDullGraspMessage(gm);
    }
  }

  class Interface {
    var ifindex: IfIndex
    var ifname: string
    var ignored: bool
    var mtu: uint32
    var linklocal6: Ipv6Addr
    var operState: OperState
    var acpDaemon: AcpInterface?
    var joinDaemon: JoinInterface?
    var replaced: AcpInterface?  // the handle that the loop of the last replaced ACP daemon keeps
    ghost var acpStarts: nat
    ghost var joinStarts: nat

    ghost function Record(): IfRecord
      reads this, acpDaemon, joinDaemon
    {
      IfRecord(ifindex, ifname, ignored, mtu, linklocal6, operState,
               if acpDaemon == null then None else Some(acpDaemon.registrars),
               if joinDaemon == null then None else Some(joinDaemon.httpsPort),
               acpStarts, joinStarts)
    }

    ghost function Daemons(): (AcpInterface?, JoinInterface?, AcpInterface?)
      reads this
    {
      (acpDaemon, joinDaemon, replaced)
    }

    constructor Empty(ifi: IfIndex)
      ensures Record() == EmptyRecord(ifi) && acpDaemon == null && joinDaemon == null && replaced == null
    {
      ifindex, ifname, ignored, mtu := ifi, "", false, 0;
      linklocal6, operState := UNSPECIFIED, Down;
      acpDaemon, joinDaemon, replaced := null, null, null;
      acpStarts, joinStarts := 0, 0;
    }

    method StoreLinkAttributes(attrs: seq<LinkAttr>)
      modifies this
      ensures Record() == ApplyLinkAttrs(old(Record()), attrs)
      ensures Daemons() == old(Daemons()) && ifindex == old(ifindex)
    {
      for i := 0 to |attrs|
        invariant Daemons() == old(Daemons()) && ifindex == old(ifindex)
        invariant Record() == ApplyLinkAttrs(old(Record()), attrs[..i])
      {
        assert attrs[..i+1][..i] == attrs[..i];
        match attrs[i] {
          case IfName(name) => ifname := name;
          case Mtu(bytes) => mtu := bytes;
          case OperStateAttr(state) => operState := state;
          case Master(_) => ignored := true;
          case _ =>
        }
      }
      assert attrs[..|attrs|] == attrs;
    }

    method StoreAddressAttributes(attrs: seq<AddrAttr>)
      modifies this
      ensures Record() == ApplyAddrAttrs(old(Record()), attrs)
      ensures Daemons() == old(Daemons()) && ifindex == old(ifindex)
    {
      for i := 0 to |attrs|
        invariant Daemons() == old(Daemons()) && ifindex == old(ifindex)
        invariant Record() == ApplyAddrAttrs(old(Record()), attrs[..i])
      {
        assert attrs[..i+1][..i] == attrs[..i];
        if !attrs[i].Address? || |attrs[i].octets| != 16 {
          continue;
        }
        var llv6 := attrs[i].octets;
        if llv6[0] as int * 0x100 + llv6[1] as int != 0xfe80 {
          continue;
        }
        linklocal6 := llv6;
      }
      assert attrs[..|attrs|] == attrs;
    }

    /** A second start replaces the daemon, whose task lives on. */
    method StartAcp(invalidate: Flag)
      modifies this
      ensures Record() == old(Record()).(table := Some([]), acpStarts := old(acpStarts) + 1)
      ensures fresh(acpDaemon) && acpDaemon.invalidate == invalidate && acpDaemon.ifindex == ifindex && acpDaemon.Valid()
      ensures joinDaemon == old(joinDaemon) && replaced == old(acpDaemon) && ifindex == old(ifindex)
    {
      replaced := acpDaemon;
      acpDaemon := new AcpInterface(ifindex, invalidate);
      acpStarts := acpStarts + 1;
    }

    method StartJoinlink(httpsPort: uint16)
      modifies this
      ensures Record() == old(Record()).(joinPort := Some(httpsPort), joinStarts := old(joinStarts) + 1)
      ensures fresh(joinDaemon) && acpDaemon == old(acpDaemon) && replaced == old(replaced) && ifindex == old(ifindex)
    {
      joinDaemon := new JoinInterface(httpsPort);
      joinStarts := joinStarts + 1;
    }

    /** Announces on this interface if its join daemon runs. */
    method RegistrarAllAnnounce(proxies: Proxies, id: uint32) returns (sent: Option<Cbor>)
      ensures sent == if Record().joinPort.None? then None
                      else Some(MessageTree(AnProxyMessage(linklocal6, Record().joinPort.value, proxies, id)))
    {
      if joinDaemon != null {
        var tree := joinDaemon.BuildAnProxy(this, proxies, id);
        return Some(tree);
      }
      return None;
    }

    method CalculateAvailableRegistrar() returns (http: bool, stateful: bool, stateless: bool)
      ensures Proxies(http, stateful, stateless) == Available(Record().table.GetOr([]))
    {
      if acpDaemon != null {
        http, stateful, stateless := acpDaemon.CalculateAvailableRegistrar();
      } else {
        return false, false, false;
      }
    }
  }

  /** A map behind a lock of its own, shared by reference. */
  class JoinMap {
    var entries: map<IfIndex, Interface>

    constructor ()
      ensures entries == map[]
    {
      entries := map[];
    }

    method OrInsert(k: IfIndex, ifn: Interface)
      modifies this
      ensures entries == if k in old(entries) then old(entries) else old(entries)[k := ifn]
    {
      if k !in entries {
        entries := entries[k := ifn];
      }
    }
  }

  class AllInterfaces {
    const invalidateAvail: Flag
    const joinlinkInterfaces: JoinMap
    var proxies: Proxies
    var interfaces: map<IfIndex, Interface>
    var acpInterfaces: map<IfIndex, Interface>

    ghost var view: World
    ghost var Repr: set<object>

    /** The key sets of the view are those of the maps, and the plain parts agree. */
    ghost predicate Plain()
      reads this, invalidateAvail, joinlinkInterfaces
    {
      && {this, invalidateAvail, joinlinkInterfaces} <= Repr
      && view.proxies == proxies && view.flag == invalidateAvail.raised
      && view.interfaces.Keys == interfaces.Keys
      && view.acp == acpInterfaces.Keys && view.joinlinks == joinlinkInterfaces.entries.Keys
    }

    /** An interface object says what the view says under its key, which is its index; its daemons
        run exactly when the maps list it; and its ACP daemon, which is its own, raises the one
        flag that the update reads, as does the one it replaced. */
    ghost predicate Tracks(k: IfIndex, ifn: Interface)
      reads this, Repr
    {
      && ifn in Repr && ifn.ifindex == k
      && (ifn.acpDaemon != null ==>
            && ifn.acpDaemon in Repr && ifn.acpDaemon.ifindex == k
            && ifn.acpDaemon.invalidate == invalidateAvail && ifn.acpDaemon.Valid())
      && (ifn.joinDaemon != null ==> ifn.joinDaemon in Repr)
      && (ifn.replaced != null ==>
            && ifn.replaced in Repr && ifn.replaced.ifindex == k
            && ifn.replaced.invalidate == invalidateAvail && ifn.replaced != ifn.acpDaemon)
      && (ifn.acpDaemon != null <==> ifn.acpStarts >= 1)
      && (ifn.replaced != null <==> ifn.acpStarts >= 2)
      && k in view.interfaces && view.interfaces[k] == ifn.Record()
      && (ifn.acpDaemon != null <==> k in view.acp)
      && (ifn.joinDaemon != null <==> k in view.joinlinks)
    }

    /** Every listed interface is the very object that the main map holds under the same key. */
    ghost predicate Valid()
      reads this, invalidateAvail, joinlinkInterfaces, Repr
    {
      && Plain()
      && (forall k {:trigger Tracks(k, interfaces[k])} :: k in interfaces ==> Tracks(k, interfaces[k]))
      && (forall k {:trigger acpInterfaces[k]} :: k in acpInterfaces ==> k in interfaces && acpInterfaces[k] == interfaces[k])
      && (forall k {:trigger joinlinkInterfaces.entries[k]} :: k in joinlinkInterfaces.entries ==> k in interfaces && joinlinkInterfaces.entries[k] == interfaces[k])
    }

    /** What validity says about one interface. */
    lemma Known(k: IfIndex)
      requires Valid() && k in interfaces
      ensures Tracks(k, interfaces[k]) && Plain()
    {}

    /** The aliasing that validity stands for: one object per index, shared by every map that lists
        the index, listed exactly while its daemon runs, and one flag for all ACP daemons. */
    lemma Aliasing()
      requires Valid()
      ensures forall k :: k in acpInterfaces ==> k in interfaces && acpInterfaces[k] == interfaces[k]
      ensures forall k :: k in joinlinkInterfaces.entries ==> k in interfaces && joinlinkInterfaces.entries[k] == interfaces[k]
      ensures forall k :: k in interfaces ==>
                && interfaces[k].ifindex == k
                && (interfaces[k].acpDaemon != null <==> k in acpInterfaces)
                && (interfaces[k].joinDaemon != null <==> k in joinlinkInterfaces.entries)
                && (interfaces[k].acpDaemon != null ==> interfaces[k].acpDaemon.invalidate == invalidateAvail)
      ensures forall j, k :: j in interfaces && k in interfaces && j != k ==> interfaces[j] != interfaces[k]
    {
      forall k | k in interfaces
        ensures Tracks(k, interfaces[k])
      {
        Known(k);
      }
    }

    /** Validity is kept when one interface, its ACP daemon and the shared parts change, if that
        interface is tracked again and the other entries are left alone. */
    twostate lemma OneReplaced(k: IfIndex)
      requires old(Valid()) && old(Repr) <= Repr
      requires k in interfaces && Tracks(k, interfaces[k])
      requires interfaces == old(interfaces)[k := interfaces[k]]
      requires if old(k in interfaces) then interfaces[k] == old(interfaces[k]) else interfaces[k] !in old(Repr)
      requires forall o :: o in old(Repr) ==>
                 unchanged(o) || o == this || o == invalidateAvail || o == joinlinkInterfaces || o == interfaces[k]
                 || (old(k in interfaces) && (o == old(interfaces[k].acpDaemon) || o == old(interfaces[k].replaced)))
      requires proxies == old(proxies) && view == old(view).(interfaces := view.interfaces, acp := view.acp,
                                                             joinlinks := view.joinlinks, flag := invalidateAvail.raised)
      requires view.interfaces == old(view).interfaces[k := view.interfaces[k]]
      requires acpInterfaces == old(acpInterfaces) || acpInterfaces == old(acpInterfaces)[k := interfaces[k]]
      requires joinlinkInterfaces.entries == old(joinlinkInterfaces.entries)
               || joinlinkInterfaces.entries == old(joinlinkInterfaces.entries)[k := interfaces[k]]
      requires view.acp == acpInterfaces.Keys && view.joinlinks == joinlinkInterfaces.entries.Keys
      ensures Valid()
    {
      forall j | j in interfaces && j != k
        ensures Tracks(j, interfaces[j])
      {
        assert old(Tracks(j, interfaces[j]));
        assert old(k in interfaces) ==> old(Tracks(k, interfaces[k]));
        assert interfaces[j] != interfaces[k];
      }
      assert Plain();
    }

    /** Validity is kept when only the cache and the flag change. */
    twostate lemma NoneReplaced()
      requires old(Valid()) && old(Repr) <= Repr
      requires interfaces == old(interfaces) && acpInterfaces == old(acpInterfaces)
      requires forall o :: o in old(Repr) ==> unchanged(o) || o == this || o == invalidateAvail
      requires view == old(view).(proxies := proxies, flag := invalidateAvail.raised)
      ensures Valid()
    {
      forall j | j in interfaces
        ensures Tracks(j, interfaces[j])
      {
        assert old(Tracks(j, interfaces[j]));
      }
    }

    constructor ()
      ensures Valid() && view == INITIAL && fresh(Repr)
    {
      invalidateAvail := new Flag(true);
      joinlinkInterfaces := new JoinMap();
      proxies := NONE_AVAILABLE;
      interfaces, acpInterfaces := map[], map[];
      view := INITIAL;
      Repr := {this, invalidateAvail, joinlinkInterfaces};
    }

    method GetEntryByIfindex(k: IfIndex) returns (ifn: Interface)
      requires Valid()
      modifies this
      ensures Valid() && fresh(Repr - old(Repr)) && Repr >= old(Repr)
      ensures k in interfaces && ifn == interfaces[k]
      ensures view == Put(old(view), k, Entry(old(view), k))
      ensures old(k in interfaces) ==> interfaces == old(interfaces)
    {
      hide AcpInterface.Valid, AddAll;
      if k !in interfaces {
        ifn := new Interface.Empty(k);
        interfaces := interfaces[k := ifn];
        Repr := Repr + {ifn};
        view := Put(view, k, EmptyRecord(k));
        OneReplaced(k);
      } else {
        assert Tracks(k, interfaces[k]);
        assert view.interfaces == view.interfaces[k := Entry(view, k)];
      }
      ifn := interfaces[k];
    }

    method StoreAddrInfo(k: IfIndex, attrs: seq<AddrAttr>)
      requires Valid()
      modifies Repr
      ensures Valid() && fresh(Repr - old(Repr)) && Repr >= old(Repr)
      ensures view == StoreAddr(old(view), k, attrs)
    {
      var ifn := GetEntryByIfindex(k);
      assert Tracks(k, ifn);
      StoreAddrAttributesOf(k, attrs);
    }

    method StoreAddrAttributesOf(k: IfIndex, attrs: seq<AddrAttr>)
      requires Valid() && k in interfaces
      modifies this, interfaces[k]
      ensures Valid() && Repr == old(Repr)
      ensures view == Put(old(view), k, ApplyAddrAttrs(Entry(old(view), k), attrs))
    {
      hide AllInterfaces.Valid, AcpInterface.Valid, AddAll, ApplyAddrAttrs;
      Known(k);
      interfaces[k].StoreAddressAttributes(attrs);
      ApplyAddrAttrsKeeps(Entry(view, k), attrs);
      view := Put(view, k, ApplyAddrAttrs(Entry(view, k), attrs));
      OneReplaced(k);
    }

    method StoreLinkInfo(options: RoosterOptions, k: IfIndex, attrs: seq<LinkAttr>, httpsPort: uint16)
      requires Valid()
      modifies Repr
      ensures Valid() && fresh(Repr - old(Repr)) && Repr >= old(Repr)
      ensures view == StoreLink(options, old(view), k, attrs, httpsPort)
    {
      hide ComesUp, AcpInterface.Valid, AddAll, ApplyLinkAttrs;
      var ifn := GetEntryByIfindex(k);
      assert Tracks(k, ifn);
      var oldOperState := ifn.operState;
      StoreLinkAttributesOf(k, attrs);
      PutTwice(old(view), k, Entry(old(view), k), ApplyLinkAttrs(Entry(old(view), k), attrs));
      assert Tracks(k, interfaces[k]);
      if oldOperState != Up && interfaces[k].operState == Up {
        if interfaces[k].ignored {
          return;
        }
        BringUp(options, k, httpsPort);
      }
    }

    method StoreLinkAttributesOf(k: IfIndex, attrs: seq<LinkAttr>)
      requires Valid() && k in interfaces
      modifies this, interfaces[k]
      ensures Valid() && Repr == old(Repr) && k in interfaces
      ensures view == Put(old(view), k, ApplyLinkAttrs(Entry(old(view), k), attrs))
    {
      hide AllInterfaces.Valid, AcpInterface.Valid, AddAll, ApplyLinkAttrs;
      Known(k);
      interfaces[k].StoreLinkAttributes(attrs);
      ApplyLinkAttrsKeeps(Entry(view, k), attrs);
      view := Put(view, k, ApplyLinkAttrs(Entry(view, k), attrs));
      OneReplaced(k);
    }

    /** The daemons of an interface that is now up. */
    method BringUp(options: RoosterOptions, k: IfIndex, httpsPort: uint16)
      requires Valid() && k in interfaces
      modifies Repr
      ensures Valid() && fresh(Repr - old(Repr)) && Repr >= old(Repr)
      ensures view == ComesUp(options, old(view), k, httpsPort)
    {
      hide AllInterfaces.Valid, AcpInterface.Valid, AddAll;
      Known(k);
      var ifname := interfaces[k].ifname;
      if options.IsValidAcpInterface(ifname) {
        ListAndStartAcp(k);
        Known(k);
      }
      if options.IsValidJoinlinkInterface(ifname) {
        ListAndStartJoin(k, httpsPort);
      }
    }

    method ListAndStartAcp(k: IfIndex)
      requires Valid() && k in interfaces
      modifies this, interfaces[k]
      ensures Valid() && fresh(Repr - old(Repr)) && Repr >= old(Repr)
      ensures k in interfaces && view == StartAcp(old(view), k)
    {
      hide StartAcp, StartJoin, Entry, Put, AllInterfaces.Valid, AcpInterface.Valid, AddAll;
      Known(k);
      var ifn := interfaces[k];
      acpInterfaces := if k in acpInterfaces then acpInterfaces else acpInterfaces[k := ifn];
      ifn.StartAcp(invalidateAvail);
      Repr := Repr + {ifn.acpDaemon};
      StartAcpHere(view, k);
      view := StartAcp(view, k);
      OneReplaced(k);
    }

    method ListAndStartJoin(k: IfIndex, httpsPort: uint16)
      requires Valid() && k in interfaces
      modifies this, joinlinkInterfaces, interfaces[k]
      ensures Valid() && fresh(Repr - old(Repr)) && Repr >= old(Repr)
      ensures k in interfaces && view == StartJoin(old(view), k, httpsPort)
    {
      hide StartAcp, StartJoin, Entry, Put, AllInterfaces.Valid, AcpInterface.Valid, AddAll;
      Known(k);
      var ifn := interfaces[k];
      joinlinkInterfaces.OrInsert(k, ifn);
      ifn.StartJoinlink(httpsPort);
      Repr := Repr + {ifn.joinDaemon};
      StartJoinHere(view, k, httpsPort);
      view := StartJoin(view, k, httpsPort);
      OneReplaced(k);
    }

    /** What an ACP daemon does with a decoded message. */
    method Announce(k: IfIndex, m: GraspMessage)
      requires Valid()
      modifies Repr
      ensures Valid() && Repr == old(Repr)
      ensures view == Hear(old(view), k, m)
    {
      hide AcpInterface.Valid, AddAll, Accepted;
      assert k in interfaces ==> Tracks(k, interfaces[k]);
      if k in interfaces && interfaces[k].acpDaemon != null {
        interfaces[k].acpDaemon.Announce(m);
        view := Hear(view, k, m);
        OneReplaced(k);
      }
    }

    /** What the loop of a replaced daemon does with a decoded message. */
    method AnnounceReplaced(k: IfIndex, m: GraspMessage)
      requires Valid()
      modifies Repr
      ensures Valid() && Repr == old(Repr)
      ensures view == HearReplaced(old(view), k, m)
    {
      hide AcpInterface.Valid, AddAll, Accepted;
      assert k in interfaces ==> Tracks(k, interfaces[k]);
      if k in interfaces && interfaces[k].replaced != null {
        interfaces[k].replaced.Announce(m);
        view := HearReplaced(view, k, m);
        assert view.interfaces == view.interfaces[k := view.interfaces[k]];
        OneReplaced(k);
      }
    }

    /** Walks the map in whatever order it yields its keys. */
    method CalculateAvailableRegistrars() returns (http: bool, stateful: bool, stateless: bool)
      requires Valid()
      ensures Proxies(http, stateful, stateless) == Scan(view)
    {
      hide AcpInterface.Valid, AddAll, HasKind;
      http, stateful, stateless := false, false, false;
      var todo := acpInterfaces.Keys;
      ghost var seen: set<IfIndex> := {};
      while todo != {}
        invariant seen + todo == acpInterfaces.Keys && seen !! todo
        invariant forall kind: Kind :: Proxies(http, stateful, stateless).Has(kind) <==>
                                       exists k :: k in seen && HasKind(TableOf(view, k), kind)
        decreases todo
      {
        var k :| k in todo;
        assert Tracks(k, acpInterfaces[k]);
        var nhttp, nstateful, nstateless := acpInterfaces[k].CalculateAvailableRegistrar();
        assert Proxies(nhttp, nstateful, nstateless) == Available(TableOf(view, k));
        ghost var before := Proxies(http, stateful, stateless);
        http := http || nhttp;
        stateful := stateful || nstateful;
        stateless := stateless || nstateless;
        forall kind: Kind
          ensures Proxies(http, stateful, stateless).Has(kind) <==>
                  exists j :: j in seen + {k} && HasKind(TableOf(view, j), kind)
        {
          match kind { case Http => case Stateful => case Stateless => }
          assert Proxies(http, stateful, stateless).Has(kind) <==> before.Has(kind) || HasKind(TableOf(view, k), kind);
        }
        todo, seen := todo - {k}, seen + {k};
      }
      assert seen == view.acp;
      ProxiesByKind(Proxies(http, stateful, stateless), view);
    }

    method UpdateAvailableRegistrars()
      requires Valid()
      modifies this, invalidateAvail
      ensures Valid() && Repr == old(Repr)
      ensures view == Update(old(view))
    {
      hide AcpInterface.Valid, AddAll, Scan;
      if invalidateAvail.raised {
        var http, stateful, stateless := CalculateAvailableRegistrars();
        proxies := Proxies(http, stateful, stateless);
      }
      invalidateAvail.raised := false;
      view := Update(view);
      NoneReplaced();
    }

    /** Walks the map in whatever order it yields its keys, and returns at the first HTTP
        registrar; `order` is the order of the walk. */
    method PickAvailableHttpsRegistrar() returns (r: Option<SocketAddr>, ghost order: seq<IfIndex>)
      requires Valid()
      ensures r.Some? <==> KindAvailable(view, Http)
      ensures r.Some? ==> exists k :: k in acpInterfaces && r == FirstHttp(TableOf(view, k))
      ensures Enumerates(order, acpInterfaces.Keys)
      ensures r == PickInOrder(view, order) && PickIs(view, order, r)
    {
      hide AcpInterface.Valid, AddAll, HasKind, KindAvailable, PickIs;
      var todo := acpInterfaces.Keys;
      order := [];
      while todo != {}
        invariant todo <= acpInterfaces.Keys
        invariant forall k :: k in order <==> k in acpInterfaces.Keys - todo
        invariant forall i :: 0 <= i < |order| ==> FirstHttp(TableOf(view, order[i])).None?
        decreases todo
      {
        var k :| k in todo;
        var ifn := acpInterfaces[k];
        assert Tracks(k, ifn);
        if ifn.acpDaemon != null {
          var registrars := ifn.acpDaemon.registrars;
          for i := 0 to |registrars|
            invariant FirstHttp(registrars) == FirstHttp(registrars[i..])
          {
            var rtypes := registrars[i].rtypes;
            for j := 0 to |rtypes|
              invariant forall h :: 0 <= h < j ==> rtypes[h].Kind() != Http
            {
              match rtypes[j] {
                case HTTPRegistrar(port) =>
                  r := Some(SocketAddr(registrars[i].addr, port));
                  assert FindType(rtypes, Http) == j;
                  order := RestOfWalk(order, k, todo - {k}, view);
                  PickedFromListed(view, order);
                  PickExactly(view, order);
                  return;
                case _ =>
              }
            }
            assert FindType(registrars[i..][0].rtypes, Http) == |rtypes|;
          }
          assert registrars[|registrars|..] == [];
        }
        assert FirstHttp(TableOf(view, k)).None?;
        todo, order := todo - {k}, order + [k];
      }
      NothingPicked(view, order);
      PickedFromListed(view, order);
      PickExactly(view, order);
      r := None;
    }
  }

  /** Completes the order of a walk that ended at `k`. */
  ghost function RestOfWalk(before: seq<IfIndex>, k: IfIndex, rest: set<IfIndex>, w: World): (order: seq<IfIndex>)
    requires forall i :: 0 <= i < |before| ==> FirstHttp(TableOf(w, before[i])).None?
    requires FirstHttp(TableOf(w, k)).Some?
    ensures forall j :: j in order <==> j in before || j == k || j in rest
    ensures PickInOrder(w, order) == FirstHttp(TableOf(w, k))
  {
    PickSkips(w, before, [k] + Listed(rest));
    before + ([k] + Listed(rest))
  }

  ghost function Listed(keys: set<IfIndex>): (order: seq<IfIndex>)
    ensures Enumerates(order, keys) && NoRepeats(order)
  {
    if keys == {} then [] else
    var k :| k in keys;
    [k] + Listed(keys - {k})
  }

  lemma PickSkips(w: World, before: seq<IfIndex>, after: seq<IfIndex>)
    requires forall i :: 0 <= i < |before| ==> FirstHttp(TableOf(w, before[i])).None?
    ensures PickInOrder(w, before + after) == PickInOrder(w, after)
  {
    if before == [] {
      assert before + after == after;
    } else {
      assert (before + after)[1..] == before[1..] + after;
      PickSkips(w, before[1..], after);
    }
  }

  lemma NothingPicked(w: World, order: seq<IfIndex>)
    requires forall i :: 0 <= i < |order| ==> FirstHttp(TableOf(w, order[i])).None?
    ensures PickInOrder(w, order) == None
  {}

  lemma ProxiesByKind(p: Proxies, w: World)
    requires forall kind: Kind :: p.Has(kind) <==> exists k :: k in w.acp && HasKind(TableOf(w, k), kind)
    ensures p == Scan(w)
  {
    hide HasKind;
    assert p.Has(Http) <==> KindAvailable(w, Http);
    assert p.Has(Stateful) <==> KindAvailable(w, Stateful);
    assert p.Has(Stateless) <==> KindAvailable(w, Stateless);
  }

  lemma StartAcpHere(w: World, k: IfIndex)
    requires k in w.interfaces
    ensures var rec := w.interfaces[k];
            StartAcp(w, k) == w.(interfaces := w.interfaces[k := rec.(table := Some([]), acpStarts := rec.acpStarts + 1)],
                                 acp := w.acp + {k})
  {}

  lemma StartJoinHere(w: World, k: IfIndex, httpsPort: uint16)
    requires k in w.interfaces
    ensures var rec := w.interfaces[k];
            StartJoin(w, k, httpsPort) ==
            w.(interfaces := w.interfaces[k := rec.(joinPort := Some(httpsPort), joinStarts := rec.joinStarts + 1)],
               joinlinks := w.joinlinks + {k})
  {}

  lemma PutTwice(w: World, k: IfIndex, first: IfRecord, second: IfRecord)
    ensures Put(Put(w, k, first), k, second) == Put(w, k, second)
    ensures Entry(Put(w, k, first), k) == first
  {}

  /** Attributes do not touch the index or the daemons. */
  lemma ApplyLinkAttrsKeeps(rec: IfRecord, attrs: seq<LinkAttr>)
    ensures var r := ApplyLinkAttrs(rec, attrs);
            r == rec.(ifname := r.ifname, mtu := r.mtu, operState := r.operState, ignored := r.ignored)
  {}

  lemma ApplyAddrAttrsKeeps(rec: IfRecord, attrs: seq<AddrAttr>)
    ensures ApplyAddrAttrs(rec, attrs) == rec.(linklocal6 := ApplyAddrAttrs(rec, attrs).linklocal6)
  {}

  // ---------- the program ----------

  /** One round of the main loop: update the cache, copy it out together with the reference to
      the join map, then announce the copy on every join link.  The session ids, which the
      program draws at random, come with the call. */
  method MainLoopRound(all: AllInterfaces, ids: IfIndex -> uint32) returns (sent: map<IfIndex, Cbor>)
    requires all.Valid()
    modifies all, all.invalidateAvail
    ensures all.Valid() && all.view == Update(old(all.view))
    ensures sent.Keys == all.view.joinlinks
    ensures forall k :: k in sent ==>
              Entry(all.view, k).joinPort.Some?
              && sent[k] == MessageTree(AnProxyMessage(Entry(all.view, k).linklocal6,
                                                       Entry(all.view, k).joinPort.value, all.view.proxies, ids(k)))
  {
    all.UpdateAvailableRegistrars();
    var jiHash, proxies := all.joinlinkInterfaces, all.proxies;
    sent := map[];
    var todo := jiHash.entries.Keys;
    while todo != {}
      modifies {}
      invariant todo <= jiHash.entries.Keys && sent.Keys == jiHash.entries.Keys - todo
      invariant forall k :: k in sent ==>
                  Entry(all.view, k).joinPort.Some?
                  && sent[k] == MessageTree(AnProxyMessage(Entry(all.view, k).linklocal6,
                                                           Entry(all.view, k).joinPort.value, proxies, ids(k)))
      decreases todo
    {
      var k :| k in todo;
      var ifn := jiHash.entries[k];
      assert all.Tracks(k, ifn);
      var tree := ifn.RegistrarAllAnnounce(proxies, ids(k));
      if tree.Some? {
        sent := sent[k := tree.value];
      }
      todo := todo - {k};
    }
  }

  /** Any run of events, carried out on the objects one after the other, keeps the aliasing
      invariant and ends in the state of the run. */
  method Process(options: RoosterOptions, events: seq<Event>) returns (all: AllInterfaces)
    ensures fresh(all) && all.Valid()
    ensures all.view == Run(options, events)
  {
    all := new AllInterfaces();
    for i := 0 to |events|
      invariant all.Valid() && fresh(all.Repr)
      invariant all.view == Run(options, events[..i])
    {
      assert events[..i+1][..i] == events[..i];
      match events[i] {
        case LinkMsg(k, attrs, port) => all.StoreLinkInfo(options, k, attrs, port);
        case AddrMsg(k, attrs) => all.StoreAddrInfo(k, attrs);
        case GraspMsg(k, m) => all.Announce(k, m);
        case ReplacedMsg(k, m) => all.AnnounceReplaced(k, m);
        case UpdateTick => all.UpdateAvailableRegistrars();
      }
    }
    assert events[..|events|] == events;
  }
}
