/** What holds of the proxy's state over whole runs of events, taken one at a time. */
module WorldProperties {
  import opened Wrappers
  import opened Registrars
  import opened RegistrarProperties
  import opened World

  // ---------- what a history of messages says about one interface ----------

  /** All attributes of all link messages for an interface, in order. */
  function LinkAttrsOf(events: seq<Event>, k: IfIndex): seq<LinkAttr> {
    if events == [] then [] else
    var before, e := LinkAttrsOf(events[..|events|-1], k), events[|events|-1];
    if e.LinkMsg? && e.ifindex == k then before + e.linkAttrs else before
  }

  function AddrAttrsOf(events: seq<Event>, k: IfIndex): seq<AddrAttr> {
    if events == [] then [] else
    var before, e := AddrAttrsOf(events[..|events|-1], k), events[|events|-1];
    if e.AddrMsg? && e.ifindex == k then before + e.addrAttrs else before
  }

  function LastOper(default: OperState, attrs: seq<LinkAttr>): OperState {
    if attrs == [] then default
    else if attrs[|attrs|-1].OperStateAttr? then attrs[|attrs|-1].state
    else LastOper(default, attrs[..|attrs|-1])
  }

  function LastName(default: string, attrs: seq<LinkAttr>): string {
    if attrs == [] then default
    else if attrs[|attrs|-1].IfName? then attrs[|attrs|-1].name
    else LastName(default, attrs[..|attrs|-1])
  }

  function LastMtu(default: uint32, attrs: seq<LinkAttr>): uint32 {
    if attrs == [] then default
    else if attrs[|attrs|-1].Mtu? then attrs[|attrs|-1].bytes
    else LastMtu(default, attrs[..|attrs|-1])
  }

  predicate HasMaster(attrs: seq<LinkAttr>) {
    exists i :: 0 <= i < |attrs| && attrs[i].Master?
  }

  /** An attribute that carries a link-local address: sixteen octets that start with fe80. */
  predicate CarriesLinkLocal(attr: AddrAttr) {
    attr.Address? && |attr.octets| == 16 && attr.octets[0] == 0xfe && attr.octets[1] == 0x80
  }

  function LastLinkLocal(default: Ipv6Addr, attrs: seq<AddrAttr>): Ipv6Addr {
    if attrs == [] then default else
    var last := attrs[|attrs|-1];
    if CarriesLinkLocal(last) then last.octets
    else LastLinkLocal(default, attrs[..|attrs|-1])
  }

  /** The message at a position moved the interface from not up to up while no message so far
      made it part of a bridge, judged after the message's whole attribute list. */
  predicate CameUpAt(events: seq<Event>, i: nat, k: IfIndex)
    requires i < |events|
  {
    && events[i].LinkMsg? && events[i].ifindex == k
    && LastOper(Down, LinkAttrsOf(events[..i], k)) != Up
    && LastOper(Down, LinkAttrsOf(events[..i+1], k)) == Up
    && !HasMaster(LinkAttrsOf(events[..i+1], k))
  }

  /** Such a transition under a name that is listed for the ACP and not ignored. */
  predicate AcpStartAt(options: RoosterOptions, events: seq<Event>, i: nat, k: IfIndex)
    requires i < |events|
  {
    && CameUpAt(events, i, k)
    && var name := LastName("", LinkAttrsOf(events[..i+1], k));
       name !in options.ignoredInterfaces && name in options.acpInterfaces
  }

  /** Such a transition under a name that is not ignored and listed for joining, if any name is. */
  predicate JoinStartAt(options: RoosterOptions, events: seq<Event>, i: nat, k: IfIndex)
    requires i < |events|
  {
    && CameUpAt(events, i, k)
    && var name := LastName("", LinkAttrsOf(events[..i+1], k));
       name !in options.ignoredInterfaces && (name in options.joinlinkInterfaces || options.joinlinkInterfaces == [])
  }

  /** How many of the first `n` messages start the ACP daemon of an interface. */
  function CountAcpStarts(options: RoosterOptions, events: seq<Event>, n: nat, k: IfIndex): nat
    requires n <= |events|
  {
    if n == 0 then 0
    else CountAcpStarts(options, events, n - 1, k) + (if AcpStartAt(options, events, n - 1, k) then 1 else 0)
  }

  function CountJoinStarts(options: RoosterOptions, events: seq<Event>, n: nat, k: IfIndex): nat
    requires n <= |events|
  {
    if n == 0 then 0
    else CountJoinStarts(options, events, n - 1, k) + (if JoinStartAt(options, events, n - 1, k) then 1 else 0)
  }

  // ---------- one message ----------

  lemma {:induction false} LinkAttrsTell(rec: IfRecord, attrs: seq<LinkAttr>)
    ensures var r := ApplyLinkAttrs(rec, attrs);
            && r.operState == LastOper(rec.operState, attrs)
            && r.ifname == LastName(rec.ifname, attrs)
            && r.mtu == LastMtu(rec.mtu, attrs)
            && (r.ignored <==> rec.ignored || HasMaster(attrs))
            && r == rec.(operState := r.operState, ifname := r.ifname, ignored := r.ignored, mtu := r.mtu)
  {
    if attrs != [] {
      var front := attrs[..|attrs|-1];
      LinkAttrsTell(rec, front);
      assert forall i :: 0 <= i < |front| ==> front[i] == attrs[i];
    }
  }

  lemma {:induction false} LinkAttrsAppend(a: seq<LinkAttr>, b: seq<LinkAttr>, oper: OperState, name: string, mtu: uint32)
    ensures LastOper(oper, a + b) == LastOper(LastOper(oper, a), b)
    ensures LastName(name, a + b) == LastName(LastName(name, a), b)
    ensures LastMtu(mtu, a + b) == LastMtu(LastMtu(mtu, a), b)
    ensures HasMaster(a + b) <==> HasMaster(a) || HasMaster(b)
  {
    if b == [] {
      assert a + b == a;
    } else {
      var n := |b| - 1;
      assert (a + b)[..|a + b|-1] == a + b[..n];
      LinkAttrsAppend(a, b[..n], oper, name, mtu);
    }
    assert forall i :: 0 <= i < |a| ==> (a + b)[i] == a[i];
    assert forall i :: 0 <= i < |b| ==> (a + b)[|a| + i] == b[i];
  }

  lemma {:induction false} AddrAttrsTell(rec: IfRecord, attrs: seq<AddrAttr>)
    ensures ApplyAddrAttrs(rec, attrs) == rec.(linklocal6 := LastLinkLocal(rec.linklocal6, attrs))
  {
    if attrs != [] {
      AddrAttrsTell(rec, attrs[..|attrs|-1]);
    }
  }

  lemma {:induction false} LastLinkLocalAppend(a: seq<AddrAttr>, b: seq<AddrAttr>, default: Ipv6Addr)
    ensures LastLinkLocal(default, a + b) == LastLinkLocal(LastLinkLocal(default, a), b)
  {
    if b == [] {
      assert a + b == a;
    } else {
      var n := |b| - 1;
      assert (a + b)[..|a + b|-1] == a + b[..n];
      LastLinkLocalAppend(a, b[..n], default);
    }
  }

  // ---------- one event ----------

  predicate StartsAcp(options: RoosterOptions, before: IfRecord, attrs: seq<LinkAttr>) {
    var after := ApplyLinkAttrs(before, attrs);
    GoesUp(before, after) && options.IsValidAcpInterface(after.ifname)
  }

  predicate StartsJoin(options: RoosterOptions, before: IfRecord, attrs: seq<LinkAttr>) {
    var after := ApplyLinkAttrs(before, attrs);
    GoesUp(before, after) && options.IsValidJoinlinkInterface(after.ifname)
  }

  /** What a link message does to its own interface. */
  lemma LinkStep(options: RoosterOptions, w: World, e: Event)
    requires e.LinkMsg?
    ensures var k, before, w' := e.ifindex, Entry(w, e.ifindex), Step(options, w, e);
            var acp, join := StartsAcp(options, before, e.linkAttrs), StartsJoin(options, before, e.linkAttrs);
            var after, r := ApplyLinkAttrs(before, e.linkAttrs), Entry(w', k);
            && r == after.(table := if acp then Some([]) else before.table,
                           joinPort := if join then Some(e.httpsPort) else before.joinPort,
                           acpStarts := before.acpStarts + (if acp then 1 else 0),
                           joinStarts := before.joinStarts + (if join then 1 else 0))
            && w'.acp == (if acp then w.acp + {k} else w.acp)
            && w'.joinlinks == (if join then w.joinlinks + {k} else w.joinlinks)
            && w'.interfaces.Keys == w.interfaces.Keys + {k}
            && w'.proxies == w.proxies && w'.flag == w.flag
  {
    LinkAttrsTell(Entry(w, e.ifindex), e.linkAttrs);
  }

  lemma AddrStep(options: RoosterOptions, w: World, e: Event)
    requires e.AddrMsg?
    ensures var before, w' := Entry(w, e.ifindex), Step(options, w, e);
            && Entry(w', e.ifindex) == before.(linklocal6 := LastLinkLocal(before.linklocal6, e.addrAttrs))
            && w' == w.(interfaces := w'.interfaces)
            && w'.interfaces.Keys == w.interfaces.Keys + {e.ifindex}
  {
    AddrAttrsTell(Entry(w, e.ifindex), e.addrAttrs);
  }

  lemma HearStep(options: RoosterOptions, w: World, e: Event)
    requires e.GraspMsg?
    ensures var before, w' := Entry(w, e.ifindex), Step(options, w, e);
            && Entry(w', e.ifindex) == before.(table := if before.table.None? then None
                                                        else Some(AddAll(before.table.value, Accepted(e.message))))
            && w' == w.(interfaces := w'.interfaces, flag := w'.flag)
            && w'.flag == (w.flag || (before.table.Some? && Accepted(e.message) != []))
            && w'.interfaces.Keys == w.interfaces.Keys
  {}

  /** The events that change no interface record but at most the one of another interface. */
  predicate Elsewhere(e: Event, k: IfIndex) {
    e.UpdateTick? || e.ReplacedMsg? || e.ifindex != k
  }

  lemma OtherStep(options: RoosterOptions, w: World, e: Event, k: IfIndex)
    requires Elsewhere(e, k)
    ensures var w' := Step(options, w, e);
            Entry(w', k) == Entry(w, k) && (k in w'.acp <==> k in w.acp) && (k in w'.joinlinks <==> k in w.joinlinks)
            && w'.interfaces.Keys >= w.interfaces.Keys
  {}

  // ---------- whole runs ----------

  lemma RunSnoc(options: RoosterOptions, events: seq<Event>, e: Event)
    ensures Run(options, events + [e]) == Step(options, Run(options, events), e)
  {}

  ghost predicate FieldsTell(rec: IfRecord, events: seq<Event>, k: IfIndex) {
    && rec.ifindex == k
    && rec.operState == LastOper(Down, LinkAttrsOf(events, k))
    && rec.ifname == LastName("", LinkAttrsOf(events, k))
    && rec.ignored == HasMaster(LinkAttrsOf(events, k))
    && rec.mtu == LastMtu(0, LinkAttrsOf(events, k))
    && rec.linklocal6 == LastLinkLocal(UNSPECIFIED, AddrAttrsOf(events, k))
  }

  lemma FieldsAfterStep(options: RoosterOptions, w: World, events: seq<Event>, e: Event, k: IfIndex)
    requires FieldsTell(Entry(w, k), events, k)
    ensures FieldsTell(Entry(Step(options, w, e), k), events + [e], k)
  {
    hide Step;
    assert (events + [e])[..|events|] == events;
    if Elsewhere(e, k) {
      OtherStep(options, w, e, k);
    } else {
      match e {
        case LinkMsg(_, attrs, _) =>
          LinkStep(options, w, e);
          LinkAttrsTell(Entry(w, k), attrs);
          LinkAttrsAppend(LinkAttrsOf(events, k), attrs, Down, "", 0);
        case AddrMsg(_, attrs) =>
          AddrStep(options, w, e);
          LastLinkLocalAppend(AddrAttrsOf(events, k), attrs, UNSPECIFIED);
        case GraspMsg(_, _) =>
          HearStep(options, w, e);
      }
    }
  }

  /** After any run, an interface's fields are what its messages said last. */
  lemma {:induction false} FieldsOfRun(options: RoosterOptions, events: seq<Event>, k: IfIndex)
    ensures FieldsTell(Entry(Run(options, events), k), events, k)
  {
    hide Step;
    if events != [] {
      var n := |events| - 1;
      FieldsOfRun(options, events[..n], k);
      FieldsAfterStep(options, Run(options, events[..n]), events[..n], events[n], k);
      assert events[..n] + [events[n]] == events;
    }
  }

  /** All zeros, or starting with fe80. */
  predicate UnspecifiedOrLinkLocal(a: Ipv6Addr) {
    (forall i :: 0 <= i < 16 ==> a[i] == 0) || (a[0] == 0xfe && a[1] == 0x80)
  }

  lemma {:induction false} LinkLocalForm(attrs: seq<AddrAttr>)
    ensures UnspecifiedOrLinkLocal(LastLinkLocal(UNSPECIFIED, attrs))
  {
    if attrs != [] {
      LinkLocalForm(attrs[..|attrs|-1]);
    }
  }

  /** In every reachable state the address to announce is unspecified or starts with fe80. */
  lemma LinkLocalOfRun(options: RoosterOptions, events: seq<Event>, k: IfIndex)
    ensures UnspecifiedOrLinkLocal(Entry(Run(options, events), k).linklocal6)
  {
    FieldsOfRun(options, events, k);
    LinkLocalForm(AddrAttrsOf(events, k));
  }

  /** The last of some attributes that carries a link-local address. */
  predicate IsLastCarrier(attrs: seq<AddrAttr>, i: int) {
    && 0 <= i < |attrs| && CarriesLinkLocal(attrs[i])
    && forall j :: i < j < |attrs| ==> !CarriesLinkLocal(attrs[j])
  }

  predicate NoCarrier(attrs: seq<AddrAttr>) {
    forall i :: 0 <= i < |attrs| ==> !CarriesLinkLocal(attrs[i])
  }

  /** The address is what the last carrier says, and the default if there is none. */
  ghost predicate SaidLast(attrs: seq<AddrAttr>, default: Ipv6Addr, a: Ipv6Addr) {
    (exists i :: IsLastCarrier(attrs, i) && a == attrs[i].octets) || (NoCarrier(attrs) && a == default)
  }

  lemma {:induction false} LastLinkLocalExactly(default: Ipv6Addr, attrs: seq<AddrAttr>)
    ensures SaidLast(attrs, default, LastLinkLocal(default, attrs))
  {
    if attrs != [] {
      var n := |attrs| - 1;
      if CarriesLinkLocal(attrs[n]) {
        assert IsLastCarrier(attrs, n);
      } else {
        LastLinkLocalExactly(default, attrs[..n]);
        if i :| IsLastCarrier(attrs[..n], i) && LastLinkLocal(default, attrs[..n]) == attrs[..n][i].octets {
          assert IsLastCarrier(attrs, i);
        } else {
          assert forall i :: 0 <= i < n ==> attrs[..n][i] == attrs[i];
        }
      }
    }
  }

  /** One address message: the last link-local address it carries becomes the interface's, and a
      message that carries none leaves it; nothing else of any interface changes. */
  lemma AddressStored(options: RoosterOptions, w: World, k: IfIndex, attrs: seq<AddrAttr>)
    ensures var w', before := Step(options, w, AddrMsg(k, attrs)), Entry(w, k);
            && Entry(w', k) == before.(linklocal6 := Entry(w', k).linklocal6)
            && SaidLast(attrs, before.linklocal6, Entry(w', k).linklocal6)
            && (forall j :: j != k ==> Entry(w', j) == Entry(w, j))
  {
    hide Step, SaidLast, LastLinkLocal;
    var e := AddrMsg(k, attrs);
    AddrStep(options, w, e);
    LastLinkLocalExactly(Entry(w, k).linklocal6, attrs);
    forall j | j != k {
      OtherStep(options, w, e, j);
    }
  }

  /** Over runs: an interface's address is the last link-local one that any of its address messages
      carried, and unspecified if none did. */
  lemma AddressOfRun(options: RoosterOptions, events: seq<Event>, k: IfIndex)
    ensures SaidLast(AddrAttrsOf(events, k), [0, 0, 0, 0, 0, 0, 0, 0, 0, 0, 0, 0, 0, 0, 0, 0],
                     Entry(Run(options, events), k).linklocal6)
  {
    hide Run, SaidLast, LastLinkLocal, AddrAttrsOf;
    FieldsOfRun(options, events, k);
    LastLinkLocalExactly(UNSPECIFIED, AddrAttrsOf(events, k));
  }

  lemma StartsOfPrefix(options: RoosterOptions, events: seq<Event>, n: nat, m: nat, k: IfIndex)
    requires n <= m <= |events|
    ensures CountAcpStarts(options, events[..m], n, k) == CountAcpStarts(options, events, n, k)
    ensures CountJoinStarts(options, events[..m], n, k) == CountJoinStarts(options, events, n, k)
  {
    if n > 0 {
      StartsOfPrefix(options, events, n - 1, m, k);
      assert events[..m][..n] == events[..n] && events[..m][..n-1] == events[..n-1];
    }
  }

  ghost predicate DaemonsTell(options: RoosterOptions, w: World, events: seq<Event>, k: IfIndex) {
    && Entry(w, k).acpStarts == CountAcpStarts(options, events, |events|, k)
    && Entry(w, k).joinStarts == CountJoinStarts(options, events, |events|, k)
    && (k in w.acp <==> Entry(w, k).acpStarts > 0)
    && (k in w.joinlinks <==> Entry(w, k).joinStarts > 0)
    && (k in w.acp <==> Entry(w, k).table.Some?)
    && (k in w.joinlinks <==> Entry(w, k).joinPort.Some?)
    && (k in w.acp + w.joinlinks ==> k in w.interfaces)
  }

  /** The start conditions judged on the record are those judged on the history. */
  lemma StartsMatch(options: RoosterOptions, w: World, events: seq<Event>, k: IfIndex)
    requires |events| > 0
    requires var n := |events| - 1;
             FieldsTell(Entry(w, k), events[..n], k)
             && FieldsTell(Entry(Step(options, w, events[n]), k), events, k)
    ensures var n := |events| - 1; var e := events[n];
            && (AcpStartAt(options, events, n, k)
                <==> e.LinkMsg? && e.ifindex == k && StartsAcp(options, Entry(w, k), e.linkAttrs))
            && (JoinStartAt(options, events, n, k)
                <==> e.LinkMsg? && e.ifindex == k && StartsJoin(options, Entry(w, k), e.linkAttrs))
  {
    hide Step, LastOper, LastName, LastMtu, LastLinkLocal, LinkAttrsOf, AddrAttrsOf, ApplyLinkAttrs;
    var n := |events| - 1;
    assert events[..n+1] == events;
    if events[n].LinkMsg? && events[n].ifindex == k {
      LinkStep(options, w, events[n]);
    }
  }

  /** Each such transition starts each matching daemon exactly once, and nothing else does; a
      daemon runs exactly when it was started; and it runs exactly on the listed interfaces. */
  lemma {:induction false} DaemonsOfRun(options: RoosterOptions, events: seq<Event>, k: IfIndex)
    ensures DaemonsTell(options, Run(options, events), events, k)
  {
    hide Step, AcpStartAt, JoinStartAt;
    if events != [] {
      var n := |events| - 1;
      var front, e := events[..n], events[n];
      var w := Run(options, front);
      DaemonsOfRun(options, front, k);
      StartsOfPrefix(options, events, n, n, k);
      FieldsOfRun(options, front, k);
      FieldsOfRun(options, events, k);
      StartsMatch(options, w, events, k);
      if Elsewhere(e, k) {
        OtherStep(options, w, e, k);
      } else {
        match e {
          case LinkMsg(_, attrs, _) =>
            LinkStep(options, w, e);
          case AddrMsg(_, _) => AddrStep(options, w, e);
          case GraspMsg(_, _) => HearStep(options, w, e);
        }
      }
    }
  }

  lemma {:induction false} CountPositive(options: RoosterOptions, events: seq<Event>, n: nat, k: IfIndex)
    requires n <= |events|
    ensures CountAcpStarts(options, events, n, k) > 0 <==> exists i :: 0 <= i < n && AcpStartAt(options, events, i, k)
    ensures CountJoinStarts(options, events, n, k) > 0 <==> exists i :: 0 <= i < n && JoinStartAt(options, events, i, k)
  {
    if n > 0 {
      CountPositive(options, events, n - 1, k);
    }
  }

  /** The interfaces ever listed for the ACP, and for joining, are exactly those with some message
      that moved them from not up to up while not ignored and with a name the options accept. */
  lemma MembershipOfRun(options: RoosterOptions, events: seq<Event>, k: IfIndex)
    ensures k in Run(options, events).acp
            <==> exists i :: 0 <= i < |events| && AcpStartAt(options, events, i, k)
    ensures k in Run(options, events).joinlinks
            <==> exists i :: 0 <= i < |events| && JoinStartAt(options, events, i, k)
  {
    DaemonsOfRun(options, events, k);
    CountPositive(options, events, |events|, k);
  }

  // ---------- tables over runs ----------

  /** What the present ACP daemon of an interface has accepted since it was started. */
  function AcceptsSince(options: RoosterOptions, events: seq<Event>, k: IfIndex): seq<Accept> {
    if events == [] then [] else
    var n := |events| - 1;
    var before := AcceptsSince(options, events[..n], k);
    if AcpStartAt(options, events, n, k) then []
    else if events[n].GraspMsg? && events[n].ifindex == k && CountAcpStarts(options, events, n, k) > 0 then
      before + Accepted(events[n].message)
    else before
  }

  lemma {:induction false} TableOfRun(options: RoosterOptions, events: seq<Event>, k: IfIndex)
    ensures k in Run(options, events).acp ==>
              Entry(Run(options, events), k).table == Some(AddAll([], AcceptsSince(options, events, k)))
  {
    hide Step, AcpStartAt, JoinStartAt, AddAll;
    if events != [] {
      var n := |events| - 1;
      var front, e := events[..n], events[n];
      var w := Run(options, front);
      TableOfRun(options, front, k);
      DaemonsOfRun(options, front, k);
      StartsOfPrefix(options, events, n, n, k);
      FieldsOfRun(options, front, k);
      FieldsOfRun(options, events, k);
      StartsMatch(options, w, events, k);
      NothingYet([], [], 0);
      if Elsewhere(e, k) {
        OtherStep(options, w, e, k);
      } else {
        match e {
          case LinkMsg(_, attrs, _) =>
            LinkStep(options, w, e);
            LinkAttrsTell(Entry(w, k), attrs);
          case AddrMsg(_, _) => AddrStep(options, w, e);
          case GraspMsg(_, m) =>
            HearStep(options, w, e);
            AddAllAppend([], AcceptsSince(options, front, k), Accepted(m));
        }
      }
    }
  }

  // ---------- scan and selection ----------

  lemma {:induction false} ScanInOrderHas(w: World, order: seq<IfIndex>, kind: Kind)
    ensures ScanInOrder(w, order).Has(kind) <==> exists i :: 0 <= i < |order| && HasKind(TableOf(w, order[i]), kind)
  {
    if order != [] {
      var front := order[..|order|-1];
      ScanInOrderHas(w, front, kind);
      assert forall i :: 0 <= i < |front| ==> front[i] == order[i];
    }
  }

  /** Whatever order the map is walked in, the scan finds the kinds that some interface holds. */
  lemma ScanAnyOrder(w: World, order: seq<IfIndex>)
    requires Enumerates(order, w.acp)
    ensures ScanInOrder(w, order) == Scan(w)
  {
    forall kind: Kind
      ensures ScanInOrder(w, order).Has(kind) <==> KindAvailable(w, kind)
    {
      ScanInOrderHas(w, order, kind);
    }
    assert ScanInOrder(w, order).Has(Http) <==> KindAvailable(w, Http);
    assert ScanInOrder(w, order).Has(Stateful) <==> KindAvailable(w, Stateful);
    assert ScanInOrder(w, order).Has(Stateless) <==> KindAvailable(w, Stateless);
  }

  lemma {:induction false} PickInOrderFrom(w: World, order: seq<IfIndex>)
    ensures PickInOrder(w, order).Some? <==> exists i :: 0 <= i < |order| && HasKind(TableOf(w, order[i]), Http)
    ensures PickInOrder(w, order).Some? ==>
              exists k :: k in order && PickInOrder(w, order) == FirstHttp(TableOf(w, k))
  {
    if order != [] {
      FirstHttpExact(TableOf(w, order[0]));
      PickInOrderFrom(w, order[1..]);
      assert forall i :: 0 <= i < |order[1..]| ==> order[1..][i] == order[i + 1];
      if PickInOrder(w, order).Some? && FirstHttp(TableOf(w, order[0])).None? {
        var k :| k in order[1..] && PickInOrder(w, order[1..]) == FirstHttp(TableOf(w, k));
        assert k in order;
      }
      if i :| 0 <= i < |order| && HasKind(TableOf(w, order[i]), Http) {
        assert i > 0 ==> HasKind(TableOf(w, order[1..][i - 1]), Http);
      }
    }
  }

  /** Whatever order the map is walked in, a registrar is picked if and only if some listed interface
      holds one for HTTP, and it is the first of such an interface. */
  lemma PickedFromListed(w: World, order: seq<IfIndex>)
    requires Enumerates(order, w.acp)
    ensures PickInOrder(w, order).Some? <==> KindAvailable(w, Http)
    ensures PickInOrder(w, order).Some? ==> exists k :: k in w.acp && PickInOrder(w, order) == FirstHttp(TableOf(w, k))
  {
    PickInOrderFrom(w, order);
    if k :| k in w.acp && HasKind(TableOf(w, k), Http) {
      assert k in order;
    }
  }

  /** The walk takes the first interface in its order that holds an HTTP registrar. */
  lemma {:induction false} PickedFirst(w: World, order: seq<IfIndex>, n: nat)
    requires n < |order| && HasKind(TableOf(w, order[n]), Http)
    requires forall m :: 0 <= m < n ==> !HasKind(TableOf(w, order[m]), Http)
    ensures PickInOrder(w, order) == FirstHttp(TableOf(w, order[n]))
  {
    hide HasKind, FirstHttp, TableOf;
    FirstHttpExact(TableOf(w, order[0]));
    if n > 0 {
      assert !HasKind(TableOf(w, order[0]), Http);
      PickedFirst(w, order[1..], n - 1);
    }
  }

  /** What the walk should pick: nothing if no interface holds an HTTP entry, and otherwise the first
      HTTP entry of the first interface in the order that holds one. */
  ghost predicate PickIs(w: World, order: seq<IfIndex>, r: Option<SocketAddr>) {
    match r
    case None => forall n :: 0 <= n < |order| ==> !HoldsHttp(TableOf(w, order[n]))
    case Some(s) =>
      exists n :: 0 <= n < |order| && FirstHttpOf(TableOf(w, order[n]), s)
                  && forall m :: 0 <= m < n ==> !HoldsHttp(TableOf(w, order[m]))
  }

  lemma {:induction false} PickExactly(w: World, order: seq<IfIndex>)
    ensures PickIs(w, order, PickInOrder(w, order))
  {
    hide TableOf, FirstHttp, FirstHttpOf, HoldsHttp;
    if order != [] {
      FirstHttpExactly(TableOf(w, order[0]));
      if FirstHttp(TableOf(w, order[0])).None? {
        var rest := order[1..];
        PickExactly(w, rest);
        assert forall n :: 0 <= n < |rest| ==> rest[n] == order[n + 1];
        if PickInOrder(w, rest).Some? {
          var s := PickInOrder(w, rest).value;
          var n :| 0 <= n < |rest| && FirstHttpOf(TableOf(w, rest[n]), s)
                   && forall m :: 0 <= m < n ==> !HoldsHttp(TableOf(w, rest[m]));
          forall m | 0 <= m < n + 1
            ensures !HoldsHttp(TableOf(w, order[m]))
          {
            assert m > 0 ==> order[m] == rest[m - 1];
          }
          assert FirstHttpOf(TableOf(w, order[n + 1]), s);
        } else {
          forall n | 0 <= n < |order|
            ensures !HoldsHttp(TableOf(w, order[n]))
          {
            assert n > 0 ==> order[n] == rest[n - 1];
          }
        }
      }
    }
  }

  /** For every order of either walk: a registrar is picked exactly when the scan reports HTTP. */
  lemma PickAgreesWithScan(w: World, order: seq<IfIndex>, scanOrder: seq<IfIndex>)
    requires Enumerates(order, w.acp) && Enumerates(scanOrder, w.acp)
    ensures PickInOrder(w, order).Some? <==> ScanInOrder(w, scanOrder).httpAvail
  {
    ScanAnyOrder(w, scanOrder);
    PickedFromListed(w, order);
  }

  /** After any run, and for any order of the walk, a picked address and port is the latest HTTP
      port that some ACP daemon accepted for that address since it was started. */
  lemma PickedIsLatest(options: RoosterOptions, events: seq<Event>, order: seq<IfIndex>)
    requires Enumerates(order, Run(options, events).acp)
    requires PickInOrder(Run(options, events), order).Some?
    ensures var s := PickInOrder(Run(options, events), order).value;
            exists k :: k in Run(options, events).acp
                        && LastPort(AcceptsSince(options, events, k), s.addr, Http) == Some(s.port)
  {
    var w := Run(options, events);
    PickInOrderFrom(w, order);
    var k :| k in order && PickInOrder(w, order) == FirstHttp(TableOf(w, k));
    TableOfRun(options, events, k);
    FirstHttpIsLatest(AcceptsSince(options, events, k));
  }

  /** The present daemon of an interface accepted an HTTP registrar since it was started. */
  ghost predicate HeardHttp(options: RoosterOptions, events: seq<Event>, k: IfIndex) {
    exists i :: 0 <= i < |AcceptsSince(options, events, k)| && AcceptsSince(options, events, k)[i].rtype.HTTPRegistrar?
  }

  /** And exactly which: the pick goes to the first interface of the walk whose daemon heard of an HTTP
      registrar, and there to the address seen earliest that has an HTTP port. */
  lemma PickedIsEarliest(options: RoosterOptions, events: seq<Event>, order: seq<IfIndex>, n: nat)
    requires Enumerates(order, Run(options, events).acp)
    requires n < |order| && HeardHttp(options, events, order[n])
    requires forall m :: 0 <= m < n ==> !HeardHttp(options, events, order[m])
    ensures PickInOrder(Run(options, events), order).Some?
    ensures EarliestHttp(AcceptsSince(options, events, order[n]), PickInOrder(Run(options, events), order).value)
  {
    hide Run, AcceptsSince, HasKind, FirstHttp, AddAll, EarliestHttp;
    var w := Run(options, events);
    forall m | 0 <= m <= n
      ensures HasKind(TableOf(w, order[m]), Http) <==> HeardHttp(options, events, order[m])
    {
      TableOfRun(options, events, order[m]);
      HasKindOfHistory(AcceptsSince(options, events, order[m]), Http);
    }
    PickedFirst(w, order, n);
    TableOfRun(options, events, order[n]);
    FirstHttpExact(TableOf(w, order[n]));
    FirstHttpIsEarliest(AcceptsSince(options, events, order[n]));
  }

  /** The scan, entry by entry: each kind is reported exactly if an entry of some listed interface is
      built with its constructor. */
  lemma ScanByEntry(w: World)
    ensures Scan(w) == Proxies(exists k :: k in w.acp && HoldsHttp(TableOf(w, k)),
                               exists k :: k in w.acp && HoldsCoAP(TableOf(w, k)),
                               exists k :: k in w.acp && HoldsStatelessCoAP(TableOf(w, k)))
  {
    hide HasKind, TableOf, HoldsHttp, HoldsCoAP, HoldsStatelessCoAP;
    forall k
      ensures Available(TableOf(w, k))
              == Proxies(HoldsHttp(TableOf(w, k)), HoldsCoAP(TableOf(w, k)), HoldsStatelessCoAP(TableOf(w, k)))
    {
      AvailableByEntry(TableOf(w, k));
    }
  }

  // ---------- the cache ----------

  /** The cache claims no kind that is gone and, when not marked out of date, every kind held. */
  predicate CacheExact(w: World) {
    && (forall kind: Kind :: w.proxies.Has(kind) ==> KindAvailable(w, kind))
    && (!w.flag ==> forall kind: Kind :: KindAvailable(w, kind) ==> w.proxies.Has(kind))
  }

  /** The event replaces a running ACP daemon. */
  predicate Restarts(options: RoosterOptions, w: World, e: Event) {
    e.LinkMsg? && StartsAcp(options, Entry(w, e.ifindex), e.linkAttrs) && Entry(w, e.ifindex).table.Some?
  }

  /** A kind is still held by an interface other than the given one. */
  predicate HeldElsewhere(w: World, k: IfIndex, kind: Kind) {
    exists j :: j in w.acp && j != k && HasKind(TableOf(w, j), kind)
  }

  lemma AvailableAfterAll(table: seq<Registrar>, accepts: seq<Accept>, kind: Kind)
    ensures HasKind(table, kind) ==> HasKind(AddAll(table, accepts), kind)
    ensures accepts == [] ==> AddAll(table, accepts) == table
  {
    if accepts != [] {
      var n := |accepts| - 1;
      AvailableAfterAll(table, accepts[..n], kind);
      HasKindAfterAdd(AddAll(table, accepts[..n]), accepts[n], kind);
    }
  }

  /** How one event changes the table the scans find on an interface. */
  lemma TableAfterStep(options: RoosterOptions, w: World, e: Event, k: IfIndex)
    requires k in w.acp && Entry(w, k).table.Some?
    ensures k in Step(options, w, e).acp && Entry(Step(options, w, e), k).table.Some?
    ensures TableOf(Step(options, w, e), k) ==
            if Restarts(options, w, e) && e.ifindex == k then []
            else if e.GraspMsg? && e.ifindex == k then AddAll(TableOf(w, k), Accepted(e.message))
            else TableOf(w, k)
  {
    hide Step, ApplyLinkAttrs, AddAll;
    if Elsewhere(e, k) {
      OtherStep(options, w, e, k);
    } else {
      match e {
        case LinkMsg(_, _, _) => LinkStep(options, w, e);
        case AddrMsg(_, _) => AddrStep(options, w, e);
        case GraspMsg(_, _) => HearStep(options, w, e);
      }
    }
  }

  /** An interface that enters the ACP list enters with an empty table. */
  lemma NewcomerIsEmpty(options: RoosterOptions, w: World, e: Event, k: IfIndex)
    requires k !in w.acp && k in Step(options, w, e).acp
    ensures TableOf(Step(options, w, e), k) == []
  {}

  ghost predicate AcpHasTables(w: World) {
    forall k :: k in w.acp ==> Entry(w, k).table.Some?
  }

  /** The kinds available after an event other than an update that restarts no daemon. */
  lemma AvailableGrows(options: RoosterOptions, w: World, e: Event, kind: Kind)
    requires AcpHasTables(w) && !Restarts(options, w, e)
    ensures KindAvailable(w, kind) ==> KindAvailable(Step(options, w, e), kind)
    ensures KindAvailable(Step(options, w, e), kind) ==> KindAvailable(w, kind) || Step(options, w, e).flag
  {
    var w' := Step(options, w, e);
    if k :| k in w.acp && HasKind(TableOf(w, k), kind) {
      TableAfterStep(options, w, e, k);
      if e.GraspMsg? {
        AvailableAfterAll(TableOf(w, k), Accepted(e.message), kind);
      }
      assert HasKind(TableOf(w', k), kind);
    }
    if k :| k in w'.acp && HasKind(TableOf(w', k), kind) {
      if k in w.acp {
        TableAfterStep(options, w, e, k);
        if e.GraspMsg? {
          AvailableAfterAll(TableOf(w, k), Accepted(e.message), kind);
        }
      } else {
        NewcomerIsEmpty(options, w, e, k);
      }
    }
  }

  /** Every event that replaces no daemon keeps the cache exact. */
  lemma ExactUnlessRestart(options: RoosterOptions, w: World, e: Event)
    requires AcpHasTables(w) && CacheExact(w) && !Restarts(options, w, e)
    ensures CacheExact(Step(options, w, e))
  {
    forall kind: Kind {
      AvailableGrows(options, w, e, kind);
    }
    if e.UpdateTick? {
      assert forall kind: Kind :: KindAvailable(Step(options, w, e), kind) <==> KindAvailable(w, kind);
      assert forall kind: Kind :: Scan(w).Has(kind) <==> KindAvailable(w, kind);
    }
  }

  /** Replacing a daemon drops its table without marking the cache out of date.  The cache stays
      exact if and only if every cached kind of the dropped table is held elsewhere. */
  lemma ExactAfterRestart(options: RoosterOptions, w: World, e: Event)
    requires AcpHasTables(w) && CacheExact(w) && Restarts(options, w, e)
    ensures CacheExact(Step(options, w, e))
            <==> forall kind: Kind :: w.proxies.Has(kind) && HasKind(TableOf(w, e.ifindex), kind)
                                      ==> HeldElsewhere(w, e.ifindex, kind)
  {
    var w' := Step(options, w, e);
    assert w'.flag == w.flag && w'.proxies == w.proxies;
    forall kind: Kind
      ensures KindAvailable(w', kind) <==> HeldElsewhere(w, e.ifindex, kind)
    {
      AvailableAfterRestart(options, w, e, kind);
    }
    forall kind: Kind
      ensures HeldElsewhere(w, e.ifindex, kind) ==> KindAvailable(w, kind)
      ensures KindAvailable(w, kind) ==> HasKind(TableOf(w, e.ifindex), kind) || HeldElsewhere(w, e.ifindex, kind)
    {
    }
  }

  lemma AvailableAfterRestart(options: RoosterOptions, w: World, e: Event, kind: Kind)
    requires AcpHasTables(w) && Restarts(options, w, e)
    ensures KindAvailable(Step(options, w, e), kind) <==> HeldElsewhere(w, e.ifindex, kind)
  {
    var w' := Step(options, w, e);
    LinkAttrsTell(Entry(w, e.ifindex), e.linkAttrs);
    if k :| k in w'.acp && HasKind(TableOf(w', k), kind) {
      assert TableOf(w', e.ifindex) == [];
      assert k != e.ifindex && k in w.acp;
      TableAfterStep(options, w, e, k);
    }
    if j :| j in w.acp && j != e.ifindex && HasKind(TableOf(w, j), kind) {
      TableAfterStep(options, w, e, j);
      assert HasKind(TableOf(w', j), kind);
    }
  }

  ghost predicate NeverRestarts(options: RoosterOptions, events: seq<Event>) {
    forall i :: 0 <= i < |events| ==> !Restarts(options, Run(options, events[..i]), events[i])
  }

  lemma AcpHasTablesOfRun(options: RoosterOptions, events: seq<Event>)
    ensures AcpHasTables(Run(options, events))
  {
    forall k | k in Run(options, events).acp
      ensures Entry(Run(options, events), k).table.Some?
    {
      DaemonsOfRun(options, events, k);
    }
  }

  /** From a state with an exact cache, no run without a restart spoils it, whatever happened
      before. */
  lemma {:induction false} ExactFrom(options: RoosterOptions, events: seq<Event>, i: nat)
    requires i <= |events| && CacheExact(Run(options, events[..i]))
    requires forall j :: i <= j < |events| ==> !Restarts(options, Run(options, events[..j]), events[j])
    ensures CacheExact(Run(options, events))
  {
    hide Step, Restarts, CacheExact;
    var n := |events| - 1;
    if i == |events| {
      assert events[..i] == events;
    } else {
      var front := events[..n];
      assert forall j :: 0 <= j <= n ==> front[..j] == events[..j];
      ExactFrom(options, front, i);
      AcpHasTablesOfRun(options, front);
      assert !Restarts(options, Run(options, front), events[n]);
      ExactUnlessRestart(options, Run(options, front), events[n]);
    }
  }

  /** After every run in which no running daemon was replaced, the cache is exact. */
  lemma ExactOverRuns(options: RoosterOptions, events: seq<Event>)
    requires NeverRestarts(options, events)
    ensures CacheExact(Run(options, events))
  {
    ExactFrom(options, events, 0);
  }

  lemma RefreshIsExact(w: World)
    requires w.flag
    ensures CacheExact(Update(w))
  {
    assert forall kind: Kind :: KindAvailable(Update(w), kind) <==> KindAvailable(w, kind);
    assert forall kind: Kind :: Scan(w).Has(kind) <==> KindAvailable(w, kind);
  }

  /** An update that finds the flag raised repairs the cache: it is exact from there until the next
      restart, whatever came before. */
  lemma ExactSinceRefresh(options: RoosterOptions, events: seq<Event>, i: nat)
    requires i < |events| && events[i].UpdateTick? && Run(options, events[..i]).flag
    requires forall j :: i < j < |events| ==> !Restarts(options, Run(options, events[..j]), events[j])
    ensures CacheExact(Run(options, events))
  {
    hide Run, CacheExact, Restarts;
    assert events[..i+1] == events[..i] + [UpdateTick];
    RunSnoc(options, events[..i], UpdateTick);
    RefreshIsExact(Run(options, events[..i]));
    ExactFrom(options, events, i + 1);
  }

  lemma RunNothing(options: RoosterOptions)
    ensures Run(options, []) == INITIAL
  {}
}
