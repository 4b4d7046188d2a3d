/** The nested registrar vectors are a last-writer-wins map in first-seen order.
    A history is everything that was ever accepted, oldest first. */
module RegistrarProperties {
  import opened Wrappers
  import opened Grasp
  import opened Registrars
  import opened GraspProperties

  // ---------- what a history says, without reference to the vectors ----------

  /** The addresses of a history in the order of their first appearance. */
  function FirstSeen(h: seq<Accept>): seq<Ipv6Addr> {
    if h == [] then [] else
    var before, a := FirstSeen(h[..|h|-1]), h[|h|-1].addr;
    if a in before then before else before + [a]
  }

  /** The kinds heard from an address in the order of their first appearance. */
  function KindsSeen(h: seq<Accept>, addr: Ipv6Addr): seq<Kind> {
    if h == [] then [] else
    var before, last := KindsSeen(h[..|h|-1], addr), h[|h|-1];
    if last.addr != addr || last.rtype.Kind() in before then before else before + [last.rtype.Kind()]
  }

  /** The port of the most recent acceptance for an address and a kind. */
  function LastPort(h: seq<Accept>, addr: Ipv6Addr, kind: Kind): Option<uint16> {
    if h == [] then None else
    var last := h[|h|-1];
    if last.addr == addr && last.rtype.Kind() == kind then Some(last.rtype.Port())
    else LastPort(h[..|h|-1], addr, kind)
  }

  /** The ttl of the most recent acceptance for an address. */
  function LastTtl(h: seq<Accept>, addr: Ipv6Addr): Option<uint32> {
    if h == [] then None else
    if h[|h|-1].addr == addr then Some(h[|h|-1].ttl) else LastTtl(h[..|h|-1], addr)
  }

  /** One registrar entry says what the history says about its address. */
  ghost predicate EntryTells(r: Registrar, h: seq<Accept>) {
    && LastTtl(h, r.addr) == Some(r.ttl)
    && |r.rtypes| == |KindsSeen(h, r.addr)|
    && forall j :: 0 <= j < |r.rtypes| ==>
         && r.rtypes[j].Kind() == KindsSeen(h, r.addr)[j]
         && LastPort(h, r.addr, r.rtypes[j].Kind()) == Some(r.rtypes[j].Port())
  }

  /** A table says exactly what a history says. */
  ghost predicate Tells(table: seq<Registrar>, h: seq<Accept>) {
    && |table| == |FirstSeen(h)|
    && forall i :: 0 <= i < |table| ==> table[i].addr == FirstSeen(h)[i] && EntryTells(table[i], h)
  }

  /** At most one table says what a history says. */
  lemma TellsUnique(s: seq<Registrar>, t: seq<Registrar>, h: seq<Accept>)
    requires Tells(s, h) && Tells(t, h)
    ensures s == t
  {
    forall i | 0 <= i < |s|
      ensures s[i] == t[i]
    {
      forall j | 0 <= j < |s[i].rtypes|
        ensures s[i].rtypes[j] == t[i].rtypes[j]
      {
        assert s[i].rtypes[j].Kind() == t[i].rtypes[j].Kind();
        assert s[i].rtypes[j].Port() == t[i].rtypes[j].Port();
      }
    }
  }

  predicate NoRepeats<T(==)>(s: seq<T>) {
    forall i, j :: 0 <= i < j < |s| ==> s[i] != s[j]
  }

  lemma {:induction false} FirstSeenFacts(h: seq<Accept>, addr: Ipv6Addr)
    ensures NoRepeats(FirstSeen(h))
    ensures addr in FirstSeen(h) <==> exists i :: 0 <= i < |h| && h[i].addr == addr
    ensures addr in FirstSeen(h) <==> LastTtl(h, addr).Some?
    ensures addr in FirstSeen(h) <==> KindsSeen(h, addr) != []
  {
    if h != [] {
      var front, last := h[..|h|-1], h[|h|-1];
      FirstSeenFacts(front, addr);
      assert forall i :: 0 <= i < |front| ==> front[i] == h[i];
      if i :| 0 <= i < |h| && h[i].addr == addr {
        assert i < |front| ==> front[i].addr == addr;
      }
    }
  }

  lemma {:induction false} KindsSeenFacts(h: seq<Accept>, addr: Ipv6Addr, kind: Kind)
    ensures NoRepeats(KindsSeen(h, addr)) && |KindsSeen(h, addr)| <= 3
    ensures kind in KindsSeen(h, addr) <==> LastPort(h, addr, kind).Some?
  {
    if h != [] {
      KindsSeenFacts(h[..|h|-1], addr, kind);
    }
    AtMostThree(KindsSeen(h, addr));
  }

  lemma AtMostThree(kinds: seq<Kind>)
    requires NoRepeats(kinds)
    ensures |kinds| <= 3
  {
    if |kinds| >= 4 {
      TwoOfFourAgree(kinds[0], kinds[1], kinds[2], kinds[3]);
    }
  }

  lemma TwoOfFourAgree(a: Kind, b: Kind, c: Kind, d: Kind)
    ensures a == b || a == c || a == d || b == c || b == d || c == d
  {}

  // ---------- the refinement ----------

  /** Adding one acceptance to a table that tells a history gives the table of the longer one. */
  lemma AddTells(table: seq<Registrar>, h: seq<Accept>, a: Accept)
    requires Tells(table, h)
    ensures Tells(AddOne(table, a), h + [a])
  {
    var h' := h + [a];
    assert h'[..|h|] == h;
    AddOneAt(table, a);
    var i := Find(table, a.addr);
    var after := AddOne(table, a);
    FirstSeenFacts(h, a.addr);
    if i < |table| {
      assert table[i].addr in FirstSeen(h);
    } else {
      assert a.addr !in FirstSeen(h) by {
        assert forall j :: 0 <= j < |table| ==> FirstSeen(h)[j] == table[j].addr;
      }
    }
    forall j | 0 <= j < |after|
      ensures after[j].addr == FirstSeen(h')[j] && EntryTells(after[j], h')
    {
      if j == i {
        if i < |table| {
          PutTells(table[i], h, a);
        } else {
          NewTells(h, a);
        }
      } else {
        assert after[j] == table[j] && FirstSeen(h')[j] == FirstSeen(h)[j];
        assert table[j].addr != a.addr by {
          if i < |table| {
            assert FirstSeen(h)[i] != FirstSeen(h)[j];
          }
        }
        OtherTells(table[j], h, a);
      }
    }
  }

  lemma OtherTells(r: Registrar, h: seq<Accept>, a: Accept)
    requires EntryTells(r, h) && r.addr != a.addr
    ensures EntryTells(r, h + [a])
  {}

  lemma NewTells(h: seq<Accept>, a: Accept)
    requires a.addr !in FirstSeen(h)
    ensures EntryTells(Registrar([a.rtype], a.addr, a.ttl), h + [a])
  {}

  lemma PutTells(r: Registrar, h: seq<Accept>, a: Accept)
    requires EntryTells(r, h) && r.addr == a.addr
    ensures EntryTells(Registrar(PutType(r.rtypes, a.rtype), a.addr, a.ttl), h + [a])
  {}

  /** After any history the vectors say exactly what the history says: addresses distinct and in
      first-seen order, the latest ttl for each, its kinds in first-seen order, and for each
      kind the latest port. */
  lemma {:induction false} RefinesLastWriter(h: seq<Accept>)
    ensures Tells(AddAll([], h), h)
  {
    if h != [] {
      var front := h[..|h|-1];
      RefinesLastWriter(front);
      assert h == front + [h[|h|-1]];
      AddTells(AddAll([], front), front, h[|h|-1]);
    }
  }

  /** No address twice; one to three kinds for each, no kind twice. */
  lemma TableShape(h: seq<Accept>)
    ensures var table := AddAll([], h);
            && (forall i, j :: 0 <= i < j < |table| ==> table[i].addr != table[j].addr)
            && (forall i :: 0 <= i < |table| ==> 1 <= |table[i].rtypes| <= 3)
            && (forall i, j, k :: 0 <= i < |table| && 0 <= j < k < |table[i].rtypes| ==>
                  table[i].rtypes[j].Kind() != table[i].rtypes[k].Kind())
  {
    RefinesLastWriter(h);
    var table := AddAll([], h);
    forall i | 0 <= i < |table|
      ensures 1 <= |table[i].rtypes| <= 3
      ensures forall j :: i < j < |table| ==> table[i].addr != table[j].addr
      ensures forall j, k :: 0 <= j < k < |table[i].rtypes| ==> table[i].rtypes[j].Kind() != table[i].rtypes[k].Kind()
    {
      FirstSeenFacts(h, table[i].addr);
      KindsSeenFacts(h, table[i].addr, Http);
      assert FirstSeen(h)[i] in FirstSeen(h);
    }
  }

  /** Looking an address and a kind up gives the port accepted last. */
  lemma LookupIsLastPort(h: seq<Accept>, addr: Ipv6Addr, kind: Kind)
    ensures Lookup(AddAll([], h), addr, kind) == LastPort(h, addr, kind)
  {
    RefinesLastWriter(h);
    FirstSeenFacts(h, addr);
    KindsSeenFacts(h, addr, kind);
    var table := AddAll([], h);
    var i := Find(table, addr);
    if i < |table| {
      var rtypes := table[i].rtypes;
      assert forall j :: 0 <= j < |rtypes| ==> rtypes[j].Kind() == KindsSeen(h, addr)[j];
    } else {
      assert forall j :: 0 <= j < |table| ==> FirstSeen(h)[j] == table[j].addr;
    }
  }

  lemma {:induction false} HasKindOfHistory(h: seq<Accept>, kind: Kind)
    ensures HasKind(AddAll([], h), kind) <==> exists i :: 0 <= i < |h| && h[i].rtype.Kind() == kind
  {
    if h != [] {
      var n := |h| - 1;
      var front := h[..n];
      HasKindOfHistory(front, kind);
      HasKindAfterAdd(AddAll([], front), h[n], kind);
      assert forall i :: 0 <= i < n ==> front[i] == h[i];
    }
  }

  // ---------- replaying a flood ----------

  lemma {:induction false} LastPortAppend(h: seq<Accept>, g: seq<Accept>, addr: Ipv6Addr, kind: Kind)
    ensures LastPort(h + g, addr, kind) == if LastPort(g, addr, kind).Some? then LastPort(g, addr, kind) else LastPort(h, addr, kind)
  {
    if g == [] {
      assert h + g == h;
    } else {
      var n := |g| - 1;
      assert (h + g)[..|h + g| - 1] == h + g[..n];
      LastPortAppend(h, g[..n], addr, kind);
    }
  }

  lemma {:induction false} LastTtlAppend(h: seq<Accept>, g: seq<Accept>, addr: Ipv6Addr)
    ensures LastTtl(h + g, addr) == if LastTtl(g, addr).Some? then LastTtl(g, addr) else LastTtl(h, addr)
  {
    if g == [] {
      assert h + g == h;
    } else {
      var n := |g| - 1;
      assert (h + g)[..|h + g| - 1] == h + g[..n];
      LastTtlAppend(h, g[..n], addr);
    }
  }

  /** Acceptances that only repeat addresses and kinds already seen add neither. */
  lemma {:induction false} NothingNewSeen(h: seq<Accept>, g: seq<Accept>, addr: Ipv6Addr)
    requires forall i :: 0 <= i < |g| ==> LastPort(h, g[i].addr, g[i].rtype.Kind()).Some?
    ensures FirstSeen(h + g) == FirstSeen(h) && KindsSeen(h + g, addr) == KindsSeen(h, addr)
  {
    if g == [] {
      assert h + g == h;
    } else {
      var n := |g| - 1;
      assert (h + g)[..|h + g| - 1] == h + g[..n];
      NothingNewSeen(h, g[..n], addr);
      KindsSeenFacts(h, g[n].addr, g[n].rtype.Kind());
      FirstSeenFacts(h, g[n].addr);
    }
  }

  lemma {:induction false} EachIsSeen(g: seq<Accept>, i: nat)
    requires i < |g|
    ensures LastPort(g, g[i].addr, g[i].rtype.Kind()).Some?
  {
    if i < |g| - 1 {
      EachIsSeen(g[..|g|-1], i);
    }
  }

  /** A repeated block of acceptances changes nothing that the history says. */
  lemma RepeatTells(h: seq<Accept>, g: seq<Accept>, table: seq<Registrar>)
    requires Tells(table, h + g)
    ensures Tells(table, h + g + g)
  {
    forall i | 0 <= i < |g|
      ensures LastPort(h + g, g[i].addr, g[i].rtype.Kind()).Some?
    {
      EachIsSeen(g, i);
      LastPortAppend(h, g, g[i].addr, g[i].rtype.Kind());
    }
    NothingNewSeen(h + g, g, UNSPECIFIED);
    forall i | 0 <= i < |table|
      ensures EntryTells(table[i], h + g + g)
    {
      var addr := table[i].addr;
      NothingNewSeen(h + g, g, addr);
      LastTtlAppend(h + g, g, addr);
      LastTtlAppend(h, g, addr);
      forall j | 0 <= j < |table[i].rtypes|
        ensures LastPort(h + g + g, addr, table[i].rtypes[j].Kind()) == LastPort(h + g, addr, table[i].rtypes[j].Kind())
      {
        LastPortAppend(h + g, g, addr, table[i].rtypes[j].Kind());
        LastPortAppend(h, g, addr, table[i].rtypes[j].Kind());
      }
    }
  }

  /** Everything accepted from a stream of messages. */
  function AcceptedFrom(floods: seq<GraspMessage>): seq<Accept> {
    if floods == [] then [] else AcceptedFrom(floods[..|floods|-1]) + Accepted(floods[|floods|-1])
  }

  /** Replaying a message, after any stream of messages, leaves the whole table as it was, even
      when the message itself announces one address and kind with several ports. */
  lemma ReplayIsIdempotent(floods: seq<GraspMessage>, m: GraspMessage)
    ensures var once := AddAll(AddAll([], AcceptedFrom(floods)), Accepted(m));
            AddAll(once, Accepted(m)) == once
  {
    var h, g := AcceptedFrom(floods), Accepted(m);
    AddAllAppend([], h, g);
    AddAllAppend([], h + g, g);
    RefinesLastWriter(h + g);
    RefinesLastWriter(h + g + g);
    RepeatTells(h, g, AddAll([], h + g));
    TellsUnique(AddAll([], h + g), AddAll([], h + g + g), h + g + g);
  }

  // ---------- the announce loop ----------

  const KNOWN_VALUES: seq<string> := ["", "BRSKI", "BRSKI_JP", "BRSKI_RJP"]

  /** An objective that ends the loop: a locator that is not IPv6, or no value, or an unknown one. */
  predicate Stops(obj: GraspObjective) {
    && obj.locator.Some?
    && (!obj.locator.value.O_IPv6_LOCATOR? || obj.objectiveValue.None? || obj.objectiveValue.value !in KNOWN_VALUES)
  }

  /** What any other objective with a locator announces, by its value alone. */
  function AnnouncedBy(obj: GraspObjective, ttl: uint32): seq<Accept> {
    if obj.locator.None? || Stops(obj) then [] else
    var addr, port, value := obj.locator.value.v6addr, obj.locator.value.portNumber, obj.objectiveValue.value;
    [Accept(addr,
            if value == "BRSKI_JP" then CoAPRegistrar(port)
            else if value == "BRSKI_RJP" then StatelessCoAPRegistrar(port)
            else HTTPRegistrar(port),
            ttl)]
  }

  /** The loop stops at exactly these objectives, and accepts of any other exactly what it announces:
      an unknown value is refused, and nothing else is looked at. */
  lemma AcceptsExactly(obj: GraspObjective, ttl: uint32)
    ensures Unsupported(obj) <==> Stops(obj)
    ensures AcceptOf(obj, ttl) == AnnouncedBy(obj, ttl)
  {}

  function AnnouncedByEach(objs: seq<GraspObjective>, ttl: uint32): seq<Accept> {
    if objs == [] then [] else AnnouncedByEach(objs[..|objs|-1], ttl) + AnnouncedBy(objs[|objs|-1], ttl)
  }

  lemma {:induction false} AcceptsEachExactly(objs: seq<GraspObjective>, ttl: uint32)
    ensures AcceptEach(objs, ttl) == AnnouncedByEach(objs, ttl)
  {
    if objs != [] {
      AcceptsEachExactly(objs[..|objs|-1], ttl);
      AcceptsExactly(objs[|objs|-1], ttl);
    }
  }

  /** Nothing is accepted from the first objective on that stops the loop, whatever follows it. */
  lemma AcceptanceEnds(m: GraspMessage, n: nat)
    requires n < |m.objectives| && Stops(m.objectives[n])
    ensures AcceptedObjectives(m) == AcceptedObjectives(m.(objectives := m.objectives[..n]))
  {
    var objs := m.objectives;
    var first := FirstUnsupported(objs);
    AcceptsExactly(objs[n], m.ttl);
    assert first <= n;
    FirstOfPrefix(objs, n);
    assert objs[..n][..first] == objs[..first];
  }

  lemma {:induction false} FirstOfPrefix(objs: seq<GraspObjective>, n: nat)
    requires FirstUnsupported(objs) <= n <= |objs|
    ensures FirstUnsupported(objs[..n]) == FirstUnsupported(objs)
  {
    hide Unsupported;
    if objs != [] && !Unsupported(objs[0]) {
      FirstOfPrefix(objs[1..], n - 1);
      assert objs[..n][1..] == objs[1..][..n - 1];
    }
  }

  /** While no objective stops the loop, what is accepted is what the objectives announce, in order:
      one more objective adds exactly its own. */
  lemma AcceptanceGoesOn(m: GraspMessage)
    requires forall i :: 0 <= i < |m.objectives| ==> !Stops(m.objectives[i])
    ensures AcceptedObjectives(m) == AnnouncedByEach(m.objectives, m.ttl)
  {
    var n := FirstUnsupported(m.objectives);
    if n < |m.objectives| {
      AcceptsExactly(m.objectives[n], m.ttl);
    }
    assert m.objectives[..n] == m.objectives;
    AcceptsEachExactly(m.objectives, m.ttl);
  }

  // ---------- availability and selection, entry by entry ----------

  predicate HoldsHttp(table: seq<Registrar>) {
    exists i, j :: 0 <= i < |table| && 0 <= j < |table[i].rtypes| && table[i].rtypes[j].HTTPRegistrar?
  }

  predicate HoldsCoAP(table: seq<Registrar>) {
    exists i, j :: 0 <= i < |table| && 0 <= j < |table[i].rtypes| && table[i].rtypes[j].CoAPRegistrar?
  }

  predicate HoldsStatelessCoAP(table: seq<Registrar>) {
    exists i, j :: 0 <= i < |table| && 0 <= j < |table[i].rtypes| && table[i].rtypes[j].StatelessCoAPRegistrar?
  }

  /** Each kind is available exactly if some entry is built with its constructor. */
  lemma AvailableByEntry(table: seq<Registrar>)
    ensures Available(table) == Proxies(HoldsHttp(table), HoldsCoAP(table), HoldsStatelessCoAP(table))
  {}

  /** An HTTP entry with no HTTP entry before it, in the order of the vectors. */
  ghost predicate IsFirstHttp(table: seq<Registrar>, i: nat, j: nat) {
    && i < |table| && j < |table[i].rtypes| && table[i].rtypes[j].HTTPRegistrar?
    && (forall h, l :: 0 <= h < i && 0 <= l < |table[h].rtypes| ==> !table[h].rtypes[l].HTTPRegistrar?)
    && (forall l :: 0 <= l < j ==> !table[i].rtypes[l].HTTPRegistrar?)
  }

  /** The search gives the first HTTP entry: its address and its port. */
  lemma {:induction false} FirstHttpIsFirst(table: seq<Registrar>, i: nat, j: nat)
    requires IsFirstHttp(table, i, j)
    ensures FirstHttp(table) == Some(SocketAddr(table[i].addr, table[i].rtypes[j].tcpPort))
  {
    var n := FindType(table[0].rtypes, Http);
    if i > 0 {
      assert n == |table[0].rtypes|;
      assert forall h :: 0 <= h < |table[1..]| ==> table[1..][h] == table[h + 1];
      FirstHttpIsFirst(table[1..], i - 1, j);
    }
  }

  /** And when it gives something, there is such an entry. */
  lemma {:induction false} FirstHttpHasPlace(table: seq<Registrar>) returns (i: nat, j: nat)
    requires FirstHttp(table).Some?
    ensures IsFirstHttp(table, i, j)
  {
    i, j := 0, FindType(table[0].rtypes, Http);
    if j == |table[0].rtypes| {
      i, j := FirstHttpHasPlace(table[1..]);
      assert forall h :: 0 <= h < |table[1..]| ==> table[1..][h] == table[h + 1];
      i := i + 1;
    }
  }

  /** The address and port of the first HTTP entry of a table. */
  ghost predicate FirstHttpOf(table: seq<Registrar>, s: SocketAddr) {
    exists i: nat, j: nat :: IsFirstHttp(table, i, j) && s == SocketAddr(table[i].addr, table[i].rtypes[j].tcpPort)
  }

  /** So the search gives nothing exactly if no entry is HTTP, and otherwise exactly the first. */
  lemma FirstHttpExactly(table: seq<Registrar>)
    ensures FirstHttp(table).Some? <==> HoldsHttp(table)
    ensures forall s :: FirstHttp(table) == Some(s) <==> FirstHttpOf(table, s)
  {
    hide FirstHttp, HasKind, HoldsHttp, HoldsCoAP, HoldsStatelessCoAP;
    FirstHttpExact(table);
    AvailableByEntry(table);
    assert Available(table).httpAvail == HoldsHttp(table);
    forall i: nat, j: nat | IsFirstHttp(table, i, j)
      ensures FirstHttp(table) == Some(SocketAddr(table[i].addr, table[i].rtypes[j].tcpPort))
    {
      FirstHttpIsFirst(table, i, j);
    }
    if FirstHttp(table).Some? {
      var i, j := FirstHttpHasPlace(table);
      FirstHttpIsFirst(table, i, j);
    }
  }

  /** Over histories: the address seen first among those that have an HTTP port. */
  ghost predicate EarliestHttp(h: seq<Accept>, s: SocketAddr) {
    exists i :: 0 <= i < |FirstSeen(h)| && FirstSeen(h)[i] == s.addr
                && LastPort(h, s.addr, Http) == Some(s.port)
                && forall l :: 0 <= l < i ==> LastPort(h, FirstSeen(h)[l], Http).None?
  }

  /** After any history the registrar found is the earliest seen that has an HTTP port, with its
      latest one. */
  lemma FirstHttpIsEarliest(h: seq<Accept>)
    requires FirstHttp(AddAll([], h)).Some?
    ensures EarliestHttp(h, FirstHttp(AddAll([], h)).value)
  {
    hide AddAll, FirstHttp, LastPort, KindsSeen;
    var table := AddAll([], h);
    RefinesLastWriter(h);
    var i, j := FirstHttpHasPlace(table);
    FirstHttpIsFirst(table, i, j);
    assert EntryTells(table[i], h);
    forall l | 0 <= l < i
      ensures LastPort(h, FirstSeen(h)[l], Http).None?
    {
      assert EntryTells(table[l], h);
      KindsSeenFacts(h, table[l].addr, Http);
    }
  }

  /** The HTTP registrar picked from a table has the latest HTTP port of its address, and one
      is picked exactly when some HTTP registrar was accepted. */
  lemma FirstHttpIsLatest(h: seq<Accept>)
    ensures FirstHttp(AddAll([], h)).Some? <==> exists i :: 0 <= i < |h| && h[i].rtype.HTTPRegistrar?
    ensures FirstHttp(AddAll([], h)).Some? ==>
              var s := FirstHttp(AddAll([], h)).value; LastPort(h, s.addr, Http) == Some(s.port)
  {
    hide AddAll, FirstHttp, HasKind, LastPort, FirstSeen;
    FirstHttpExact(AddAll([], h));
    HasKindOfHistory(h, Http);
    if FirstHttp(AddAll([], h)).Some? {
      FirstHttpIsEarliest(h);
    }
  }

  // ---------- the announce loop on decoded messages ----------

  /** When the message was decoded, the loop never stops because of a locator kind: only a
      missing or unknown value stops it. */
  lemma DecodedStopsByValue(thing: Cbor, m: GraspMessage)
    requires DecodeGraspMessage(thing) == Ok(m)
    ensures StopsByValue(m)
  {
    DecodedShape(thing, m);
    var n := FirstUnsupported(m.objectives);
    assert n < |m.objectives| ==> Unsupported(m.objectives[n]);
  }
}
