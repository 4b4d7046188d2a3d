/** The table of registrars heard on one ACP interface, and the handling of a flood.
    `AddOne` and `Accepted` say what the nested vectors and the announce loop compute;
    the class at the end does it in place. */
module Registrars {
  import opened Wrappers
  import opened Grasp

  /** The discriminant of a registrar type. */
  datatype Kind = Http | Stateful | Stateless

  datatype RegistrarType =
    | HTTPRegistrar(tcpPort: uint16)
    | CoAPRegistrar(udpPort: uint16)
    | StatelessCoAPRegistrar(statelessUdpPort: uint16)
  {
    function Kind(): Kind {
      match this
      case HTTPRegistrar(_) => Http
      case CoAPRegistrar(_) => Stateful
      case StatelessCoAPRegistrar(_) => Stateless
    }

    function Port(): uint16 {
      match this
      case HTTPRegistrar(p) => p
      case CoAPRegistrar(p) => p
      case StatelessCoAPRegistrar(p) => p
    }
  }

  /** The time of the last announcement, which nothing reads, is not modelled. */
  datatype Registrar = Registrar(rtypes: seq<RegistrarType>, addr: Ipv6Addr, ttl: uint32)

  /** One objective that was accepted: what `add_registrar` is called with. */
  datatype Accept = Accept(addr: Ipv6Addr, rtype: RegistrarType, ttl: uint32)

  /** Which kinds of registrar are available. */
  datatype Proxies = Proxies(httpAvail: bool, statefulAvail: bool, statelessAvail: bool) {
    predicate Has(kind: Kind) {
      match kind
      case Http => httpAvail
      case Stateful => statefulAvail
      case Stateless => statelessAvail
    }

    function Or(that: Proxies): Proxies {
      Proxies(httpAvail || that.httpAvail, statefulAvail || that.statefulAvail, statelessAvail || that.statelessAvail)
    }
  }

  const NONE_AVAILABLE := Proxies(false, false, false)

  // ---------- adding one registrar ----------

  predicate HasType(rtypes: seq<RegistrarType>, kind: Kind) {
    exists j :: 0 <= j < |rtypes| && rtypes[j].Kind() == kind
  }

  /** Every entry of the same kind is overwritten; a new kind goes to the end. */
  function PutType(rtypes: seq<RegistrarType>, rtype: RegistrarType): (r: seq<RegistrarType>)
    ensures |r| == |rtypes| + (if HasType(rtypes, rtype.Kind()) then 0 else 1)
    ensures forall j :: 0 <= j < |rtypes| ==> r[j] == if rtypes[j].Kind() == rtype.Kind() then rtype else rtypes[j]
    ensures !HasType(rtypes, rtype.Kind()) ==> r[|rtypes|] == rtype
  {
    if HasType(rtypes, rtype.Kind()) then
      seq(|rtypes|, j requires 0 <= j < |rtypes| => if rtypes[j].Kind() == rtype.Kind() then rtype else rtypes[j])
    else
      rtypes + [rtype]
  }

  /** The first registrar with the address is updated; a new address goes to the end. */
  function AddOne(table: seq<Registrar>, a: Accept): seq<Registrar> {
    if table == [] then [Registrar([a.rtype], a.addr, a.ttl)]
    else if table[0].addr == a.addr then
      [Registrar(PutType(table[0].rtypes, a.rtype), a.addr, a.ttl)] + table[1..]
    else
      [table[0]] + AddOne(table[1..], a)
  }

  function AddAll(table: seq<Registrar>, accepts: seq<Accept>): seq<Registrar> {
    if accepts == [] then table
    else AddOne(AddAll(table, accepts[..|accepts|-1]), accepts[|accepts|-1])
  }

  /** The position of the first registrar with an address, or the length of the table. */
  function Find(table: seq<Registrar>, addr: Ipv6Addr): (i: nat)
    ensures i <= |table|
    ensures forall j :: 0 <= j < i ==> table[j].addr != addr
    ensures i < |table| ==> table[i].addr == addr
  {
    if table == [] || table[0].addr == addr then 0 else 1 + Find(table[1..], addr)
  }

  lemma {:induction false} AddOneAt(table: seq<Registrar>, a: Accept)
    ensures AddOne(table, a) ==
            var i := Find(table, a.addr);
            if i < |table| then table[i := Registrar(PutType(table[i].rtypes, a.rtype), a.addr, a.ttl)]
            else table + [Registrar([a.rtype], a.addr, a.ttl)]
  {
    hide PutType;
    if table == [] {
    } else if table[0].addr == a.addr {
      var r := Registrar(PutType(table[0].rtypes, a.rtype), a.addr, a.ttl);
      assert table[0 := r] == [r] + table[1..];
    } else {
      var rest := table[1..];
      AddOneAt(rest, a);
      assert table == [table[0]] + rest;
      var i := Find(table, a.addr);
      if i < |table| {
        var r := Registrar(PutType(table[i].rtypes, a.rtype), a.addr, a.ttl);
        assert table[i := r] == [table[0]] + rest[i - 1 := r];
      }
    }
  }

  // ---------- availability ----------

  predicate HasKind(table: seq<Registrar>, kind: Kind) {
    exists i :: 0 <= i < |table| && HasType(table[i].rtypes, kind)
  }

  function Available(table: seq<Registrar>): Proxies {
    Proxies(HasKind(table, Http), HasKind(table, Stateful), HasKind(table, Stateless))
  }

  /** A table gains exactly the kind that is added to it. */
  lemma HasKindAfterAdd(table: seq<Registrar>, a: Accept, kind: Kind)
    ensures HasKind(AddOne(table, a), kind) <==> HasKind(table, kind) || kind == a.rtype.Kind()
  {
    AddOneAt(table, a);
    var i := Find(table, a.addr);
    var after := AddOne(table, a);
    if i < |table| {
      HasTypeAfterPut(table[i].rtypes, a.rtype, kind);
    } else {
      assert [a.rtype][0].Kind() == a.rtype.Kind();
    }
    assert HasType(after[i].rtypes, kind) <==> (i < |table| && HasType(table[i].rtypes, kind)) || kind == a.rtype.Kind();
    forall j | 0 <= j < |after| && j != i
      ensures j < |table| && after[j] == table[j]
    {
    }
  }

  lemma HasTypeAfterPut(rtypes: seq<RegistrarType>, rtype: RegistrarType, kind: Kind)
    ensures HasType(PutType(rtypes, rtype), kind) <==> HasType(rtypes, kind) || kind == rtype.Kind()
  {}

  // ---------- looking a registrar up ----------

  function FindType(rtypes: seq<RegistrarType>, kind: Kind): (j: nat)
    ensures j <= |rtypes|
    ensures forall k :: 0 <= k < j ==> rtypes[k].Kind() != kind
    ensures j < |rtypes| ==> rtypes[j].Kind() == kind
  {
    if rtypes == [] || rtypes[0].Kind() == kind then 0 else 1 + FindType(rtypes[1..], kind)
  }

  /** The port a table holds for an address and a kind. */
  function Lookup(table: seq<Registrar>, addr: Ipv6Addr, kind: Kind): Option<uint16> {
    var i := Find(table, addr);
    if i == |table| then None else
    var j := FindType(table[i].rtypes, kind);
    if j == |table[i].rtypes| then None else Some(table[i].rtypes[j].Port())
  }

  datatype SocketAddr = SocketAddr(addr: Ipv6Addr, port: uint16)

  /** The first HTTP registrar of a table: registrars in order, and the types of each in order. */
  function FirstHttp(table: seq<Registrar>): Option<SocketAddr> {
    if table == [] then None else
    var j := FindType(table[0].rtypes, Http);
    if j < |table[0].rtypes| then Some(SocketAddr(table[0].addr, table[0].rtypes[j].Port()))
    else FirstHttp(table[1..])
  }

  lemma {:induction false} FirstHttpExact(table: seq<Registrar>)
    ensures FirstHttp(table).Some? <==> HasKind(table, Http)
  {
    if table != [] {
      FirstHttpExact(table[1..]);
      var j := FindType(table[0].rtypes, Http);
      if j < |table[0].rtypes| {
        assert HasType(table[0].rtypes, Http);
      } else {
        assert !HasType(table[0].rtypes, Http);
        if i :| 0 <= i < |table| && HasType(table[i].rtypes, Http) {
          assert table[1..][i - 1] == table[i];
        }
        if i :| 0 <= i < |table[1..]| && HasType(table[1..][i].rtypes, Http) {
          assert table[i + 1] == table[1..][i];
        }
      }
    }
  }

  // ---------- the announce loop ----------

  /** The registrar an objective value stands for. */
  function TypeOf(value: Option<string>, port: uint16): Option<RegistrarType> {
    match value
    case Some(v) =>
      if v == "" || v == "BRSKI" then Some(HTTPRegistrar(port))
      else if v == "BRSKI_JP" then Some(CoAPRegistrar(port))
      else if v == "BRSKI_RJP" then Some(StatelessCoAPRegistrar(port))
      else None
    case None => None
  }

  /** The registrar an objective with a locator announces, if any: the locator must be IPv6 and
      the value known.  The objective's name is not looked at. */
  function RegistrarOf(obj: GraspObjective): Option<RegistrarType>
    requires obj.locator.Some?
  {
    if obj.locator.value.O_IPv6_LOCATOR? then TypeOf(obj.objectiveValue, obj.locator.value.portNumber) else None
  }

  /** The objectives at which the loop stops.  Objectives without a locator never stop it. */
  predicate Unsupported(obj: GraspObjective) {
    obj.locator.Some? && RegistrarOf(obj).None?
  }

  function FirstUnsupported(objs: seq<GraspObjective>): (n: nat)
    ensures n <= |objs|
    ensures forall i :: 0 <= i < n ==> !Unsupported(objs[i])
    ensures n < |objs| ==> Unsupported(objs[n])
  {
    if objs == [] || Unsupported(objs[0]) then 0 else 1 + FirstUnsupported(objs[1..])
  }

  /** What an objective asks to be added, if anything. */
  function AcceptOf(obj: GraspObjective, ttl: uint32): seq<Accept> {
    if obj.locator.Some? && RegistrarOf(obj).Some?
    then [Accept(obj.locator.value.v6addr, RegistrarOf(obj).value, ttl)]
    else []
  }

  function AcceptEach(objs: seq<GraspObjective>, ttl: uint32): seq<Accept> {
    if objs == [] then []
    else AcceptEach(objs[..|objs|-1], ttl) + AcceptOf(objs[|objs|-1], ttl)
  }

  lemma NothingYet(table: seq<Registrar>, objs: seq<GraspObjective>, ttl: uint32)
    ensures AcceptEach(objs[..0], ttl) == [] && AddAll(table, []) == table
  {}

  lemma AcceptEachSnoc(objs: seq<GraspObjective>, i: nat, ttl: uint32)
    requires i < |objs|
    ensures AcceptEach(objs[..i+1], ttl) == AcceptEach(objs[..i], ttl) + AcceptOf(objs[i], ttl)
  {
    assert objs[..i+1][..i] == objs[..i];
  }

  lemma AddAllSnoc(table: seq<Registrar>, accepts: seq<Accept>, a: Accept)
    ensures AddAll(table, accepts + [a]) == AddOne(AddAll(table, accepts), a)
  {}

  lemma {:induction false} AddAllAppend(table: seq<Registrar>, first: seq<Accept>, second: seq<Accept>)
    ensures AddAll(table, first + second) == AddAll(AddAll(table, first), second)
  {
    if second == [] {
      assert first + second == first;
    } else {
      var n := |second| - 1;
      AddAllAppend(table, first, second[..n]);
      assert first + second == (first + second[..n]) + [second[n]];
      AddAllSnoc(table, first + second[..n], second[n]);
    }
  }

  /** The accepted objectives of a message of any type: those with a locator that precede the
      first unsupported one. */
  function AcceptedObjectives(m: GraspMessage): seq<Accept> {
    AcceptEach(m.objectives[..FirstUnsupported(m.objectives)], m.ttl)
  }

  /** What a daemon accepts of a message it hears: it only looks at floods. */
  function Accepted(m: GraspMessage): seq<Accept> {
    if m.mtype == M_FLOOD then AcceptedObjectives(m) else []
  }

  /** On decoded messages the loop only ever stops because of an objective value. */
  predicate StopsByValue(m: GraspMessage) {
    var n := FirstUnsupported(m.objectives);
    n < |m.objectives| ==>
      && m.objectives[n].locator.Some?
      && m.objectives[n].locator.value.O_IPv6_LOCATOR?
      && (m.objectives[n].objectiveValue.Some? ==>
            m.objectives[n].objectiveValue.value !in ["", "BRSKI", "BRSKI_JP", "BRSKI_RJP"])
  }

  // ---------- the daemon's object ----------

  /** A boolean behind a lock, shared by reference. */
  class Flag {
    var raised: bool

    constructor (raised: bool)
      ensures this.raised == raised
    {
      this.raised := raised;
    }
  }

  class AcpInterface {
    const invalidate: Flag
    ghost const ifindex: IfIndex  // the interface whose socket the daemon reads
    var registrars: seq<Registrar>
    ghost var accepted: seq<Accept>  // everything accepted since the daemon started

    /** The vectors are what adding the accepted objectives one by one to nothing gives. */
    ghost predicate Valid()
      reads this
    {
      registrars == AddAll([], accepted)
    }

    constructor (ghost ifindex: IfIndex, invalidate: Flag)
      ensures Valid() && accepted == [] && registrars == []
      ensures this.invalidate == invalidate && this.ifindex == ifindex
    {
      this.ifindex := ifindex;
      this.invalidate := invalidate;
      registrars := [];
      accepted := [];
    }

    method CalculateAvailableRegistrar() returns (http: bool, stateful: bool, stateless: bool)
      ensures Proxies(http, stateful, stateless) == Available(registrars)
    {
      http, stateful, stateless := false, false, false;
      for i := 0 to |registrars|
        invariant Proxies(http, stateful, stateless) == Available(registrars[..i])
      {
        var rtypes := registrars[i].rtypes;
        for j := 0 to |rtypes|
          invariant forall kind :: Proxies(http, stateful, stateless).Has(kind) <==>
                                   HasKind(registrars[..i], kind) || HasType(rtypes[..j], kind)
        {
          match rtypes[j] {
            case HTTPRegistrar(_) => http := true;
            case CoAPRegistrar(_) => stateful := true;
            case StatelessCoAPRegistrar(_) => stateless := true;
          }
          HasTypeSnoc(rtypes, j);
        }
        assert rtypes[..|rtypes|] == rtypes;
        HasKindSnoc(registrars, i);
      }
      assert registrars[..|registrars|] == registrars;
    }

    method AddRegistrar(rtype: RegistrarType, v6addr: Ipv6Addr, ttl: uint32)
      modifies this
      ensures registrars == AddOne(old(registrars), Accept(v6addr, rtype, ttl))
      ensures accepted == old(accepted) + [Accept(v6addr, rtype, ttl)]
      ensures old(Valid()) ==> Valid()
    {
      ghost var a := Accept(v6addr, rtype, ttl);
      AddOneAt(registrars, a);
      AddAllSnoc([], accepted, a);
      accepted := accepted + [a];
      var at := 0;
      while at < |registrars| && registrars[at].addr != v6addr
        invariant at <= |registrars|
        invariant forall j :: 0 <= j < at ==> registrars[j].addr != v6addr
      {
        at := at + 1;
      }
      if at < |registrars| {
        var rtypes := registrars[at].rtypes;
        var found := false;
        for i := 0 to |rtypes|
          modifies {}
          invariant |rtypes| == |old(registrars)[at].rtypes|
          invariant found <==> HasType(old(registrars)[at].rtypes[..i], rtype.Kind())
          invariant forall j :: 0 <= j < i ==>
                      rtypes[j] == if old(registrars)[at].rtypes[j].Kind() == rtype.Kind()
                                   then rtype else old(registrars)[at].rtypes[j]
          invariant forall j :: i <= j < |rtypes| ==> rtypes[j] == old(registrars)[at].rtypes[j]
        {
          HasTypeSnoc(old(registrars)[at].rtypes, i);
          if rtypes[i].Kind() == rtype.Kind() {
            rtypes := rtypes[i := rtype];
            found := true;
          }
        }
        assert old(registrars)[at].rtypes[..|rtypes|] == old(registrars)[at].rtypes;
        if !found {
          rtypes := rtypes + [rtype];
        }
        assert rtypes == PutType(old(registrars)[at].rtypes, rtype);
        registrars := registrars[at := Registrar(rtypes, v6addr, ttl)];
      } else {
        registrars := registrars + [Registrar([rtype], v6addr, ttl)];
      }
    }

    /** One round of the announce loop: `go` says whether the loop continues. */
    method Consider(objective: GraspObjective, ttl: uint32) returns (go: bool)
      modifies this, invalidate
      ensures go <==> !Unsupported(objective)
      ensures registrars == AddAll(old(registrars), AcceptOf(objective, ttl))
      ensures accepted == old(accepted) + AcceptOf(objective, ttl)
      ensures old(Valid()) ==> Valid()
      ensures invalidate.raised == (old(invalidate.raised) || AcceptOf(objective, ttl) != [])
    {
      hide AddOne, AddAll, AcpInterface.Valid;
      NothingYet(registrars, [], ttl);
      if objective.locator.Some? {
        if !objective.locator.value.O_IPv6_LOCATOR? || objective.objectiveValue.None? {
          return false;
        }
        var v6addr, portNumber := objective.locator.value.v6addr, objective.locator.value.portNumber;
        var value := objective.objectiveValue.value;
        var rtype;
        if value == "" || value == "BRSKI" {
          rtype := HTTPRegistrar(portNumber);
        } else if value == "BRSKI_JP" {
          rtype := CoAPRegistrar(portNumber);
        } else if value == "BRSKI_RJP" {
          rtype := StatelessCoAPRegistrar(portNumber);
        } else {
          return false;
        }
        AddAllSnoc(registrars, [], Accept(v6addr, rtype, ttl));
        assert [] + [Accept(v6addr, rtype, ttl)] == AcceptOf(objective, ttl);
        AddRegistrar(rtype, v6addr, ttl);
        invalidate.raised := true;
      }
      return true;
    }

    /** Adds what the message asks for, whatever its type, and raises the shared flag if that was
        anything. */
    method RegistrarAnnounce(m: GraspMessage)
      modifies this, invalidate
      ensures registrars == AddAll(old(registrars), AcceptedObjectives(m))
      ensures accepted == old(accepted) + AcceptedObjectives(m)
      ensures old(Valid()) ==> Valid()
      ensures invalidate.raised == (old(invalidate.raised) || AcceptedObjectives(m) != [])
    {
      hide AddAll, AcceptEach, FirstUnsupported, AcpInterface.Valid;
      var objectives := m.objectives;
      NothingYet(registrars, objectives, m.ttl);
      for i := 0 to |objectives|
        invariant forall j :: 0 <= j < i ==> !Unsupported(objectives[j])
        invariant registrars == AddAll(old(registrars), AcceptEach(objectives[..i], m.ttl))
        invariant accepted == old(accepted) + AcceptEach(objectives[..i], m.ttl)
        invariant old(Valid()) ==> Valid()
        invariant invalidate.raised == (old(invalidate.raised) || AcceptEach(objectives[..i], m.ttl) != [])
      {
        AcceptEachSnoc(objectives, i, m.ttl);
        AddAllAppend(old(registrars), AcceptEach(objectives[..i], m.ttl), AcceptOf(objectives[i], m.ttl));
        var go := Consider(objectives[i], m.ttl);
        if !go {
          assert FirstUnsupported(objectives) == i;
          assert AcceptEach(objectives[..i], m.ttl) + AcceptOf(objectives[i], m.ttl) == AcceptEach(objectives[..i], m.ttl);
          return;
        }
      }
      assert objectives[..|objectives|] == objectives;
    }

    /** A message that is no flood changes nothing. */
    method Announce(m: GraspMessage)
      modifies this, invalidate
      ensures m.mtype != M_FLOOD ==>
                registrars == old(registrars) && accepted == old(accepted) && invalidate.raised == old(invalidate.raised)
      ensures registrars == AddAll(old(registrars), Accepted(m))
      ensures accepted == old(accepted) + Accepted(m)
      ensures old(Valid()) ==> Valid()
      ensures invalidate.raised == (old(invalidate.raised) || Accepted(m) != [])
    {
      if m.mtype == M_FLOOD {
        RegistrarAnnounce(m);
      }
    }
  }

  lemma HasTypeSnoc(rtypes: seq<RegistrarType>, j: nat)
    requires j < |rtypes|
    ensures forall kind :: HasType(rtypes[..j+1], kind) <==> HasType(rtypes[..j], kind) || rtypes[j].Kind() == kind
  {}

  lemma HasKindSnoc(table: seq<Registrar>, i: nat)
    requires i < |table|
    ensures forall kind :: HasKind(table[..i+1], kind) <==> HasKind(table[..i], kind) || HasType(table[i].rtypes, kind)
  {}
}
