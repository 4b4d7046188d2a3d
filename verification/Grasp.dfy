/** GRASP messages and their coding as CBOR trees (RFC 8990, sections 2.8 to 2.10).
    The boundary of the model is the CBOR tree; the byte form is not modelled.

    The pure matches of the program are functions here.  Its loops are methods,
    each proved against the function that the other functions and the lemmas use. */
module Grasp {
  import opened Wrappers

  /** A decoded CBOR item.  `Other` stands for every item the decoder treats alike:
      negative integers, maps, tags, simple values. */
  datatype Cbor =
    | Integer(num: uint64)
    | Bytes(octets: seq<uint8>)
    | String(text: string)
    | Array(items: seq<Cbor>)
    | Other

  datatype ConnectError =
    | NotIpV6Address
    | MisformedGraspMessage
    | MisformedGraspObjective
    | UnimplementedGraspStuff
    | MisformedIpv6Addr
    | IllegalDullGraspMessage

  /** What a decoding function does: return a value, return an error, or index a vector
      outside its range, at which point the program stops with a panic. */
  datatype Outcome<+T> = Ok(value: T) | Err(error: ConnectError) | OutOfRange {
    predicate IsFailure() {
      !Ok?
    }

    function PropagateFailure<U>(): Outcome<U>
      requires IsFailure()
    {
      if Err? then Err(error) else OutOfRange
    }

    function Extract(): T
      requires Ok?
    {
      value
    }
  }

  datatype GraspMessageType =
    | M_NOOP | M_DISCOVERY | M_RESPONSE | M_REQ_NEG | M_REQ_SYN
    | M_NEGOTIATE | M_END | M_WAIT | M_SYNCH | M_FLOOD

  const O_IPV6_LOCATOR: uint64 := 103
  const O_IPV4_LOCATOR: uint64 := 104
  const O_FQDN_LOCATOR: uint64 := 105
  const O_URI_LOCATOR: uint64 := 106

  type Ipv4Addr = s: seq<uint8> | |s| == 4 witness [0, 0, 0, 0]

  datatype GraspLocator =
    | O_IPv6_LOCATOR(v6addr: Ipv6Addr, transportProto: uint8, portNumber: uint16)
    | O_IPv4_LOCATOR(v4addr: Ipv4Addr, transportProto: uint8, portNumber: uint16)
    | O_FQDN_LOCATOR(fqdn: string, transportProto: uint8, portNumber: uint16)
    | O_URI_LOCATOR(uri: string, transportProto: uint8, portNumber: uint16)

  datatype GraspObjective = GraspObjective(
    objectiveName: string,
    objectiveFlags: uint32,
    loopCount: uint8,
    objectiveValue: Option<string>,
    locator: Option<GraspLocator>)

  datatype GraspMessage = GraspMessage(
    mtype: GraspMessageType,
    sessionId: uint32,
    initiator: Ipv6Addr,
    ttl: uint32,
    objectives: seq<GraspObjective>)

  // ---------- decoding ----------

  /** A vector access `items[i]`. */
  function At(items: seq<Cbor>, i: nat): Outcome<Cbor> {
    if i < |items| then Ok(items[i]) else OutOfRange
  }

  function AsInteger(c: Cbor, e: ConnectError): Outcome<uint64> {
    if c.Integer? then Ok(c.num) else Err(e)
  }

  function AsString(c: Cbor, e: ConnectError): Outcome<string> {
    if c.String? then Ok(c.text) else Err(e)
  }

  function AsArray(c: Cbor, e: ConnectError): Outcome<seq<Cbor>> {
    if c.Array? then Ok(c.items) else Err(e)
  }

  function Ipv6FromBytes(bytes: seq<uint8>): Outcome<Ipv6Addr> {
    if |bytes| == 16 then Ok(bytes) else Err(MisformedIpv6Addr)
  }

  /** Copies the octets one at a time into a fresh sixteen octet array. */
  method DecodeIpv6Bytes(bytes: seq<uint8>) returns (r: Outcome<Ipv6Addr>)
    ensures r == Ipv6FromBytes(bytes)
  {
    if |bytes| == 16 {
      var addrbytes := new uint8[16](_ => 0);
      for b := 0 to 16
        invariant addrbytes[..b] == bytes[..b]
      {
        addrbytes[b] := bytes[b];
      }
      assert addrbytes[..] == addrbytes[..16] && bytes == bytes[..16];
      return Ok(addrbytes[..]);
    } else {
      return Err(MisformedIpv6Addr);
    }
  }

  function DecodeIpv6CBytes(c: Cbor): Outcome<Ipv6Addr> {
    if c.Bytes? then Ipv6FromBytes(c.octets) else Err(MisformedIpv6Addr)
  }

  function ParseIpv6Locator(items: seq<Cbor>): Outcome<Option<GraspLocator>> {
    if |items| < 4 then Err(MisformedGraspObjective) else
    var v6addr :- DecodeIpv6CBytes(items[1]);
    var proto :- AsInteger(items[2], MisformedGraspObjective);
    var port :- AsInteger(items[3], MisformedGraspObjective);
    Ok(Some(O_IPv6_LOCATOR(v6addr, proto % 0x100, port % 0x1_0000)))
  }

  /** A locator position that holds no array means "no locator"; of the four locator
      kinds only IPv6 is decoded. */
  function ParseLocator(c: Cbor): Outcome<Option<GraspLocator>> {
    if !c.Array? then Ok(None) else
    var tag :- At(c.items, 0);
    if tag == Integer(O_IPV6_LOCATOR) then ParseIpv6Locator(c.items)
    else if tag == Integer(O_IPV4_LOCATOR) then Err(UnimplementedGraspStuff)
    else if tag == Integer(O_FQDN_LOCATOR) then Err(UnimplementedGraspStuff)
    else if tag == Integer(O_URI_LOCATOR) then Err(UnimplementedGraspStuff)
    else Err(MisformedGraspObjective)
  }

  /** The value is looked for at index 3 as soon as there are three elements. */
  function ObjectiveValue(obj: seq<Cbor>): Outcome<Option<string>> {
    if |obj| >= 3 then
      var item :- At(obj, 3);
      Ok(if item.String? then Some(item.text) else None)
    else
      Ok(None)
  }

  function DecodeObjective(pair: seq<Cbor>): Outcome<GraspObjective> {
    var head :- At(pair, 0);
    var obj :- AsArray(head, MisformedGraspObjective);
    var item0 :- At(obj, 0);
    var name :- AsString(item0, MisformedGraspObjective);
    var item1 :- At(obj, 1);
    var flags :- AsInteger(item1, MisformedGraspObjective);
    var item2 :- At(obj, 2);
    var loopCount :- AsInteger(item2, MisformedGraspObjective);
    var place :- At(pair, 1);
    var locator :- ParseLocator(place);
    var value :- ObjectiveValue(obj);
    Ok(GraspObjective(name, flags % 0x1_0000_0000, loopCount % 0x100, value, locator))
  }

  /** The objective an element of a flood decodes to; the others are passed over. */
  function KeepOne(c: Cbor): seq<GraspObjective> {
    if c.Array? && |c.items| >= 2 && DecodeObjective(c.items).Ok? then [DecodeObjective(c.items).value] else []
  }

  /** The elements that decode, in order. */
  function Kept(elements: seq<Cbor>): seq<GraspObjective> {
    if elements == [] then [] else Kept(elements[..|elements|-1]) + KeepOne(elements[|elements|-1])
  }

  predicate IndexesOutside(c: Cbor) {
    c.Array? && |c.items| >= 2 && DecodeObjective(c.items).OutOfRange?
  }

  /** The elements at which reading a flood's objectives ends early. */
  predicate Ends(c: Cbor) {
    !c.Array? || IndexesOutside(c)
  }

  /** The position of the first element that ends the reading, or the length. */
  function FirstEnd(elements: seq<Cbor>): (n: nat)
    ensures n <= |elements|
    ensures forall i :: 0 <= i < n ==> !Ends(elements[i])
    ensures n < |elements| ==> Ends(elements[n])
  {
    if elements == [] || Ends(elements[0]) then 0 else 1 + FirstEnd(elements[1..])
  }

  /** What reading the objectives of a flood amounts to. */
  function Objectives(elements: seq<Cbor>): Outcome<seq<GraspObjective>> {
    var n := FirstEnd(elements);
    if n < |elements| then
      if elements[n].Array? then OutOfRange else Err(MisformedGraspMessage)
    else if elements != [] && Kept(elements) == [] then
      Err(MisformedGraspMessage)
    else
      Ok(Kept(elements))
  }

  /** The loop keeps the good objectives and remembers that it saw a bad one. */
  method DecodeObjectives(elements: seq<Cbor>) returns (r: Outcome<seq<GraspObjective>>)
    ensures r == Objectives(elements)
  {
    hide DecodeObjective;
    var objectVec: seq<GraspObjective> := [];
    var objerror: Option<ConnectError> := None;
    for i := 0 to |elements|
      invariant objectVec == Kept(elements[..i])
      invariant forall j :: 0 <= j < i ==> !Ends(elements[j])
      invariant objectVec == [] ==> (objerror.Some? <==> i > 0)
    {
      assert elements[..i+1][..i] == elements[..i];
      if !elements[i].Array? {
        return Err(MisformedGraspMessage);
      }
      var objective := elements[i].items;
      if |objective| < 2 {
        objerror := Some(MisformedGraspObjective);
        continue;
      }
      var mobj := DecodeObjective(objective);
      match mobj
      case OutOfRange =>
        return OutOfRange;
      case Ok(obj) =>
        objectVec := objectVec + [obj];
      case Err(e) =>
        objerror := Some(e);
    }
    assert elements[..|elements|] == elements;
    if |objectVec| == 0 && objerror.Some? {
      return Err(MisformedGraspMessage);
    }
    return Ok(objectVec);
  }

  /** Message type and session id; a NOOP has no session id. */
  function DecodeBaseGrasp(contents: seq<Cbor>): Outcome<(uint32, uint32)> {
    var item0 :- At(contents, 0);
    var num :- AsInteger(item0, MisformedGraspMessage);
    var msgtype: uint32 := num % 0x1_0000_0000;
    if msgtype == 0 then Ok((msgtype, 0)) else
    if |contents| < 2 then Err(MisformedGraspMessage) else
    var id :- AsInteger(contents[1], MisformedGraspMessage);
    Ok((msgtype, id % 0x1_0000_0000))
  }

  function Noop(sessionId: uint32): GraspMessage {
    GraspMessage(M_NOOP, sessionId, UNSPECIFIED, 0, [])
  }

  function DecodeFlood(sessionId: uint32, contents: seq<Cbor>): Outcome<GraspMessage> {
    var item2 :- At(contents, 2);
    if !item2.Bytes? then Err(MisformedGraspMessage) else
    var initiator :- Ipv6FromBytes(item2.octets);
    var item3 :- At(contents, 3);
    var ttl :- AsInteger(item3, MisformedGraspMessage);
    var objectives :- Objectives(contents[4..]);
    Ok(GraspMessage(M_FLOOD, sessionId, initiator, ttl % 0x1_0000_0000, objectives))
  }

  /** The general entry point.  The types between NOOP and FLOOD are recognised and refused. */
  function DecodeGraspMessage(thing: Cbor): Outcome<GraspMessage> {
    if thing.Array? && |thing.items| >= 2 then
      var (msgtype, sessionId) :- DecodeBaseGrasp(thing.items);
      if msgtype == 0 then Ok(Noop(sessionId))
      else if msgtype == 9 then DecodeFlood(sessionId, thing.items)
      else Err(MisformedGraspMessage)
    else if thing.Array? && |thing.items| >= 1 then
      var (msgtype, sessionId) :- DecodeBaseGrasp(thing.items);
      if msgtype == 0 then Ok(Noop(sessionId)) else Err(MisformedGraspMessage)
    else
      Err(MisformedGraspMessage)
  }

  /** The entry point for DULL instances, which may only see NOOP and FLOOD. */
  function DecodeDullGraspMessage(thing: Cbor): Outcome<GraspMessage> {
    if thing.Array? && |thing.items| >= 1 then
      var (msgtype, sessionId) :- DecodeBaseGrasp(thing.items);
      if msgtype == 0 then Ok(Noop(sessionId))
      else if msgtype == 9 then DecodeFlood(sessionId, thing.items)
      else Err(IllegalDullGraspMessage)
    else
      Err(MisformedGraspMessage)
  }

  // ---------- encoding ----------

  function EncodeMtype(t: GraspMessageType): uint64 {
    match t
    case M_NOOP => 0
    case M_DISCOVERY => 1
    case M_RESPONSE => 2
    case M_REQ_NEG => 3
    case M_REQ_SYN => 4
    case M_NEGOTIATE => 5
    case M_END => 6
    case M_WAIT => 7
    case M_SYNCH => 8
    case M_FLOOD => 9
  }

  function EncodeLocator(loc: GraspLocator): Cbor {
    match loc
    case O_IPv6_LOCATOR(v6addr, proto, port) =>
      Array([Integer(O_IPV6_LOCATOR), Bytes(v6addr), Integer(proto), Integer(port)])
    case O_IPv4_LOCATOR(v4addr, proto, port) =>
      Array([Integer(O_IPV4_LOCATOR), Bytes(v4addr), Integer(proto), Integer(port)])
    case O_FQDN_LOCATOR(fqdn, proto, port) =>
      Array([Integer(O_FQDN_LOCATOR), String(fqdn), Integer(proto), Integer(port)])
    case O_URI_LOCATOR(uri, proto, port) =>
      Array([Integer(O_URI_LOCATOR), String(uri), Integer(proto), Integer(port)])
  }

  function ObjectiveHead(obj: GraspObjective): seq<Cbor> {
    [String(obj.objectiveName), Integer(obj.objectiveFlags), Integer(obj.loopCount)]
    + (if obj.objectiveValue.Some? then [String(obj.objectiveValue.value)] else [])
  }

  function ObjectiveTree(obj: GraspObjective): Cbor {
    Array([Array(ObjectiveHead(obj))] + (if obj.locator.Some? then [EncodeLocator(obj.locator.value)] else []))
  }

  method EncodeObjective(obj: GraspObjective) returns (c: Cbor)
    ensures c == ObjectiveTree(obj)
  {
    var objbase := [String(obj.objectiveName), Integer(obj.objectiveFlags), Integer(obj.loopCount)];
    if obj.objectiveValue.Some? {
      objbase := objbase + [String(obj.objectiveValue.value)];
    }
    assert objbase == ObjectiveHead(obj);
    var objv := [Array(objbase)];
    if obj.locator.Some? {
      objv := objv + [EncodeLocator(obj.locator.value)];
    }
    assert obj.locator.None? ==> [Array(objbase)] == [Array(objbase)] + [];
    c := Array(objv);
  }

  function ObjectiveTrees(objs: seq<GraspObjective>): seq<Cbor> {
    seq(|objs|, i requires 0 <= i < |objs| => ObjectiveTree(objs[i]))
  }

  function MessageTree(msg: GraspMessage): Cbor {
    Array([Integer(EncodeMtype(msg.mtype)), Integer(msg.sessionId), Bytes(msg.initiator), Integer(msg.ttl)]
          + ObjectiveTrees(msg.objectives))
  }

  method EncodeDullGraspMessage(msg: GraspMessage) returns (c: Cbor)
    ensures c == MessageTree(msg)
  {
    var header :=
      [Integer(EncodeMtype(msg.mtype)), Integer(msg.sessionId), Bytes(msg.initiator), Integer(msg.ttl)];
    var msgvec := header;
    for i := 0 to |msg.objectives|
      invariant msgvec == header + ObjectiveTrees(msg.objectives[..i])
    {
      var obj := EncodeObjective(msg.objectives[i]);
      msgvec := msgvec + [obj];
    }
    assert msg.objectives[..|msg.objectives|] == msg.objectives;
    c := Array(msgvec);
  }
}
