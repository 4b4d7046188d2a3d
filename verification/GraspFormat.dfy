/** A reader of the wire format on its own terms: all ten message types, all four locator kinds, and
    absent locators and values, as sections 2.8 to 2.10 of RFC 8990 lay them out.  (Where the RFC
    writes an empty array for an absent locator, the program leaves the element out.)  The reader
    takes back every message the encoder writes, so the encoder loses nothing. */
module GraspFormat {
  import opened Wrappers
  import opened Grasp

  function ReadMtype(n: uint64): Option<GraspMessageType> {
    match n
    case 0 => Some(M_NOOP)
    case 1 => Some(M_DISCOVERY)
    case 2 => Some(M_RESPONSE)
    case 3 => Some(M_REQ_NEG)
    case 4 => Some(M_REQ_SYN)
    case 5 => Some(M_NEGOTIATE)
    case 6 => Some(M_END)
    case 7 => Some(M_WAIT)
    case 8 => Some(M_SYNCH)
    case 9 => Some(M_FLOOD)
    case _ => None
  }

  /** An integer below a bound. */
  predicate Below(c: Cbor, bound: int) {
    c.Integer? && c.num < bound
  }

  /** A locator option: kind, address or name, transport protocol, port. */
  function ReadLocator(c: Cbor): Option<GraspLocator> {
    if !c.Array? || |c.items| != 4 || !c.items[0].Integer? || !Below(c.items[2], 0x100) || !Below(c.items[3], 0x1_0000)
    then None else
    var place, proto, port := c.items[1], c.items[2].num, c.items[3].num;
    match c.items[0].num
    case 103 => if place.Bytes? && |place.octets| == 16 then Some(O_IPv6_LOCATOR(place.octets, proto, port)) else None
    case 104 => if place.Bytes? && |place.octets| == 4 then Some(O_IPv4_LOCATOR(place.octets, proto, port)) else None
    case 105 => if place.String? then Some(O_FQDN_LOCATOR(place.text, proto, port)) else None
    case 106 => if place.String? then Some(O_URI_LOCATOR(place.text, proto, port)) else None
    case _ => None
  }

  predicate IsHead(head: seq<Cbor>) {
    && 3 <= |head| <= 4
    && head[0].String? && Below(head[1], 0x1_0000_0000) && Below(head[2], 0x100)
    && (|head| == 4 ==> head[3].String?)
  }

  /** An objective: name, flags, loop count and maybe a value, followed by maybe a locator. */
  function ReadObjective(c: Cbor): Option<GraspObjective> {
    if !c.Array? || !(1 <= |c.items| <= 2) || !c.items[0].Array? || !IsHead(c.items[0].items) then None else
    var head := c.items[0].items;
    var value := if |head| == 4 then Some(head[3].text) else None;
    var locator := if |c.items| == 2 then ReadLocator(c.items[1]) else None;
    if |c.items| == 2 && locator.None? then None
    else Some(GraspObjective(head[0].text, head[1].num, head[2].num, value, locator))
  }

  function ReadObjectives(elements: seq<Cbor>): Option<seq<GraspObjective>> {
    if elements == [] then Some([]) else
    var first, rest := ReadObjective(elements[0]), ReadObjectives(elements[1..]);
    if first.Some? && rest.Some? then Some([first.value] + rest.value) else None
  }

  /** A message: type, session id, initiator, ttl, objectives. */
  function ReadMessage(c: Cbor): Option<GraspMessage> {
    if !c.Array? || |c.items| < 4 || !c.items[0].Integer? || !Below(c.items[1], 0x1_0000_0000)
       || !c.items[2].Bytes? || |c.items[2].octets| != 16 || !Below(c.items[3], 0x1_0000_0000)
    then None else
    var mtype, objectives := ReadMtype(c.items[0].num), ReadObjectives(c.items[4..]);
    if mtype.None? || objectives.None? then None
    else Some(GraspMessage(mtype.value, c.items[1].num, c.items[2].octets, c.items[3].num, objectives.value))
  }

  lemma LocatorReadsBack(loc: GraspLocator)
    ensures ReadLocator(EncodeLocator(loc)) == Some(loc)
  {}

  lemma ObjectiveReadsBack(obj: GraspObjective)
    ensures ReadObjective(ObjectiveTree(obj)) == Some(obj)
  {}

  lemma {:induction false} ObjectivesReadBack(objs: seq<GraspObjective>)
    ensures ReadObjectives(ObjectiveTrees(objs)) == Some(objs)
  {
    if objs == [] {
      assert ObjectiveTrees(objs) == [];
    } else {
      ObjectiveReadsBack(objs[0]);
      ObjectivesReadBack(objs[1..]);
      assert ObjectiveTrees(objs)[1..] == ObjectiveTrees(objs[1..]);
      assert [objs[0]] + objs[1..] == objs;
    }
  }

  /** Everything the encoder writes is in the format, and says what the message says. */
  lemma MessageReadsBack(msg: GraspMessage)
    ensures ReadMessage(MessageTree(msg)) == Some(msg)
  {
    var items := MessageTree(msg).items;
    assert items[0] == Integer(EncodeMtype(msg.mtype)) && items[1] == Integer(msg.sessionId)
        && items[2] == Bytes(msg.initiator) && items[3] == Integer(msg.ttl);
    assert items[4..] == ObjectiveTrees(msg.objectives);
    ObjectivesReadBack(msg.objectives);
    assert ReadMtype(EncodeMtype(msg.mtype)) == Some(msg.mtype);
  }

  /** Two messages of any type, with any locators and values, have the same tree only if equal. */
  lemma EncoderInjective(a: GraspMessage, b: GraspMessage)
    requires MessageTree(a) == MessageTree(b)
    ensures a == b
  {
    MessageReadsBack(a);
    MessageReadsBack(b);
  }
}
