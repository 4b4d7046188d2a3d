/** What decoding makes of any tree at all, in terms of the tree alone: foreign value types, oversized
    integers and trailing items included.  Nothing here calls the decoding functions to say what they
    should give. */
module GraspReading {
  import opened Wrappers
  import opened Grasp
  import opened GraspProperties

  /** An element that gives an objective: a head that starts with a text and two integers and has a
      fourth item of any kind, followed by anything but an array, or by an IPv6 locator array. */
  predicate Readable(c: Cbor) {
    && c.Array? && |c.items| >= 2 && c.items[0].Array?
    && var head, place := c.items[0].items, c.items[1];
       && |head| >= 4 && head[0].String? && head[1].Integer? && head[2].Integer?
       && (place.Array? ==>
             && |place.items| >= 4 && place.items[0] == Integer(103)
             && place.items[1].Bytes? && |place.items[1].octets| == 16
             && place.items[2].Integer? && place.items[3].Integer?)
  }

  /** The objective it gives: integers are cut to their width, and only a text is a value. */
  function Reading(c: Cbor): GraspObjective
    requires Readable(c)
  {
    var head, place := c.items[0].items, c.items[1];
    GraspObjective(
      head[0].text,
      head[1].num % 0x1_0000_0000,
      head[2].num % 0x100,
      if head[3].String? then Some(head[3].text) else None,
      if place.Array? then Some(O_IPv6_LOCATOR(place.items[1].octets, place.items[2].num % 0x100, place.items[3].num % 0x1_0000))
      else None)
  }

  function Readings(elements: seq<Cbor>): seq<GraspObjective> {
    if elements == [] then []
    else Readings(elements[..|elements|-1])
         + if Readable(elements[|elements|-1]) then [Reading(elements[|elements|-1])] else []
  }

  /** An element is kept if and only if it is readable, and as its reading. */
  lemma KeepOneExactly(c: Cbor)
    ensures KeepOne(c) == if Readable(c) then [Reading(c)] else []
  {
    if c.Array? && |c.items| >= 2 && c.items[0].Array? {
      LocatorExactly(c.items[1]);
    }
  }

  lemma LocatorExactly(c: Cbor)
    ensures !c.Array? ==> ParseLocator(c) == Ok(None)
    ensures c.Array? ==>
              if |c.items| >= 4 && c.items[0] == Integer(103) && c.items[1].Bytes? && |c.items[1].octets| == 16
                 && c.items[2].Integer? && c.items[3].Integer?
              then ParseLocator(c) == Ok(Some(O_IPv6_LOCATOR(c.items[1].octets, c.items[2].num % 0x100, c.items[3].num % 0x1_0000)))
              else !ParseLocator(c).Ok?
  {}

  lemma {:induction false} KeptExactly(elements: seq<Cbor>)
    ensures Kept(elements) == Readings(elements)
  {
    if elements != [] {
      KeptExactly(elements[..|elements|-1]);
      KeepOneExactly(elements[|elements|-1]);
    }
  }

  /** A tree that is a NOOP: type 0 modulo 2^32, whatever follows. */
  predicate ReadsAsNoop(thing: Cbor, m: GraspMessage) {
    && thing.Array? && |thing.items| >= 1
    && thing.items[0].Integer? && thing.items[0].num % 0x1_0000_0000 == 0
    && m == GraspMessage(M_NOOP, 0, [0, 0, 0, 0, 0, 0, 0, 0, 0, 0, 0, 0, 0, 0, 0, 0], 0, [])
  }

  /** A tree that is a flood: a header of four, then arrays on which no index goes astray, at least
      one of them readable unless there are none. */
  ghost predicate ReadsAsFlood(thing: Cbor, m: GraspMessage) {
    && thing.Array? && |thing.items| >= 4
    && thing.items[0].Integer? && thing.items[0].num % 0x1_0000_0000 == 9
    && thing.items[1].Integer? && thing.items[2].Bytes? && |thing.items[2].octets| == 16 && thing.items[3].Integer?
    && (forall i :: 4 <= i < |thing.items| ==> thing.items[i].Array? && !UnsafeElement(thing.items[i]))
    && (|thing.items| == 4 || Readings(thing.items[4..]) != [])
    && m == GraspMessage(M_FLOOD, thing.items[1].num % 0x1_0000_0000, thing.items[2].octets,
                         thing.items[3].num % 0x1_0000_0000, Readings(thing.items[4..]))
  }

  lemma ObjectivesExactly(items: seq<Cbor>)
    requires |items| >= 4
    ensures Objectives(items[4..]).Ok? <==>
            && (forall i :: 4 <= i < |items| ==> items[i].Array? && !UnsafeElement(items[i]))
            && (|items| == 4 || Readings(items[4..]) != [])
    ensures Objectives(items[4..]).Ok? ==> Objectives(items[4..]).value == Readings(items[4..])
    ensures Objectives(items[4..]).Err? ==> Objectives(items[4..]).error == MisformedGraspMessage
  {
    hide DecodeObjective, UnsafeElement, Kept, Readings;
    var elements := items[4..];
    KeptExactly(elements);
    forall i | 4 <= i < |items|
      ensures IndexesOutside(items[i]) <==> UnsafeElement(items[i])
      ensures elements[i - 4] == items[i]
    {
      UnsafeElementExact(items[i]);
    }
    if FirstEnd(elements) == |elements| {
      forall i | 4 <= i < |items|
        ensures items[i].Array? && !UnsafeElement(items[i])
      {
        assert !Ends(elements[i - 4]);
      }
    } else {
      assert Ends(items[FirstEnd(elements) + 4]);
    }
  }

  /** Decoding gives a message if and only if the tree reads as that message. */
  lemma DecodesExactly(thing: Cbor, m: GraspMessage)
    ensures DecodeGraspMessage(thing) == Ok(m) <==> ReadsAsNoop(thing, m) || ReadsAsFlood(thing, m)
  {
    hide Objectives, UnsafeElement, Readings;
    if thing.Array? && |thing.items| >= 4 {
      ObjectivesExactly(thing.items);
    }
  }

  /** And the errors: an initiator of the wrong length has one of its own, every other tree that is
      neither read nor indexed astray (`PanicsExactly`) is a misformed message. */
  lemma RefusesExactly(thing: Cbor)
    ensures DecodeGraspMessage(thing).Err? ==> DecodeGraspMessage(thing).error in {MisformedGraspMessage, MisformedIpv6Addr}
    ensures DecodeGraspMessage(thing) == Err(MisformedIpv6Addr) <==>
            FloodHeader(thing) && |thing.items| >= 3 && thing.items[2].Bytes? && |thing.items[2].octets| != 16
  {
    hide Objectives, UnsafeElement;
    if thing.Array? && |thing.items| >= 4 {
      ObjectivesExactly(thing.items);
    }
  }
}
