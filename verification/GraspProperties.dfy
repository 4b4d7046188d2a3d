/** What the GRASP codec guarantees: exactly what decoding an encoded message gives, which
    messages survive the round trip, when the decoder indexes outside a vector, and how the two
    decoders and the encoder relate. */
module GraspProperties {
  import opened Wrappers
  import opened Grasp

  // ---------- the objective loop ----------

  /** Unless the decoder indexes outside a vector (`ObjectivesOutOfRange` says on which lists),
      reading the objectives fails if some element is not an array or if there are elements and
      all fail, and otherwise gives the objectives that decode, in input order. */
  lemma ObjectivesMeetSpec(elements: seq<Cbor>)
    requires !Objectives(elements).OutOfRange?
    ensures Objectives(elements) ==
            if (exists i :: 0 <= i < |elements| && !elements[i].Array?)
               || (elements != [] && forall i :: 0 <= i < |elements| ==> KeepOne(elements[i]) == [])
            then Err(MisformedGraspMessage) else Ok(Kept(elements))
  {
    KeptNothing(elements);
    if i :| 0 <= i < |elements| && !elements[i].Array? {
      assert Ends(elements[i]);
    }
  }

  lemma {:induction false} KeptNothing(elements: seq<Cbor>)
    ensures Kept(elements) == [] <==> forall i :: 0 <= i < |elements| ==> KeepOne(elements[i]) == []
  {
    if elements != [] {
      var front := elements[..|elements|-1];
      KeptNothing(front);
      assert forall i :: 0 <= i < |front| ==> front[i] == elements[i];
    }
  }

  // ---------- the round trip ----------

  /** The objectives that come back from the wire. */
  predicate Survives(obj: GraspObjective) {
    obj.locator.Some? && obj.locator.value.O_IPv6_LOCATOR? && obj.objectiveValue.Some?
  }

  /** The objectives whose encoding makes the decoder index outside a vector. */
  predicate Breaks(obj: GraspObjective) {
    obj.locator.Some? && obj.locator.value.O_IPv6_LOCATOR? && obj.objectiveValue.None?
  }

  function Surviving(objs: seq<GraspObjective>): seq<GraspObjective> {
    if objs == [] then []
    else Surviving(objs[..|objs|-1]) + (if Survives(objs[|objs|-1]) then [objs[|objs|-1]] else [])
  }

  lemma LocatorRoundTrip(loc: GraspLocator)
    ensures ParseLocator(EncodeLocator(loc)) ==
            if loc.O_IPv6_LOCATOR? then Ok(Some(loc)) else Err(UnimplementedGraspStuff)
  {}

  lemma ObjectiveRoundTrip(obj: GraspObjective)
    ensures KeepOne(ObjectiveTree(obj)) == if Survives(obj) then [obj] else []
    ensures Ends(ObjectiveTree(obj)) <==> Breaks(obj)
    ensures Ends(ObjectiveTree(obj)) ==> ObjectiveTree(obj).Array?
  {
    if obj.locator.Some? {
      LocatorRoundTrip(obj.locator.value);
      var items := ObjectiveTree(obj).items;
      assert items == [Array(ObjectiveHead(obj)), EncodeLocator(obj.locator.value)];
      var head := ObjectiveHead(obj);
      assert head[0] == String(obj.objectiveName);
      assert head[1] == Integer(obj.objectiveFlags);
      assert head[2] == Integer(obj.loopCount);
      if obj.objectiveValue.Some? {
        assert ObjectiveValue(head) == Ok(obj.objectiveValue);
      } else {
        assert ObjectiveValue(head) == OutOfRange;
      }
    } else {
      assert |ObjectiveTree(obj).items| == 1;
    }
  }

  lemma {:induction false} KeptOfEncoded(objs: seq<GraspObjective>)
    ensures Kept(ObjectiveTrees(objs)) == Surviving(objs)
  {
    if objs != [] {
      var n := |objs| - 1;
      KeptOfEncoded(objs[..n]);
      assert ObjectiveTrees(objs)[..n] == ObjectiveTrees(objs[..n]);
      ObjectiveRoundTrip(objs[n]);
    }
  }

  lemma ObjectivesOfEncoded(objs: seq<GraspObjective>)
    ensures Objectives(ObjectiveTrees(objs)) ==
            if exists i :: 0 <= i < |objs| && Breaks(objs[i]) then OutOfRange
            else if objs != [] && Surviving(objs) == [] then Err(MisformedGraspMessage)
            else Ok(Surviving(objs))
  {
    var trees := ObjectiveTrees(objs);
    forall i | 0 <= i < |objs|
      ensures Ends(trees[i]) <==> Breaks(objs[i])
      ensures Ends(trees[i]) ==> trees[i].Array?
    {
      ObjectiveRoundTrip(objs[i]);
    }
    KeptOfEncoded(objs);
    if i :| 0 <= i < |objs| && Breaks(objs[i]) {
      assert Ends(trees[i]);
    }
  }

  /** The exact outcome of decoding the encoding of any message of any type. */
  function RoundTrip(msg: GraspMessage): Outcome<GraspMessage> {
    match msg.mtype
    case M_NOOP => Ok(Noop(0))
    case M_FLOOD =>
      if exists i :: 0 <= i < |msg.objectives| && Breaks(msg.objectives[i]) then OutOfRange
      else if msg.objectives != [] && Surviving(msg.objectives) == [] then Err(MisformedGraspMessage)
      else Ok(msg.(objectives := Surviving(msg.objectives)))
    case _ => Err(MisformedGraspMessage)
  }

  lemma HeaderRoundTrip(msg: GraspMessage)
    ensures DecodeBaseGrasp(MessageTree(msg).items)
            == Ok((EncodeMtype(msg.mtype), if msg.mtype == M_NOOP then 0 else msg.sessionId))
  {}

  lemma FloodRoundTrip(msg: GraspMessage)
    requires msg.mtype == M_FLOOD
    ensures DecodeFlood(msg.sessionId, MessageTree(msg).items) == RoundTrip(msg)
  {
    var items := MessageTree(msg).items;
    assert items[2] == Bytes(msg.initiator);
    assert items[3] == Integer(msg.ttl);
    assert items[4..] == ObjectiveTrees(msg.objectives);
    ObjectivesOfEncoded(msg.objectives);
  }

  lemma RoundTripExact(msg: GraspMessage)
    ensures DecodeGraspMessage(MessageTree(msg)) == RoundTrip(msg)
  {
    HeaderRoundTrip(msg);
    assert EncodeMtype(msg.mtype) == 9 <==> msg.mtype == M_FLOOD;
    assert EncodeMtype(msg.mtype) == 0 <==> msg.mtype == M_NOOP;
    if msg.mtype == M_FLOOD {
      FloodRoundTrip(msg);
    }
  }

  lemma {:induction false} SurvivingAll(objs: seq<GraspObjective>)
    ensures |Surviving(objs)| <= |objs|
    ensures Surviving(objs) == objs <==> forall i :: 0 <= i < |objs| ==> Survives(objs[i])
  {
    if objs != [] {
      var n := |objs| - 1;
      var front := objs[..n];
      SurvivingAll(front);
      assert objs == front + [objs[n]];
      if Surviving(objs) == objs {
        assert |Surviving(front)| == n && Survives(objs[n]);
        assert Surviving(objs)[..n] == Surviving(front);
        assert Surviving(front) == front;
        assert forall i :: 0 <= i < n ==> front[i] == objs[i];
      }
      if forall i :: 0 <= i < |objs| ==> Survives(objs[i]) {
        assert forall i :: 0 <= i < n ==> front[i] == objs[i];
      }
    }
  }

  /** Exactly the messages that come back unchanged: the canonical NOOP, and the floods whose
      objectives all have a value and an IPv6 locator. */
  lemma RoundTripIdentity(msg: GraspMessage)
    ensures DecodeGraspMessage(MessageTree(msg)) == Ok(msg)
            <==> msg == Noop(0)
                 || (msg.mtype == M_FLOOD
                     && forall i :: 0 <= i < |msg.objectives| ==> Survives(msg.objectives[i]))
  {
    RoundTripExact(msg);
    SurvivingAll(msg.objectives);
    if msg.mtype == M_FLOOD && DecodeGraspMessage(MessageTree(msg)) == Ok(msg) {
      assert msg == msg.(objectives := Surviving(msg.objectives));
    }
  }

  // ---------- the two decoders ----------

  /** Trees that carry a readable header of a type other than NOOP and FLOOD. */
  predicate OtherType(thing: Cbor) {
    && thing.Array? && |thing.items| >= 2
    && thing.items[0].Integer? && thing.items[0].num % 0x1_0000_0000 !in {0, 9}
    && thing.items[1].Integer?
  }

  /** The two decoders give the same outcome on every tree, except that DULL has its own error
      for the types it may not see.  In particular they succeed, and index outside a vector,
      on the same trees. */
  lemma DecodersAgree(thing: Cbor)
    ensures DecodeDullGraspMessage(thing) ==
            if OtherType(thing) then Err(IllegalDullGraspMessage) else DecodeGraspMessage(thing)
    ensures OtherType(thing) ==> DecodeGraspMessage(thing) == Err(MisformedGraspMessage)
    ensures forall m :: DecodeDullGraspMessage(thing) == Ok(m) <==> DecodeGraspMessage(thing) == Ok(m)
  {}

  // ---------- what decoding can produce ----------

  lemma KeptLocators(elements: seq<Cbor>)
    ensures forall i :: 0 <= i < |Kept(elements)| ==>
              Kept(elements)[i].locator.Some? ==> Kept(elements)[i].locator.value.O_IPv6_LOCATOR?
  {}

  /** A decoded message is a canonical NOOP or a flood whose locators are absent or IPv6. */
  lemma DecodedShape(thing: Cbor, m: GraspMessage)
    requires DecodeGraspMessage(thing) == Ok(m)
    ensures m == Noop(0)
            || (m.mtype == M_FLOOD
                && forall i :: 0 <= i < |m.objectives| ==>
                     m.objectives[i].locator.Some? ==> m.objectives[i].locator.value.O_IPv6_LOCATOR?)
  {
    if |thing.items| >= 4 {
      KeptLocators(thing.items[4..]);
    }
  }

  // ---------- index safety ----------

  /** Elements of a flood that the decoder reads within range: a head of at least four
      elements and, where a locator array stands, a non-empty one. */
  predicate SafeElement(c: Cbor) {
    c.Array? && |c.items| >= 2 ==>
      && (c.items[0].Array? ==> |c.items[0].items| >= 4)
      && (c.items[1].Array? ==> c.items[1].items != [])
  }

  predicate SafeTree(thing: Cbor) {
    thing.Array? && |thing.items| >= 1 && thing.items[0].Integer?
    && thing.items[0].num % 0x1_0000_0000 == 9 ==>
      && |thing.items| >= 4
      && forall i :: 4 <= i < |thing.items| ==> SafeElement(thing.items[i])
  }

  /** Every index either decoder uses on a safe tree is in range, at any list length. */
  lemma SafeTreeInRange(thing: Cbor)
    requires SafeTree(thing)
    ensures !DecodeGraspMessage(thing).OutOfRange? && !DecodeDullGraspMessage(thing).OutOfRange?
  {}

  /** What this program encodes, it can decode in range, as soon as all objectives carry values. */
  lemma EncodedIsSafe(msg: GraspMessage)
    requires forall i :: 0 <= i < |msg.objectives| ==> msg.objectives[i].objectiveValue.Some?
    ensures SafeTree(MessageTree(msg))
  {}

  /** A locator position that the decoder reads without an error. */
  predicate ReadableLocator(c: Cbor) {
    c.Array? ==>
      && |c.items| >= 4 && c.items[0] == Integer(O_IPV6_LOCATOR)
      && c.items[1].Bytes? && |c.items[1].octets| == 16
      && c.items[2].Integer? && c.items[3].Integer?
  }

  /** Well-typed prefix: the elements of a head that the decoder checks before reading on. */
  predicate TypedHead(head: seq<Cbor>) {
    && (|head| > 0 ==> head[0].String?)
    && (|head| > 1 ==> head[1].Integer?)
    && (|head| > 2 ==> head[2].Integer?)
  }

  /** An element on which the decoder indexes outside a vector, described by its shape: a short
      head whose elements so far have the right types, or an empty locator array. */
  predicate UnsafeElement(c: Cbor) {
    && c.Array? && |c.items| >= 2 && c.items[0].Array?
    && TypedHead(c.items[0].items)
    && (|c.items[0].items| < 3
        || c.items[1] == Array([])
        || (|c.items[0].items| == 3 && ReadableLocator(c.items[1])))
  }

  lemma UnsafeElementExact(c: Cbor)
    ensures IndexesOutside(c) <==> UnsafeElement(c)
  {}

  /** A flood header: type 9 modulo 2^32 and a session id. */
  predicate FloodHeader(thing: Cbor) {
    && thing.Array? && |thing.items| >= 2
    && thing.items[0].Integer? && thing.items[0].num % 0x1_0000_0000 == 9
    && thing.items[1].Integer?
  }

  /** Exactly the trees on which the decoder indexes outside a vector: a flood that ends before
      its initiator or ttl, or an unsafe element not preceded by one that is no array. */
  predicate UnsafeTree(thing: Cbor) {
    && FloodHeader(thing)
    && (|thing.items| == 2
        || (thing.items[2].Bytes? && |thing.items[2].octets| == 16
            && (|thing.items| == 3
                || (thing.items[3].Integer?
                    && exists n :: 4 <= n < |thing.items| && UnsafeElement(thing.items[n])
                                   && forall i :: 4 <= i < n ==> thing.items[i].Array?))))
  }

  lemma ObjectivesOutOfRange(elements: seq<Cbor>)
    ensures Objectives(elements).OutOfRange?
            <==> exists n :: 0 <= n < |elements| && UnsafeElement(elements[n])
                             && forall i :: 0 <= i < n ==> elements[i].Array?
  {
    forall i | 0 <= i < |elements|
      ensures IndexesOutside(elements[i]) <==> UnsafeElement(elements[i])
    {
      UnsafeElementExact(elements[i]);
    }
    var m := FirstEnd(elements);
    if n :| 0 <= n < |elements| && UnsafeElement(elements[n]) && forall i :: 0 <= i < n ==> elements[i].Array? {
      assert Ends(elements[n]);
      assert m <= n;
      assert elements[m].Array?;
    }
    if Objectives(elements).OutOfRange? {
      assert UnsafeElement(elements[m]);
    }
  }

  lemma PanicsExactly(thing: Cbor)
    ensures DecodeGraspMessage(thing).OutOfRange? <==> UnsafeTree(thing)
    ensures DecodeDullGraspMessage(thing).OutOfRange? <==> UnsafeTree(thing)
  {
    DecodersAgree(thing);
    if FloodHeader(thing) {
      assert DecodeBaseGrasp(thing.items) == Ok((9, thing.items[1].num % 0x1_0000_0000));
      assert DecodeGraspMessage(thing) == DecodeFlood(thing.items[1].num % 0x1_0000_0000, thing.items);
      if |thing.items| >= 4 {
        ObjectivesOutOfRange(thing.items[4..]);
        ShiftUnsafe(thing.items);
      }
    } else {
      assert !DecodeGraspMessage(thing).OutOfRange?;
    }
  }

  /** The unsafe element, counted from the start of the message and from its objectives. */
  lemma ShiftUnsafe(items: seq<Cbor>)
    requires |items| >= 4
    ensures (exists n :: 0 <= n < |items[4..]| && UnsafeElement(items[4..][n])
                         && forall i :: 0 <= i < n ==> items[4..][i].Array?)
            <==> (exists n :: 4 <= n < |items| && UnsafeElement(items[n])
                              && forall i :: 4 <= i < n ==> items[i].Array?)
  {}
}
