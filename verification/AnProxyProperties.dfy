/** The announcement that a join daemon sends is one that every GRASP listener can decode. */
module AnProxyProperties {
  import opened Wrappers
  import opened Grasp
  import opened GraspProperties
  import opened Registrars
  import opened World
  import opened WorldProperties
  import opened Interfaces

  /** The tree decodes, through either entry point, to the flood it was built from: initiator,
      ttl 1, the session id, and one AN_Proxy objective at the initiator's address and the HTTPS
      port exactly when an HTTP registrar is available, and none otherwise. */
  lemma AnProxyDecodes(linklocal6: Ipv6Addr, httpsPort: uint16, proxies: Proxies, id: uint32)
    ensures var tree := MessageTree(AnProxyMessage(linklocal6, httpsPort, proxies, id));
            && DecodeGraspMessage(tree).Ok? && DecodeDullGraspMessage(tree) == DecodeGraspMessage(tree)
            && var m := DecodeGraspMessage(tree).value;
               && m.mtype == M_FLOOD && m.sessionId == id && m.initiator == linklocal6 && m.ttl == 1
               && (!proxies.httpAvail ==> m.objectives == [])
               && (proxies.httpAvail ==>
                     |m.objectives| == 1
                     && m.objectives[0].objectiveName == "AN_Proxy" && m.objectives[0].objectiveValue == Some("")
                     && m.objectives[0].loopCount == 1 && m.objectives[0].objectiveFlags == 0
                     && m.objectives[0].locator == Some(O_IPv6_LOCATOR(linklocal6, 6, httpsPort)))
  {
    var m := AnProxyMessage(linklocal6, httpsPort, proxies, id);
    RoundTripIdentity(m);
    DecodersAgree(MessageTree(m));
  }

  /** After any run of events, what is announced on an interface names an address that is
      unspecified or link-local. */
  lemma AnnouncedAddress(options: RoosterOptions, events: seq<Event>, k: IfIndex, port: uint16, proxies: Proxies, id: uint32)
    ensures var rec := Entry(Run(options, events), k);
            var r := DecodeGraspMessage(MessageTree(AnProxyMessage(rec.linklocal6, port, proxies, id)));
            r.Ok? && r.value.initiator == rec.linklocal6 && UnspecifiedOrLinkLocal(r.value.initiator)
  {
    LinkLocalOfRun(options, events, k);
    AnProxyDecodes(Entry(Run(options, events), k).linklocal6, port, proxies, id);
  }

  /** A daemon does not look at objective names: the announcement of a join proxy, heard on an ACP
      interface, is accepted as an HTTP registrar at the proxy's own address and port. */
  lemma AnProxyHeardAsRegistrar(linklocal6: Ipv6Addr, httpsPort: uint16, proxies: Proxies, id: uint32)
    ensures var m := DecodeGraspMessage(MessageTree(AnProxyMessage(linklocal6, httpsPort, proxies, id)));
            m.Ok? && Accepted(m.value) == if proxies.httpAvail then [Accept(linklocal6, HTTPRegistrar(httpsPort), 1)] else []
  {
    AnProxyDecodes(linklocal6, httpsPort, proxies, id);
    hide DecodeGraspMessage, DecodeDullGraspMessage, MessageTree, AnProxyMessage;
    var objs := DecodeGraspMessage(MessageTree(AnProxyMessage(linklocal6, httpsPort, proxies, id))).value.objectives;
    assert objs[..0] == [];
    if proxies.httpAvail {
      assert RegistrarOf(objs[0]) == Some(HTTPRegistrar(httpsPort));
      assert objs[..1] == objs && FirstUnsupported(objs) == 1;
      AcceptEachSnoc(objs, 0, 1);
    }
  }
}
