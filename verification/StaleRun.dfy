/** A run that breaks the promise of an announced proxy.  An ACP interface and a join link come up, a
    registrar is heard and cached, and the main loop announces a proxy on the join link; then the ACP
    interface goes down and up again.  Its new daemon has an empty table, the flag is not raised, and
    every round of the main loop goes on announcing a proxy that has no registrar to connect to. */
module StaleRun {
  import opened Wrappers
  import opened Grasp
  import opened GraspProperties
  import opened Registrars
  import opened World
  import opened WorldProperties

  const OPTIONS := RoosterOptions([], ["acp0"], ["join0"])

  const ACP_UP := LinkMsg(1, [IfName("acp0"), OperStateAttr(Up)], 0)
  const JOIN_UP := LinkMsg(2, [IfName("join0"), OperStateAttr(Up)], 8443)
  const ACP_DOWN := LinkMsg(1, [OperStateAttr(Down)], 0)
  const ACP_UP_AGAIN := LinkMsg(1, [OperStateAttr(Up)], 0)

  /** A flood that announces one HTTP registrar. */
  function Flood(addr: Ipv6Addr, port: uint16): GraspMessage {
    GraspMessage(M_FLOOD, 1, addr, 1,
                 [GraspObjective("AN_join_registrar", 4, 255, Some(""), Some(O_IPv6_LOCATOR(addr, 6, port)))])
  }

  function BothUp(): World {
    Step(OPTIONS, Step(OPTIONS, INITIAL, ACP_UP), JOIN_UP)
  }

  function Heard(addr: Ipv6Addr, port: uint16): World {
    Step(OPTIONS, BothUp(), GraspMsg(1, Flood(addr, port)))
  }

  function Cached(addr: Ipv6Addr, port: uint16): World {
    Step(OPTIONS, Heard(addr, port), UpdateTick)
  }

  function Restarted(addr: Ipv6Addr, port: uint16): World {
    Step(OPTIONS, Step(OPTIONS, Cached(addr, port), ACP_DOWN), ACP_UP_AGAIN)
  }

  lemma BothAreUp()
    ensures var w := BothUp();
            && w.acp == {1} && w.joinlinks == {2} && w.flag
            && Entry(w, 1).table == Some([]) && Entry(w, 1).ifname == "acp0" && !Entry(w, 1).ignored
  {
    hide Step;
    var w1 := Step(OPTIONS, INITIAL, ACP_UP);
    assert ACP_UP.linkAttrs[..1] == [IfName("acp0")] && ACP_UP.linkAttrs[..1][..0] == [];
    assert JOIN_UP.linkAttrs[..1] == [IfName("join0")] && JOIN_UP.linkAttrs[..1][..0] == [];
    LinkStep(OPTIONS, INITIAL, ACP_UP);
    OtherStep(OPTIONS, INITIAL, ACP_UP, 2);
    LinkStep(OPTIONS, w1, JOIN_UP);
    OtherStep(OPTIONS, w1, JOIN_UP, 1);
  }

  lemma FloodIsAccepted(addr: Ipv6Addr, port: uint16)
    ensures Accepted(Flood(addr, port)) == [Accept(addr, HTTPRegistrar(port), 1)]
    ensures DecodeGraspMessage(MessageTree(Flood(addr, port))) == Ok(Flood(addr, port))
  {
    var objs := Flood(addr, port).objectives;
    assert FirstUnsupported(objs) == 1 && objs[..1] == objs && objs[..0] == [];
    AcceptEachSnoc(objs, 0, 1);
    RoundTripIdentity(Flood(addr, port));
  }

  lemma HeardRaises(addr: Ipv6Addr, port: uint16)
    ensures var w := Heard(addr, port);
            && w.acp == {1} && w.joinlinks == {2} && w.flag && KindAvailable(w, Http)
            && Entry(w, 1).table.Some? && Entry(w, 1).ifname == "acp0" && !Entry(w, 1).ignored
  {
    hide Step, Accepted, AddOne;
    var a := Accept(addr, HTTPRegistrar(port), 1);
    BothAreUp();
    FloodIsAccepted(addr, port);
    HearStep(OPTIONS, BothUp(), GraspMsg(1, Flood(addr, port)));
    AddAllSnoc([], [], a);
    assert [] + [a] == [a];
    HasKindAfterAdd([], a, Http);
    assert TableOf(Heard(addr, port), 1) == AddOne([], a);
  }

  lemma CachedClaims(addr: Ipv6Addr, port: uint16)
    ensures var w := Cached(addr, port);
            && w.acp == {1} && w.joinlinks == {2} && Entry(w, 1).ifname == "acp0" && !Entry(w, 1).ignored
            && Entry(w, 1).table.Some? && w.proxies.httpAvail && !w.flag && KindAvailable(w, Http)
  {
    hide Step, Heard;
    HeardRaises(addr, port);
    UpdateStep(OPTIONS, Heard(addr, port));
  }

  lemma UpdateStep(options: RoosterOptions, w: World)
    ensures var w' := Step(options, w, UpdateTick);
            && w' == w.(proxies := w'.proxies, flag := false)
            && (if w.flag then KindAvailable(w, Http) ==> w'.proxies.httpAvail else w'.proxies == w.proxies)
            && (KindAvailable(w', Http) <==> KindAvailable(w, Http))
  {}

  lemma RestartedIsEmpty(addr: Ipv6Addr, port: uint16)
    ensures var w := Restarted(addr, port);
            && w.acp == {1} && w.joinlinks == {2} && TableOf(w, 1) == []
            && w.proxies == Cached(addr, port).proxies && w.flag == Cached(addr, port).flag
    ensures !Restarts(OPTIONS, Cached(addr, port), ACP_DOWN)
    ensures Restarts(OPTIONS, Step(OPTIONS, Cached(addr, port), ACP_DOWN), ACP_UP_AGAIN)
  {
    hide Step, Cached;
    CachedClaims(addr, port);
    var w := Cached(addr, port);
    assert ACP_DOWN.linkAttrs[..0] == [] && ACP_UP_AGAIN.linkAttrs[..0] == [];
    LinkStep(OPTIONS, w, ACP_DOWN);
    LinkStep(OPTIONS, Step(OPTIONS, w, ACP_DOWN), ACP_UP_AGAIN);
  }

  /** After the run the cache claims HTTP, the flag is clear, and no table holds any registrar. */
  lemma StaleAfterRestart(addr: Ipv6Addr, port: uint16)
    ensures var w := Run(OPTIONS, [ACP_UP, JOIN_UP, GraspMsg(1, Flood(addr, port)), UpdateTick, ACP_DOWN, ACP_UP_AGAIN]);
            !w.flag && w.proxies.httpAvail && !Scan(w).httpAvail && !CacheExact(w)
  {
    hide Step, Run, Restarted, Cached;
    CachedClaims(addr, port);
    RestartedIsEmpty(addr, port);
    RunSix(ACP_UP, JOIN_UP, GraspMsg(1, Flood(addr, port)), UpdateTick, ACP_DOWN, ACP_UP_AGAIN);
    RestartedUnfolds(addr, port);
    assert !KindAvailable(Restarted(addr, port), Http);
    assert Restarted(addr, port).proxies.Has(Http);
  }

  lemma RestartedUnfolds(addr: Ipv6Addr, port: uint16)
    ensures Restarted(addr, port) ==
            Step(OPTIONS, Step(OPTIONS, Step(OPTIONS, Step(OPTIONS, Step(OPTIONS, Step(OPTIONS, INITIAL,
              ACP_UP), JOIN_UP), GraspMsg(1, Flood(addr, port))), UpdateTick), ACP_DOWN), ACP_UP_AGAIN)
  {
    hide Step;
  }

  lemma RunSix(e1: Event, e2: Event, e3: Event, e4: Event, e5: Event, e6: Event)
    ensures Run(OPTIONS, [e1, e2, e3, e4, e5, e6]) ==
            Step(OPTIONS, Step(OPTIONS, Step(OPTIONS, Step(OPTIONS, Step(OPTIONS, Step(OPTIONS, INITIAL,
              e1), e2), e3), e4), e5), e6)
  {
    hide Step, Run;
    RunNothing(OPTIONS);
    RunSnoc(OPTIONS, [], e1);
    RunSnoc(OPTIONS, [e1], e2);
    RunSnoc(OPTIONS, [e1, e2], e3);
    RunSnoc(OPTIONS, [e1, e2, e3], e4);
    RunSnoc(OPTIONS, [e1, e2, e3, e4], e5);
    RunSnoc(OPTIONS, [e1, e2, e3, e4, e5], e6);
    assert [] + [e1] == [e1] && [e1] + [e2] == [e1, e2] && [e1, e2] + [e3] == [e1, e2, e3];
    assert [e1, e2, e3] + [e4] == [e1, e2, e3, e4] && [e1, e2, e3, e4] + [e5] == [e1, e2, e3, e4, e5];
    assert [e1, e2, e3, e4, e5] + [e6] == [e1, e2, e3, e4, e5, e6];
  }
}
