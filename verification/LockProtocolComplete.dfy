/** The converse of serializability, and its use: from an idle state every event can be carried out by
    steps that the locks allow.  So the run of `StaleRun` can happen, and the announced proxy with it. */
module LockProtocolComplete {
  import opened Wrappers
  import opened Grasp
  import opened GraspProperties
  import opened Registrars
  import opened World
  import opened WorldProperties
  import opened Interfaces
  import opened AnProxyProperties
  import opened LockProtocol
  import opened LockProtocolProperties
  import opened LockProtocolSafety
  import opened LockProtocolPasses
  import opened LockProtocolSerial
  import opened StaleRun

  /** A state that keeps the invariant and in which nobody holds anything. */
  ghost predicate Idle(s: State) {
    Inv(s) && Started(s) && s.locks == map[] && s.main.Sleeping? && s.listener.Listening? && s.picker.NoPledge?
  }

  lemma IdleAtStart()
    ensures Idle(START)
  {
    hide Inv;
    InvAtStart();
  }

  lemma IdleAnnouncers(s: State)
    requires Idle(s)
    ensures AllIdle(s) && Names(s)
    ensures forall k :: Entry(s.w, k).table.Some? ==> Current(s.w, k) in s.announcers && s.announcers[Current(s.w, k)].Waiting?
  {
    hide ReadsLocked, CacheCovers, ScanCovers, Sound;
    forall d | d in s.announcers
      ensures s.announcers[d].Waiting?
    {
      if !s.announcers[d].Waiting? {
        HeldIsTaken(s, TableLock(d), Announcer(d));
      }
    }
  }

  lemma DoLink(options: RoosterOptions, s: State, e: Event) returns (pass: seq<Action>, t: State)
    requires Idle(s) && e.LinkMsg?
    ensures RunFrom(options, s, pass) == Some(t) && Idle(t) && t.w == Step(options, s.w, e) && t.sent == s.sent
    ensures t.cacheEpoch == s.cacheEpoch && t.epoch == s.epoch + (if Restarts(options, s.w, e) then 1 else 0)
  {
    hide RunFrom, Inv, Started, LinkPass;
    pass := LinkPass(options, s.w, e.ifindex, e.linkAttrs, e.httpsPort);
    UninterruptedLink(options, s, e.ifindex, e.linkAttrs, e.httpsPort);
    t := RunFrom(options, s, pass).value;
    InvFrom(options, s, pass);
    StartedFrom(options, s, pass);
  }

  lemma DoAddr(options: RoosterOptions, s: State, e: Event) returns (pass: seq<Action>, t: State)
    requires Idle(s) && e.AddrMsg?
    ensures RunFrom(options, s, pass) == Some(t) && Idle(t) && t == s.(w := Step(options, s.w, e))
  {
    hide RunFrom, Inv, Started, StoreAddr;
    pass, t := [ByListener(GetAddr(e.ifindex, e.addrAttrs))], s.(w := Step(options, s.w, e));
    One(options, s, pass[0], t);
    InvFrom(options, s, pass);
    StartedFrom(options, s, pass);
  }

  /** A message that no daemon hears changes nothing and takes no step. */
  lemma DoFlood(options: RoosterOptions, s: State, e: Event, tree: Cbor) returns (pass: seq<Action>, t: State)
    requires Idle(s) && e.GraspMsg? && DecodeGraspMessage(tree) == Ok(e.message)
    ensures RunFrom(options, s, pass) == Some(t) && Idle(t) && t == s.(w := Step(options, s.w, e))
  {
    hide RunFrom, Inv, Started, HearPass, DecodeGraspMessage, Accepted, AddAll;
    IdleAnnouncers(s);
    t := s.(w := Step(options, s.w, e));
    if Entry(s.w, e.ifindex).table.Some? {
      var d := Current(s.w, e.ifindex);
      pass := HearPass(d, tree, |Accepted(e.message)|);
      UninterruptedFlood(options, s, d, tree);
    } else {
      pass := [];
      NoSteps(options, s);
    }
    InvFrom(options, s, pass);
    StartedFrom(options, s, pass);
  }

  lemma DoStray(options: RoosterOptions, s: State, e: Event, tree: Cbor) returns (pass: seq<Action>, t: State)
    requires Idle(s) && e.ReplacedMsg? && DecodeGraspMessage(tree) == Ok(e.message)
    ensures RunFrom(options, s, pass) == Some(t) && Idle(t) && t.w == Step(options, s.w, e)
  {
    hide RunFrom, Inv, Started, HearPass, DecodeGraspMessage, Accepted;
    IdleAnnouncers(s);
    if Entry(s.w, e.ifindex).acpStarts >= 2 {
      FirstIsReplaced(s, e.ifindex);
      var d := DaemonId(e.ifindex, 1);
      pass := HearPass(d, tree, |Accepted(e.message)|);
      t := UninterruptedStray(options, s, d, tree);
    } else {
      pass, t := [], s;
      NoSteps(options, s);
    }
    InvFrom(options, s, pass);
    StartedFrom(options, s, pass);
  }

  lemma FirstIsReplaced(s: State, k: IfIndex)
    requires Started(s) && Entry(s.w, k).acpStarts >= 2
    ensures DaemonId(k, 1) in s.announcers && !IsCurrent(s.w, DaemonId(k, 1))
  {}

  /** One round of the main loop.  If the cache then claims HTTP, a proxy is announced on every join
      link, in the epoch of the cache. */
  lemma DoRound(options: RoosterOptions, s: State) returns (pass: seq<Action>, t: State)
    requires Idle(s)
    ensures RunFrom(options, s, pass) == Some(t) && Idle(t) && t.w == Step(options, s.w, UpdateTick) && t.epoch == s.epoch
    ensures t.cacheEpoch == if s.w.flag then s.epoch else s.cacheEpoch
    ensures s.sent <= t.sent
    ensures t.w.proxies.httpAvail && t.w.joinlinks != {} ==>
              |s.sent| < |t.sent| && Announces(t.sent[|t.sent|-1].tree) && t.sent[|t.sent|-1].epoch == t.cacheEpoch
  {
    hide RunFrom, Inv, Started, UpdatePass, AnnouncePass, Scan, Announces;
    IdleAnnouncers(s);
    var order, links := Listed(s.w.acp), Listed(s.w.joinlinks);
    var ids := (k: IfIndex) => 0 as uint32;
    var first, second := UpdatePass(s.w.flag, order), [ByMain(TakeJoinMap)] + AnnouncePass(links, ids);
    UninterruptedUpdate(options, s, order);
    var u := AfterUpdate(s);
    InvFrom(options, s, first);
    StartedFrom(options, s, first);
    assert Names(u) by { NamesOf(u); }
    UninterruptedAnnounce(options, u, links, ids);
    pass := first + second;
    RunThen(options, s, first, second);
    t := RunFrom(options, u, second).value;
    InvFrom(options, u, second);
    StartedFrom(options, u, second);
    if t.w.proxies.httpAvail && t.w.joinlinks != {} {
      LastAnnounces(u.w, links, u.main.copy, u.copyEpoch, ids);
    }
  }

  lemma {:induction false} LastAnnounces(w: World, order: seq<IfIndex>, copy: Proxies, epoch: nat, ids: IfIndex -> uint32)
    requires order != [] && copy.httpAvail && forall k :: k in order ==> Entry(w, k).joinPort.Some?
    ensures var all := Announcements(w, order, copy, epoch, ids);
            all != [] && Announces(all[|all|-1].tree) && all[|all|-1].epoch == epoch
  {
    hide Entry;
    if |order| == 1 {
      var rec := Entry(w, order[0]);
      AnProxyDecodes(rec.linklocal6, rec.joinPort.value, copy, ids(order[0]));
    } else {
      LastAnnounces(w, order[1..], copy, epoch, ids);
    }
  }

  // ---------- every run of events ----------

  /** A daemon only hears what some tree decodes to. */
  ghost predicate CanHappen(e: Event) {
    e.GraspMsg? || e.ReplacedMsg? ==> exists tree :: DecodeGraspMessage(tree) == Ok(e.message)
  }

  ghost predicate AllCanHappen(events: seq<Event>) {
    forall e :: e in events ==> CanHappen(e)
  }

  lemma DoEvent(options: RoosterOptions, s: State, e: Event) returns (pass: seq<Action>, t: State)
    requires Idle(s) && CanHappen(e)
    ensures RunFrom(options, s, pass) == Some(t) && Idle(t) && t.w == Step(options, s.w, e)
  {
    hide RunFrom, Idle, DecodeGraspMessage;
    match e {
      case LinkMsg(_, _, _) => pass, t := DoLink(options, s, e);
      case AddrMsg(_, _) => pass, t := DoAddr(options, s, e);
      case UpdateTick => pass, t := DoRound(options, s);
      case GraspMsg(_, m) =>
        var tree :| DecodeGraspMessage(tree) == Ok(m);
        pass, t := DoFlood(options, s, e, tree);
      case ReplacedMsg(_, m) =>
        var tree :| DecodeGraspMessage(tree) == Ok(m);
        pass, t := DoStray(options, s, e, tree);
    }
  }

  /** Every sequential run of such events is an interleaving: with `Serializable`, the idle states of
      the interleaved system are the states of sequential runs. */
  lemma {:induction false} EveryRunIsExecuted(options: RoosterOptions, events: seq<Event>) returns (actions: seq<Action>, s: State)
    requires AllCanHappen(events)
    ensures Exec(options, actions) == Some(s) && Idle(s) && s.w == Run(options, events)
  {
    hide RunFrom, Step, CanHappen;
    if events == [] {
      actions, s := [], START;
      IdleAtStart();
      NoSteps(options, START);
    } else {
      var n := |events| - 1;
      var first, before := EveryRunIsExecuted(options, events[..n]);
      var pass, after := DoEvent(options, before, events[n]);
      actions, s := first + pass, after;
      RunThen(options, START, first, pass);
    }
  }

  lemma EventCanHappen(s: State, a: Action)
    requires EventOf(s, a).Some?
    ensures CanHappen(EventOf(s, a).value)
  {
    hide DecodeGraspMessage, MessageTree;
    if EventOf(s, a).value.GraspMsg? || EventOf(s, a).value.ReplacedMsg? {
      RoundTripIdentity(EventOf(s, a).value.message);
    }
  }

  lemma {:induction false} EventsCanHappen(options: RoosterOptions, s: State, actions: seq<Action>)
    requires RunFrom(options, s, actions).Some?
    ensures AllCanHappen(Events(options, s, actions))
    decreases actions
  {
    hide Next, CanHappen, EventOf;
    if actions != [] {
      if EventOf(s, actions[0]).Some? {
        EventCanHappen(s, actions[0]);
      }
      EventsCanHappen(options, Next(options, s, actions[0]).value, actions[1..]);
    }
  }

  /** An interleaving that ends with all tasks idle leaves the world. */
  ghost predicate Leaves(options: RoosterOptions, actions: seq<Action>, w: World) {
    Exec(options, actions).Some? && AllIdle(Exec(options, actions).value) && Exec(options, actions).value.w == w
  }

  ghost predicate RunsTo(options: RoosterOptions, events: seq<Event>, w: World) {
    AllCanHappen(events) && Run(options, events) == w
  }

  /** The worlds that interleavings leave when all tasks are idle are exactly the worlds of
      sequential runs. */
  lemma SameWorlds(options: RoosterOptions, w: World)
    ensures (exists actions :: Leaves(options, actions, w)) <==> (exists events :: RunsTo(options, events, w))
  {
    hide RunFrom, Run, AllCanHappen, Events, Inv, Matches, Started;
    if actions :| Leaves(options, actions, w) {
      Serializable(options, actions);
      EventsCanHappen(options, START, actions);
      assert RunsTo(options, EventsOf(options, actions), w);
    }
    if events :| RunsTo(options, events, w) {
      var actions, s := EveryRunIsExecuted(options, events);
      IdleAnnouncers(s);
      assert Leaves(options, actions, w);
    }
  }

  // ---------- the promise broken ----------

  /** The proxy of `StaleRun` is announced while it has a registrar. */
  lemma AnnouncesProxy(addr: Ipv6Addr, port: uint16) returns (actions: seq<Action>, s: State)
    ensures Exec(OPTIONS, actions) == Some(s) && Idle(s) && s.w == Cached(addr, port)
    ensures s.sent != [] && Announces(s.sent[|s.sent|-1].tree) && s.sent[|s.sent|-1].epoch == s.epoch
  {
    hide RunFrom, Inv, Started, Step, DecodeGraspMessage, MessageTree, Flood, Announces, Restarts;
    IdleAtStart();
    FloodIsAccepted(addr, port);
    BothAreUp();
    CachedClaims(addr, port);
    var p1, s1 := DoLink(OPTIONS, START, ACP_UP);
    var p2, s2 := DoLink(OPTIONS, s1, JOIN_UP);
    var e := GraspMsg(1, Flood(addr, port));
    var p3, s3 := DoFlood(OPTIONS, s2, e, MessageTree(Flood(addr, port)));
    HeardRaises(addr, port);
    var p4, s4 := DoRound(OPTIONS, s3);
    actions, s := p1 + p2 + p3 + p4, s4;
    RunThen(OPTIONS, START, p1, p2);
    RunThen(OPTIONS, START, p1 + p2, p3);
    RunThen(OPTIONS, START, p1 + p2 + p3, p4);
  }

  /** From there the interface goes down and up, and the promise is broken: picking a registrar fails,
      although the cache claims one and the flag is clear.  A further round of the main loop announces
      the proxy again, and picking still fails.  Only one daemon was replaced, and only after the
      first announcement. */
  lemma AnnouncedProxyLosesRegistrar(addr: Ipv6Addr, port: uint16)
      returns (actions: seq<Action>, s: State, more: seq<Action>, later: State, round: seq<Action>, last: State)
    ensures Exec(OPTIONS, actions) == Some(s) && RunFrom(OPTIONS, s, more) == Some(later)
    ensures s.sent != [] && Announces(s.sent[|s.sent|-1].tree) && s.sent[|s.sent|-1].epoch == s.epoch
    ensures later.epoch == s.epoch + 1 && !Served(later.w) && later.w.proxies.httpAvail && !later.w.flag
    ensures RunFrom(OPTIONS, later, round) == Some(last) && !Served(last.w)
    ensures |later.sent| < |last.sent| && Announces(last.sent[|last.sent|-1].tree)
  {
    hide RunFrom, Inv, Started, Step, Served, Announces, Restarts, Cached;
    actions, s := AnnouncesProxy(addr, port);
    CachedClaims(addr, port);
    RestartedIsEmpty(addr, port);
    var p1, s1 := DoLink(OPTIONS, s, ACP_DOWN);
    var p2, s2 := DoLink(OPTIONS, s1, ACP_UP_AGAIN);
    more, later := p1 + p2, s2;
    RunThen(OPTIONS, s, p1, p2);
    round, last := DoRound(OPTIONS, later);
    UpdateStep(OPTIONS, later.w);
    ServedIsAvailable(later.w);
    ServedIsAvailable(last.w);
  }
}
