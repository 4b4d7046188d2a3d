/** Where events come from.  Nothing takes effect in an interleaved run that was not received in it:
    every registrar that enters a table was announced by a tree the daemon received, and every link
    and address message that takes effect was delivered. */
module LockProtocolOrigin {
  import opened Wrappers
  import opened Grasp
  import opened Registrars
  import opened World
  import opened WorldProperties
  import opened LockProtocol
  import opened LockProtocolProperties
  import opened LockProtocolSerial

  /** Some daemon of the interface received a tree that announces this. */
  ghost predicate Announced(actions: seq<Action>, k: IfIndex, a: Accept) {
    exists i, d, tree :: 0 <= i < |actions| && actions[i] == ByAnnouncer(d, Receive(tree)) && d.ifindex == k
                         && DecodeGraspMessage(tree).Ok? && a in Accepted(DecodeGraspMessage(tree).value)
  }

  ghost predicate Delivered(actions: seq<Action>, k: IfIndex, attrs: seq<LinkAttr>, port: uint16) {
    ByListener(GetLink(k, attrs, port)) in actions
  }

  /** What an announcer has in hand. */
  function InHand(pc: AnnouncerPc): seq<Accept> {
    match pc
    case Waiting => []
    case Processing(rest) => rest
    case Added(last, rest) => [last] + rest
    case Raising(last, rest) => [last] + rest
    case Raised(rest) => rest
  }

  ghost predicate ListenerTraced(actions: seq<Action>, pc: ListenerPc) {
    pc.HasLink? || pc.WentUp? || pc.Starting? ==> Delivered(actions, pc.k, pc.attrs, pc.httpsPort)
  }

  /** Everything in hand was received. */
  ghost predicate Traced(actions: seq<Action>, s: State) {
    && (forall d, a :: d in s.announcers && a in InHand(s.announcers[d]) ==> Announced(actions, d.ifindex, a))
    && ListenerTraced(actions, s.listener)
  }

  ghost predicate ComesFrom(actions: seq<Action>, e: Event) {
    match e
    case LinkMsg(k, attrs, port) => Delivered(actions, k, attrs, port)
    case AddrMsg(k, attrs) => ByListener(GetAddr(k, attrs)) in actions
    case GraspMsg(k, m) => exists a :: m == Single(a) && Announced(actions, k, a)
    case ReplacedMsg(k, m) => exists a :: m == Single(a) && Announced(actions, k, a)
    case UpdateTick => ByMain(ClearFlag) in actions
  }

  lemma AnnouncedStays(actions: seq<Action>, act: Action, k: IfIndex, a: Accept)
    requires Announced(actions, k, a)
    ensures Announced(actions + [act], k, a)
  {
    hide DecodeGraspMessage, Accepted;
    var i, d, tree :| 0 <= i < |actions| && actions[i] == ByAnnouncer(d, Receive(tree)) && d.ifindex == k
                      && DecodeGraspMessage(tree).Ok? && a in Accepted(DecodeGraspMessage(tree).value);
    assert (actions + [act])[i] == actions[i];
  }

  /** An announcer takes in hand what a tree announces, and nothing else. */
  lemma HandAfter(actions: seq<Action>, s: State, d: DaemonId, act: AnnouncerAct, a: Accept)
    requires d in s.announcers && NextAnnouncer(s, d, act).Some? && d in NextAnnouncer(s, d, act).value.announcers
    requires a in InHand(NextAnnouncer(s, d, act).value.announcers[d])
    ensures a in InHand(s.announcers[d]) || Announced(actions + [ByAnnouncer(d, act)], d.ifindex, a)
  {
    hide DecodeGraspMessage, Accepted, AddTo;
    if act.Receive? {
      assert (actions + [ByAnnouncer(d, act)])[|actions|] == ByAnnouncer(d, act);
    } else if act.Add? {
      AddToKeeps(s, d, s.announcers[d].rest[0]);
    }
  }

  lemma ListenerTracedAfter(options: RoosterOptions, actions: seq<Action>, s: State, a: ListenerAct)
    requires ListenerTraced(actions, s.listener) && NextListener(options, s, a).Some?
    ensures ListenerTraced(actions + [ByListener(a)], NextListener(options, s, a).value.listener)
    ensures EventOf(s, ByListener(a)).Some? ==> ComesFrom(actions + [ByListener(a)], EventOf(s, ByListener(a)).value)
  {
    hide ApplyLinkAttrs, Entry, Put, StartAcpDaemon, StoreAddr, StartJoin;
    assert ByListener(a) in actions + [ByListener(a)];
  }

  lemma TracedAfter(options: RoosterOptions, actions: seq<Action>, s: State, a: Action)
    requires Traced(actions, s) && Next(options, s, a).Some?
    ensures Traced(actions + [a], Next(options, s, a).value)
    ensures EventOf(s, a).Some? ==> ComesFrom(actions + [a], EventOf(s, a).value)
  {
    hide NextAnnouncer, NextMain, NextListener, NextPicker, Announced, Delivered, StartAcpDaemon;
    var s' := Next(options, s, a).value;
    forall d, x | d in s.announcers && x in InHand(s.announcers[d])
      ensures Announced(actions + [a], d.ifindex, x)
    {
      AnnouncedStays(actions, a, d.ifindex, x);
    }
    assert ListenerTraced(actions + [a], s.listener) by {
      ListenerStays(actions, a, s.listener);
    }
    match a {
      case ByMain(act) =>
        MainFrame(s, act);
        assert a in actions + [a];
      case ByPicker(act) => PickerFrame(s, act);
      case ByAnnouncer(d, act) =>
        AnnouncerFrame(s, d, act);
        forall x | x in InHand(s'.announcers[d])
          ensures Announced(actions + [a], d.ifindex, x)
        {
          HandAfter(actions, s, d, act, x);
        }
        if act.RaiseFlag? {
          assert s.announcers[d].last in InHand(s.announcers[d]);
        }
      case ByListener(act) =>
        ListenerFrame(options, s, act);
        ListenerTracedAfter(options, actions, s, act);
        EntryAfterStart(s, if act.MaybeStartAcp? then s.listener.k else 0);
    }
  }

  lemma ListenerStays(actions: seq<Action>, act: Action, pc: ListenerPc)
    requires ListenerTraced(actions, pc)
    ensures ListenerTraced(actions + [act], pc)
  {}

  lemma {:induction false} ComesFromStays(actions: seq<Action>, more: seq<Action>, e: Event)
    requires ComesFrom(actions, e)
    ensures ComesFrom(actions + more, e)
  {
    hide Announced;
    if more == [] {
      assert actions + more == actions;
    } else {
      var n := |more| - 1;
      assert actions + more == (actions + more[..n]) + [more[n]];
      ComesFromStays(actions, more[..n], e);
      if e.GraspMsg? || e.ReplacedMsg? {
        var a :| e.message == Single(a) && Announced(actions + more[..n], e.ifindex, a);
        AnnouncedStays(actions + more[..n], more[n], e.ifindex, a);
      }
    }
  }

  lemma {:induction false} TracedFrom(options: RoosterOptions, done: seq<Action>, s: State, actions: seq<Action>)
    requires Traced(done, s) && RunFrom(options, s, actions).Some?
    ensures forall e :: e in Events(options, s, actions) ==> ComesFrom(done + actions, e)
    decreases actions
  {
    hide Next, Traced, ComesFrom, EventOf;
    if actions != [] {
      var a := actions[0];
      TracedAfter(options, done, s, a);
      TracedFrom(options, done + [a], Next(options, s, a).value, actions[1..]);
      assert done + [a] + actions[1..] == done + actions;
      if EventOf(s, a).Some? {
        ComesFromStays(done + [a], actions[1..], EventOf(s, a).value);
      }
    }
  }

  /** Every event of a run was received in it. */
  lemma EventsAreReceived(options: RoosterOptions, actions: seq<Action>)
    requires Exec(options, actions).Some?
    ensures forall e :: e in EventsOf(options, actions) ==> ComesFrom(actions, e)
  {
    hide RunFrom, Events, ComesFrom;
    TracedFrom(options, [], START, actions);
    assert [] + actions == actions;
  }

  lemma {:induction false} AcceptsComeFromEvents(options: RoosterOptions, events: seq<Event>, k: IfIndex, a: Accept)
    requires a in AcceptsSince(options, events, k)
    ensures exists e :: e in events && e.GraspMsg? && e.ifindex == k && a in Accepted(e.message)
  {
    hide Accepted, AcpStartAt;
    var n := |events| - 1;
    if a in AcceptsSince(options, events[..n], k) {
      AcceptsComeFromEvents(options, events[..n], k, a);
    } else {
      assert events[n] in events;
    }
  }

  /** With `TableInterleaved`: in every reachable state of every interleaving, what a table is made of
      was announced by trees that a daemon of its interface received. */
  lemma TablesAreAnnounced(options: RoosterOptions, actions: seq<Action>, k: IfIndex, a: Accept)
    requires Exec(options, actions).Some? && a in AcceptsSince(options, EventsOf(options, actions), k)
    ensures Announced(actions, k, a)
  {
    hide RunFrom, Events, Announced, Accepted, AcceptsSince, Single;
    EventsAreReceived(options, actions);
    AcceptsComeFromEvents(options, EventsOf(options, actions), k, a);
    var e :| e in EventsOf(options, actions) && e.GraspMsg? && e.ifindex == k && a in Accepted(e.message);
    assert ComesFrom(actions, e);
    var b :| e.message == Single(b) && Announced(actions, k, b);
    SingleIsAccepted(b);
  }
}
