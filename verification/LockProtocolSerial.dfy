/** The interleaved system is serializable: in every reachable state the interfaces, the cache and the
    flag are what `World.Run` makes of a sequence of events that the run itself determines, up to the
    parts of the steps under way.  So what `WorldProperties` proves of sequential runs holds of
    interleaved ones. */
module LockProtocolSerial {
  import opened Wrappers
  import opened Grasp
  import opened Registrars
  import opened World
  import opened WorldProperties
  import opened Interfaces
  import opened LockProtocol
  import opened LockProtocolProperties
  import opened LockProtocolSafety

  // ---------- the events of a run ----------

  function ValueOf(kind: Kind): string {
    match kind
    case Http => "BRSKI"
    case Stateful => "BRSKI_JP"
    case Stateless => "BRSKI_RJP"
  }

  /** A flood that makes a daemon accept one thing. */
  function Single(a: Accept): GraspMessage {
    GraspMessage(M_FLOOD, 0, UNSPECIFIED, a.ttl,
                 [GraspObjective("", 0, 0, Some(ValueOf(a.rtype.Kind())), Some(O_IPv6_LOCATOR(a.addr, 0, a.rtype.Port())))])
  }

  lemma SingleIsAccepted(a: Accept)
    ensures Accepted(Single(a)) == [a]
  {
    var objs := Single(a).objectives;
    assert !Unsupported(objs[0]);
    assert FirstUnsupported(objs) == 1 && objs[..1] == objs && objs[..0] == [];
    AcceptEachSnoc(objs, 0, a.ttl);
  }

  /** The event that takes effect with a step, if any.  An acceptance takes effect when its flag is
      raised, an update when it clears the flag, and a link message when it is clear which daemons it
      starts; a flood counts as one event for each thing accepted from it. */
  function EventOf(s: State, a: Action): Option<Event> {
    match a
    case ByAnnouncer(d, RaiseFlag) =>
      if d !in s.announcers || !s.announcers[d].Raising? then None
      else if IsCurrent(s.w, d) then Some(GraspMsg(d.ifindex, Single(s.announcers[d].last)))
      else Some(ReplacedMsg(d.ifindex, Single(s.announcers[d].last)))
    case ByMain(ClearFlag) => Some(UpdateTick)
    case ByListener(GetAddr(k, attrs)) => Some(AddrMsg(k, attrs))
    case ByListener(StoreAttrs) =>
      if s.listener.HasLink? && !ComesUpWith(s)
      then Some(LinkMsg(s.listener.k, s.listener.attrs, s.listener.httpsPort)) else None
    case ByListener(TakeIface) =>
      if s.listener.WentUp? && Entry(s.w, s.listener.k).ignored
      then Some(LinkMsg(s.listener.k, s.listener.attrs, s.listener.httpsPort)) else None
    case ByListener(MaybeStartAcp) =>
      if s.listener.Starting? then Some(LinkMsg(s.listener.k, s.listener.attrs, s.listener.httpsPort)) else None
    case _ => None
  }

  /** The message being stored moves its interface from not up to up. */
  predicate ComesUpWith(s: State)
    requires s.listener.HasLink?
  {
    var before := Entry(s.w, s.listener.k);
    before.operState != Up && ApplyLinkAttrs(before, s.listener.attrs).operState == Up
  }

  function ListOf(e: Option<Event>): seq<Event> {
    if e.Some? then [e.value] else []
  }

  function After(options: RoosterOptions, v: World, e: Option<Event>): World {
    if e.Some? then Step(options, v, e.value) else v
  }

  function Events(options: RoosterOptions, s: State, actions: seq<Action>): seq<Event>
    requires RunFrom(options, s, actions).Some?
    decreases actions
  {
    if actions == [] then []
    else ListOf(EventOf(s, actions[0])) + Events(options, Next(options, s, actions[0]).value, actions[1..])
  }

  // ---------- how a state matches the sequential one ----------

  /** The attributes of a link message are stored, and its daemons not yet started. */
  predicate Unstarted(pc: ListenerPc) {
    pc.WentUp? || pc.Starting?
  }

  /** The join daemon is yet to be started, the ACP daemon has had its turn. */
  predicate Unjoined(options: RoosterOptions, s: State) {
    (s.listener.AcpSeen? || s.listener.InJoinMap?) && options.IsValidJoinlinkInterface(Entry(s.w, s.listener.k).ifname)
  }

  function WithAttrs(pc: ListenerPc, rec: IfRecord, k: IfIndex): IfRecord {
    if Unstarted(pc) && pc.k == k then ApplyLinkAttrs(rec, pc.attrs) else rec
  }

  function WithJoin(options: RoosterOptions, s: State, rec: IfRecord, k: IfIndex): IfRecord {
    if Unjoined(options, s) && s.listener.k == k
    then rec.(joinPort := Some(s.listener.httpsPort), joinStarts := rec.joinStarts + 1) else rec
  }

  /** What a daemon has added without having raised the flag. */
  function Unraised(s: State, d: DaemonId): Option<Accept> {
    if d in s.announcers && (s.announcers[d].Added? || s.announcers[d].Raising?) then Some(s.announcers[d].last) else None
  }

  function WithLast(rec: IfRecord, last: Option<Accept>): IfRecord {
    if last.Some? && rec.table.Some? then rec.(table := Some(AddOne(rec.table.value, last.value))) else rec
  }

  /** The record of an interface is the sequential one, with the attributes and the acceptance that
      are ahead of it and without the join daemon that is behind. */
  ghost predicate RecordMatches(options: RoosterOptions, s: State, v: World, k: IfIndex) {
    WithJoin(options, s, Entry(s.w, k), k)
    == WithLast(WithAttrs(s.listener, Entry(v, k), k), Unraised(s, Current(s.w, k)))
  }

  /** An update reads, writes and clears at three different times; it is behind until it clears. */
  ghost predicate CacheMatches(s: State, v: World) {
    && v.flag == s.w.flag
    && (s.main.Written? && s.w.flag ==> s.w.proxies == Scan(v))
    && (!(s.main.Written? && s.w.flag) ==> s.w.proxies == v.proxies)
    && (MidScan(s.main) ==> forall kind: Kind ::
          s.main.acc.Has(kind) <==> exists k :: k in v.acp && k !in s.main.todo && HasKind(TableOf(v, k), kind))
  }

  ghost predicate ListsMatch(options: RoosterOptions, s: State, v: World) {
    && v.acp == s.w.acp
    && v.joinlinks == s.w.joinlinks + (if Unjoined(options, s) then {s.listener.k} else {})
    && s.w.interfaces.Keys == v.interfaces.Keys + (if Unstarted(s.listener) then {s.listener.k} else {})
    && (Unstarted(s.listener) ==> Entry(v, s.listener.k).operState != Up && Entry(s.w, s.listener.k).operState == Up)
    && (s.listener.Starting? ==> !Entry(s.w, s.listener.k).ignored)
    && (s.listener.AcpSeen? || s.listener.InJoinMap? ==> s.listener.k in s.w.interfaces)
    && (s.listener.InJoinMap? ==> Unjoined(options, s))
  }

  ghost predicate Matches(options: RoosterOptions, s: State, v: World) {
    && ListsMatch(options, s, v)
    && CacheMatches(s, v)
    && forall k :: RecordMatches(options, s, v, k)
  }

  /** Every daemon has been started, an interface that started one has a table, and the announcer of its
      first daemon lives on. */
  ghost predicate Started(s: State) {
    && (forall d :: d in s.announcers ==> d.generation >= 1)
    && (forall k :: Entry(s.w, k).acpStarts > 0 ==> Entry(s.w, k).table.Some? && DaemonId(k, 1) in s.announcers)
  }

  lemma SameEntries(w: World, w': World)
    requires w'.interfaces == w.interfaces
    ensures forall k :: Entry(w', k) == Entry(w, k) && Current(w', k) == Current(w, k) && TableOf(w', k) == TableOf(w, k)
  {}

  lemma StartedKept(options: RoosterOptions, s: State, a: Action)
    requires Started(s) && Next(options, s, a).Some?
    ensures Started(Next(options, s, a).value)
  {
    hide NextAnnouncer, NextMain, NextListener, NextPicker, AddTo, AddOne;
    var s' := Next(options, s, a).value;
    match a {
      case ByAnnouncer(d, act) =>
        AnnouncerFrame(s, d, act);
        if act.Add? {
          forall k {
            AddToEntry(s, d, s.announcers[d].rest[0], k);
          }
        } else {
          SameEntries(s.w, s'.w);
        }
      case ByMain(act) =>
        MainFrame(s, act);
        SameEntries(s.w, s'.w);
      case ByPicker(act) =>
        PickerFrame(s, act);
      case ByListener(act) =>
        ListenerFrame(options, s, act);
        if act.MaybeStartAcp? {
          EntryAfterStart(s, s.listener.k);
        }
    }
  }

  // ---------- the main loop ----------

  lemma RecordsSame(options: RoosterOptions, s: State, s': State, v: World, v': World)
    requires s'.listener == s.listener && s'.announcers == s.announcers
    requires s'.w.interfaces == s.w.interfaces && v'.interfaces == v.interfaces
    ensures forall k :: RecordMatches(options, s, v, k) <==> RecordMatches(options, s', v', k)
    ensures v'.acp == v.acp && v'.joinlinks == v.joinlinks && s'.w.acp == s.w.acp && s'.w.joinlinks == s.w.joinlinks ==>
              ListsMatch(options, s, v) ==> ListsMatch(options, s', v')
  {
    hide WithJoin, WithLast, WithAttrs;
    SameEntries(s.w, s'.w);
    SameEntries(v, v');
    forall k
      ensures WithJoin(options, s', Entry(s'.w, k), k) == WithJoin(options, s, Entry(s.w, k), k)
    {
      JoinSame(options, s, s', Entry(s.w, k), k);
    }
  }

  lemma JoinSame(options: RoosterOptions, s: State, s': State, rec: IfRecord, k: IfIndex)
    requires s'.listener == s.listener && s'.w.interfaces == s.w.interfaces
    ensures WithJoin(options, s', rec, k) == WithJoin(options, s, rec, k)
  {}

  /** A table under reading has no acceptance ahead of it. */
  lemma TableMatches(options: RoosterOptions, s: State, v: World, k: IfIndex)
    requires RecordMatches(options, s, v, k) && Unraised(s, Current(s.w, k)).None?
    ensures TableOf(s.w, k) == TableOf(v, k)
  {
    hide ApplyLinkAttrs;
    if Unstarted(s.listener) && s.listener.k == k {
      LinkAttrsTell(Entry(v, k), s.listener.attrs);
    }
  }

  lemma ReadingIsExact(s: State, v: World)
    requires s.main.OnTable? && s.main.k in s.main.todo && s.main.k in v.acp && CacheMatches(s, v)
    requires TableOf(s.w, s.main.k) == TableOf(v, s.main.k)
    ensures forall kind: Kind :: s.main.acc.Or(Available(TableOf(s.w, s.main.k))).Has(kind)
              <==> exists k :: k in v.acp && k !in s.main.todo - {s.main.k} && HasKind(TableOf(v, k), kind)
  {
    hide HasKind, TableOf;
    forall kind: Kind
      ensures s.main.acc.Or(Available(TableOf(s.w, s.main.k))).Has(kind)
              <==> s.main.acc.Has(kind) || HasKind(TableOf(v, s.main.k), kind)
    {
    }
  }

  lemma MatchRead(options: RoosterOptions, s: State, v: World)
    requires Inv(s) && Matches(options, s, v) && NextMain(s, ReadTable).Some?
    ensures CacheMatches(NextMain(s, ReadTable).value, v)
  {
    hide Sound, CacheCovers, Covered, RecordMatches, Available, HasKind, TableOf;
    var k, d := s.main.k, s.main.d;
    assert TableLock(d) in Held(s, Main);
    if Unraised(s, d).Some? {
      Exclusive(s, TableLock(d), Main, Announcer(d));
    }
    assert RecordMatches(options, s, v, k);
    TableMatches(options, s, v, k);
    ReadingIsExact(s, v);
  }

  /** A listed interface has a table, so looking for one passes none over. */
  lemma MatchLook(options: RoosterOptions, s: State, v: World)
    requires Names(s) && ReadsLocked(s) && ScanCovers(s) && CacheMatches(s, v) && NextMain(s, ScanTable).Some?
    ensures CacheMatches(NextMain(s, ScanTable).value, v)
  {
    hide Covered, HasKind, Available, MessageTree, AnProxyMessage;
    assert s.main.k in s.w.acp && Entry(s.w, s.main.k).table.Some?;
  }

  lemma MatchCache(options: RoosterOptions, s: State, v: World, a: MainAct)
    requires ScanCovers(s) && v.acp == s.w.acp && CacheMatches(s, v) && NextMain(s, a).Some? && !a.ReadTable? && !a.ScanTable?
    ensures CacheMatches(NextMain(s, a).value, After(options, v, EventOf(s, ByMain(a))))
  {
    hide NextListener, NextAnnouncer, NextPicker, Covered, MessageTree, AnProxyMessage, HasKind, TableOf, Available, Entry;
    if a.WriteCache? {
      ProxiesByKind(s.main.acc, v);
    }
  }

  lemma MatchMain(options: RoosterOptions, s: State, v: World, a: MainAct)
    requires Inv(s) && Matches(options, s, v) && NextMain(s, a).Some?
    ensures Matches(options, NextMain(s, a).value, After(options, v, EventOf(s, ByMain(a))))
  {
    hide RecordMatches, CacheMatches, LockDiscipline, Names, ReadsLocked, CacheCovers, ScanCovers, Sound;
    var s', v' := NextMain(s, a).value, After(options, v, EventOf(s, ByMain(a)));
    MainFrame(s, a);
    RecordsSame(options, s, s', v, v');
    assert v.acp == s.w.acp;
    hide ListsMatch, NextMain;
    if a.ReadTable? {
      MatchRead(options, s, v);
    } else if a.ScanTable? {
      MatchLook(options, s, v);
    } else {
      MatchCache(options, s, v, a);
    }
  }

  // ---------- the announcers ----------

  lemma UnraisedAfter(s: State, d: DaemonId, a: AnnouncerAct)
    requires d in s.announcers && NextAnnouncer(s, d, a).Some?
    ensures var s' := NextAnnouncer(s, d, a).value;
            && (a.Add? ==> Unraised(s, d).None? && Unraised(s', d) == Some(s.announcers[d].rest[0]))
            && (a.RaiseFlag? ==> Unraised(s, d) == Some(s.announcers[d].last) && Unraised(s', d).None?)
            && (!a.Add? && !a.RaiseFlag? ==> Unraised(s', d) == Unraised(s, d))
            && (forall e :: e != d ==> Unraised(s', e) == Unraised(s, e))
  {
    hide DecodeGraspMessage, Accepted, AddTo;
    if a.Add? {
      AddToKeeps(s, d, s.announcers[d].rest[0]);
    }
  }

  /** Attributes and tables do not touch each other. */
  lemma AttrsLeaveTable(pc: ListenerPc, rec: IfRecord, k: IfIndex, table: Option<seq<Registrar>>)
    ensures WithAttrs(pc, rec.(table := table), k) == WithAttrs(pc, rec, k).(table := table)
    ensures WithAttrs(pc, rec, k).acpStarts == rec.acpStarts && WithAttrs(pc, rec, k).table == rec.table
  {
    hide ApplyLinkAttrs;
    if Unstarted(pc) && pc.k == k {
      LinkAttrsTell(rec, pc.attrs);
      LinkAttrsTell(rec.(table := table), pc.attrs);
    }
  }

  lemma MatchAdd(options: RoosterOptions, s: State, s': State, v: World, d: DaemonId, last: Accept, k: IfIndex)
    requires RecordMatches(options, s, v, k) && Unraised(s, d).None?
    requires s'.w == AddTo(s, d, last).w && s'.listener == s.listener
    requires Unraised(s', d) == Some(last) && forall e :: e != d ==> Unraised(s', e) == Unraised(s, e)
    ensures RecordMatches(options, s', v, k)
  {
    hide AddTo, AddOne, Unraised, WithAttrs;
    AddToEntry(s, d, last, k);
    if Unjoined(options, s) || Unjoined(options, s') {
      AddToEntry(s, d, last, s.listener.k);
    }
  }

  /** Raising commits the acceptance of a current daemon. */
  lemma MatchRaised(options: RoosterOptions, s: State, s': State, v: World, d: DaemonId, last: Accept, k: IfIndex)
    requires RecordMatches(options, s, v, k) && RecordMatches(options, s, v, d.ifindex)
    requires IsCurrent(s.w, d) && Unraised(s, d) == Some(last) && Unraised(s', d).None?
    requires s'.w == s.w.(flag := true) && s'.listener == s.listener
    requires forall e :: e != d ==> Unraised(s', e) == Unraised(s, e)
    ensures RecordMatches(options, s', Step(options, v, GraspMsg(d.ifindex, Single(last))), k)
    ensures Entry(v, d.ifindex).table.Some?
  {
    hide Step, AddOne, Unraised, WithAttrs, Accepted, Single;
    var e := GraspMsg(d.ifindex, Single(last));
    AttrsLeaveTable(s.listener, Entry(v, d.ifindex), d.ifindex, Entry(Step(options, v, e), d.ifindex).table);
    SameEntries(s.w, s'.w);
    JoinSame(options, s, s', Entry(s.w, k), k);
    if k == d.ifindex {
      HearStep(options, v, e);
      SingleIsAccepted(last);
      AddAllSnoc(Entry(v, k).table.value, [], last);
      assert [] + [last] == [last];
    } else {
      OtherStep(options, v, e, k);
    }
  }

  /** A daemon that raises the flag and is not current was replaced. */
  lemma ReplacedTwice(options: RoosterOptions, s: State, v: World, d: DaemonId)
    requires Names(s) && Started(s) && d in s.announcers && !IsCurrent(s.w, d)
    requires RecordMatches(options, s, v, d.ifindex)
    ensures Entry(v, d.ifindex).acpStarts >= 2
  {
    hide WithAttrs;
    AttrsLeaveTable(s.listener, Entry(v, d.ifindex), d.ifindex, None);
  }

  /** A replaced daemon has nothing ahead of any record. */
  lemma OrphanRaised(options: RoosterOptions, s: State, s': State, v: World, v': World, d: DaemonId, k: IfIndex)
    requires RecordMatches(options, s, v, k) && !IsCurrent(s.w, d)
    requires s'.w == s.w.(flag := true) && s'.listener == s.listener && v'.interfaces == v.interfaces
    requires forall e :: e != d ==> Unraised(s', e) == Unraised(s, e)
    ensures RecordMatches(options, s', v', k)
  {
    hide Unraised, ApplyLinkAttrs, AddOne;
    SameEntries(s.w, s'.w);
    SameEntries(v, v');
    JoinSame(options, s, s', Entry(s.w, k), k);
    AttrsLeaveTable(s.listener, Entry(v, k), k, None);
  }

  lemma ReplacedRaises(options: RoosterOptions, v: World, k: IfIndex, last: Accept)
    requires Entry(v, k).acpStarts >= 2
    ensures Step(options, v, ReplacedMsg(k, Single(last))) == v.(flag := true)
  {
    SingleIsAccepted(last);
  }

  /** The flag is raised under its lock, so no update is under way. */
  lemma RaisedAlone(s: State, d: DaemonId)
    requires LockDiscipline(s) && d in s.announcers && s.announcers[d].Raising?
    ensures !MidScan(s.main) && !s.main.Written?
  {
    assert FlagLock in Held(s, Announcer(d));
    if MidScan(s.main) || s.main.Written? {
      Exclusive(s, FlagLock, Main, Announcer(d));
    }
  }

  lemma MatchRaise(options: RoosterOptions, s: State, v: World, d: DaemonId)
    requires Inv(s) && Started(s) && Matches(options, s, v) && d in s.announcers && NextAnnouncer(s, d, RaiseFlag).Some?
    ensures Matches(options, NextAnnouncer(s, d, RaiseFlag).value, After(options, v, EventOf(s, ByAnnouncer(d, RaiseFlag))))
  {
    hide RecordMatches, ReadsLocked, CacheCovers, ScanCovers, Sound, Started, LockDiscipline, Names, Unraised, Step, Single, Accepted;
    var s', v' := NextAnnouncer(s, d, RaiseFlag).value, After(options, v, EventOf(s, ByAnnouncer(d, RaiseFlag)));
    UnraisedAfter(s, d, RaiseFlag);
    assert forall k :: RecordMatches(options, s, v, k);
    RaisedAlone(s, d);
    SameEntries(s.w, s'.w);
    if IsCurrent(s.w, d) {
      RaisedByCurrent(options, s, s', v, d, s.announcers[d].last);
    } else {
      ReplacedTwice(options, s, v, d);
      ReplacedRaises(options, v, d.ifindex, s.announcers[d].last);
      SameEntries(v, v');
      forall k
        ensures RecordMatches(options, s', v', k)
      {
        OrphanRaised(options, s, s', v, v', d, k);
      }
    }
  }

  lemma RaisedByCurrent(options: RoosterOptions, s: State, s': State, v: World, d: DaemonId, last: Accept)
    requires Matches(options, s, v) && IsCurrent(s.w, d) && Unraised(s, d) == Some(last) && Unraised(s', d).None?
    requires s'.w == s.w.(flag := true) && s'.listener == s.listener && s'.main == s.main
    requires !MidScan(s.main) && !s.main.Written?
    requires forall e :: e != d ==> Unraised(s', e) == Unraised(s, e)
    ensures Matches(options, s', Step(options, v, GraspMsg(d.ifindex, Single(last))))
  {
    hide RecordMatches, Unraised, Step, Single, Accepted;
    var e := GraspMsg(d.ifindex, Single(last));
    assert forall k :: RecordMatches(options, s, v, k);
    forall k
      ensures RecordMatches(options, s', Step(options, v, e), k)
    {
      MatchRaised(options, s, s', v, d, last, k);
    }
    MatchRaised(options, s, s', v, d, last, d.ifindex);
    SingleIsAccepted(last);
    HearStep(options, v, e);
    SameEntries(s.w, s'.w);
    if Unstarted(s.listener) && s.listener.k != d.ifindex {
      OtherStep(options, v, e, s.listener.k);
    }
  }

  lemma MatchAnnouncer(options: RoosterOptions, s: State, v: World, d: DaemonId, a: AnnouncerAct)
    requires Inv(s) && Started(s) && Matches(options, s, v) && d in s.announcers && NextAnnouncer(s, d, a).Some?
    ensures Matches(options, NextAnnouncer(s, d, a).value, After(options, v, EventOf(s, ByAnnouncer(d, a))))
  {
    hide NextAnnouncer, RecordMatches, LockDiscipline, Names, ReadsLocked, CacheCovers, ScanCovers, Sound, Started, Unraised,
      Step, Single;
    var s', v' := NextAnnouncer(s, d, a).value, After(options, v, EventOf(s, ByAnnouncer(d, a)));
    AnnouncerFrame(s, d, a);
    AnnouncerLists(s, d, a);
    UnraisedAfter(s, d, a);
    assert forall k :: RecordMatches(options, s, v, k);
    if a.Add? {
      var last := s.announcers[d].rest[0];
      forall k
        ensures RecordMatches(options, s', v, k)
      {
        MatchAdd(options, s, s', v, d, last, k);
      }
      ListsAfterAdd(options, s, s', v, d, last);
    } else if a.RaiseFlag? {
      MatchRaise(options, s, v, d);
    } else {
      SameEntries(s.w, s'.w);
      forall k
        ensures RecordMatches(options, s', v, k)
      {
        assert RecordMatches(options, s, v, k);
        RecordsStand(options, s, s', v, k);
      }
    }
  }

  lemma RecordsStand(options: RoosterOptions, s: State, s': State, v: World, k: IfIndex)
    requires RecordMatches(options, s, v, k)
    requires s'.w.interfaces == s.w.interfaces && s'.listener == s.listener && forall e :: Unraised(s', e) == Unraised(s, e)
    ensures RecordMatches(options, s', v, k)
  {
    hide Unraised, WithAttrs, WithLast;
    SameEntries(s.w, s'.w);
    JoinSame(options, s, s', Entry(s.w, k), k);
  }

  lemma ListsAfterAdd(options: RoosterOptions, s: State, s': State, v: World, d: DaemonId, last: Accept)
    requires Names(s) && d in s.announcers
    requires ListsMatch(options, s, v) && s'.w == AddTo(s, d, last).w && s'.listener == s.listener
    ensures ListsMatch(options, s', v)
  {
    hide AddOne;
    if Unjoined(options, s) || Unstarted(s.listener) || Unjoined(options, s') {
      AddToEntry(s, d, last, s.listener.k);
    }
  }

  // ---------- the listener ----------

  /** The listener stores and starts under the lock on everything, so no update is under way. */
  lemma ListenerAlone(options: RoosterOptions, s: State, a: ListenerAct)
    requires LockDiscipline(s) && NextListener(options, s, a).Some?
    ensures !MidScan(s.main) && !s.main.Written?
  {
    hide LockDiscipline, Entry, ApplyLinkAttrs, StoreAddr, StartAcpDaemon, StartJoin;
    if MidScan(s.main) || s.main.Written? {
      assert AllLock in Held(s, Main);
      HeldIsTaken(s, AllLock, Main);
      if !a.GetAddr? && !a.GetLink? {
        assert AllLock in Held(s, Listener);
        Exclusive(s, AllLock, Main, Listener);
      }
    }
  }

  lemma AttrsCommute(rec: IfRecord, attrs: seq<LinkAttr>, table: Option<seq<Registrar>>)
    ensures ApplyLinkAttrs(rec.(table := table), attrs) == ApplyLinkAttrs(rec, attrs).(table := table)
    ensures ApplyLinkAttrs(rec, attrs).table == rec.table && ApplyLinkAttrs(rec, attrs).acpStarts == rec.acpStarts
  {
    hide ApplyLinkAttrs;
    LinkAttrsTell(rec, attrs);
    LinkAttrsTell(rec.(table := table), attrs);
  }

  lemma MatchAddr(options: RoosterOptions, s: State, v: World, k: IfIndex, attrs: seq<AddrAttr>)
    requires Matches(options, s, v) && s.listener.Listening? && !MidScan(s.main) && !s.main.Written?
    ensures Matches(options, s.(w := StoreAddr(s.w, k, attrs)), Step(options, v, AddrMsg(k, attrs)))
  {
    hide AddOne, ApplyAddrAttrs, Unraised;
    var s', v' := s.(w := StoreAddr(s.w, k, attrs)), Step(options, v, AddrMsg(k, attrs));
    AddrAttrsTell(Entry(s.w, k), attrs);
    AddrAttrsTell(Entry(v, k), attrs);
    forall j
      ensures RecordMatches(options, s', v', j)
    {
      assert RecordMatches(options, s, v, j) && Current(s'.w, j) == Current(s.w, j);
      UnraisedSame(s, s', Current(s.w, j));
    }
  }

  lemma UnraisedSame(s: State, s': State, d: DaemonId)
    requires s'.announcers == s.announcers
    ensures Unraised(s', d) == Unraised(s, d)
  {}

  /** What the listener changes while no part of a link message is ahead or behind. */
  lemma MatchQuiet(options: RoosterOptions, s: State, s': State, v: World)
    requires Matches(options, s, v) && !MidScan(s.main) && !s.main.Written?
    requires s' == s.(locks := s'.locks, listener := s'.listener)
    requires Unjoined(options, s') == Unjoined(options, s)
    requires Unjoined(options, s) ==> s'.listener.k == s.listener.k && s'.listener.httpsPort == s.listener.httpsPort
    requires Unstarted(s'.listener) == Unstarted(s.listener)
    requires Unstarted(s.listener) ==> s'.listener.k == s.listener.k && s'.listener.attrs == s.listener.attrs
    requires s'.listener.Starting? ==> !Entry(s.w, s'.listener.k).ignored
    requires s'.listener.AcpSeen? || s'.listener.InJoinMap? ==> s'.listener.k in s.w.interfaces
    requires s'.listener.InJoinMap? ==> Unjoined(options, s')
    ensures Matches(options, s', v)
  {
    hide ApplyLinkAttrs, AddOne;
    forall j
      ensures RecordMatches(options, s', v, j)
    {
      assert RecordMatches(options, s, v, j);
    }
  }

  lemma StoredRecord(options: RoosterOptions, s: State, s': State, v: World, j: IfIndex)
    requires s.listener.HasLink? && RecordMatches(options, s, v, j)
    requires var k := s.listener.k;
             && s' == s.(w := Put(s.w, k, ApplyLinkAttrs(Entry(s.w, k), s.listener.attrs)), listener := s'.listener)
             && s'.listener == if ComesUpWith(s) then WentUp(k, s.listener.attrs, s.listener.httpsPort) else LinkDone
    ensures ComesUpWith(s) ==> RecordMatches(options, s', v, j)
    ensures !ComesUpWith(s) ==>
              RecordMatches(options, s', Step(options, v, LinkMsg(s.listener.k, s.listener.attrs, s.listener.httpsPort)), j)
  {
    hide ApplyLinkAttrs, AddOne, Step, Unraised;
    var k, attrs := s.listener.k, s.listener.attrs;
    var e := LinkMsg(k, attrs, s.listener.httpsPort);
    UnraisedSame(s, s', Current(s.w, j));
    AttrsCommute(Entry(v, k), attrs, Entry(s.w, k).table);
    if j == k {
      LinkAttrsTell(Entry(v, k), attrs);
      LinkStep(options, v, e);
    } else {
      OtherStep(options, v, e, j);
    }
  }

  /** Whether the message starts daemons can be judged on either record. */
  lemma SameFields(options: RoosterOptions, s: State, v: World, k: IfIndex)
    requires RecordMatches(options, s, v, k)
    ensures var rec, seen := Entry(s.w, k), WithAttrs(s.listener, Entry(v, k), k);
            rec.operState == seen.operState && rec.ifname == seen.ifname && rec.ignored == seen.ignored
            && rec.linklocal6 == seen.linklocal6
  {
    hide WithAttrs, Unraised, AddOne;
  }

  /** The attributes go into the record, and if they bring the interface up, nothing takes effect. */
  lemma MatchStored(options: RoosterOptions, s: State, s': State, v: World)
    requires Matches(options, s, v) && s.listener.HasLink? && !MidScan(s.main) && !s.main.Written?
    requires var k := s.listener.k;
             && s' == s.(w := Put(s.w, k, ApplyLinkAttrs(Entry(s.w, k), s.listener.attrs)), listener := s'.listener)
             && s'.listener == if ComesUpWith(s) then WentUp(k, s.listener.attrs, s.listener.httpsPort) else LinkDone
    ensures ComesUpWith(s) ==> Matches(options, s', v)
    ensures !ComesUpWith(s) ==>
              Matches(options, s', Step(options, v, LinkMsg(s.listener.k, s.listener.attrs, s.listener.httpsPort)))
  {
    hide ApplyLinkAttrs, Step, RecordMatches;
    var k, attrs := s.listener.k, s.listener.attrs;
    var e := LinkMsg(k, attrs, s.listener.httpsPort);
    var v' := if ComesUpWith(s) then v else Step(options, v, e);
    forall j
      ensures RecordMatches(options, s', v', j)
    {
      assert RecordMatches(options, s, v, j);
      StoredRecord(options, s, s', v, j);
    }
    assert RecordMatches(options, s, v, k);
    SameFields(options, s, v, k);
    LinkAttrsTell(Entry(v, k), attrs);
    LinkAttrsTell(Entry(s.w, k), attrs);
    LinkStep(options, v, e);
  }

  /** A link message takes effect without starting anything. */
  lemma MatchIgnored(options: RoosterOptions, s: State, s': State, v: World)
    requires Matches(options, s, v) && s.listener.WentUp? && !MidScan(s.main) && !s.main.Written?
    requires Entry(s.w, s.listener.k).ignored
    requires s' == s.(locks := s'.locks, listener := Leaving(s.listener.k))
    ensures Matches(options, s', Step(options, v, LinkMsg(s.listener.k, s.listener.attrs, s.listener.httpsPort)))
  {
    hide ApplyLinkAttrs, AddOne, Step, Unraised;
    var k, attrs := s.listener.k, s.listener.attrs;
    var e := LinkMsg(k, attrs, s.listener.httpsPort);
    assert RecordMatches(options, s, v, k);
    LinkAttrsTell(Entry(v, k), attrs);
    LinkStep(options, v, e);
    forall j
      ensures RecordMatches(options, s', Step(options, v, e), j)
    {
      assert RecordMatches(options, s, v, j);
      UnraisedSame(s, s', Current(s.w, j));
      if j != k {
        OtherStep(options, v, e, j);
      }
    }
  }

  lemma StartedRecord(options: RoosterOptions, s: State, s': State, v: World, j: IfIndex)
    requires Names(s) && ListsMatch(options, s, v) && s.listener.Starting?
    requires RecordMatches(options, s, v, j) && RecordMatches(options, s, v, s.listener.k)
    requires var k := s.listener.k;
             s' == (if options.IsValidAcpInterface(Entry(s.w, k).ifname) then StartAcpDaemon(s, k) else s)
                   .(listener := AcpSeen(k, s.listener.httpsPort))
    ensures RecordMatches(options, s', Step(options, v, LinkMsg(s.listener.k, s.listener.attrs, s.listener.httpsPort)), j)
  {
    hide ApplyLinkAttrs, AddOne, Step, Unraised, StartAcpDaemon, Names;
    var k, attrs := s.listener.k, s.listener.attrs;
    var e := LinkMsg(k, attrs, s.listener.httpsPort);
    EntryAfterStart(s, k);
    UnraisedAfterStart(options, s, s', j);
    if j == k {
      SameFields(options, s, v, k);
      LinkAttrsTell(Entry(v, k), attrs);
      LinkStep(options, v, e);
    } else {
      OtherStep(options, v, e, j);
    }
  }

  /** The ACP daemon starts, if it is to start, and the link message takes effect; the join daemon
      is behind, if it is to start. */
  lemma MatchStarted(options: RoosterOptions, s: State, s': State, v: World)
    requires Names(s) && Matches(options, s, v) && s.listener.Starting? && !MidScan(s.main) && !s.main.Written?
    requires var k := s.listener.k;
             s' == (if options.IsValidAcpInterface(Entry(s.w, k).ifname) then StartAcpDaemon(s, k) else s)
                   .(listener := AcpSeen(k, s.listener.httpsPort))
    ensures Matches(options, s', Step(options, v, LinkMsg(s.listener.k, s.listener.attrs, s.listener.httpsPort)))
  {
    hide ApplyLinkAttrs, Step, StartAcpDaemon, Names, RecordMatches;
    var k, attrs := s.listener.k, s.listener.attrs;
    var e := LinkMsg(k, attrs, s.listener.httpsPort);
    forall j
      ensures RecordMatches(options, s', Step(options, v, e), j)
    {
      assert RecordMatches(options, s, v, j) && RecordMatches(options, s, v, k);
      StartedRecord(options, s, s', v, j);
    }
    assert RecordMatches(options, s, v, k);
    SameFields(options, s, v, k);
    LinkStep(options, v, e);
    EntryAfterStart(s, k);
    StartKeeps(s, k);
  }

  lemma StartKeeps(s: State, k: IfIndex)
    ensures var s' := StartAcpDaemon(s, k);
            && s'.main == s.main && s'.w.proxies == s.w.proxies && s'.w.flag == s.w.flag
            && s'.w.interfaces.Keys == s.w.interfaces.Keys + {k}
  {}

  lemma UnraisedAfterStart(options: RoosterOptions, s: State, s': State, j: IfIndex)
    requires Names(s) && s.listener.Starting?
    requires var k := s.listener.k;
             s' == (if options.IsValidAcpInterface(Entry(s.w, k).ifname) then StartAcpDaemon(s, k) else s)
                   .(listener := AcpSeen(k, s.listener.httpsPort))
    ensures Unraised(s', Current(s'.w, j)) ==
            if options.IsValidAcpInterface(Entry(s.w, s.listener.k).ifname) && j == s.listener.k then None
            else Unraised(s, Current(s.w, j))
  {
    hide StartAcpDaemon;
    EntryAfterStart(s, s.listener.k);
  }

  lemma MatchJoined(options: RoosterOptions, s: State, s': State, v: World)
    requires Matches(options, s, v) && s.listener.InJoinMap? && !MidScan(s.main) && !s.main.Written?
    requires s' == s.(w := StartJoin(s.w, s.listener.k, s.listener.httpsPort), locks := s'.locks, listener := Leaving(s.listener.k))
    requires s.listener.k in s.w.interfaces
    ensures Matches(options, s', v)
  {
    hide ApplyLinkAttrs, AddOne, Unraised;
    forall j
      ensures RecordMatches(options, s', v, j)
    {
      assert RecordMatches(options, s, v, j) && Current(s'.w, j) == Current(s.w, j);
      UnraisedSame(s, s', Current(s.w, j));
    }
  }

  lemma MatchListener(options: RoosterOptions, s: State, v: World, a: ListenerAct)
    requires Inv(s) && Matches(options, s, v) && NextListener(options, s, a).Some?
    ensures Matches(options, NextListener(options, s, a).value, After(options, v, EventOf(s, ByListener(a))))
  {
    hide LockDiscipline, Names, ReadsLocked, CacheCovers, ScanCovers, Sound, RecordMatches, CacheMatches, Step, StartAcpDaemon,
      StoreAddr, StartJoin, ApplyLinkAttrs, Entry, Put;
    var s' := NextListener(options, s, a).value;
    ListenerAlone(options, s, a);
    match a {
      case GetAddr(k, attrs) => MatchAddr(options, s, v, k, attrs);
      case StoreAttrs => MatchStored(options, s, s', v);
      case TakeIface =>
        if s'.listener.Leaving? {
          MatchIgnored(options, s, s', v);
        } else {
          MatchQuiet(options, s, s', v);
        }
      case MaybeStartAcp => MatchStarted(options, s, s', v);
      case StartJoinDaemon => MatchJoined(options, s, s', v);
      case _ => MatchQuiet(options, s, s', v);
    }
  }

  // ---------- runs ----------

  lemma MatchKept(options: RoosterOptions, s: State, v: World, a: Action)
    requires Inv(s) && Started(s) && Matches(options, s, v) && Next(options, s, a).Some?
    ensures Matches(options, Next(options, s, a).value, After(options, v, EventOf(s, a)))
  {
    hide NextAnnouncer, NextMain, NextListener, NextPicker, Inv, Started;
    match a {
      case ByMain(act) => MatchMain(options, s, v, act);
      case ByAnnouncer(d, act) => MatchAnnouncer(options, s, v, d, act);
      case ByListener(act) => MatchListener(options, s, v, act);
      case ByPicker(act) => MatchPicker(options, s, v, act);
    }
  }

  lemma MatchPicker(options: RoosterOptions, s: State, v: World, a: PickerAct)
    requires Matches(options, s, v) && NextPicker(s, a).Some?
    ensures Matches(options, NextPicker(s, a).value, v)
  {
    hide NextPicker, RecordMatches;
    PickerFrame(s, a);
    RecordsSame(options, s, NextPicker(s, a).value, v, v);
    assert forall k :: RecordMatches(options, s, v, k);
  }

  lemma {:induction false} MatchFrom(options: RoosterOptions, s: State, done: seq<Event>, actions: seq<Action>)
    requires Inv(s) && Started(s) && Matches(options, s, Run(options, done)) && RunFrom(options, s, actions).Some?
    ensures Matches(options, RunFrom(options, s, actions).value, Run(options, done + Events(options, s, actions)))
    decreases actions
  {
    hide Next, Inv, Started, Matches, Step, Run;
    if actions == [] {
      assert done + [] == done;
    } else {
      var t, e := Next(options, s, actions[0]).value, EventOf(s, actions[0]);
      MatchKept(options, s, Run(options, done), actions[0]);
      InvKept(options, s, actions[0]);
      StartedKept(options, s, actions[0]);
      if e.Some? {
        RunSnoc(options, done, e.value);
      } else {
        assert done + [] == done;
      }
      MatchFrom(options, t, done + ListOf(e), actions[1..]);
      assert done + ListOf(e) + Events(options, t, actions[1..]) == done + Events(options, s, actions);
    }
  }

  lemma {:induction false} StartedFrom(options: RoosterOptions, s: State, actions: seq<Action>)
    requires Started(s) && RunFrom(options, s, actions).Some?
    ensures Started(RunFrom(options, s, actions).value)
    decreases actions
  {
    hide Next, Started;
    if actions != [] {
      StartedKept(options, s, actions[0]);
      StartedFrom(options, Next(options, s, actions[0]).value, actions[1..]);
    }
  }

  /** The events of a run from the start. */
  function EventsOf(options: RoosterOptions, actions: seq<Action>): seq<Event>
    requires Exec(options, actions).Some?
  {
    Events(options, START, actions)
  }

  /** Every interleaving is serializable.  Each reachable state matches the sequential run of the
      events that took effect so far; and when all tasks are idle, it is that run's state. */
  lemma Serializable(options: RoosterOptions, actions: seq<Action>)
    requires Exec(options, actions).Some?
    ensures var s, v := Exec(options, actions).value, Run(options, EventsOf(options, actions));
            Matches(options, s, v) && (AllIdle(s) ==> s.w == v)
  {
    hide RunFrom, Inv, Next, Events;
    InvAtStart();
    RunNothing(options);
    assert Matches(options, START, Run(options, []));
    MatchFrom(options, START, [], actions);
    assert [] + EventsOf(options, actions) == EventsOf(options, actions);
    var s := Exec(options, actions).value;
    if AllIdle(s) {
      IdleIsEqual(options, s, Run(options, EventsOf(options, actions)));
    }
  }

  lemma IdleIsEqual(options: RoosterOptions, s: State, v: World)
    requires Matches(options, s, v) && AllIdle(s)
    ensures s.w == v
  {
    hide AddOne, ApplyLinkAttrs;
    assert s.w.interfaces == v.interfaces by {
      forall k | k in v.interfaces
        ensures s.w.interfaces[k] == v.interfaces[k]
      {
        assert RecordMatches(options, s, v, k);
      }
    }
  }

  // ---------- what runs of events tell about interleavings ----------

  /** In every reachable state of every interleaving the address to announce is unspecified or
      starts with fe80. */
  lemma LinkLocalInterleaved(options: RoosterOptions, actions: seq<Action>, k: IfIndex)
    requires Exec(options, actions).Some?
    ensures UnspecifiedOrLinkLocal(Entry(Exec(options, actions).value.w, k).linklocal6)
  {
    hide Exec, Run, EventsOf, RecordMatches, ApplyLinkAttrs;
    var s, v := Exec(options, actions).value, Run(options, EventsOf(options, actions));
    Serializable(options, actions);
    assert RecordMatches(options, s, v, k);
    SameFields(options, s, v, k);
    if Unstarted(s.listener) {
      LinkAttrsTell(Entry(v, k), s.listener.attrs);
    }
    LinkLocalOfRun(options, EventsOf(options, actions), k);
  }

  /** In every reachable state the ACP interfaces are exactly those that a link message brought up
      under an accepted name, and so are the join links while no link message is being handled. */
  lemma MembershipInterleaved(options: RoosterOptions, actions: seq<Action>, k: IfIndex)
    requires Exec(options, actions).Some?
    ensures var s, events := Exec(options, actions).value, EventsOf(options, actions);
            && (k in s.w.acp <==> exists i :: 0 <= i < |events| && AcpStartAt(options, events, i, k))
            && (s.listener.Listening? ==>
                  (k in s.w.joinlinks <==> exists i :: 0 <= i < |events| && JoinStartAt(options, events, i, k)))
  {
    hide Exec, Run, EventsOf, RecordMatches, CacheMatches, AcpStartAt, JoinStartAt;
    Serializable(options, actions);
    MembershipOfRun(options, EventsOf(options, actions), k);
  }

  /** In every reachable state the table of a listed interface is what its present daemon accepted
      since it was started, and the one acceptance, if any, that it has not yet raised the flag for. */
  lemma TableInterleaved(options: RoosterOptions, actions: seq<Action>, k: IfIndex)
    requires Exec(options, actions).Some? && k in Exec(options, actions).value.w.acp
    ensures var s, events := Exec(options, actions).value, EventsOf(options, actions);
            var last := Unraised(s, Current(s.w, k));
            TableOf(s.w, k) == AddAll([], AcceptsSince(options, events, k) + (if last.Some? then [last.value] else []))
  {
    hide Exec, Run, EventsOf, RecordMatches, CacheMatches, AcceptsSince, AddAll, AddOne, Unraised, WithAttrs;
    var s, events := Exec(options, actions).value, EventsOf(options, actions);
    var v, last := Run(options, events), Unraised(s, Current(s.w, k));
    Serializable(options, actions);
    assert RecordMatches(options, s, v, k);
    TableOfRun(options, events, k);
    RecordTable(options, s, v, k);
    if last.Some? {
      AddAllSnoc([], AcceptsSince(options, events, k), last.value);
    } else {
      assert AcceptsSince(options, events, k) + [] == AcceptsSince(options, events, k);
    }
  }

  lemma RecordTable(options: RoosterOptions, s: State, v: World, k: IfIndex)
    requires RecordMatches(options, s, v, k) && Entry(v, k).table.Some?
    ensures var last := Unraised(s, Current(s.w, k));
            TableOf(s.w, k) == if last.Some? then AddOne(TableOf(v, k), last.value) else TableOf(v, k)
  {
    hide Unraised, AddOne, WithAttrs;
    AttrsLeaveTable(s.listener, Entry(v, k), k, None);
  }
}
