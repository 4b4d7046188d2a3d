/** What every step of the interleaved system keeps: the lock discipline, the names of daemons, and
    the cover that makes sure no invalidation of the cache is lost.  `LockProtocolSafety` draws the
    consequences for whole runs. */
module LockProtocolProperties {
  import opened Wrappers
  import opened Grasp
  import opened Registrars
  import opened World
  import opened WorldProperties
  import opened Interfaces
  import opened LockProtocol

  // ---------- locks ----------

  /** The locks a task holds, read off its program counter. */
  function Held(s: State, t: Task): set<Lock> {
    match t
    case Main =>
      (match s.main
       case Sleeping | Copied(_) => {}
       case HoldsAll | ToCopy => {AllLock}
       case HoldsFlag | Scanning(_, _) | Written | Cleared => {AllLock, FlagLock}
       case OnIface(k, _, _) => {AllLock, FlagLock, IfaceLock(k)}
       case OnTable(k, d, _, _) => {AllLock, FlagLock, IfaceLock(k), TableLock(d)}
       case Announcing(_, _) => {JoinLock}
       case Sending(k, _, _) => {JoinLock, IfaceLock(k)})
    case Listener =>
      (match s.listener
       case Listening => {}
       case HasLink(_, _, _) | WentUp(_, _, _) | LinkDone => {AllLock}
       case Starting(k, _, _) => {AllLock, IfaceLock(k)}
       case AcpSeen(k, _) => {AllLock, IfaceLock(k)}
       case Leaving(k) => {AllLock, IfaceLock(k)}
       case InJoinMap(k, _) => {AllLock, IfaceLock(k), JoinLock})
    case Picker =>
      (match s.picker
       case NoPledge => {}
       case Walking(_, _) | Answered(_, _) => {AllLock}
       case AtIface(k, _, _) => {AllLock, IfaceLock(k)}
       case AtTable(k, d, _, _) => {AllLock, IfaceLock(k), TableLock(d)})
    case Announcer(d) =>
      if d !in s.announcers then {} else
      match s.announcers[d]
      case Waiting => {}
      case Processing(_) | Added(_, _) => {TableLock(d)}
      case Raising(_, _) | Raised(_) => {TableLock(d), FlagLock}
  }

  /** Every lock is owned by exactly one task, the one whose program counter says so. */
  ghost predicate LockDiscipline(s: State) {
    forall l: Lock, t: Task :: (l in s.locks && s.locks[l] == t) <==> l in Held(s, t)
  }

  /** The other tasks' program counters, as far as their locks go. */
  ghost predicate OthersHold(s: State, s': State, t: Task) {
    forall u: Task :: u != t ==> Held(s', u) == Held(s, u)
  }

  lemma TookLock(s: State, s': State, t: Task, l: Lock)
    requires LockDiscipline(s) && OthersHold(s, s', t)
    requires l !in s.locks && s'.locks == s.locks[l := t] && Held(s', t) == Held(s, t) + {l}
    ensures LockDiscipline(s')
  {}

  lemma DroppedLocks(s: State, s': State, t: Task, gone: set<Lock>)
    requires LockDiscipline(s) && OthersHold(s, s', t)
    requires gone <= Held(s, t) && s'.locks == s.locks - gone && Held(s', t) == Held(s, t) - gone
    ensures LockDiscipline(s')
  {
    hide Held;
    forall m: Lock, u: Task
      ensures (m in s'.locks && s'.locks[m] == u) <==> m in Held(s', u)
    {
      assert (m in s.locks && s.locks[m] == u) <==> m in Held(s, u);
      assert (m in s.locks && s.locks[m] == t) <==> m in Held(s, t);
    }
  }

  lemma KeptLocks(s: State, s': State, t: Task)
    requires LockDiscipline(s) && OthersHold(s, s', t)
    requires s'.locks == s.locks && Held(s', t) == Held(s, t)
    ensures LockDiscipline(s')
  {
    hide Held;
    forall m: Lock, u: Task
      ensures (m in s'.locks && s'.locks[m] == u) <==> m in Held(s', u)
    {
      assert (m in s.locks && s.locks[m] == u) <==> m in Held(s, u);
      assert u != t ==> Held(s', u) == Held(s, u);
    }
  }

  // ---------- what each task leaves alone ----------

  lemma MainFrame(s: State, a: MainAct)
    requires NextMain(s, a).Some?
    ensures var s' := NextMain(s, a).value;
            && s' == s.(w := s'.w, locks := s'.locks, main := s'.main, sent := s'.sent,
                        cacheEpoch := if a.WriteCache? then s.epoch else s.cacheEpoch,
                        copyEpoch := if a.CopyOut? then s.cacheEpoch else s.copyEpoch)
            && s'.w == s.w.(proxies := if a.WriteCache? then s.main.acc else s.w.proxies,
                            flag := if a.ClearFlag? then false else s.w.flag)
            && (a.WriteCache? ==> s.main.Scanning? && s.main.todo == {})
            && (a.ClearFlag? ==> s.main.Written?)
  {
    hide DecodeGraspMessage, MessageTree, AnProxyMessage, Available, TableOf, Current;
  }

  lemma PickerFrame(s: State, a: PickerAct)
    requires NextPicker(s, a).Some?
    ensures var s' := NextPicker(s, a).value;
            s' == s.(locks := s'.locks, picker := s'.picker, answers := s'.answers)
  {
    hide ProxyAnnounced, FirstHttp, TableOf, Current;
  }

  /** An announcer adds to its own table, raises the flag, and moves its own counter. */
  lemma AnnouncerFrame(s: State, d: DaemonId, a: AnnouncerAct)
    requires d in s.announcers && NextAnnouncer(s, d, a).Some?
    ensures var s' := NextAnnouncer(s, d, a).value;
            && d in s'.announcers
            && s' == s.(w := s'.w, orphans := s'.orphans, locks := s'.locks,
                        announcers := s.announcers[d := s'.announcers[d]])
            && (a.Add? ==> s.announcers[d].Processing? && s.announcers[d].rest != []
                           && s'.announcers[d] == Added(s.announcers[d].rest[0], s.announcers[d].rest[1..])
                           && s'.w == AddTo(s, d, s.announcers[d].rest[0]).w
                           && s'.orphans == AddTo(s, d, s.announcers[d].rest[0]).orphans)
            && (!a.Add? ==> s'.orphans == s.orphans && s'.w == s.w.(flag := s.w.flag || a.RaiseFlag?))
            && (a.RaiseFlag? ==> s.announcers[d].Raising?)
            && (a.TakeFlag? ==> s.announcers[d].Added? && s'.announcers[d] == Raising(s.announcers[d].last, s.announcers[d].rest))
            && (!a.TakeFlag? && !a.RaiseFlag? ==> !s.announcers[d].Added? && !s.announcers[d].Raising?)
  {
    hide DecodeGraspMessage, Accepted, AddTo;
    if a.Add? {
      AddToKeeps(s, d, s.announcers[d].rest[0]);
    }
  }

  // ---------- the lock discipline ----------

  lemma DisciplineAnnouncer(s: State, d: DaemonId, a: AnnouncerAct)
    requires LockDiscipline(s) && d in s.announcers && NextAnnouncer(s, d, a).Some?
    ensures LockDiscipline(NextAnnouncer(s, d, a).value)
  {
    hide LockDiscipline, DecodeGraspMessage, Accepted, AddTo;
    var s' := NextAnnouncer(s, d, a).value;
    var t := Announcer(d);
    assert OthersHold(s, s', t) by {
      AnnouncerFrame(s, d, a);
      hide NextAnnouncer;
    }
    match a {
      case Receive(_) => TookLock(s, s', t, TableLock(d));
      case TakeFlag => TookLock(s, s', t, FlagLock);
      case DropFlag => DroppedLocks(s, s', t, {FlagLock});
      case FinishMessage => DroppedLocks(s, s', t, {TableLock(d)});
      case Add =>
        AddToKeeps(s, d, s.announcers[d].rest[0]);
        KeptLocks(s, s', t);
      case RaiseFlag => KeptLocks(s, s', t);
    }
  }

  lemma AddToKeeps(s: State, d: DaemonId, a: Accept)
    ensures AddTo(s, d, a) == s.(w := s.w.(interfaces := AddTo(s, d, a).w.interfaces), orphans := AddTo(s, d, a).orphans)
  {}

  lemma DisciplineMain(s: State, a: MainAct)
    requires LockDiscipline(s) && NextMain(s, a).Some?
    ensures LockDiscipline(NextMain(s, a).value)
  {
    var s' := NextMain(s, a).value;
    assert OthersHold(s, s', Main) by {
      MainFrame(s, a);
      hide NextMain;
    }
    if a.TakeAll? || a.TakeFlagToo? || a.ScanIface? || a.ScanTable? || a.TakeJoinMap? || a.TakeJoinIface? {
      MainTakes(s, a);
    } else {
      MainDrops(s, a);
    }
  }

  lemma MainTakes(s: State, a: MainAct)
    requires LockDiscipline(s) && NextMain(s, a).Some? && OthersHold(s, NextMain(s, a).value, Main)
    requires a.TakeAll? || a.TakeFlagToo? || a.ScanIface? || a.ScanTable? || a.TakeJoinMap? || a.TakeJoinIface?
    ensures LockDiscipline(NextMain(s, a).value)
  {
    hide LockDiscipline, OthersHold, Available, TableOf, Current, MessageTree, AnProxyMessage;
    var s' := NextMain(s, a).value;
    match a {
      case TakeAll => TookLock(s, s', Main, AllLock);
      case TakeFlagToo => TookLock(s, s', Main, FlagLock);
      case ScanIface(k) => TookLock(s, s', Main, IfaceLock(k));
      case TakeJoinMap => TookLock(s, s', Main, JoinLock);
      case TakeJoinIface(k) => TookLock(s, s', Main, IfaceLock(k));
      case ScanTable =>
        if s'.main.OnTable? {
          TookLock(s, s', Main, TableLock(s'.main.d));
        } else {
          DroppedLocks(s, s', Main, {IfaceLock(s.main.k)});
        }
    }
  }

  lemma MainDrops(s: State, a: MainAct)
    requires LockDiscipline(s) && NextMain(s, a).Some? && OthersHold(s, NextMain(s, a).value, Main)
    requires !(a.TakeAll? || a.TakeFlagToo? || a.ScanIface? || a.ScanTable? || a.TakeJoinMap? || a.TakeJoinIface?)
    ensures LockDiscipline(NextMain(s, a).value)
  {
    hide LockDiscipline, OthersHold, Available, TableOf, Current, MessageTree, AnProxyMessage;
    var s' := NextMain(s, a).value;
    match a {
      case ReadTable => DroppedLocks(s, s', Main, {TableLock(s.main.d), IfaceLock(s.main.k)});
      case ReleaseFlag => DroppedLocks(s, s', Main, {FlagLock});
      case CopyOut => DroppedLocks(s, s', Main, {AllLock});
      case Send(_) => DroppedLocks(s, s', Main, {IfaceLock(s.main.k)});
      case Sleep => DroppedLocks(s, s', Main, {JoinLock});
      case _ => KeptLocks(s, s', Main);
    }
  }

  lemma DisciplinePicker(s: State, a: PickerAct)
    requires LockDiscipline(s) && NextPicker(s, a).Some?
    ensures LockDiscipline(NextPicker(s, a).value)
  {
    hide LockDiscipline, FirstHttp, TableOf, Current, ProxyAnnounced;
    var s' := NextPicker(s, a).value;
    assert OthersHold(s, s', Picker) by {
      PickerFrame(s, a);
      hide NextPicker;
    }
    match a {
      case Begin => TookLock(s, s', Picker, AllLock);
      case LookAtIface(k) => TookLock(s, s', Picker, IfaceLock(k));
      case LookAtTable =>
        if s'.picker.AtTable? {
          TookLock(s, s', Picker, TableLock(s'.picker.d));
        } else {
          DroppedLocks(s, s', Picker, {IfaceLock(s.picker.k)});
        }
      case LookForHttp => DroppedLocks(s, s', Picker, {TableLock(s.picker.d), IfaceLock(s.picker.k)});
      case GiveUp => KeptLocks(s, s', Picker);
      case Leave => DroppedLocks(s, s', Picker, {AllLock});
    }
  }

  /** Daemon generations never exceed the start counter, so a new daemon's name is new. */
  ghost predicate Names(s: State) {
    && (forall d :: d in s.announcers ==> d.generation <= Entry(s.w, d.ifindex).acpStarts)
    && (forall d :: d in s.announcers ==> IsCurrent(s.w, d) || d in s.orphans)
    && (forall k :: k in s.w.acp <==> Entry(s.w, k).table.Some?)
    && (forall k :: k in s.w.acp ==> Current(s.w, k) in s.announcers)
    && (forall k :: k in s.w.joinlinks ==> Entry(s.w, k).joinPort.Some?)
  }

  /** The listener changes the fields of one interface, and starts its daemons. */
  lemma ListenerFrame(options: RoosterOptions, s: State, a: ListenerAct)
    requires NextListener(options, s, a).Some?
    ensures var s' := NextListener(options, s, a).value;
            && s' == s.(w := s'.w, orphans := s'.orphans, locks := s'.locks, listener := s'.listener,
                        announcers := s'.announcers, epoch := s'.epoch)
            && s'.w.proxies == s.w.proxies && s'.w.flag == s.w.flag
            && (a.MaybeStartAcp? ==>
                  s.listener.Starting?
                  && s' == (if options.IsValidAcpInterface(Entry(s.w, s.listener.k).ifname)
                            then StartAcpDaemon(s, s.listener.k) else s).(listener := s'.listener))
            && (!a.MaybeStartAcp? ==>
                  s' == s.(w := s'.w, locks := s'.locks, listener := s'.listener) && s'.w.acp == s.w.acp)
            && (!a.MaybeStartAcp? ==> forall k ::
                  Entry(s'.w, k).table == Entry(s.w, k).table && Entry(s'.w, k).acpStarts == Entry(s.w, k).acpStarts
                  && (Entry(s.w, k).joinPort.Some? ==> Entry(s'.w, k).joinPort.Some?)
                  && (k in s'.w.joinlinks ==> k in s.w.joinlinks || Entry(s'.w, k).joinPort.Some?))
  {
    hide ApplyLinkAttrs, ApplyAddrAttrs;
    match a {
      case GetAddr(k, attrs) => AddrAttrsTell(Entry(s.w, k), attrs);
      case StoreAttrs => LinkAttrsTell(Entry(s.w, s.listener.k), s.listener.attrs);
      case _ =>
    }
  }

  lemma ListenerOthers(options: RoosterOptions, s: State, a: ListenerAct)
    requires Names(s) && NextListener(options, s, a).Some?
    ensures OthersHold(s, NextListener(options, s, a).value, Listener)
    ensures a.MaybeStartAcp? ==> NextListener(options, s, a).value.locks == s.locks
  {
    ListenerFrame(options, s, a);
    hide NextListener;
    if a.MaybeStartAcp? {
      NewTaskHoldsNothing(s, s.listener.k);
    }
  }

  lemma DisciplineListener(options: RoosterOptions, s: State, a: ListenerAct)
    requires LockDiscipline(s) && Names(s) && NextListener(options, s, a).Some?
    ensures LockDiscipline(NextListener(options, s, a).value)
  {
    hide LockDiscipline, Names, OthersHold, ApplyLinkAttrs, ApplyAddrAttrs, StoreAddr, StartJoin, StartAcpDaemon, Entry, Put;
    var s' := NextListener(options, s, a).value;
    ListenerOthers(options, s, a);
    match a {
      case GetLink(_, _, _) => TookLock(s, s', Listener, AllLock);
      case TakeIface => TookLock(s, s', Listener, IfaceLock(s.listener.k));
      case MaybeEnterJoinMap =>
        if s'.listener.InJoinMap? {
          TookLock(s, s', Listener, JoinLock);
        } else {
          KeptLocks(s, s', Listener);
        }
      case StartJoinDaemon => DroppedLocks(s, s', Listener, {JoinLock});
      case DropIface => DroppedLocks(s, s', Listener, {IfaceLock(s.listener.k)});
      case FinishLink => DroppedLocks(s, s', Listener, {AllLock});
      case _ => KeptLocks(s, s', Listener);
    }
  }

  /** A new daemon's task is new, waits, and holds no lock. */
  lemma NewTaskHoldsNothing(s: State, k: IfIndex)
    requires Names(s)
    ensures var s' := StartAcpDaemon(s, k);
            && s'.locks == s.locks && s'.main == s.main && s'.picker == s.picker && s'.listener == s.listener
            && (forall u: Task :: Held(s', u) == Held(s, u))
            && DaemonId(k, Entry(s.w, k).acpStarts + 1) !in s.announcers
  {
    var d := DaemonId(k, Entry(s.w, k).acpStarts + 1);
    assert d !in s.announcers;
    assert StartAcpDaemon(s, k).announcers == s.announcers[d := Waiting];
  }

  // ---------- names and tables ----------

  /** One announcer step, as far as the interface records go. */
  lemma AddToEntry(s: State, d: DaemonId, a: Accept, k: IfIndex)
    ensures Entry(AddTo(s, d, a).w, k) ==
            if IsCurrent(s.w, d) && k == d.ifindex
            then Entry(s.w, k).(table := Some(AddOne(Entry(s.w, k).table.value, a))) else Entry(s.w, k)
    ensures d in s.orphans || IsCurrent(s.w, d) ==> AddTo(s, d, a).orphans.Keys == s.orphans.Keys
    ensures AddTo(s, d, a).w == s.w.(interfaces := AddTo(s, d, a).w.interfaces)
    ensures AddTo(s, d, a).orphans.Keys >= s.orphans.Keys
  {}

  lemma NamesAfterAdd(s: State, s': State, d: DaemonId, a: Accept)
    requires Names(s) && d in s.announcers
    requires s'.announcers.Keys == s.announcers.Keys
    requires s'.w == AddTo(s, d, a).w && s'.orphans == AddTo(s, d, a).orphans
    ensures Names(s')
  {
    hide AddTo, AddOne;
    forall k
      ensures Entry(s'.w, k).acpStarts == Entry(s.w, k).acpStarts && Entry(s'.w, k).joinPort == Entry(s.w, k).joinPort
      ensures Entry(s'.w, k).table.Some? <==> Entry(s.w, k).table.Some?
    {
      AddToEntry(s, d, a, k);
    }
    AddToEntry(s, d, a, d.ifindex);
  }

  lemma NamesAnnouncer(s: State, d: DaemonId, a: AnnouncerAct)
    requires Names(s) && d in s.announcers && NextAnnouncer(s, d, a).Some?
    ensures Names(NextAnnouncer(s, d, a).value)
  {
    hide AddTo;
    AnnouncerFrame(s, d, a);
    hide NextAnnouncer;
    if a.Add? {
      NamesAfterAdd(s, NextAnnouncer(s, d, a).value, d, s.announcers[d].rest[0]);
    }
  }

  lemma NamesListener(options: RoosterOptions, s: State, a: ListenerAct)
    requires Names(s) && NextListener(options, s, a).Some?
    ensures Names(NextListener(options, s, a).value)
  {
    hide StartAcpDaemon;
    ListenerFrame(options, s, a);
    hide NextListener;
    if a.MaybeStartAcp? {
      NamesAfterStart(s, s.listener.k);
    }
  }

  /** Starting a daemon touches one interface. */
  lemma EntryAfterStart(s: State, k: IfIndex)
    ensures var s', rec := StartAcpDaemon(s, k), Entry(s.w, k);
            && Entry(s'.w, k) == rec.(table := Some([]), acpStarts := rec.acpStarts + 1)
            && (forall j :: j != k ==> Entry(s'.w, j) == Entry(s.w, j))
            && s'.w.acp == s.w.acp + {k} && s'.w.joinlinks == s.w.joinlinks
            && s'.announcers == s.announcers[DaemonId(k, rec.acpStarts + 1) := Waiting]
            && s'.orphans == (if rec.table.Some? then s.orphans[Current(s.w, k) := rec.table.value] else s.orphans)
  {}

  lemma NamesAfterStart(s: State, k: IfIndex)
    requires Names(s)
    ensures Names(StartAcpDaemon(s, k))
  {
    hide StartAcpDaemon, Entry;
    EntryAfterStart(s, k);
  }

  lemma NamesKept(options: RoosterOptions, s: State, a: Action)
    requires Names(s) && Next(options, s, a).Some?
    ensures Names(Next(options, s, a).value)
  {
    hide NextAnnouncer, NextMain, NextListener, NextPicker;
    match a {
      case ByAnnouncer(d, act) => NamesAnnouncer(s, d, act);
      case ByMain(act) => MainFrame(s, act);
      case ByListener(act) => NamesListener(options, s, act);
      case ByPicker(act) => PickerFrame(s, act);
    }
  }

  /** The acceptance that an action adds to the table of the interface's current daemon. */
  predicate AddsTo(s: State, a: Action, k: IfIndex) {
    && a.ByAnnouncer? && a.announcerAct.Add? && a.d == Current(s.w, k)
    && a.d in s.announcers && s.announcers[a.d].Processing? && s.announcers[a.d].rest != []
  }

  predicate Restarting(options: RoosterOptions, s: State, a: Action) {
    s.listener.Starting? && Replaces(options, s, a, s.listener.k)
  }

  /** What an action does to the table the scans find on an interface that stays listed. */
  ghost predicate TableStep(options: RoosterOptions, s: State, s': State, a: Action, k: IfIndex) {
    && k in s'.w.acp
    && (Current(s'.w, k) != Current(s.w, k) <==> Replaces(options, s, a, k))
    && (Current(s'.w, k) != Current(s.w, k) ==> TableOf(s'.w, k) == [])
    && (Current(s'.w, k) == Current(s.w, k) ==>
          TableOf(s'.w, k) ==
          if AddsTo(s, a, k) then AddOne(TableOf(s.w, k), s.announcers[a.d].rest[0]) else TableOf(s.w, k))
  }

  lemma TablesAfter(options: RoosterOptions, s: State, a: Action, k: IfIndex)
    requires Names(s) && Next(options, s, a).Some?
    ensures k in s.w.acp ==> TableStep(options, s, Next(options, s, a).value, a, k)
    ensures k !in s.w.acp && k in Next(options, s, a).value.w.acp ==> TableOf(Next(options, s, a).value.w, k) == []
    ensures Next(options, s, a).value.epoch == if Restarting(options, s, a) then s.epoch + 1 else s.epoch
  {
    hide NextAnnouncer, NextMain, NextListener, NextPicker, AddTo, AddOne;
    match a {
      case ByAnnouncer(d, act) =>
        AnnouncerFrame(s, d, act);
        if act.Add? {
          AddToEntry(s, d, s.announcers[d].rest[0], k);
        }
      case ByMain(act) => MainFrame(s, act);
      case ByListener(act) => ListenerFrame(options, s, act);
      case ByPicker(act) => PickerFrame(s, act);
    }
  }

  // ---------- no invalidation is lost ----------

  /** The current announcer of the interface has added the kind and not yet raised the flag. */
  predicate Pending(s: State, k: IfIndex, kind: Kind) {
    var d := Current(s.w, k);
    && d in s.announcers
    && (s.announcers[d].Added? || s.announcers[d].Raising?)
    && s.announcers[d].last.rtype.Kind() == kind
  }

  predicate Covered(s: State, k: IfIndex, kind: Kind, p: Proxies) {
    HasKind(TableOf(s.w, k), kind) ==> p.Has(kind) || Pending(s, k, kind)
  }

  /** While the flag is clear, every kind in a listed table is cached or pending. */
  ghost predicate CacheCovers(s: State) {
    !s.w.flag ==> forall k, kind :: k in s.w.acp ==> Covered(s, k, kind, s.w.proxies)
  }

  /** An update that has read some interfaces and still has to read others. */
  predicate MidScan(pc: MainPc) {
    pc.Scanning? || pc.OnIface? || pc.OnTable?
  }

  /** What an update has found so far covers the interfaces it has read; what it has written
      covers them all. */
  ghost predicate ScanCovers(s: State) {
    && (MidScan(s.main) ==>
          s.w.flag && s.main.todo <= s.w.acp
          && forall k, kind :: k in s.w.acp && k !in s.main.todo ==> Covered(s, k, kind, s.main.acc))
    && (s.main.Written? ==> forall k, kind :: k in s.w.acp ==> Covered(s, k, kind, s.w.proxies))
  }

  /** A table is read only under the lock of the very daemon that it belongs to. */
  ghost predicate ReadsLocked(s: State) {
    && (s.main.OnIface? ==> s.main.k in s.main.todo)
    && (s.main.OnTable? ==> s.main.k in s.main.todo && s.main.d == Current(s.w, s.main.k))
    && (s.picker.AtIface? ==> s.picker.k in s.picker.todo)
    && (s.picker.AtTable? ==> s.picker.k in s.picker.todo && s.picker.d == Current(s.w, s.picker.k))
  }

  /** Two tasks never hold the same lock. */
  lemma Exclusive(s: State, l: Lock, t: Task, u: Task)
    requires LockDiscipline(s) && l in Held(s, t) && l in Held(s, u)
    ensures t == u
  {
    assert s.locks[l] == t && s.locks[l] == u;
  }

  lemma HeldIsTaken(s: State, l: Lock, t: Task)
    requires LockDiscipline(s) && l in Held(s, t)
    ensures l in s.locks
  {}

  lemma ReadsLockedMain(s: State, a: MainAct)
    requires ReadsLocked(s) && NextMain(s, a).Some?
    ensures ReadsLocked(NextMain(s, a).value)
  {
    hide Available, TableOf, MessageTree, AnProxyMessage;
  }

  lemma ReadsLockedPicker(s: State, a: PickerAct)
    requires ReadsLocked(s) && NextPicker(s, a).Some?
    ensures ReadsLocked(NextPicker(s, a).value)
  {
    hide FirstHttp, TableOf, ProxyAnnounced;
  }

  lemma ReadsLockedKept(options: RoosterOptions, s: State, a: Action)
    requires LockDiscipline(s) && Names(s) && ReadsLocked(s) && Next(options, s, a).Some?
    ensures ReadsLocked(Next(options, s, a).value)
  {
    hide NextAnnouncer, NextMain, NextListener, NextPicker, AddTo, LockDiscipline;
    match a {
      case ByAnnouncer(d, act) =>
        AnnouncerFrame(s, d, act);
        if act.Add? {
          forall k {
            AddToEntry(s, d, s.announcers[d].rest[0], k);
          }
        }
      case ByMain(act) => ReadsLockedMain(s, act);
      case ByPicker(act) => ReadsLockedPicker(s, act);
      case ByListener(act) =>
        ListenerFrame(options, s, act);
        if act.MaybeStartAcp? {
          assert AllLock in Held(s, Listener);
          if s.main.OnTable? {
            Exclusive(s, AllLock, Main, Listener);
          }
          if s.picker.AtTable? {
            Exclusive(s, AllLock, Picker, Listener);
          }
        }
    }
  }

  /** What is pending stays so until its own announcer raises the flag. */
  lemma PendingKept(options: RoosterOptions, s: State, a: Action, k: IfIndex, kind: Kind)
    requires Names(s) && Next(options, s, a).Some? && k in s.w.acp
    requires !(a.ByAnnouncer? && a.announcerAct.RaiseFlag?)
    requires Current(Next(options, s, a).value.w, k) == Current(s.w, k)
    ensures Pending(s, k, kind) ==> Pending(Next(options, s, a).value, k, kind)
    ensures AddsTo(s, a, k) ==> Pending(Next(options, s, a).value, k, s.announcers[a.d].rest[0].rtype.Kind())
  {
    hide NextAnnouncer, NextMain, NextListener, NextPicker, AddTo;
    match a {
      case ByAnnouncer(d, act) => AnnouncerFrame(s, d, act);
      case ByMain(act) => MainFrame(s, act);
      case ByListener(act) => ListenerFrame(options, s, act);
      case ByPicker(act) => PickerFrame(s, act);
    }
  }

  /** Anything but raising the flag keeps what is cached or pending so. */
  lemma CoveredKept(options: RoosterOptions, s: State, a: Action, k: IfIndex, kind: Kind, p: Proxies)
    requires Names(s) && Next(options, s, a).Some? && k in Next(options, s, a).value.w.acp
    requires k in s.w.acp ==> Covered(s, k, kind, p)
    requires !(a.ByAnnouncer? && a.announcerAct.RaiseFlag?)
    ensures Covered(Next(options, s, a).value, k, kind, p)
  {
    hide Next, Pending;
    var s' := Next(options, s, a).value;
    TablesAfter(options, s, a, k);
    if k in s.w.acp && Current(s'.w, k) == Current(s.w, k) {
      if AddsTo(s, a, k) {
        HasKindAfterAdd(TableOf(s.w, k), s.announcers[a.d].rest[0], kind);
      }
      PendingKept(options, s, a, k, kind);
    }
  }

  lemma CoverAfterAnnouncer(options: RoosterOptions, s: State, d: DaemonId, a: AnnouncerAct)
    requires LockDiscipline(s) && Names(s) && CacheCovers(s) && ScanCovers(s)
    requires Next(options, s, ByAnnouncer(d, a)).Some?
    ensures CacheCovers(Next(options, s, ByAnnouncer(d, a)).value) && ScanCovers(Next(options, s, ByAnnouncer(d, a)).value)
  {
    hide LockDiscipline, Names, Covered, NextAnnouncer, AddTo;
    var s' := Next(options, s, ByAnnouncer(d, a)).value;
    AnnouncerFrame(s, d, a);
    AnnouncerLists(s, d, a);
    if a.RaiseFlag? {
      assert FlagLock in Held(s, Announcer(d));
      if MidScan(s.main) || s.main.Written? {
        assert FlagLock in Held(s, Main);
        Exclusive(s, FlagLock, Main, Announcer(d));
      }
    } else {
      forall k, kind, p | k in s'.w.acp && Covered(s, k, kind, p)
        ensures Covered(s', k, kind, p)
      {
        hide Next;
        CoveredKept(options, s, ByAnnouncer(d, a), k, kind, p);
      }
    }
  }

  lemma AnnouncerLists(s: State, d: DaemonId, a: AnnouncerAct)
    requires d in s.announcers && NextAnnouncer(s, d, a).Some?
    ensures var s' := NextAnnouncer(s, d, a).value;
            s'.w.acp == s.w.acp && s'.w.proxies == s.w.proxies && s'.main == s.main && s'.w.flag == (s.w.flag || a.RaiseFlag?)
  {
    hide AddTo;
    AnnouncerFrame(s, d, a);
    hide NextAnnouncer;
    if a.Add? {
      AddToKeeps(s, d, s.announcers[d].rest[0]);
    }
  }

  lemma CoverAfterListener(options: RoosterOptions, s: State, a: ListenerAct)
    requires Names(s) && CacheCovers(s) && ScanCovers(s)
    requires Next(options, s, ByListener(a)).Some?
    ensures CacheCovers(Next(options, s, ByListener(a)).value) && ScanCovers(Next(options, s, ByListener(a)).value)
  {
    hide Names, Covered, NextListener;
    var s' := Next(options, s, ByListener(a)).value;
    assert s'.main == s.main && s'.w.proxies == s.w.proxies && s'.w.flag == s.w.flag && s.w.acp <= s'.w.acp by {
      ListenerFrame(options, s, a);
    }
    forall k, kind, p | k in s'.w.acp && (k in s.w.acp ==> Covered(s, k, kind, p))
      ensures Covered(s', k, kind, p)
    {
      hide Next;
      CoveredKept(options, s, ByListener(a), k, kind, p);
    }
  }

  lemma CoverAfterPicker(options: RoosterOptions, s: State, a: PickerAct)
    requires Names(s) && CacheCovers(s) && ScanCovers(s)
    requires Next(options, s, ByPicker(a)).Some?
    ensures CacheCovers(Next(options, s, ByPicker(a)).value) && ScanCovers(Next(options, s, ByPicker(a)).value)
  {
    hide NextPicker, Covered;
    PickerFrame(s, a);
    var s' := Next(options, s, ByPicker(a)).value;
    forall k, kind, p
      ensures Covered(s', k, kind, p) <==> Covered(s, k, kind, p)
    {
      CoveredSame(s, s', k, kind, p);
    }
  }

  /** Reading one more table covers its interface. */
  lemma CoveredByReading(s: State, k: IfIndex, kind: Kind, acc: Proxies)
    ensures Covered(s, k, kind, acc.Or(Available(TableOf(s.w, k))))
  {}

  lemma CoveredByMore(s: State, k: IfIndex, kind: Kind, acc: Proxies, more: Proxies)
    requires Covered(s, k, kind, acc)
    ensures Covered(s, k, kind, acc.Or(more))
  {}

  lemma CoveredSame(s: State, s': State, k: IfIndex, kind: Kind, p: Proxies)
    requires s'.announcers == s.announcers && s'.w.interfaces == s.w.interfaces
    ensures Covered(s', k, kind, p) <==> Covered(s, k, kind, p)
  {}

  lemma CoverAfterMain(options: RoosterOptions, s: State, a: MainAct)
    requires Names(s) && ReadsLocked(s) && CacheCovers(s) && ScanCovers(s)
    requires Next(options, s, ByMain(a)).Some?
    ensures CacheCovers(Next(options, s, ByMain(a)).value) && ScanCovers(Next(options, s, ByMain(a)).value)
  {
    hide Covered, Available, NextAnnouncer, NextListener, NextPicker, MessageTree, AnProxyMessage, HasKind;
    var s' := Next(options, s, ByMain(a)).value;
    assert s'.announcers == s.announcers && s'.w.interfaces == s.w.interfaces && s'.w.acp == s.w.acp by {
      MainFrame(s, a);
      hide NextMain;
    }
    forall k, kind, p
      ensures Covered(s', k, kind, p) <==> Covered(s, k, kind, p)
    {
      CoveredSame(s, s', k, kind, p);
    }
    if a.ReadTable? {
      forall k, kind | k in s.w.acp && k !in s'.main.todo
        ensures Covered(s', k, kind, s'.main.acc)
      {
        if k == s.main.k {
          CoveredByReading(s, k, kind, s.main.acc);
        } else {
          CoveredByMore(s, k, kind, s.main.acc, Available(TableOf(s.w, s.main.k)));
        }
      }
    }
  }
}
