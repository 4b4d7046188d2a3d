/** Safety over whole runs: the invariants of `LockProtocolProperties` joined with soundness of the
    cache, and what they say about every state that some interleaving reaches. */
module LockProtocolSafety {
  import opened Wrappers
  import opened Grasp
  import opened Registrars
  import opened World
  import opened WorldProperties
  import opened Interfaces
  import opened AnProxyProperties
  import opened LockProtocol
  import opened LockProtocolProperties

  // ---------- soundness of the cache and its copies ----------

  /** Every kind that is claimed is held by some table. */
  ghost predicate Backed(p: Proxies, w: World) {
    forall kind: Kind :: p.Has(kind) ==> KindAvailable(w, kind)
  }

  /** One of the listed interfaces of a set holds an HTTP registrar. */
  ghost predicate HttpAmong(w: World, todo: set<IfIndex>) {
    exists k :: k in todo && k in w.acp && HasKind(TableOf(w, k), Http)
  }

  /** What an update has found is held.  What was copied out is held as long as the epoch in which
      the copied cache was written lasts. */
  ghost predicate MainSound(w: World, pc: MainPc, upToDate: bool) {
    && (MidScan(pc) ==> Backed(pc.acc, w))
    && (upToDate && (pc.Copied? || pc.Announcing? || pc.Sending?) ==> Backed(pc.copy, w))
  }

  /** A pick that began while a proxy stood announced still has a registrar ahead of it, or has
      found one. */
  ghost predicate PickerSound(w: World, pc: PickerPc) {
    && (pc.Walking? || pc.AtIface? || pc.AtTable? ==> pc.late ==> HttpAmong(w, pc.todo))
    && (pc.Answered? ==> pc.late ==> pc.result.Some?)
  }

  ghost predicate AnswersSound(answers: seq<Answer>) {
    forall i :: 0 <= i < |answers| && answers[i].late ==> answers[i].result.Some?
  }

  /** No epoch on record lies ahead. */
  ghost predicate EpochsPast(s: State) {
    && s.cacheEpoch <= s.epoch && s.copyEpoch <= s.epoch
    && forall i :: 0 <= i < |s.sent| ==> s.sent[i].epoch <= s.epoch
  }

  /** What was written in the present epoch, be it the cache, a copy of it or an announcement made
      from the copy, is true of the tables. */
  ghost predicate Sound(s: State) {
    && EpochsPast(s)
    && (s.cacheEpoch == s.epoch ==> Backed(s.w.proxies, s.w))
    && MainSound(s.w, s.main, s.copyEpoch == s.epoch)
    && (ProxyAnnounced(s.sent, s.epoch) ==> KindAvailable(s.w, Http))
    && PickerSound(s.w, s.picker)
    && AnswersSound(s.answers)
  }

  /** No kind is lost from any listed table. */
  ghost predicate NothingLost(w: World, w': World) {
    forall k, kind :: k in w.acp && HasKind(TableOf(w, k), kind) ==> k in w'.acp && HasKind(TableOf(w', k), kind)
  }

  lemma NothingIsLost(options: RoosterOptions, s: State, a: Action)
    requires Names(s) && Next(options, s, a).Some? && !Restarting(options, s, a)
    ensures NothingLost(s.w, Next(options, s, a).value.w)
  {
    hide Next;
    var s' := Next(options, s, a).value;
    forall k, kind | k in s.w.acp && HasKind(TableOf(s.w, k), kind)
      ensures k in s'.w.acp && HasKind(TableOf(s'.w, k), kind)
    {
      TablesAfter(options, s, a, k);
      if AddsTo(s, a, k) {
        HasKindAfterAdd(TableOf(s.w, k), s.announcers[a.d].rest[0], kind);
      }
    }
  }

  /** A step that changes no cache, copy, history or pick keeps all of them sound. */
  lemma SoundByGrowth(s: State, s': State)
    requires NothingLost(s.w, s'.w) && Sound(s)
    requires s'.w.proxies == s.w.proxies && s'.main == s.main && s'.picker == s.picker
    requires s'.sent == s.sent && s'.answers == s.answers
    requires s'.epoch == s.epoch && s'.cacheEpoch == s.cacheEpoch && s'.copyEpoch == s.copyEpoch
    ensures Sound(s')
  {}

  /** The steps of a scan collect only what tables hold. */
  lemma ReadingIsBacked(w: World, k: IfIndex, acc: Proxies)
    requires Backed(acc, w) && k in w.acp
    ensures Backed(acc.Or(Available(TableOf(w, k))), w)
  {}

  /** A new epoch voids every claim on record: none is made again before the next update. */
  lemma SoundInNewEpoch(s: State, s': State)
    requires Sound(s) && s'.epoch == s.epoch + 1
    requires !MidScan(s'.main) && s'.picker.NoPledge?
    requires s'.cacheEpoch == s.cacheEpoch && s'.copyEpoch == s.copyEpoch
    requires s'.sent == s.sent && s'.answers == s.answers
    ensures Sound(s')
  {}

  /** Sending announces a proxy only if the copy claims HTTP, and in the copy's epoch. */
  lemma SendingIsBacked(sent: seq<Sent>, linklocal6: Ipv6Addr, port: uint16, copy: Proxies, id: uint32, at: nat, epoch: nat)
    ensures ProxyAnnounced(sent + [Sent(MessageTree(AnProxyMessage(linklocal6, port, copy, id)), at)], epoch)
            <==> ProxyAnnounced(sent, epoch) || (at == epoch && copy.httpAvail)
  {
    AnProxyDecodes(linklocal6, port, copy, id);
    hide DecodeGraspMessage, DecodeDullGraspMessage, MessageTree, AnProxyMessage;
    var last := Sent(MessageTree(AnProxyMessage(linklocal6, port, copy, id)), at);
    var all := sent + [last];
    assert forall i :: 0 <= i < |sent| ==> all[i] == sent[i];
    assert all[|sent|] == last && (Announces(last.tree) <==> copy.httpAvail);
  }

  lemma BackedSame(w: World, w': World)
    requires w'.interfaces == w.interfaces && w'.acp == w.acp
    ensures forall p :: Backed(p, w) <==> Backed(p, w')
    ensures forall kind :: KindAvailable(w, kind) <==> KindAvailable(w', kind)
    ensures forall todo :: HttpAmong(w, todo) <==> HttpAmong(w', todo)
  {}

  lemma BackedHttp(w: World)
    ensures Backed(NONE_AVAILABLE, w)
    ensures forall p: Proxies :: Backed(p, w) && p.httpAvail ==> KindAvailable(w, Http)
  {}

  lemma SoundAfterMain(s: State, a: MainAct)
    requires ReadsLocked(s) && ScanCovers(s) && Sound(s) && NextMain(s, a).Some?
    ensures Sound(NextMain(s, a).value)
  {
    hide Backed, Available, TableOf, Current, KindAvailable, HttpAmong, CacheCovers, Covered, ProxyAnnounced, MessageTree,
      AnProxyMessage, Entry;
    var s' := NextMain(s, a).value;
    MainFrame(s, a);
    BackedSame(s.w, s'.w);
    BackedHttp(s.w);
    if a.Send? {
      var rec := Entry(s.w, s.main.k);
      if rec.joinPort.Some? {
        SendingIsBacked(s.sent, rec.linklocal6, rec.joinPort.value, s.main.copy, a.id, s.copyEpoch, s.epoch);
      } else {
        assert s.sent + [] == s.sent;
      }
    } else if a.ReadTable? {
      ReadingIsBacked(s.w, s.main.k, s.main.acc);
    }
  }

  /** Looking at one more interface: either it has an HTTP registrar, or the others still have one. */
  lemma LookedAt(w: World, k: IfIndex, todo: set<IfIndex>)
    requires HttpAmong(w, todo)
    ensures FirstHttp(TableOf(w, k)).Some? || HttpAmong(w, todo - {k})
    ensures Entry(w, k).table.None? ==> FirstHttp(TableOf(w, k)).None?
  {
    FirstHttpExact(TableOf(w, k));
    var j :| j in todo && j in w.acp && HasKind(TableOf(w, j), Http);
    assert j != k ==> j in todo - {k};
  }

  lemma SoundAfterPicker(s: State, a: PickerAct)
    requires Sound(s) && NextPicker(s, a).Some?
    ensures Sound(NextPicker(s, a).value)
  {
    hide Backed, TableOf, Current, FirstHttp, ProxyAnnounced, Entry, HasKind;
    PickerFrame(s, a);
    if a.LookAtTable? || a.LookForHttp? {
      if s.picker.late {
        LookedAt(s.w, s.picker.k, s.picker.todo);
      }
    }
  }

  // ---------- the invariant of all runs ----------

  ghost predicate Inv(s: State) {
    && LockDiscipline(s)
    && Names(s)
    && ReadsLocked(s)
    && CacheCovers(s)
    && ScanCovers(s)
    && Sound(s)
  }

  lemma InvAtStart()
    ensures Inv(START)
  {
    assert LockDiscipline(START) by {
      forall l: Lock, t: Task
        ensures l !in Held(START, t)
      {
      }
    }
  }

  lemma DisciplineKept(options: RoosterOptions, s: State, a: Action)
    requires LockDiscipline(s) && Names(s) && Next(options, s, a).Some?
    ensures LockDiscipline(Next(options, s, a).value)
  {
    hide NextAnnouncer, NextMain, NextListener, NextPicker, LockDiscipline, Names;
    match a {
      case ByAnnouncer(d, act) => DisciplineAnnouncer(s, d, act);
      case ByMain(act) => DisciplineMain(s, act);
      case ByListener(act) => DisciplineListener(options, s, act);
      case ByPicker(act) => DisciplinePicker(s, act);
    }
  }

  lemma CoverKept(options: RoosterOptions, s: State, a: Action)
    requires Inv(s) && Next(options, s, a).Some?
    ensures CacheCovers(Next(options, s, a).value) && ScanCovers(Next(options, s, a).value)
  {
    hide Next, LockDiscipline, Names, ReadsLocked, CacheCovers, ScanCovers, Sound;
    match a {
      case ByAnnouncer(d, act) => CoverAfterAnnouncer(options, s, d, act);
      case ByMain(act) => CoverAfterMain(options, s, act);
      case ByListener(act) => CoverAfterListener(options, s, act);
      case ByPicker(act) => CoverAfterPicker(options, s, act);
    }
  }

  /** A daemon is replaced under the lock on everything, so no update or pick is under way. */
  lemma NobodyScans(s: State)
    requires LockDiscipline(s) && s.listener.Starting?
    ensures !MidScan(s.main) && s.picker.NoPledge?
  {
    assert AllLock in Held(s, Listener);
    if MidScan(s.main) {
      Exclusive(s, AllLock, Main, Listener);
    }
    if !s.picker.NoPledge? {
      Exclusive(s, AllLock, Picker, Listener);
    }
  }

  lemma SoundKept(options: RoosterOptions, s: State, a: Action)
    requires Inv(s) && Next(options, s, a).Some?
    ensures Sound(Next(options, s, a).value)
  {
    TablesAfter(options, s, a, 0);
    hide NextAnnouncer, NextMain, NextListener, NextPicker, LockDiscipline, Names, ReadsLocked, CacheCovers, ScanCovers,
      Sound, NothingLost;
    var s' := Next(options, s, a).value;
    if Restarting(options, s, a) {
      ListenerFrame(options, s, a.listenerAct);
      NobodyScans(s);
      SoundInNewEpoch(s, s');
    } else {
      NothingIsLost(options, s, a);
      match a {
        case ByMain(act) => SoundAfterMain(s, act);
        case ByPicker(act) => SoundAfterPicker(s, act);
        case ByAnnouncer(d, act) =>
          AnnouncerFrame(s, d, act);
          AnnouncerLists(s, d, act);
          SoundByGrowth(s, s');
        case ByListener(act) =>
          ListenerFrame(options, s, act);
          SoundByGrowth(s, s');
      }
    }
  }

  lemma InvKept(options: RoosterOptions, s: State, a: Action)
    requires Inv(s) && Next(options, s, a).Some?
    ensures Inv(Next(options, s, a).value)
  {
    hide Next, LockDiscipline, Names, ReadsLocked, CacheCovers, ScanCovers, Sound;
    DisciplineKept(options, s, a);
    NamesKept(options, s, a);
    ReadsLockedKept(options, s, a);
    CoverKept(options, s, a);
    SoundKept(options, s, a);
  }

  lemma {:induction false} InvFrom(options: RoosterOptions, s: State, actions: seq<Action>)
    requires Inv(s) && RunFrom(options, s, actions).Some?
    ensures Inv(RunFrom(options, s, actions).value)
    decreases actions
  {
    hide Next, Inv;
    if actions != [] {
      InvKept(options, s, actions[0]);
      InvFrom(options, Next(options, s, actions[0]).value, actions[1..]);
    }
  }

  lemma InvOfRun(options: RoosterOptions, actions: seq<Action>)
    requires Exec(options, actions).Some?
    ensures Inv(Exec(options, actions).value)
  {
    hide Inv, RunFrom;
    InvAtStart();
    InvFrom(options, START, actions);
  }

  // ---------- mutual exclusion ----------

  /** No task does anything but wait. */
  ghost predicate AllIdle(s: State) {
    && s.main.Sleeping? && s.listener.Listening? && s.picker.NoPledge?
    && forall d :: d in s.announcers ==> s.announcers[d].Waiting?
  }

  /** In every reachable state no lock is held by two tasks, and none is held by a task that its
      program has already let go of: when all tasks are idle, all locks are free. */
  lemma MutualExclusion(options: RoosterOptions, actions: seq<Action>)
    requires Exec(options, actions).Some?
    ensures var s := Exec(options, actions).value;
            && (forall l, t, u :: l in Held(s, t) && l in Held(s, u) ==> t == u)
            && (AllIdle(s) ==> s.locks == map[])
  {
    InvOfRun(options, actions);
    hide Exec;
    var s := Exec(options, actions).value;
    forall l, t, u | l in Held(s, t) && l in Held(s, u)
      ensures t == u
    {
      Exclusive(s, l, t, u);
    }
    if AllIdle(s) {
      assert forall l :: l in s.locks ==> l in Held(s, s.locks[l]);
    }
  }

  /** While the main loop or a pick reads a table, the daemon that owns it is not in the middle of
      a message: no table is read half way through a flood. */
  lemma NoTornReads(options: RoosterOptions, actions: seq<Action>)
    requires Exec(options, actions).Some?
    ensures var s := Exec(options, actions).value;
            && (s.main.OnTable? ==> var d := Current(s.w, s.main.k); d in s.announcers && s.announcers[d].Waiting?)
            && (s.picker.AtTable? ==> var d := Current(s.w, s.picker.k); d in s.announcers ==> s.announcers[d].Waiting?)
  {
    InvOfRun(options, actions);
    hide Exec, CacheCovers, Sound, LockDiscipline;
    var s := Exec(options, actions).value;
    if s.main.OnTable? {
      var d := Current(s.w, s.main.k);
      if !s.announcers[d].Waiting? {
        Exclusive(s, TableLock(d), Main, Announcer(d));
      }
    }
    if s.picker.AtTable? {
      var d := Current(s.w, s.picker.k);
      if d in s.announcers && !s.announcers[d].Waiting? {
        Exclusive(s, TableLock(d), Picker, Announcer(d));
      }
    }
  }

  // ---------- the cache ----------

  /** No invalidation is lost, in any interleaving: while the flag is clear, every kind in the
      table of a listed interface is cached, unless that interface's announcer has added it and is
      still on its way to raising the flag. */
  lemma NoInvalidationLost(options: RoosterOptions, actions: seq<Action>, k: IfIndex, kind: Kind)
    requires Exec(options, actions).Some?
    requires var s := Exec(options, actions).value; !s.w.flag && k in s.w.acp && HasKind(TableOf(s.w, k), kind)
    ensures var s := Exec(options, actions).value; s.w.proxies.Has(kind) || Pending(s, k, kind)
  {
    InvOfRun(options, actions);
    hide Exec, LockDiscipline, Names, ReadsLocked, ScanCovers, Sound, Pending;
    var s := Exec(options, actions).value;
    assert Covered(s, k, kind, s.w.proxies);
  }

  /** The cache is sound from each time it is written until the next time a running daemon is
      replaced, whatever came before: it claims no kind that no table holds.  If moreover the flag
      is clear and all tasks are idle, it is exactly the full scan. */
  lemma CacheIsScan(options: RoosterOptions, actions: seq<Action>)
    requires Exec(options, actions).Some?
    requires Exec(options, actions).value.cacheEpoch == Exec(options, actions).value.epoch
    ensures var s := Exec(options, actions).value;
            && (forall kind :: s.w.proxies.Has(kind) ==> KindAvailable(s.w, kind))
            && (!s.w.flag && AllIdle(s) ==> s.w.proxies == Scan(s.w))
  {
    InvOfRun(options, actions);
    hide Exec, LockDiscipline, ReadsLocked, ScanCovers, HasKind, TableOf;
    var s := Exec(options, actions).value;
    if !s.w.flag && AllIdle(s) {
      forall kind
        ensures KindAvailable(s.w, kind) ==> s.w.proxies.Has(kind)
      {
        if k :| k in s.w.acp && HasKind(TableOf(s.w, k), kind) {
          assert Covered(s, k, kind, s.w.proxies);
          assert !Pending(s, k, kind);
        }
      }
      assert forall kind: Kind :: s.w.proxies.Has(kind) <==> Scan(s.w).Has(kind);
      assert s.w.proxies.Has(Http) <==> Scan(s.w).Has(Http);
      assert s.w.proxies.Has(Stateful) <==> Scan(s.w).Has(Stateful);
      assert s.w.proxies.Has(Stateless) <==> Scan(s.w).Has(Stateless);
    }
  }

  // ---------- end to end ----------

  /** What has been sent stays sent. */
  lemma {:induction false} HistoryGrows(options: RoosterOptions, s: State, actions: seq<Action>)
    requires RunFrom(options, s, actions).Some?
    ensures s.sent <= RunFrom(options, s, actions).value.sent
    decreases actions
  {
    hide Next;
    if actions != [] {
      SentGrows(options, s, actions[0]);
      HistoryGrows(options, Next(options, s, actions[0]).value, actions[1..]);
    }
  }

  lemma SentGrows(options: RoosterOptions, s: State, a: Action)
    requires Next(options, s, a).Some?
    ensures s.sent <= Next(options, s, a).value.sent
  {
    hide AddTo, StartAcpDaemon, StoreAddr, ApplyLinkAttrs, MessageTree, AnProxyMessage, DecodeGraspMessage, Accepted;
    match a {
      case ByAnnouncer(d, act) => AnnouncerFrame(s, d, act);
      case ByMain(_) =>
      case ByListener(act) => ListenerFrame(options, s, act);
      case ByPicker(act) => PickerFrame(s, act);
    }
  }

  /** Picking a registrar succeeds, whatever order the interfaces are walked in. */
  ghost predicate Served(w: World) {
    forall order :: Enumerates(order, w.acp) ==> PickInOrder(w, order).Some?
  }

  lemma ServedIsAvailable(w: World)
    ensures Served(w) <==> KindAvailable(w, Http)
  {
    var order := Listed(w.acp);
    PickedFromListed(w, order);
    forall order | Enumerates(order, w.acp) {
      PickedFromListed(w, order);
    }
  }

  /** A proxy announced on a join link keeps its promise.  Once a tree with an AN_Proxy objective
      has been sent, picking a registrar succeeds in every later state, as long as no running daemon
      has been replaced since the cache behind the announcement was written, although that cache was
      copied out and every lock on it released before sending. */
  lemma AnnouncedProxyHasRegistrar(options: RoosterOptions, actions: seq<Action>, s: State, i: nat,
                                   more: seq<Action>, later: State)
    requires Exec(options, actions) == Some(s) && i < |s.sent| && Announces(s.sent[i].tree)
    requires RunFrom(options, s, more) == Some(later) && later.epoch == s.sent[i].epoch
    ensures Served(later.w)
  {
    InvOfRun(options, actions);
    InvFrom(options, s, more);
    HistoryGrows(options, s, more);
    hide RunFrom, Announces, LockDiscipline, Names, ReadsLocked, CacheCovers, ScanCovers, Served;
    assert later.sent[i] == s.sent[i];
    ServedIsAvailable(later.w);
  }

  /** Picks that run step by step beside everything else: every pledge that came while a proxy
      stood announced in the present epoch was given a registrar, on every run. */
  lemma LatePledgesAreServed(options: RoosterOptions, actions: seq<Action>, i: nat)
    requires Exec(options, actions).Some?
    requires i < |Exec(options, actions).value.answers| && Exec(options, actions).value.answers[i].late
    ensures Exec(options, actions).value.answers[i].result.Some?
  {
    InvOfRun(options, actions);
  }

  // ---------- when a served proxy stops being served ----------

  /** How one step changes what is available: replacing a daemon leaves what the other interfaces
      hold, and every other step at most adds the kind that an announcer is adding. */
  lemma AvailableExactly(options: RoosterOptions, s: State, a: Action, kind: Kind)
    requires Names(s) && Next(options, s, a).Some?
    ensures KindAvailable(Next(options, s, a).value.w, kind) <==>
            if Restarting(options, s, a) then HeldElsewhere(s.w, s.listener.k, kind)
            else KindAvailable(s.w, kind)
                 || exists k :: k in s.w.acp && AddsTo(s, a, k) && s.announcers[a.d].rest[0].rtype.Kind() == kind
  {
    hide Next, Names;
    var s' := Next(options, s, a).value;
    forall k | k in s.w.acp
      ensures k in s'.w.acp
      ensures HasKind(TableOf(s'.w, k), kind) <==>
              if Replaces(options, s, a, k) then false
              else HasKind(TableOf(s.w, k), kind) || (AddsTo(s, a, k) && s.announcers[a.d].rest[0].rtype.Kind() == kind)
    {
      TablesAfter(options, s, a, k);
      if AddsTo(s, a, k) {
        HasKindAfterAdd(TableOf(s.w, k), s.announcers[a.d].rest[0], kind);
      }
    }
    forall k | k !in s.w.acp && k in s'.w.acp
      ensures !HasKind(TableOf(s'.w, k), kind)
    {
      TablesAfter(options, s, a, k);
    }
  }

  /** The action replaces the daemon of the last interface that holds an HTTP registrar. */
  predicate LosesLast(options: RoosterOptions, s: State, a: Action) {
    Restarting(options, s, a) && !HeldElsewhere(s.w, s.listener.k, Http)
  }

  /** A pick that would succeed before a step succeeds after it exactly if the step does not
      replace the last holder. */
  lemma ServedAfterStep(options: RoosterOptions, s: State, a: Action)
    requires Names(s) && Next(options, s, a).Some? && Served(s.w)
    ensures Served(Next(options, s, a).value.w) <==> !LosesLast(options, s, a)
  {
    hide Next, Names, Served, Restarting;
    ServedIsAvailable(s.w);
    ServedIsAvailable(Next(options, s, a).value.w);
    AvailableExactly(options, s, a, Http);
  }

  /** The same over runs: from a reachable state in which picks succeed they go on succeeding
      throughout a run if and only if no step of it replaces the last holder. */
  lemma ServedExactly(options: RoosterOptions, s: State, more: seq<Action>)
    requires Inv(s) && Served(s.w)
    ensures (forall n, t :: 0 <= n <= |more| && RunFrom(options, s, more[..n]) == Some(t) ==> Served(t.w))
            <==> (forall n, t :: 0 <= n < |more| && RunFrom(options, s, more[..n]) == Some(t) ==> !LosesLast(options, t, more[n]))
  {
    hide RunFrom, Inv, Served, LosesLast;
    if forall n, t :: 0 <= n < |more| && RunFrom(options, s, more[..n]) == Some(t) ==> !LosesLast(options, t, more[n]) {
      forall n, t | 0 <= n <= |more| && RunFrom(options, s, more[..n]) == Some(t)
        ensures Served(t.w)
      {
        ServedUpTo(options, s, more, n);
      }
    }
    if forall n, t :: 0 <= n <= |more| && RunFrom(options, s, more[..n]) == Some(t) ==> Served(t.w) {
      forall n, t | 0 <= n < |more| && RunFrom(options, s, more[..n]) == Some(t)
        ensures !LosesLast(options, t, more[n])
      {
        OneMore(options, s, more, n);
        InvFrom(options, s, more[..n]);
        if LosesLast(options, t, more[n]) {
          LosingIsEnabled(options, t, more[n]);
          assert Served(Next(options, t, more[n]).value.w);
          NamesOf(t);
          ServedAfterStep(options, t, more[n]);
        }
      }
    }
  }

  /** So an announced proxy, announced from a cache written in the present epoch, has a registrar
      throughout a run if and only if no step of it replaces the last holder. */
  lemma AnnouncedProxyExactly(options: RoosterOptions, actions: seq<Action>, s: State, i: nat, more: seq<Action>)
    requires Exec(options, actions) == Some(s) && i < |s.sent|
    requires Announces(s.sent[i].tree) && s.sent[i].epoch == s.epoch
    ensures (forall n, t :: 0 <= n <= |more| && RunFrom(options, s, more[..n]) == Some(t) ==> Served(t.w))
            <==> (forall n, t :: 0 <= n < |more| && RunFrom(options, s, more[..n]) == Some(t) ==> !LosesLast(options, t, more[n]))
  {
    NoSteps(options, s);
    AnnouncedProxyHasRegistrar(options, actions, s, i, [], s);
    InvOfRun(options, actions);
    ServedExactly(options, s, more);
  }

  lemma NamesOf(s: State)
    requires Inv(s)
    ensures Names(s)
  {}

  lemma LosingIsEnabled(options: RoosterOptions, s: State, a: Action)
    requires LosesLast(options, s, a)
    ensures Next(options, s, a).Some?
  {}

  lemma OneMore(options: RoosterOptions, s: State, more: seq<Action>, n: nat)
    requires n < |more| && RunFrom(options, s, more[..n]).Some?
    ensures RunFrom(options, s, more[..n+1]) == Next(options, RunFrom(options, s, more[..n]).value, more[n])
  {
    hide Next;
    assert more[..n+1] == more[..n] + [more[n]];
    assert [more[n]][1..] == [];
    RunThen(options, s, more[..n], [more[n]]);
  }

  lemma {:induction false} ServedUpTo(options: RoosterOptions, s: State, more: seq<Action>, n: nat)
    requires Inv(s) && Served(s.w) && n <= |more| && RunFrom(options, s, more[..n]).Some?
    requires forall m, t :: 0 <= m < |more| && RunFrom(options, s, more[..m]) == Some(t) ==> !LosesLast(options, t, more[m])
    ensures Served(RunFrom(options, s, more[..n]).value.w)
  {
    hide Inv, Served, LosesLast, Next;
    if n > 0 {
      assert more[..n] == more[..n-1] + [more[n-1]];
      RunThen(options, s, more[..n-1], [more[n-1]]);
      ServedUpTo(options, s, more, n - 1);
      OneMore(options, s, more, n - 1);
      InvFrom(options, s, more[..n-1]);
      var t := RunFrom(options, s, more[..n-1]).value;
      NamesOf(t);
      ServedAfterStep(options, t, more[n-1]);
    }
  }
}
