/** Rooster as a transition system with explicit lock ownership.  A run is any
    interleaving of steps, each of which is enabled only if the locks it needs are free.

    Its tasks are the main loop, the netlink listener, the pledge connections (of which at most
    one can be picking a registrar, because picking happens under the lock on everything), and
    one announcer for every ACP daemon ever started: a replaced daemon's task lives on. */
module LockProtocol {
  import opened Wrappers
  import opened Grasp
  import opened Registrars
  import opened World
  import opened Interfaces

  /** The n-th ACP daemon started on an interface. */
  datatype DaemonId = DaemonId(ifindex: IfIndex, generation: nat)

  datatype Task = Main | Listener | Picker | Announcer(daemon: DaemonId)

  datatype Lock = AllLock | FlagLock | JoinLock | IfaceLock(ifindex: IfIndex) | TableLock(daemon: DaemonId)

  /** `registrar_announce` under the table lock: add, take the flag lock, raise, release. */
  datatype AnnouncerPc =
    | Waiting
    | Processing(rest: seq<Accept>)
    | Added(last: Accept, rest: seq<Accept>)
    | Raising(last: Accept, rest: seq<Accept>)
    | Raised(rest: seq<Accept>)

  /** One round of the main loop: update the cache under the lock on everything and the flag
      lock, copy it out, then announce under the lock of the join map. */
  datatype MainPc =
    | Sleeping
    | HoldsAll
    | HoldsFlag
    | Scanning(todo: set<IfIndex>, acc: Proxies)
    | OnIface(k: IfIndex, todo: set<IfIndex>, acc: Proxies)
    | OnTable(k: IfIndex, d: DaemonId, todo: set<IfIndex>, acc: Proxies)
    | Written
    | Cleared
    | ToCopy
    | Copied(copy: Proxies)
    | Announcing(links: set<IfIndex>, copy: Proxies)
    | Sending(k: IfIndex, links: set<IfIndex>, copy: Proxies)

  /** `store_link_info` under the lock on everything. */
  datatype ListenerPc =
    | Listening
    | HasLink(k: IfIndex, attrs: seq<LinkAttr>, httpsPort: uint16)
    | WentUp(k: IfIndex, attrs: seq<LinkAttr>, httpsPort: uint16)
    | Starting(k: IfIndex, attrs: seq<LinkAttr>, httpsPort: uint16)
    | AcpSeen(k: IfIndex, httpsPort: uint16)
    | InJoinMap(k: IfIndex, httpsPort: uint16)
    | Leaving(k: IfIndex)
    | LinkDone

  /** `pick_available_https_registrar` under the lock on everything.  `late` records whether a
      proxy stood announced in the present epoch when the pick began. */
  datatype PickerPc =
    | NoPledge
    | Walking(todo: set<IfIndex>, late: bool)
    | AtIface(k: IfIndex, todo: set<IfIndex>, late: bool)
    | AtTable(k: IfIndex, d: DaemonId, todo: set<IfIndex>, late: bool)
    | Answered(result: Option<SocketAddr>, late: bool)

  datatype Answer = Answer(result: Option<SocketAddr>, late: bool)

  /** A tree sent on a join link, and the epoch in which the cache behind it was written. */
  datatype Sent = Sent(tree: Cbor, epoch: nat)

  /** `orphans` are the tables of replaced daemons.  The rest from `epoch` on is history: a new
      epoch begins whenever a running ACP daemon is replaced; `cacheEpoch` and `copyEpoch` are the
      epochs in which the cache, and the copy the main loop took of it, were written; `sent` are
      the trees sent on join links, and `answers` what pledges got. */
  datatype State = State(
    w: World,
    orphans: map<DaemonId, seq<Registrar>>,
    locks: map<Lock, Task>,
    main: MainPc,
    listener: ListenerPc,
    picker: PickerPc,
    announcers: map<DaemonId, AnnouncerPc>,
    epoch: nat,
    cacheEpoch: nat,
    copyEpoch: nat,
    sent: seq<Sent>,
    answers: seq<Answer>)

  const START := State(INITIAL, map[], map[], Sleeping, Listening, NoPledge, map[], 0, 0, 0, [], [])

  /** The daemon that the interface refers to now. */
  function Current(w: World, k: IfIndex): DaemonId {
    DaemonId(k, Entry(w, k).acpStarts)
  }

  predicate IsCurrent(w: World, d: DaemonId) {
    Entry(w, d.ifindex).table.Some? && d == Current(w, d.ifindex)
  }

  /** Adds to the table of a daemon, whether or not its interface still refers to it. */
  function AddTo(s: State, d: DaemonId, a: Accept): State {
    if IsCurrent(s.w, d) then
      var rec := Entry(s.w, d.ifindex);
      s.(w := Put(s.w, d.ifindex, rec.(table := Some(AddOne(rec.table.value, a)))))
    else if d in s.orphans then
      s.(orphans := s.orphans[d := AddOne(s.orphans[d], a)])
    else s
  }

  /** The tree decodes to a message with an objective. */
  predicate Announces(tree: Cbor) {
    DecodeGraspMessage(tree).Ok? && DecodeGraspMessage(tree).value.objectives != []
  }

  /** A proxy was announced from a cache written in the epoch. */
  predicate ProxyAnnounced(sent: seq<Sent>, epoch: nat) {
    exists i :: 0 <= i < |sent| && sent[i].epoch == epoch && Announces(sent[i].tree)
  }

  // ---------- steps ----------

  datatype AnnouncerAct = Receive(tree: Cbor) | Add | TakeFlag | RaiseFlag | DropFlag | FinishMessage

  datatype MainAct =
    | TakeAll | TakeFlagToo | TestFlag
    | ScanIface(k: IfIndex) | ScanTable | ReadTable
    | WriteCache | ClearFlag | ReleaseFlag | CopyOut
    | TakeJoinMap | TakeJoinIface(k: IfIndex) | Send(id: uint32) | Sleep

  datatype ListenerAct =
    | GetAddr(k: IfIndex, addrAttrs: seq<AddrAttr>)
    | GetLink(k: IfIndex, linkAttrs: seq<LinkAttr>, httpsPort: uint16)
    | StoreAttrs | TakeIface | MaybeStartAcp | MaybeEnterJoinMap | StartJoinDaemon | DropIface | FinishLink

  datatype PickerAct = Begin | LookAtIface(k: IfIndex) | LookAtTable | LookForHttp | GiveUp | Leave

  datatype Action =
    | ByAnnouncer(d: DaemonId, announcerAct: AnnouncerAct)
    | ByMain(mainAct: MainAct)
    | ByListener(listenerAct: ListenerAct)
    | ByPicker(pickerAct: PickerAct)

  function Take(s: State, l: Lock, t: Task): State {
    s.(locks := s.locks[l := t])
  }

  function Drop(s: State, ls: set<Lock>): State {
    s.(locks := s.locks - ls)
  }

  function AtPc(s: State, d: DaemonId, pc: AnnouncerPc): State {
    s.(announcers := s.announcers[d := pc])
  }

  function NextAnnouncer(s: State, d: DaemonId, a: AnnouncerAct): Option<State>
    requires d in s.announcers
  {
    match (a, s.announcers[d])
    case (Receive(tree), Waiting) =>
      if TableLock(d) !in s.locks && DecodeGraspMessage(tree).Ok?
      then Some(AtPc(Take(s, TableLock(d), Announcer(d)), d, Processing(Accepted(DecodeGraspMessage(tree).value))))
      else None
    case (Add, Processing(rest)) =>
      if rest != [] then Some(AtPc(AddTo(s, d, rest[0]), d, Added(rest[0], rest[1..]))) else None
    case (TakeFlag, Added(last, rest)) =>
      if FlagLock !in s.locks then Some(AtPc(Take(s, FlagLock, Announcer(d)), d, Raising(last, rest))) else None
    case (RaiseFlag, Raising(_, rest)) =>
      Some(AtPc(s.(w := s.w.(flag := true)), d, Raised(rest)))
    case (DropFlag, Raised(rest)) =>
      Some(AtPc(Drop(s, {FlagLock}), d, Processing(rest)))
    case (FinishMessage, Processing(rest)) =>
      if rest == [] then Some(AtPc(Drop(s, {TableLock(d)}), d, Waiting)) else None
    case _ => None
  }

  function NextMain(s: State, a: MainAct): Option<State> {
    match (a, s.main)
    case (TakeAll, Sleeping) =>
      if AllLock !in s.locks then Some(Take(s, AllLock, Main).(main := HoldsAll)) else None
    case (TakeFlagToo, HoldsAll) =>
      if FlagLock !in s.locks then Some(Take(s, FlagLock, Main).(main := HoldsFlag)) else None
    case (TestFlag, HoldsFlag) =>
      Some(s.(main := if s.w.flag then Scanning(s.w.acp, NONE_AVAILABLE) else Written))
    case (ScanIface(k), Scanning(todo, acc)) =>
      if k in todo && IfaceLock(k) !in s.locks
      then Some(Take(s, IfaceLock(k), Main).(main := OnIface(k, todo, acc))) else None
    case (ScanTable, OnIface(k, todo, acc)) =>
      var d := Current(s.w, k);
      if Entry(s.w, k).table.None? then Some(Drop(s, {IfaceLock(k)}).(main := Scanning(todo - {k}, acc)))
      else if TableLock(d) !in s.locks then Some(Take(s, TableLock(d), Main).(main := OnTable(k, d, todo, acc)))
      else None
    case (ReadTable, OnTable(k, d, todo, acc)) =>
      Some(Drop(s, {TableLock(d), IfaceLock(k)})
           .(main := Scanning(todo - {k}, acc.Or(Available(TableOf(s.w, k))))))
    case (WriteCache, Scanning(todo, acc)) =>
      if todo == {} then Some(s.(w := s.w.(proxies := acc), main := Written, cacheEpoch := s.epoch)) else None
    case (ClearFlag, Written) =>
      Some(s.(w := s.w.(flag := false), main := Cleared))
    case (ReleaseFlag, Cleared) =>
      Some(Drop(s, {FlagLock}).(main := ToCopy))
    case (CopyOut, ToCopy) =>
      Some(Drop(s, {AllLock}).(main := Copied(s.w.proxies), copyEpoch := s.cacheEpoch))
    case (TakeJoinMap, Copied(copy)) =>
      if JoinLock !in s.locks then Some(Take(s, JoinLock, Main).(main := Announcing(s.w.joinlinks, copy))) else None
    case (TakeJoinIface(k), Announcing(links, copy)) =>
      if k in links && IfaceLock(k) !in s.locks
      then Some(Take(s, IfaceLock(k), Main).(main := Sending(k, links, copy))) else None
    case (Send(id), Sending(k, links, copy)) =>
      var rec := Entry(s.w, k);
      Some(Drop(s, {IfaceLock(k)}).(main := Announcing(links - {k}, copy), sent := s.sent +
           (if rec.joinPort.Some?
            then [Sent(MessageTree(AnProxyMessage(rec.linklocal6, rec.joinPort.value, copy, id)), s.copyEpoch)] else [])))
    case (Sleep, Announcing(links, copy)) =>
      if links == {} then Some(Drop(s, {JoinLock}).(main := Sleeping)) else None
    case _ => None
  }

  /** Lists the interface and starts a daemon with an empty table and a task of its own; a table
      that it replaces is left to the old daemon's task, and a new epoch begins. */
  function StartAcpDaemon(s: State, k: IfIndex): State {
    var replaced, rec := Current(s.w, k), Entry(s.w, k);
    var w := StartAcp(s.w, k);
    s.(w := w,
       orphans := if rec.table.Some? then s.orphans[replaced := rec.table.value] else s.orphans,
       announcers := s.announcers[Current(w, k) := Waiting],
       epoch := if rec.table.Some? then s.epoch + 1 else s.epoch)
  }

  /** The action starts an ACP daemon on an interface where one is running: the guard of
      `start_acp`, and a daemon to replace. */
  predicate Replaces(options: RoosterOptions, s: State, a: Action, k: IfIndex) {
    && a == ByListener(MaybeStartAcp) && s.listener.Starting? && s.listener.k == k
    && options.IsValidAcpInterface(Entry(s.w, k).ifname) && Entry(s.w, k).table.Some?
  }

  function NextListener(options: RoosterOptions, s: State, a: ListenerAct): Option<State> {
    match (a, s.listener)
    case (GetAddr(k, attrs), Listening) =>
      if AllLock !in s.locks && IfaceLock(k) !in s.locks then Some(s.(w := StoreAddr(s.w, k, attrs))) else None
    case (GetLink(k, attrs, port), Listening) =>
      if AllLock !in s.locks then Some(Take(s, AllLock, Listener).(listener := HasLink(k, attrs, port))) else None
    case (StoreAttrs, HasLink(k, attrs, port)) =>
      var before := Entry(s.w, k);
      var after := ApplyLinkAttrs(before, attrs);
      if IfaceLock(k) !in s.locks
      then Some(s.(w := Put(s.w, k, after),
                   listener := if before.operState != Up && after.operState == Up then WentUp(k, attrs, port) else LinkDone))
      else None
    case (TakeIface, WentUp(k, attrs, port)) =>
      if IfaceLock(k) !in s.locks
      then Some(Take(s, IfaceLock(k), Listener)
                .(listener := if Entry(s.w, k).ignored then Leaving(k) else Starting(k, attrs, port)))
      else None
    case (MaybeStartAcp, Starting(k, _, port)) =>
      Some((if options.IsValidAcpInterface(Entry(s.w, k).ifname) then StartAcpDaemon(s, k) else s)
           .(listener := AcpSeen(k, port)))
    case (MaybeEnterJoinMap, AcpSeen(k, port)) =>
      if !options.IsValidJoinlinkInterface(Entry(s.w, k).ifname) then Some(s.(listener := Leaving(k)))
      else if JoinLock !in s.locks then Some(Take(s, JoinLock, Listener).(listener := InJoinMap(k, port)))
      else None
    case (StartJoinDaemon, InJoinMap(k, port)) =>
      Some(Drop(s.(w := StartJoin(s.w, k, port)), {JoinLock}).(listener := Leaving(k)))
    case (DropIface, Leaving(k)) =>
      Some(Drop(s, {IfaceLock(k)}).(listener := LinkDone))
    case (FinishLink, LinkDone) =>
      Some(Drop(s, {AllLock}).(listener := Listening))
    case _ => None
  }

  function NextPicker(s: State, a: PickerAct): Option<State> {
    match (a, s.picker)
    case (Begin, NoPledge) =>
      if AllLock !in s.locks
      then Some(Take(s, AllLock, Picker).(picker := Walking(s.w.acp, ProxyAnnounced(s.sent, s.epoch)))) else None
    case (LookAtIface(k), Walking(todo, late)) =>
      if k in todo && IfaceLock(k) !in s.locks
      then Some(Take(s, IfaceLock(k), Picker).(picker := AtIface(k, todo, late))) else None
    case (LookAtTable, AtIface(k, todo, late)) =>
      var d := Current(s.w, k);
      if Entry(s.w, k).table.None? then Some(Drop(s, {IfaceLock(k)}).(picker := Walking(todo - {k}, late)))
      else if TableLock(d) !in s.locks then Some(Take(s, TableLock(d), Picker).(picker := AtTable(k, d, todo, late)))
      else None
    case (LookForHttp, AtTable(k, d, todo, late)) =>
      var found := FirstHttp(TableOf(s.w, k));
      Some(Drop(s, {TableLock(d), IfaceLock(k)})
           .(picker := if found.Some? then Answered(found, late) else Walking(todo - {k}, late)))
    case (GiveUp, Walking(todo, late)) =>
      if todo == {} then Some(s.(picker := Answered(None, late))) else None
    case (Leave, Answered(result, late)) =>
      Some(Drop(s, {AllLock}).(picker := NoPledge, answers := s.answers + [Answer(result, late)]))
    case _ => None
  }

  /** The state after an action, if the action is enabled. */
  function Next(options: RoosterOptions, s: State, a: Action): Option<State> {
    match a
    case ByAnnouncer(d, act) => if d in s.announcers then NextAnnouncer(s, d, act) else None
    case ByMain(act) => NextMain(s, act)
    case ByListener(act) => NextListener(options, s, act)
    case ByPicker(act) => NextPicker(s, act)
  }

  /** The state after some actions, if every one of them was enabled in turn. */
  function RunFrom(options: RoosterOptions, s: State, actions: seq<Action>): Option<State>
    decreases actions
  {
    if actions == [] then Some(s) else
    match Next(options, s, actions[0])
    case None => None
    case Some(s') => RunFrom(options, s', actions[1..])
  }

  /** The state after a whole run. */
  function Exec(options: RoosterOptions, actions: seq<Action>): Option<State> {
    RunFrom(options, START, actions)
  }

  lemma NoSteps(options: RoosterOptions, s: State)
    ensures RunFrom(options, s, []) == Some(s)
  {}

  lemma {:induction false} RunThen(options: RoosterOptions, s: State, first: seq<Action>, second: seq<Action>)
    ensures RunFrom(options, s, first + second) ==
            match RunFrom(options, s, first)
            case None => None
            case Some(s') => RunFrom(options, s', second)
    decreases first
  {
    hide Next;
    if first == [] {
      assert first + second == second;
    } else {
      var next := Next(options, s, first[0]);
      assert (first + second)[1..] == first[1..] + second;
      if next.Some? {
        RunThen(options, next.value, first[1..], second);
      }
    }
  }
}
