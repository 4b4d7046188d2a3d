/** The steps of the lock protocol, taken by one task without interruption, amount to the events of
    `World`: what the classes of `Interfaces` do in one call is one pass of the corresponding task. */
module LockProtocolPasses {
  import opened Wrappers
  import opened Grasp
  import opened Registrars
  import opened RegistrarProperties
  import opened World
  import opened WorldProperties
  import opened Interfaces
  import opened LockProtocol
  import opened LockProtocolProperties

  // ---------- a few steps at a time ----------

  lemma One(options: RoosterOptions, s: State, a: Action, t: State)
    requires Next(options, s, a) == Some(t)
    ensures RunFrom(options, s, [a]) == Some(t)
  {
    hide Next;
    assert [a][1..] == [];
  }

  lemma Two(options: RoosterOptions, s: State, a: Action, t: State, b: Action, u: State)
    requires Next(options, s, a) == Some(t) && Next(options, t, b) == Some(u)
    ensures RunFrom(options, s, [a, b]) == Some(u)
  {
    hide Next;
    One(options, t, b, u);
    assert [a, b][1..] == [b];
  }

  lemma Three(options: RoosterOptions, s: State, a: Action, t: State, b: Action, u: State, c: Action, v: State)
    requires Next(options, s, a) == Some(t) && Next(options, t, b) == Some(u) && Next(options, u, c) == Some(v)
    ensures RunFrom(options, s, [a, b, c]) == Some(v)
  {
    hide Next;
    Two(options, t, b, u, c, v);
    assert [a, b, c][1..] == [b, c];
  }

  // ---------- the updater ----------

  function ScanPass(order: seq<IfIndex>): seq<Action> {
    if order == [] then []
    else ScanPass(order[..|order|-1])
         + [ByMain(ScanIface(order[|order|-1])), ByMain(ScanTable), ByMain(ReadTable)]
  }

  function UpdatePass(flag: bool, order: seq<IfIndex>): seq<Action> {
    [ByMain(TakeAll), ByMain(TakeFlagToo), ByMain(TestFlag)]
    + (if flag then ScanPass(order) + [ByMain(WriteCache)] else [])
    + [ByMain(ClearFlag), ByMain(ReleaseFlag), ByMain(CopyOut)]
  }

  /** The updater holds its two locks, nobody holds any other, and it may read every interface it
      still has to read. */
  ghost predicate MayScan(s: State, order: seq<IfIndex>) {
    && s.main.Scanning?
    && s.locks == map[AllLock := Main, FlagLock := Main]
    && NoRepeats(order)
    && forall k :: k in order ==> k in s.main.todo && Entry(s.w, k).table.Some?
  }

  lemma ScanOne(options: RoosterOptions, s: State, k: IfIndex)
    requires MayScan(s, [k])
    ensures RunFrom(options, s, [ByMain(ScanIface(k)), ByMain(ScanTable), ByMain(ReadTable)]) ==
            Some(s.(main := Scanning(s.main.todo - {k}, s.main.acc.Or(Available(TableOf(s.w, k))))))
  {
    hide NextAnnouncer, NextListener, NextPicker, Available, TableOf, Entry;
    assert k in [k];
    var todo, acc, d := s.main.todo, s.main.acc, Current(s.w, k);
    var t := Take(s, IfaceLock(k), Main).(main := OnIface(k, todo, acc));
    var u := Take(t, TableLock(d), Main).(main := OnTable(k, d, todo, acc));
    var v := s.(main := Scanning(todo - {k}, acc.Or(Available(TableOf(s.w, k)))));
    assert u.locks - {TableLock(d), IfaceLock(k)} == s.locks;
    Three(options, s, ByMain(ScanIface(k)), t, ByMain(ScanTable), u, ByMain(ReadTable), v);
  }

  lemma {:induction false} ScanPassCollects(options: RoosterOptions, s: State, order: seq<IfIndex>)
    requires MayScan(s, order)
    ensures RunFrom(options, s, ScanPass(order)) ==
            Some(s.(main := Scanning(s.main.todo - (set k | k in order), s.main.acc.Or(ScanInOrder(s.w, order)))))
  {
    hide Available, TableOf, Entry, Next;
    if order == [] {
      assert s.main.todo - (set k | k in order) == s.main.todo;
    } else {
      var n := |order| - 1;
      var front, k := order[..n], order[n];
      assert forall j :: j in front ==> j in order;
      assert k !in front;
      ScanPassCollects(options, s, front);
      var t := s.(main := Scanning(s.main.todo - (set j | j in front), s.main.acc.Or(ScanInOrder(s.w, front))));
      ScanOne(options, t, k);
      RunThen(options, s, ScanPass(front), [ByMain(ScanIface(k)), ByMain(ScanTable), ByMain(ReadTable)]);
      assert s.main.todo - (set j | j in front) - {k} == s.main.todo - (set j | j in order) by {
        assert forall j :: j in order <==> j in front || j == k;
      }
    }
  }

  lemma UpdateBegins(options: RoosterOptions, s: State)
    requires s.main.Sleeping? && s.locks == map[]
    ensures RunFrom(options, s, [ByMain(TakeAll), ByMain(TakeFlagToo), ByMain(TestFlag)]) ==
            Some(s.(locks := map[AllLock := Main, FlagLock := Main],
                    main := if s.w.flag then Scanning(s.w.acp, NONE_AVAILABLE) else Written))
  {
    hide NextAnnouncer, NextListener, NextPicker, RunFrom;
    var h := s.(locks := map[AllLock := Main], main := HoldsAll);
    var f := s.(locks := map[AllLock := Main, FlagLock := Main], main := HoldsFlag);
    Three(options, s, ByMain(TakeAll), h, ByMain(TakeFlagToo), f, ByMain(TestFlag),
          f.(main := if s.w.flag then Scanning(s.w.acp, NONE_AVAILABLE) else Written));
  }

  lemma UpdateEnds(options: RoosterOptions, s: State)
    requires s.main.Written? && s.locks == map[AllLock := Main, FlagLock := Main]
    ensures RunFrom(options, s, [ByMain(ClearFlag), ByMain(ReleaseFlag), ByMain(CopyOut)]) ==
            Some(s.(w := s.w.(flag := false), locks := map[], main := Copied(s.w.proxies), copyEpoch := s.cacheEpoch))
  {
    hide NextAnnouncer, NextListener, NextPicker, RunFrom;
    var d := s.(w := s.w.(flag := false), main := Cleared);
    var e := d.(locks := map[AllLock := Main], main := ToCopy);
    assert d.locks - {FlagLock} == e.locks;
    assert e.locks - {AllLock} == map[];
    Three(options, s, ByMain(ClearFlag), d, ByMain(ReleaseFlag), e, ByMain(CopyOut),
          s.(w := s.w.(flag := false), locks := map[], main := Copied(s.w.proxies), copyEpoch := s.cacheEpoch));
  }

  lemma ScanAndWrite(options: RoosterOptions, b: State, order: seq<IfIndex>)
    requires b.main == Scanning(b.w.acp, NONE_AVAILABLE) && b.locks == map[AllLock := Main, FlagLock := Main] && Names(b)
    requires Enumerates(order, b.w.acp) && NoRepeats(order)
    ensures RunFrom(options, b, ScanPass(order) + [ByMain(WriteCache)]) ==
            Some(b.(w := b.w.(proxies := Scan(b.w)), main := Written, cacheEpoch := b.epoch))
  {
    ScanPassCollects(options, b, order);
    ScanAnyOrder(b.w, order);
    hide Scan, ScanInOrder;
    var r := b.(main := Scanning({}, Scan(b.w)));
    assert b.w.acp - (set k | k in order) == {};
    assert NONE_AVAILABLE.Or(Scan(b.w)) == Scan(b.w);
    One(options, r, ByMain(WriteCache), b.(w := b.w.(proxies := Scan(b.w)), main := Written, cacheEpoch := b.epoch));
    RunThen(options, b, ScanPass(order), [ByMain(WriteCache)]);
  }

  /** The cache updated and copied out, and the epochs in which that was done. */
  function AfterUpdate(s: State): State {
    var written := if s.w.flag then s.epoch else s.cacheEpoch;
    s.(w := Update(s.w), main := Copied(Update(s.w).proxies), cacheEpoch := written, copyEpoch := written)
  }

  /** An update that nobody interrupts, walking the map in any order, is one `UpdateTick`; the
      copy it hands to the announcements is the new cache. */
  lemma UninterruptedUpdate(options: RoosterOptions, s: State, order: seq<IfIndex>)
    requires s.main.Sleeping? && s.locks == map[] && Names(s)
    requires Enumerates(order, s.w.acp) && NoRepeats(order)
    ensures RunFrom(options, s, UpdatePass(s.w.flag, order)) ==
            Some(AfterUpdate(s))
  {
    hide RunFrom, Scan, ScanPass, Enumerates, NoRepeats;
    var start := [ByMain(TakeAll), ByMain(TakeFlagToo), ByMain(TestFlag)];
    var middle := if s.w.flag then ScanPass(order) + [ByMain(WriteCache)] else [];
    var end := [ByMain(ClearFlag), ByMain(ReleaseFlag), ByMain(CopyOut)];
    UpdateBegins(options, s);
    var b := RunFrom(options, s, start).value;
    var c := b.(w := if s.w.flag then s.w.(proxies := Scan(s.w)) else s.w, main := Written,
                cacheEpoch := if s.w.flag then s.epoch else s.cacheEpoch);
    assert RunFrom(options, b, middle) == Some(c) by {
      hide Names;
      if s.w.flag {
        assert Names(b) by { NamesSame(s, b); }
        ScanAndWrite(options, b, order);
      } else {
        NoSteps(options, b);
      }
    }
    UpdateEnds(options, c);
    RunThen(options, s, start, middle);
    RunThen(options, s, start + middle, end);
  }

  lemma NamesSame(s: State, s': State)
    requires Names(s) && s'.w == s.w && s'.announcers == s.announcers && s'.orphans == s.orphans
    ensures Names(s')
  {}

  function AnnouncePass(order: seq<IfIndex>, ids: IfIndex -> uint32): seq<Action> {
    if order == [] then [ByMain(Sleep)]
    else [ByMain(TakeJoinIface(order[0])), ByMain(Send(ids(order[0])))] + AnnouncePass(order[1..], ids)
  }

  /** One tree per join link, each built from the copy of the cache. */
  function Announcements(w: World, order: seq<IfIndex>, copy: Proxies, epoch: nat, ids: IfIndex -> uint32): seq<Sent>
    requires forall k :: k in order ==> Entry(w, k).joinPort.Some?
  {
    if order == [] then [] else
    var rec := Entry(w, order[0]);
    [Sent(MessageTree(AnProxyMessage(rec.linklocal6, rec.joinPort.value, copy, ids(order[0]))), epoch)]
    + Announcements(w, order[1..], copy, epoch, ids)
  }

  lemma SendOne(options: RoosterOptions, s: State, k: IfIndex, id: uint32)
    requires s.main.Announcing? && s.locks == map[JoinLock := Main] && k in s.main.links && Entry(s.w, k).joinPort.Some?
    ensures var rec := Entry(s.w, k);
            RunFrom(options, s, [ByMain(TakeJoinIface(k)), ByMain(Send(id))]) ==
            Some(s.(main := Announcing(s.main.links - {k}, s.main.copy),
                    sent := s.sent + [Sent(MessageTree(AnProxyMessage(rec.linklocal6, rec.joinPort.value, s.main.copy, id)), s.copyEpoch)]))
  {
    hide NextAnnouncer, NextListener, NextPicker, RunFrom, MessageTree, AnProxyMessage, Entry;
    var t := Take(s, IfaceLock(k), Main).(main := Sending(k, s.main.links, s.main.copy));
    assert t.locks - {IfaceLock(k)} == s.locks;
    var rec := Entry(s.w, k);
    Two(options, s, ByMain(TakeJoinIface(k)), t, ByMain(Send(id)),
        s.(main := Announcing(s.main.links - {k}, s.main.copy),
           sent := s.sent + [Sent(MessageTree(AnProxyMessage(rec.linklocal6, rec.joinPort.value, s.main.copy, id)), s.copyEpoch)]));
  }

  lemma {:induction false} AnnouncePassSends(options: RoosterOptions, s: State, order: seq<IfIndex>, ids: IfIndex -> uint32)
    requires s.main.Announcing? && s.locks == map[JoinLock := Main]
    requires Enumerates(order, s.main.links) && NoRepeats(order)
    requires forall k :: k in order ==> Entry(s.w, k).joinPort.Some?
    ensures RunFrom(options, s, AnnouncePass(order, ids)) ==
            Some(s.(main := Sleeping, locks := map[], sent := s.sent + Announcements(s.w, order, s.main.copy, s.copyEpoch, ids)))
    decreases order
  {
    hide Next, RunFrom, MessageTree, AnProxyMessage, Entry;
    if order == [] {
      assert s.main.links == {} && s.sent + [] == s.sent;
      FallsAsleep(options, s);
    } else {
      var k, rest := order[0], order[1..];
      SendOne(options, s, k, ids(k));
      var send := [ByMain(TakeJoinIface(k)), ByMain(Send(ids(k)))];
      var t := RunFrom(options, s, send).value;
      assert k !in rest && (forall j :: j in order <==> j in rest || j == k);
      AnnouncePassSends(options, t, rest, ids);
      RunThen(options, s, send, AnnouncePass(rest, ids));
      assert t.sent + Announcements(s.w, rest, s.main.copy, s.copyEpoch, ids) == s.sent + Announcements(s.w, order, s.main.copy, s.copyEpoch, ids);
    }
  }

  lemma FallsAsleep(options: RoosterOptions, s: State)
    requires s.main.Announcing? && s.locks == map[JoinLock := Main] && s.main.links == {}
    ensures RunFrom(options, s, [ByMain(Sleep)]) == Some(s.(main := Sleeping, locks := map[]))
  {
    hide NextAnnouncer, NextListener, NextPicker, RunFrom;
    assert s.locks - {JoinLock} == map[];
    One(options, s, ByMain(Sleep), s.(main := Sleeping, locks := map[]));
  }

  /** Announcing without interruption, walking the join map in any order, sends one tree per join
      link, built from that interface's address and port and from the copy of the cache. */
  lemma UninterruptedAnnounce(options: RoosterOptions, s: State, order: seq<IfIndex>, ids: IfIndex -> uint32)
    requires s.main.Copied? && s.locks == map[] && Names(s)
    requires Enumerates(order, s.w.joinlinks) && NoRepeats(order)
    ensures RunFrom(options, s, [ByMain(TakeJoinMap)] + AnnouncePass(order, ids)) ==
            Some(s.(main := Sleeping, sent := s.sent + Announcements(s.w, order, s.main.copy, s.copyEpoch, ids)))
  {
    hide NextAnnouncer, NextListener, NextPicker, RunFrom, AnnouncePass, Announcements, NoRepeats;
    var t := Take(s, JoinLock, Main).(main := Announcing(s.w.joinlinks, s.main.copy));
    One(options, s, ByMain(TakeJoinMap), t);
    AnnouncePassSends(options, t, order, ids);
    RunThen(options, s, [ByMain(TakeJoinMap)], AnnouncePass(order, ids));
  }

  // ---------- an announcer ----------

  function AddPass(d: DaemonId, n: nat): seq<Action> {
    if n == 0 then []
    else [ByAnnouncer(d, Add), ByAnnouncer(d, TakeFlag), ByAnnouncer(d, RaiseFlag), ByAnnouncer(d, DropFlag)]
         + AddPass(d, n - 1)
  }

  function HearPass(d: DaemonId, tree: Cbor, n: nat): seq<Action> {
    [ByAnnouncer(d, Receive(tree))] + AddPass(d, n) + [ByAnnouncer(d, FinishMessage)]
  }

  /** What an announcer's acceptances do to the world. */
  function AfterAdds(w: World, k: IfIndex, accepts: seq<Accept>): World
    requires Entry(w, k).table.Some?
  {
    var rec := Entry(w, k);
    Put(w, k, rec.(table := Some(AddAll(rec.table.value, accepts)))).(flag := w.flag || accepts != [])
  }

  lemma AddFirst(options: RoosterOptions, s: State, d: DaemonId, rest: seq<Accept>)
    requires d in s.announcers && s.announcers[d] == Processing(rest) && rest != []
    requires IsCurrent(s.w, d) && FlagLock !in s.locks
    ensures RunFrom(options, s, AddPass(d, 1)) ==
            Some(s.(w := AfterAdds(s.w, d.ifindex, [rest[0]]), announcers := s.announcers[d := Processing(rest[1..])]))
  {
    hide NextPicker, NextListener, NextMain, RunFrom, AddTo, AfterAdds, DecodeGraspMessage, Accepted, IsCurrent;
    var last, more := rest[0], rest[1..];
    var t := AtPc(AddTo(s, d, rest[0]), d, Added(last, more));
    var u := AtPc(Take(t, FlagLock, Announcer(d)), d, Raising(last, more));
    var v := AtPc(u.(w := u.w.(flag := true)), d, Raised(more));
    var x := AtPc(Drop(v, {FlagLock}), d, Processing(more));
    AddToKeeps(s, d, rest[0]);
    Two(options, s, ByAnnouncer(d, Add), t, ByAnnouncer(d, TakeFlag), u);
    Two(options, u, ByAnnouncer(d, RaiseFlag), v, ByAnnouncer(d, DropFlag), x);
    RunThen(options, s, [ByAnnouncer(d, Add), ByAnnouncer(d, TakeFlag)], [ByAnnouncer(d, RaiseFlag), ByAnnouncer(d, DropFlag)]);
    assert AddPass(d, 1) == [ByAnnouncer(d, Add), ByAnnouncer(d, TakeFlag)] + [ByAnnouncer(d, RaiseFlag), ByAnnouncer(d, DropFlag)];
    hide NextAnnouncer;
    AddedOne(s, d, rest[0]);
    assert x.locks == s.locks;
    assert x.announcers == s.announcers[d := Processing(more)];
  }

  lemma AddedOne(s: State, d: DaemonId, a: Accept)
    requires IsCurrent(s.w, d)
    ensures AddTo(s, d, a).(w := AddTo(s, d, a).w.(flag := true)) == s.(w := AfterAdds(s.w, d.ifindex, [a]))
  {
    hide AddOne;
    AddAllSnoc(Entry(s.w, d.ifindex).table.value, [], a);
    assert [] + [a] == [a];
  }

  lemma {:induction false} AddPassAddsAll(options: RoosterOptions, s: State, d: DaemonId, rest: seq<Accept>)
    requires d in s.announcers && s.announcers[d] == Processing(rest)
    requires IsCurrent(s.w, d) && FlagLock !in s.locks
    ensures RunFrom(options, s, AddPass(d, |rest|)) ==
            Some(s.(w := AfterAdds(s.w, d.ifindex, rest), announcers := s.announcers[d := Processing([])]))
    decreases rest
  {
    hide Next, AddOne;
    if rest == [] {
      assert s.announcers == s.announcers[d := Processing([])];
      assert s.w == AfterAdds(s.w, d.ifindex, []);
    } else {
      AddFirst(options, s, d, rest);
      var t := s.(w := AfterAdds(s.w, d.ifindex, [rest[0]]), announcers := s.announcers[d := Processing(rest[1..])]);
      AddPassAddsAll(options, t, d, rest[1..]);
      RunThen(options, s, AddPass(d, 1), AddPass(d, |rest| - 1));
      assert AddPass(d, |rest|) == AddPass(d, 1) + AddPass(d, |rest| - 1);
      AddAllAppend(Entry(s.w, d.ifindex).table.value, [rest[0]], rest[1..]);
      assert [rest[0]] + rest[1..] == rest;
      assert t.announcers[d := Processing([])] == s.announcers[d := Processing([])];
      assert AfterAdds(t.w, d.ifindex, rest[1..]) == AfterAdds(s.w, d.ifindex, rest) by {
        var k := d.ifindex;
        assert AfterAdds(t.w, k, rest[1..]).interfaces == AfterAdds(s.w, k, rest).interfaces;
      }
    }
  }

  /** A message that the running daemon of an interface handles without interruption is one
      `GraspMsg`. */
  lemma UninterruptedFlood(options: RoosterOptions, s: State, d: DaemonId, tree: Cbor)
    requires d in s.announcers && s.announcers[d].Waiting? && s.locks == map[] && IsCurrent(s.w, d)
    requires DecodeGraspMessage(tree).Ok?
    ensures var m := DecodeGraspMessage(tree).value;
            RunFrom(options, s, HearPass(d, tree, |Accepted(m)|)) == Some(s.(w := Hear(s.w, d.ifindex, m)))
  {
    hide RunFrom, AddPass, DecodeGraspMessage, Accepted, AddAll, AddTo;
    var m := DecodeGraspMessage(tree).value;
    var rest := Accepted(m);
    var t := AtPc(Take(s, TableLock(d), Announcer(d)), d, Processing(rest));
    One(options, s, ByAnnouncer(d, Receive(tree)), t);
    AddPassAddsAll(options, t, d, rest);
    var u := AtPc(t.(w := AfterAdds(s.w, d.ifindex, rest)), d, Processing([]));
    var v := AtPc(Drop(u, {TableLock(d)}), d, Waiting);
    One(options, u, ByAnnouncer(d, FinishMessage), v);
    RunThen(options, s, [ByAnnouncer(d, Receive(tree))], AddPass(d, |rest|));
    RunThen(options, s, [ByAnnouncer(d, Receive(tree))] + AddPass(d, |rest|), [ByAnnouncer(d, FinishMessage)]);
    assert v.locks == s.locks;
    assert v.announcers == s.announcers;
  }

  // ---------- the announcer of a replaced daemon ----------

  lemma OrphanAdd(s: State, d: DaemonId, a: Accept)
    requires !IsCurrent(s.w, d)
    ensures AddTo(s, d, a) == s.(orphans := AddTo(s, d, a).orphans)
  {}

  lemma OrphanAddFirst(options: RoosterOptions, s: State, d: DaemonId, rest: seq<Accept>)
    requires d in s.announcers && s.announcers[d] == Processing(rest) && rest != []
    requires !IsCurrent(s.w, d) && FlagLock !in s.locks
    ensures RunFrom(options, s, AddPass(d, 1)) ==
            Some(s.(w := s.w.(flag := true), orphans := AddTo(s, d, rest[0]).orphans,
                    announcers := s.announcers[d := Processing(rest[1..])]))
  {
    hide NextPicker, NextListener, NextMain, RunFrom, AddTo, AddOne, DecodeGraspMessage, Accepted, IsCurrent;
    var last, more := rest[0], rest[1..];
    var t := AtPc(AddTo(s, d, last), d, Added(last, more));
    var u := AtPc(Take(t, FlagLock, Announcer(d)), d, Raising(last, more));
    var v := AtPc(u.(w := u.w.(flag := true)), d, Raised(more));
    var x := AtPc(Drop(v, {FlagLock}), d, Processing(more));
    OrphanAdd(s, d, last);
    Two(options, s, ByAnnouncer(d, Add), t, ByAnnouncer(d, TakeFlag), u);
    Two(options, u, ByAnnouncer(d, RaiseFlag), v, ByAnnouncer(d, DropFlag), x);
    RunThen(options, s, [ByAnnouncer(d, Add), ByAnnouncer(d, TakeFlag)], [ByAnnouncer(d, RaiseFlag), ByAnnouncer(d, DropFlag)]);
    assert AddPass(d, 1) == [ByAnnouncer(d, Add), ByAnnouncer(d, TakeFlag)] + [ByAnnouncer(d, RaiseFlag), ByAnnouncer(d, DropFlag)];
    hide NextAnnouncer;
    assert x.locks == s.locks;
    assert x.announcers == s.announcers[d := Processing(more)];
  }

  lemma {:induction false} OrphanAddsAll(options: RoosterOptions, s: State, d: DaemonId, rest: seq<Accept>) returns (t: State)
    requires d in s.announcers && s.announcers[d] == Processing(rest)
    requires !IsCurrent(s.w, d) && FlagLock !in s.locks
    ensures RunFrom(options, s, AddPass(d, |rest|)) == Some(t)
    ensures t == s.(w := s.w.(flag := s.w.flag || rest != []), orphans := t.orphans,
                    announcers := s.announcers[d := Processing([])])
    decreases rest
  {
    hide Next, AddTo;
    if rest == [] {
      t := s;
      assert s.announcers == s.announcers[d := Processing([])];
    } else {
      OrphanAddFirst(options, s, d, rest);
      var u := RunFrom(options, s, AddPass(d, 1)).value;
      t := OrphanAddsAll(options, u, d, rest[1..]);
      RunThen(options, s, AddPass(d, 1), AddPass(d, |rest| - 1));
      assert AddPass(d, |rest|) == AddPass(d, 1) + AddPass(d, |rest| - 1);
      assert u.announcers[d := Processing([])] == s.announcers[d := Processing([])];
    }
  }

  /** A message that a replaced daemon handles without interruption is one `ReplacedMsg`. */
  lemma UninterruptedStray(options: RoosterOptions, s: State, d: DaemonId, tree: Cbor) returns (t: State)
    requires d in s.announcers && s.announcers[d].Waiting? && s.locks == map[] && !IsCurrent(s.w, d)
    requires DecodeGraspMessage(tree).Ok? && Entry(s.w, d.ifindex).acpStarts >= 2
    ensures var m := DecodeGraspMessage(tree).value;
            && RunFrom(options, s, HearPass(d, tree, |Accepted(m)|)) == Some(t)
            && t == s.(w := HearReplaced(s.w, d.ifindex, m), orphans := t.orphans)
  {
    hide NextPicker, NextListener, NextMain, RunFrom, AddPass, DecodeGraspMessage, Accepted, AddTo;
    var rest := Accepted(DecodeGraspMessage(tree).value);
    var u := AtPc(Take(s, TableLock(d), Announcer(d)), d, Processing(rest));
    One(options, s, ByAnnouncer(d, Receive(tree)), u);
    var v := OrphanAddsAll(options, u, d, rest);
    t := AtPc(Drop(v, {TableLock(d)}), d, Waiting);
    One(options, v, ByAnnouncer(d, FinishMessage), t);
    RunThen(options, s, [ByAnnouncer(d, Receive(tree))], AddPass(d, |rest|));
    RunThen(options, s, [ByAnnouncer(d, Receive(tree))] + AddPass(d, |rest|), [ByAnnouncer(d, FinishMessage)]);
    assert t.locks == s.locks;
    assert t.announcers == s.announcers;
  }

  // ---------- a pledge ----------

  function WalkPass(w: World, order: seq<IfIndex>): seq<Action> {
    if order == [] then [ByPicker(GiveUp)]
    else [ByPicker(LookAtIface(order[0])), ByPicker(LookAtTable), ByPicker(LookForHttp)]
         + if FirstHttp(TableOf(w, order[0])).Some? then [] else WalkPass(w, order[1..])
  }

  function PickPass(w: World, order: seq<IfIndex>): seq<Action> {
    [ByPicker(Begin)] + WalkPass(w, order) + [ByPicker(Leave)]
  }

  lemma LookOne(options: RoosterOptions, s: State, k: IfIndex)
    requires s.picker.Walking? && s.locks == map[AllLock := Picker]
    requires k in s.picker.todo && Entry(s.w, k).table.Some?
    ensures var found := FirstHttp(TableOf(s.w, k));
            RunFrom(options, s, [ByPicker(LookAtIface(k)), ByPicker(LookAtTable), ByPicker(LookForHttp)]) ==
            Some(s.(picker := if found.Some? then Answered(found, s.picker.late) else Walking(s.picker.todo - {k}, s.picker.late)))
  {
    hide NextAnnouncer, NextListener, NextMain, RunFrom, FirstHttp, TableOf, Entry;
    var todo, late, d := s.picker.todo, s.picker.late, Current(s.w, k);
    var found := FirstHttp(TableOf(s.w, k));
    var t := Take(s, IfaceLock(k), Picker).(picker := AtIface(k, todo, late));
    var u := Take(t, TableLock(d), Picker).(picker := AtTable(k, d, todo, late));
    assert u.locks - {TableLock(d), IfaceLock(k)} == s.locks;
    Three(options, s, ByPicker(LookAtIface(k)), t, ByPicker(LookAtTable), u, ByPicker(LookForHttp),
          s.(picker := if found.Some? then Answered(found, late) else Walking(todo - {k}, late)));
  }

  lemma {:induction false} WalkPassPicks(options: RoosterOptions, s: State, order: seq<IfIndex>)
    requires s.picker.Walking? && s.locks == map[AllLock := Picker]
    requires NoRepeats(order) && Enumerates(order, s.picker.todo)
    requires forall k :: k in order ==> Entry(s.w, k).table.Some?
    ensures RunFrom(options, s, WalkPass(s.w, order)) == Some(s.(picker := Answered(PickInOrder(s.w, order), s.picker.late)))
    decreases order
  {
    hide Next, RunFrom, FirstHttp, TableOf, Entry;
    if order == [] {
      assert s.picker.todo == {};
      GivesUp(options, s);
    } else {
      var k, rest := order[0], order[1..];
      LookOne(options, s, k);
      var look := [ByPicker(LookAtIface(k)), ByPicker(LookAtTable), ByPicker(LookForHttp)];
      if FirstHttp(TableOf(s.w, k)).Some? {
        assert WalkPass(s.w, order) == look;
      } else {
        assert k !in rest && (forall j :: j in order <==> j in rest || j == k);
        WalkPassPicks(options, s.(picker := Walking(s.picker.todo - {k}, s.picker.late)), rest);
        RunThen(options, s, look, WalkPass(s.w, rest));
      }
    }
  }

  lemma GivesUp(options: RoosterOptions, s: State)
    requires s.picker.Walking? && s.picker.todo == {}
    ensures RunFrom(options, s, [ByPicker(GiveUp)]) == Some(s.(picker := Answered(None, s.picker.late)))
  {
    hide NextAnnouncer, NextListener, NextMain, RunFrom;
    One(options, s, ByPicker(GiveUp), s.(picker := Answered(None, s.picker.late)));
  }

  /** A pick that nobody interrupts answers what walking the map in that order answers. */
  lemma UninterruptedPick(options: RoosterOptions, s: State, order: seq<IfIndex>)
    requires s.picker.NoPledge? && s.locks == map[] && Names(s)
    requires Enumerates(order, s.w.acp) && NoRepeats(order)
    ensures RunFrom(options, s, PickPass(s.w, order)) ==
            Some(s.(answers := s.answers + [Answer(PickInOrder(s.w, order), ProxyAnnounced(s.sent, s.epoch))]))
  {
    hide RunFrom, ProxyAnnounced, WalkPass, PickInOrder, NoRepeats;
    var late := ProxyAnnounced(s.sent, s.epoch);
    var t := Take(s, AllLock, Picker).(picker := Walking(s.w.acp, late));
    One(options, s, ByPicker(Begin), t);
    WalkPassPicks(options, t, order);
    var u := t.(picker := Answered(PickInOrder(s.w, order), late));
    var v := Drop(u, {AllLock}).(picker := NoPledge, answers := s.answers + [Answer(PickInOrder(s.w, order), late)]);
    One(options, u, ByPicker(Leave), v);
    RunThen(options, s, [ByPicker(Begin)], WalkPass(s.w, order));
    RunThen(options, s, [ByPicker(Begin)] + WalkPass(s.w, order), [ByPicker(Leave)]);
    assert v.locks == map[];
  }

  // ---------- the listener ----------

  function LinkPass(options: RoosterOptions, w: World, k: IfIndex, attrs: seq<LinkAttr>, port: uint16): seq<Action> {
    var before := Entry(w, k);
    var after := ApplyLinkAttrs(before, attrs);
    [ByListener(GetLink(k, attrs, port)), ByListener(StoreAttrs)]
    + (if before.operState == Up || after.operState != Up then []
       else if after.ignored then [ByListener(TakeIface), ByListener(DropIface)]
       else [ByListener(TakeIface), ByListener(MaybeStartAcp)] + JoinPass(options.IsValidJoinlinkInterface(after.ifname)))
    + [ByListener(FinishLink)]
  }

  lemma LinkBegins(options: RoosterOptions, s: State, k: IfIndex, attrs: seq<LinkAttr>, port: uint16)
    requires s.listener.Listening? && s.locks == map[]
    ensures var before := Entry(s.w, k);
            var after := ApplyLinkAttrs(before, attrs);
            RunFrom(options, s, [ByListener(GetLink(k, attrs, port)), ByListener(StoreAttrs)]) ==
            Some(s.(w := Put(s.w, k, after), locks := map[AllLock := Listener],
                    listener := if before.operState != Up && after.operState == Up then WentUp(k, attrs, port) else LinkDone))
  {
    hide NextAnnouncer, NextMain, NextPicker, RunFrom, ApplyLinkAttrs, StartAcpDaemon;
    var after := ApplyLinkAttrs(Entry(s.w, k), attrs);
    var t := s.(locks := map[AllLock := Listener], listener := HasLink(k, attrs, port));
    Two(options, s, ByListener(GetLink(k, attrs, port)), t, ByListener(StoreAttrs),
        t.(w := Put(s.w, k, after),
           listener := if Entry(s.w, k).operState != Up && after.operState == Up then WentUp(k, attrs, port) else LinkDone));
  }

  lemma LinkEnds(options: RoosterOptions, s: State)
    requires s.listener.LinkDone? && s.locks == map[AllLock := Listener]
    ensures RunFrom(options, s, [ByListener(FinishLink)]) == Some(s.(locks := map[], listener := Listening))
  {
    hide NextAnnouncer, NextMain, NextPicker, RunFrom;
    var t := s.(locks := map[], listener := Listening);
    assert s.locks - {AllLock} == map[];
    One(options, s, ByListener(FinishLink), t);
  }

  lemma LinkIgnored(options: RoosterOptions, s: State)
    requires s.listener.WentUp? && s.locks == map[AllLock := Listener] && Entry(s.w, s.listener.k).ignored
    ensures RunFrom(options, s, [ByListener(TakeIface), ByListener(DropIface)]) == Some(s.(listener := LinkDone))
  {
    hide NextAnnouncer, NextMain, NextPicker, RunFrom;
    var k := s.listener.k;
    var t := Take(s, IfaceLock(k), Listener).(listener := Leaving(k));
    assert t.locks - {IfaceLock(k)} == s.locks;
    Two(options, s, ByListener(TakeIface), t, ByListener(DropIface), s.(listener := LinkDone));
  }

  lemma StartKeepsLocks(s: State, k: IfIndex, locks: map<Lock, Task>, pc: ListenerPc)
    ensures StartAcpDaemon(s.(locks := locks, listener := pc), k) == StartAcpDaemon(s, k).(locks := locks, listener := pc)
  {}

  lemma LinkStartsAcp(options: RoosterOptions, s: State, k: IfIndex, attrs: seq<LinkAttr>, port: uint16)
    requires s.listener == WentUp(k, attrs, port) && s.locks == map[AllLock := Listener] && !Entry(s.w, k).ignored
    ensures var started := options.IsValidAcpInterface(Entry(s.w, k).ifname);
            RunFrom(options, s, [ByListener(TakeIface), ByListener(MaybeStartAcp)]) ==
            Some((if started then StartAcpDaemon(s, k) else s)
                 .(locks := map[AllLock := Listener, IfaceLock(k) := Listener], listener := AcpSeen(k, port)))
  {
    hide NextAnnouncer, NextMain, NextPicker, RunFrom, StartAcpDaemon;
    var locks := map[AllLock := Listener, IfaceLock(k) := Listener];
    var t := s.(locks := locks, listener := Starting(k, attrs, port));
    assert t == Take(s, IfaceLock(k), Listener).(listener := Starting(k, attrs, port));
    StartKeepsLocks(s, k, locks, t.listener);
    var started := if options.IsValidAcpInterface(Entry(s.w, k).ifname) then StartAcpDaemon(s, k) else s;
    Two(options, s, ByListener(TakeIface), t, ByListener(MaybeStartAcp), started.(locks := locks, listener := AcpSeen(k, port)));
  }

  function JoinPass(started: bool): seq<Action> {
    if started then [ByListener(MaybeEnterJoinMap), ByListener(StartJoinDaemon), ByListener(DropIface)]
    else [ByListener(MaybeEnterJoinMap), ByListener(DropIface)]
  }

  lemma LinkSkipsJoin(options: RoosterOptions, s: State, k: IfIndex, port: uint16)
    requires s.listener == AcpSeen(k, port) && s.locks == map[AllLock := Listener, IfaceLock(k) := Listener]
    requires !options.IsValidJoinlinkInterface(Entry(s.w, k).ifname)
    ensures RunFrom(options, s, JoinPass(false)) == Some(s.(locks := map[AllLock := Listener], listener := LinkDone))
  {
    hide NextAnnouncer, NextMain, NextPicker, RunFrom, StartJoin, Entry;
    assert s.locks - {IfaceLock(k)} == map[AllLock := Listener];
    Two(options, s, ByListener(MaybeEnterJoinMap), s.(listener := Leaving(k)), ByListener(DropIface),
        s.(locks := map[AllLock := Listener], listener := LinkDone));
  }

  lemma LinkStartsJoin(options: RoosterOptions, s: State, k: IfIndex, port: uint16)
    requires s.listener == AcpSeen(k, port) && s.locks == map[AllLock := Listener, IfaceLock(k) := Listener]
    requires options.IsValidJoinlinkInterface(Entry(s.w, k).ifname)
    ensures RunFrom(options, s, JoinPass(true)) ==
            Some(s.(w := StartJoin(s.w, k, port), locks := map[AllLock := Listener], listener := LinkDone))
  {
    hide NextAnnouncer, NextMain, NextPicker, RunFrom, StartJoin, Entry;
    assert s.locks - {IfaceLock(k)} == map[AllLock := Listener];
    var t := Take(s, JoinLock, Listener).(listener := InJoinMap(k, port));
    var u := s.(w := StartJoin(s.w, k, port), listener := Leaving(k));
    assert t.locks - {JoinLock} == s.locks;
    Three(options, s, ByListener(MaybeEnterJoinMap), t, ByListener(StartJoinDaemon), u, ByListener(DropIface),
          u.(locks := map[AllLock := Listener], listener := LinkDone));
  }

  /** A link message handled without interruption is one `LinkMsg`; it counts as a restart exactly
      when the event replaces a running daemon. */
  lemma UninterruptedLink(options: RoosterOptions, s: State, k: IfIndex, attrs: seq<LinkAttr>, port: uint16)
    requires s.listener.Listening? && s.locks == map[]
    ensures var r := RunFrom(options, s, LinkPass(options, s.w, k, attrs, port));
            && r.Some? && r.value.w == StoreLink(options, s.w, k, attrs, port)
            && r.value.epoch == s.epoch + (if Restarts(options, s.w, LinkMsg(k, attrs, port)) then 1 else 0)
            && r.value == s.(w := r.value.w, orphans := r.value.orphans, announcers := r.value.announcers,
                             epoch := r.value.epoch)
  {
    hide RunFrom, ApplyLinkAttrs, StartJoin, JoinPass;
    var before := Entry(s.w, k);
    var after := ApplyLinkAttrs(before, attrs);
    LinkBegins(options, s, k, attrs, port);
    LinkAttrsTell(before, attrs);
    var first := [ByListener(GetLink(k, attrs, port)), ByListener(StoreAttrs)];
    var last := [ByListener(FinishLink)];
    var t := RunFrom(options, s, first).value;
    if before.operState == Up || after.operState != Up {
      LinkEnds(options, t);
      RunThen(options, s, first, last);
      assert LinkPass(options, s.w, k, attrs, port) == first + last;
    } else if after.ignored {
      LinkIgnored(options, t);
      LinkEnds(options, t.(listener := LinkDone));
      RunThen(options, s, first, [ByListener(TakeIface), ByListener(DropIface)]);
      RunThen(options, s, first + [ByListener(TakeIface), ByListener(DropIface)], last);
    } else {
      LinkStartsAcp(options, t, k, attrs, port);
      var acp := [ByListener(TakeIface), ByListener(MaybeStartAcp)];
      var u := RunFrom(options, t, acp).value;
      var join := JoinPass(options.IsValidJoinlinkInterface(after.ifname));
      if options.IsValidJoinlinkInterface(after.ifname) {
        LinkStartsJoin(options, u, k, port);
      } else {
        LinkSkipsJoin(options, u, k, port);
      }
      LinkEnds(options, RunFrom(options, u, join).value);
      RunThen(options, s, first, acp);
      RunThen(options, s, first + acp, join);
      RunThen(options, s, first + acp + join, last);
      assert LinkPass(options, s.w, k, attrs, port) == first + acp + join + last;
    }
  }
}
