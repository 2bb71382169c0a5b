/** When a timely revoke takes effect.  The client records the shared seqid as it is when the grant
    arrives (lock_client_cache.cc), the server the one that the request carried. */
module LockRevokes {
  import C = LockClient
  import S = LockServer
  import opened LockProtocol

  /** The revoke RPC makes the client take notice. */
  ghost predicate TakesEffect(s: Sys)
    requires Enabled(s, RevokeCall)
  {
    Revoked(Apply(s, RevokeCall).nodes[s.revoking.value.clid], s.revoking.value.lid)
  }

  lemma EffectIff(s: Sys)
    requires Inv(s) && Enabled(s, RevokeCall)
    ensures var info := s.revoking.value;
      TakesEffect(s) <==> s.nodes[info.clid].cl.At(info.lid).seqid == info.seqid
  {
    var info := s.revoking.value;
    RevokeCallAt(s);
    assert LockOk(s.nodes[info.clid], info.lid);
  }

  predicate Usable(n: Node, l: LockId) {
    n.cl.At(l).status == C.FREE || n.cl.At(l).status == C.LOCKED
  }

  // ---------------------------------------------------------------- what keeps the two records

  /** While the client owns the token the server's record of the grant stays. */
  lemma ServerRecordStays(s: Sys, a: Action, c: ClientId, l: LockId)
    requires Inv(s) && Enabled(s, a) && c in s.nodes && Owns(s.nodes[c], l)
    requires c in Apply(s, a).nodes && Owns(Apply(s, a).nodes[c], l)
    ensures Apply(s, a).srv.At(l).seqid == s.srv.At(l).seqid
  {
    assert Global(s, l) && s.srv.At(l).clid == c;
    match a
    case ServerRelease(d) =>
      assert Global(s, s.nodes[d].rel.l);
      ReleasedNode(s.nodes[d]);
    case _ =>
  }

  lemma NodeRecordStays(n: Node, a: Action, l: LockId)
    requires Local(n) && AtNode(n, a) && Usable(n, l) && Usable(NodeStep(n, a), l)
    ensures NodeStep(n, a).cl.At(l).seqid == n.cl.At(l).seqid
  {
    assert LockOk(n, l);
    match a
    case TakeGrant(_, t) => assert Looping(n.PcOf(t), n.PcOf(t).l);
    case TakeRefusal(_, t, _) => assert Looping(n.PcOf(t), n.PcOf(t).l);
    case WakeRetrying(_, t) => assert Looping(n.PcOf(t), n.PcOf(t).l);
    case _ =>
  }

  /** While the lock is FREE or LOCKED the client's record of the grant stays. */
  lemma ClientRecordStays(s: Sys, a: Action, c: ClientId, l: LockId)
    requires Inv(s) && Enabled(s, a) && c in s.nodes && Usable(s.nodes[c], l)
    requires c in Apply(s, a).nodes && Usable(Apply(s, a).nodes[c], l)
    ensures Apply(s, a).nodes[c].cl.At(l).seqid == s.nodes[c].cl.At(l).seqid
  {
    if !AtServer(a) && a.c == c {
      NodeRecordStays(s.nodes[c], a, l);
    }
  }

  lemma SeqidGrows(s: Sys, a: Action, c: ClientId)
    requires Enabled(s, a) && c in s.nodes
    ensures c in Apply(s, a).nodes && s.nodes[c].cl.seqid <= Apply(s, a).nodes[c].cl.seqid
  {
  }

  // ---------------------------------------------------------------- one grant in a run

  /** An acquire of l by thread t of client c: its request is made at step j, answered at m, and the
      grant is taken at i; from then to k the lock stays FREE or LOCKED, and at k its revoke is called. */
  ghost predicate Grant(trace: seq<Sys>, acts: seq<Action>, c: ClientId, t: ThreadId, l: LockId,
                        j: nat, m: nat, i: nat, k: nat)
  {
    && |trace| == |acts| + 1 && j < m < i < k < |trace|
    && (forall x | j <= x <= k :: c in trace[x].nodes)
    && trace[j].nodes[c].PcOf(t) == Calling(l) && acts[j] == ReadSeqid(c, t)
    && (forall x | j < x <= m :: trace[x].nodes[c].PcOf(t) == Sent(l, trace[j].nodes[c].cl.seqid))
    && acts[m] == ServerAcquire(c, t)
    && (forall x | m < x <= i :: trace[x].nodes[c].PcOf(t) == Granted(l))
    && acts[i] == TakeGrant(c, t)
    && (forall x | i < x <= k :: Usable(trace[x].nodes[c], l))
    && Enabled(trace[k], RevokeCall) && trace[k].revoking.value.clid == c && trace[k].revoking.value.lid == l
  }

  ghost predicate HasToken(s: Sys, c: ClientId, l: LockId) {
    c in s.nodes && Owns(s.nodes[c], l)
  }

  lemma ServerKeptOnce(trace: seq<Sys>, acts: seq<Action>, c: ClientId, l: LockId, y: nat)
    requires Run(trace, acts) && y < |acts| && HasToken(trace[y], c, l) && HasToken(trace[y + 1], c, l)
    ensures trace[y + 1].srv.At(l).seqid == trace[y].srv.At(l).seqid
  {
    RunInv(trace, acts, y);
    ServerRecordStays(trace[y], acts[y], c, l);
  }

  lemma {:induction false} ServerKept(trace: seq<Sys>, acts: seq<Action>, c: ClientId, l: LockId, x: nat, y: nat)
    requires Run(trace, acts) && x <= y < |trace| && forall z | x <= z <= y :: HasToken(trace[z], c, l)
    ensures trace[y].srv.At(l).seqid == trace[x].srv.At(l).seqid
    decreases y - x
  {
    if x < y {
      ServerKept(trace, acts, c, l, x, y - 1);
      ServerKeptOnce(trace, acts, c, l, y - 1);
    }
  }

  predicate HasLock(s: Sys, c: ClientId, l: LockId) {
    c in s.nodes && Usable(s.nodes[c], l)
  }

  lemma ClientKeptOnce(trace: seq<Sys>, acts: seq<Action>, c: ClientId, l: LockId, y: nat)
    requires Run(trace, acts) && y < |acts| && HasLock(trace[y], c, l) && HasLock(trace[y + 1], c, l)
    ensures trace[y + 1].nodes[c].cl.At(l).seqid == trace[y].nodes[c].cl.At(l).seqid
  {
    RunInv(trace, acts, y);
    ClientRecordStays(trace[y], acts[y], c, l);
  }

  lemma {:induction false} ClientKept(trace: seq<Sys>, acts: seq<Action>, c: ClientId, l: LockId, x: nat, y: nat)
    requires Run(trace, acts) && x <= y < |trace| && HasLock(trace[x], c, l) && HasLock(trace[y], c, l)
    requires forall z | x <= z <= y :: HasLock(trace[z], c, l)
    ensures trace[y].nodes[c].cl.At(l).seqid == trace[x].nodes[c].cl.At(l).seqid
    decreases y - x
  {
    if x < y {
      ClientKept(trace, acts, c, l, x, y - 1);
      assert HasLock(trace[y - 1], c, l) && HasLock(trace[y], c, l);
      ClientKeptOnce(trace, acts, c, l, y - 1);
    }
  }

  /** The grant records the number that the request carried. */
  lemma AnsweredYes(s: Sys, c: ClientId, t: ThreadId, l: LockId)
    requires Enabled(s, ServerAcquire(c, t)) && s.nodes[c].PcOf(t).l == l
    requires Apply(s, ServerAcquire(c, t)).nodes[c].PcOf(t) == Granted(l)
    ensures Apply(s, ServerAcquire(c, t)).srv.At(l).seqid == s.nodes[c].PcOf(t).q
  {
  }

  /** Taking the grant records the shared number as it is then. */
  lemma Taken(s: Sys, c: ClientId, t: ThreadId, l: LockId)
    requires Enabled(s, TakeGrant(c, t)) && s.nodes[c].PcOf(t) == Granted(l)
    ensures Apply(s, TakeGrant(c, t)).nodes[c].cl.At(l).seqid == s.nodes[c].cl.seqid
  {
  }

  lemma OwnsThroughout(trace: seq<Sys>, acts: seq<Action>, c: ClientId, t: ThreadId, l: LockId,
                       j: nat, m: nat, i: nat, k: nat, z: nat)
    requires Grant(trace, acts, c, t, l, j, m, i, k) && m < z <= k
    ensures HasToken(trace[z], c, l)
  {
    assert z <= i ==> trace[z].nodes[c].PcOf(t) == Granted(l);
    assert z > i ==> Usable(trace[z].nodes[c], l);
  }

  lemma ServerRecord(trace: seq<Sys>, acts: seq<Action>, c: ClientId, t: ThreadId, l: LockId,
                     j: nat, m: nat, i: nat, k: nat)
    requires Run(trace, acts) && Grant(trace, acts, c, t, l, j, m, i, k)
    ensures trace[k].srv.At(l).seqid == trace[j].nodes[c].cl.seqid
  {
    assert trace[m].nodes[c].PcOf(t) == Sent(l, trace[j].nodes[c].cl.seqid);
    assert trace[m + 1] == Apply(trace[m], acts[m]) && trace[m + 1].nodes[c].PcOf(t) == Granted(l);
    AnsweredYes(trace[m], c, t, l);
    forall z | m + 1 <= z <= k ensures HasToken(trace[z], c, l) {
      OwnsThroughout(trace, acts, c, t, l, j, m, i, k, z);
    }
    ServerKept(trace, acts, c, l, m + 1, k);
  }

  lemma ClientRecord(trace: seq<Sys>, acts: seq<Action>, c: ClientId, t: ThreadId, l: LockId,
                     j: nat, m: nat, i: nat, k: nat)
    requires Run(trace, acts) && Grant(trace, acts, c, t, l, j, m, i, k)
    ensures trace[k].nodes[c].cl.At(l).seqid == trace[i].nodes[c].cl.seqid
  {
    assert trace[i].nodes[c].PcOf(t) == Granted(l) && trace[i + 1] == Apply(trace[i], acts[i]);
    Taken(trace[i], c, t, l);
    forall z | i + 1 <= z <= k ensures HasLock(trace[z], c, l) {
      assert Usable(trace[z].nodes[c], l);
    }
    ClientKept(trace, acts, c, l, i + 1, k);
  }

  lemma {:induction false} SeqidGrown(trace: seq<Sys>, acts: seq<Action>, c: ClientId, x: nat, y: nat)
    requires Run(trace, acts) && x <= y < |trace| && c in trace[x].nodes
    ensures c in trace[y].nodes && trace[x].nodes[c].cl.seqid <= trace[y].nodes[c].cl.seqid
    decreases y - x
  {
    if x < y {
      SeqidGrown(trace, acts, c, x, y - 1);
      SeqidGrows(trace[y - 1], acts[y - 1], c);
    }
  }

  /** A revoke takes effect if and only if no other acquire of the client raised the shared seqid between
      the moment this one's request read it and the moment its grant was taken. */
  lemma RevokeTakesEffectIff(trace: seq<Sys>, acts: seq<Action>, c: ClientId, t: ThreadId, l: LockId,
                             j: nat, m: nat, i: nat, k: nat)
    requires Run(trace, acts) && Grant(trace, acts, c, t, l, j, m, i, k)
    ensures trace[j].nodes[c].cl.seqid <= trace[i].nodes[c].cl.seqid
    ensures TakesEffect(trace[k]) <==> trace[j].nodes[c].cl.seqid == trace[i].nodes[c].cl.seqid
  {
    SeqidGrown(trace, acts, c, j, i);
    RunInv(trace, acts, k);
    EffectIff(trace[k]);
    RevokesAreTimely(trace, acts, k);
    ServerRecord(trace, acts, c, t, l, j, m, i, k);
    ClientRecord(trace, acts, c, t, l, j, m, i, k);
  }

  // ---------------------------------------------------------------- a revoke that is lost

  const Asking: C.Entry := C.NewEntry.(status := C.ACQUIRING)

  function Pair(a: Node, b: Node, locks: map<LockId, S.Entry>, queue: seq<S.RevokeInfo>,
                call: S.Option<S.RevokeInfo>): Sys
  {
    Sys(map[1 := a, 2 := b], S.Server(locks, queue, {1, 2}), call, map[])
  }

  /** A client that asks for lock 1, at the point p of its only call. */
  function Asker(p: Pc): Node {
    Node(C.Client(2, map[1 := Asking], [], []), map[1 := p], Resting, {})
  }

  /** Client 1 once its second thread asks for lock 2, before and after the first takes its grant. */
  const TwoAsk: Node :=
    Node(C.Client(3, map[1 := Asking, 2 := Asking], [], []), map[1 := Granted(1), 2 := Calling(2)], Resting, {})

  const Holder: Node :=
    Node(C.Client(3, map[1 := C.Entry(C.LOCKED, 1, [], 3, C.NO_SEQ, false), 2 := Asking], [], []),
         map[1 := Idle, 2 := Calling(2)], Resting, {(1, 1)})

  function LostAct(i: nat): Action {
    match i
    case 0 => Acquire(1, 1, 1, 0)
    case 1 => ReadSeqid(1, 1)
    case 2 => ServerAcquire(1, 1)
    case 3 => Acquire(1, 2, 2, 0)
    case 4 => TakeGrant(1, 1)
    case 5 => Acquire(2, 1, 1, 0)
    case 6 => ReadSeqid(2, 1)
    case 7 => ServerAcquire(2, 1)
    case _ => Revoker(true)
  }

  function LostState(i: nat): Sys {
    var f, got := FreshNode, map[1 := S.Entry(S.LOCKED, 1, 2, [], map[1 := 1])];
    var info := S.RevokeInfo(1, 1, 2);
    var due := map[1 := S.Entry(S.REVOKING, 1, 2, [2], map[1 := 1])];
    match i
    case 0 => Pair(f, f, map[], [], S.None)
    case 1 => Pair(Asker(Calling(1)), f, map[], [], S.None)
    case 2 => Pair(Asker(Sent(1, 2)), f, map[], [], S.None)
    case 3 => Pair(Asker(Granted(1)), f, got, [], S.None)
    case 4 => Pair(TwoAsk, f, got, [], S.None)
    case 5 => Pair(Holder, f, got, [], S.None)
    case 6 => Pair(Holder, Asker(Calling(1)), got, [], S.None)
    case 7 => Pair(Holder, Asker(Sent(1, 2)), got, [], S.None)
    case 8 => Pair(Holder, Asker(Refused(1)), due, [info], S.None)
    case _ => Pair(Holder, Asker(Refused(1)), due, [], S.Some(info))
  }

  /** Equality field by field. */
  lemma SameSys(s: Sys, t: Sys)
    requires s.(nodes := t.nodes, srv := t.srv, retrying := t.retrying) == t
    requires s.nodes.Keys == t.nodes.Keys && forall c :: c in t.nodes ==> SameNode(s.nodes[c], t.nodes[c])
    requires s.srv.locks.Keys == t.srv.locks.Keys && s.srv.revokes == t.srv.revokes && s.srv.rpcc == t.srv.rpcc
    requires forall l :: l in t.srv.locks ==> SameEntry(s.srv.locks[l], t.srv.locks[l])
    requires s.retrying == t.retrying
    ensures s == t
  {
    assert forall c :: c in t.nodes ==> s.nodes[c] == t.nodes[c];
    assert forall l :: l in t.srv.locks ==> s.srv.locks[l] == t.srv.locks[l];
    assert s.nodes == t.nodes && s.srv.locks == t.srv.locks;
  }

  predicate SameNode(n: Node, m: Node) {
    && n.cl.seqid == m.cl.seqid && n.cl.locks == m.cl.locks && n.cl.revokes == m.cl.revokes
    && n.cl.released == m.cl.released && n.pcs == m.pcs && n.rel == m.rel && n.held == m.held
  }

  predicate SameEntry(e: S.Entry, f: S.Entry) {
    && e.status == f.status && e.clid == f.clid && e.seqid == f.seqid
    && e.retries == f.retries && e.counts == f.counts
  }

  predicate LostNext(i: nat) {
    Enabled(LostState(i), LostAct(i)) && Apply(LostState(i), LostAct(i)) == LostState(i + 1)
  }

  lemma FirstAsks(i: nat)
    requires i < 2
    ensures LostNext(i)
  {
    assert Enabled(LostState(i), LostAct(i));
    SameSys(Apply(LostState(i), LostAct(i)), LostState(i + 1));
  }

  lemma FirstIsGranted()
    ensures LostNext(2)
  {
    assert Enabled(LostState(2), LostAct(2));
    SameSys(Apply(LostState(2), LostAct(2)), LostState(3));
  }

  lemma SecondThreadAsks()
    ensures LostNext(3)
  {
    assert Enabled(LostState(3), LostAct(3));
    SameSys(Apply(LostState(3), LostAct(3)), LostState(4));
  }

  lemma FirstTakesGrant()
    ensures LostNext(4)
  {
    assert Enabled(LostState(4), LostAct(4));
    SameSys(Apply(LostState(4), LostAct(4)), LostState(5));
  }

  lemma OtherAsks()
    ensures LostNext(5)
  {
    assert Enabled(LostState(5), LostAct(5));
    SameSys(Apply(LostState(5), LostAct(5)), LostState(6));
  }

  lemma OtherSends()
    ensures LostNext(6)
  {
    assert Enabled(LostState(6), LostAct(6));
    SameSys(Apply(LostState(6), LostAct(6)), LostState(7));
  }

  lemma OtherIsRefused()
    ensures LostNext(7)
  {
    assert Enabled(LostState(7), LostAct(7));
    SameSys(Apply(LostState(7), LostAct(7)), LostState(8));
  }

  lemma RevokeIsSent()
    ensures LostNext(8)
  {
    assert Enabled(LostState(8), LostAct(8));
    SameSys(Apply(LostState(8), LostAct(8)), LostState(9));
  }

  lemma LostSteps(i: nat)
    requires i < 9
    ensures LostNext(i)
  {
    match i
    case 0 => FirstAsks(0);
    case 1 => FirstAsks(1);
    case 2 => FirstIsGranted();
    case 3 => SecondThreadAsks();
    case 4 => FirstTakesGrant();
    case 5 => OtherAsks();
    case 6 => OtherSends();
    case 7 => OtherIsRefused();
    case 8 => RevokeIsSent();
  }

  lemma LostWaits(trace: seq<Sys>)
    requires |trace| == 10 && forall i :: 0 <= i < 10 ==> trace[i] == LostState(i)
    ensures forall x | 1 <= x <= 9 :: 1 in trace[x].nodes
    ensures trace[1].nodes[1] == Asker(Calling(1)) && trace[2].nodes[1] == Asker(Sent(1, 2))
    ensures trace[3].nodes[1] == Asker(Granted(1)) && trace[4].nodes[1] == TwoAsk
    ensures forall x | 4 < x <= 9 :: trace[x].nodes[1] == Holder
  {
    LostNodes();
    assert trace[1] == LostState(1) && trace[2] == LostState(2) && trace[3] == LostState(3) && trace[4] == LostState(4);
  }

  lemma LostIsGrant(trace: seq<Sys>, acts: seq<Action>)
    requires |trace| == 10 && |acts| == 9 && (forall i :: 0 <= i < 10 ==> trace[i] == LostState(i))
    requires acts[1] == LostAct(1) && acts[2] == LostAct(2) && acts[4] == LostAct(4)
    ensures Grant(trace, acts, 1, 1, 1, 1, 2, 4, 9)
    ensures trace[1].nodes[1].cl.seqid == 2 && trace[4].nodes[1].cl.seqid == 3
  {
    LostWaits(trace);
    LostNodes();
    var s := trace[9];
    assert s == LostState(9) && s.revoking == S.Some(S.RevokeInfo(1, 1, 2)) && s.nodes[1] == Holder;
  }

  lemma LostNodes()
    ensures forall x: nat :: 1 in LostState(x).nodes && (x > 4 ==> LostState(x).nodes[1] == Holder)
    ensures Usable(Holder, 1)
  {
  }

  /** A second thread of client 1 asks for another lock between the request and its grant; the revoke for
      client 2 then finds the lock LOCKED, for the current grant, and is dropped without effect. */
  lemma TimelyRevokeLost() returns (trace: seq<Sys>, acts: seq<Action>)
    ensures Run(trace, acts) && Grant(trace, acts, 1, 1, 1, 1, 2, 4, 9) && !TakesEffect(trace[9])
  {
    trace := seq(10, i requires 0 <= i < 10 => LostState(i));
    acts := seq(9, i requires 0 <= i < 9 => LostAct(i));
    LostRun(trace, acts);
    LostIsGrant(trace, acts);
    RevokeTakesEffectIff(trace, acts, 1, 1, 1, 1, 2, 4, 9);
  }

  lemma LostRun(trace: seq<Sys>, acts: seq<Action>)
    requires |trace| == 10 && |acts| == 9 && (forall i :: 0 <= i < 10 ==> trace[i] == LostState(i))
    requires forall i :: 0 <= i < 9 ==> acts[i] == LostAct(i)
    ensures Run(trace, acts)
  {
    forall i | 0 <= i < |acts|
      ensures Enabled(trace[i], acts[i]) && trace[i + 1] == Apply(trace[i], acts[i])
    {
      LostSteps(i);
    }
    assert Init(trace[0]);
  }
}
