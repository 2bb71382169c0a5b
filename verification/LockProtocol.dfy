/** Any number of caching lock clients, each with any number of threads, against one lock server:
    the whole caching lock protocol as a state machine.

    One action is the code between two releases of a mutex, or one RPC handler at the server.  A
    request or a reply in flight is the program counter of the thread that waits for it.  A thread
    blocked on a condition variable may wake at any moment, signalled or not. */
module LockProtocol {
  import C = LockClient
  import S = LockServer

  type LockId = nat
  type ThreadId = C.ThreadId
  type ClientId = S.ClientId

  /** Where a thread is in `acquire`; `Idle` is outside it. */
  datatype Pc =
    | Idle
    | Calling(l: LockId)            // ACQUIRING is set, the call is not made yet
    | Sent(l: LockId, q: nat)       // the acquire request is on its way
    | Granted(l: LockId)            // the reply OK is on its way
    | Refused(l: LockId)            // the reply RETRY is on its way
    | RetryWait(l: LockId)          // waits for a retry call
    | LocalWait(l: LockId)          // waits for another thread of the client

  /** The releaser thread: the lock is NONE already when it flushes and when it calls release. */
  datatype Releaser = Resting | Flushing(l: LockId, retry: bool) | Releasing(l: LockId, retry: bool)

  /** One client process; `held` is what its threads believe: acquire returned, release not called. */
  datatype Node = Node(cl: C.Client, pcs: map<ThreadId, Pc>, rel: Releaser, held: set<(ThreadId, LockId)>)
  {
    function PcOf(t: ThreadId): Pc {
      if t in pcs then pcs[t] else Idle
    }
  }

  datatype Sys = Sys(nodes: map<ClientId, Node>, srv: S.Server, revoking: S.Option<S.RevokeInfo>,
                     retrying: map<LockId, ClientId>)

  const FreshNode: Node := Node(C.FreshClient, map[], Resting, {})

  ghost predicate Init(s: Sys) {
    && (forall c | c in s.nodes :: c > 0 && s.nodes[c] == FreshNode)
    && s.srv == S.Server(map[], [], s.nodes.Keys)
    && s.revoking == S.None && s.retrying == map[]
  }

  datatype Action =
    | Acquire(c: ClientId, t: ThreadId, l: LockId, cond: C.Cond)
    | ReadSeqid(c: ClientId, t: ThreadId)
    | ServerAcquire(c: ClientId, t: ThreadId)
    | TakeGrant(c: ClientId, t: ThreadId)
    | TakeRefusal(c: ClientId, t: ThreadId, cond: C.Cond)
    | WakeRetrying(c: ClientId, t: ThreadId)
    | WakeWaiting(c: ClientId, t: ThreadId, cond: C.Cond)
    | Release(c: ClientId, t: ThreadId, l: LockId)
    | ReleaserTake(c: ClientId)
    | FlushDone(c: ClientId)
    | ServerRelease(c: ClientId)
    | Revoker(primary: bool)
    | RevokeCall
    | Retryer
    | RetryCall(l: LockId, primary: bool)

  /** The actions that touch one client only. */
  predicate AtNode(n: Node, a: Action) {
    match a
    case Acquire(c, t, l, cond) => t > 0 && n.PcOf(t) == Idle
    case ReadSeqid(c, t) => n.PcOf(t).Calling?
    case TakeGrant(c, t) => t > 0 && n.PcOf(t).Granted?
    case TakeRefusal(c, t, cond) => n.PcOf(t).Refused?
    case WakeRetrying(c, t) => n.PcOf(t).RetryWait?
    case WakeWaiting(c, t, cond) => t > 0 && n.PcOf(t).LocalWait?
    case Release(c, t, l) => t > 0 && n.PcOf(t) == Idle
    case ReleaserTake(c) => n.rel == Resting && n.cl.released != []
    case FlushDone(c) => n.rel.Flushing?
    case _ => false
  }

  predicate Enabled(s: Sys, a: Action) {
    match a
    case ServerAcquire(c, t) => c in s.nodes && s.nodes[c].PcOf(t).Sent?
    case ServerRelease(c) => c in s.nodes && s.nodes[c].rel.Releasing?
    case Revoker(primary) => s.revoking == S.None && s.srv.revokes != []
    case RevokeCall =>
      && s.revoking.Some? && s.revoking.value.clid in s.nodes
      && s.nodes[s.revoking.value.clid].cl.At(s.revoking.value.lid).status != C.ACQUIRING
    case Retryer => s.retrying == map[]
    case RetryCall(l, primary) => l in s.retrying && s.retrying[l] in s.nodes
    case _ => a.c in s.nodes && AtNode(s.nodes[a.c], a)
  }

  /** The actions in which the server takes part. */
  predicate AtServer(a: Action) {
    a.ServerAcquire? || a.ServerRelease? || a.Revoker? || a.RevokeCall? || a.Retryer? || a.RetryCall?
  }

  function Put(s: Sys, c: ClientId, n: Node): Sys {
    s.(nodes := s.nodes[c := n])
  }

  /** The thread after one pass over label `acqu`. */
  function AfterAcqu(n: Node, t: ThreadId, l: LockId, r: (C.Client, C.AcquireNext)): Node {
    match r.1
    case CallServer => Node(r.0, n.pcs[t := Calling(l)], n.rel, n.held)
    case Return => Node(r.0, n.pcs[t := Idle], n.rel, n.held + {(t, l)})
    case Block => Node(r.0, n.pcs[t := LocalWait(l)], n.rel, n.held)
  }

  function NodeStep(n: Node, a: Action): Node {
    match a
    case Acquire(c, t, l, cond) => AfterAcqu(n, t, l, C.Acquire(n.cl, t, l, cond))
    case WakeWaiting(c, t, cond) =>
      if !n.PcOf(t).LocalWait? then n else
        var l := n.PcOf(t).l;
        AfterAcqu(n, t, l, C.AtAcqu(n.cl, t, l, cond))
    case ReadSeqid(c, t) =>
      if !n.PcOf(t).Calling? then n else n.(pcs := n.pcs[t := Sent(n.PcOf(t).l, n.cl.seqid)])
    case TakeGrant(c, t) =>
      if !n.PcOf(t).Granted? then n else
        var l := n.PcOf(t).l;
        Node(C.TakeGrant(n.cl, t, l), n.pcs[t := Idle], n.rel, n.held + {(t, l)})
    case TakeRefusal(c, t, cond) =>
      if !n.PcOf(t).Refused? then n else
        var l := n.PcOf(t).l;
        var (cl, next) := C.TakeRefusal(n.cl, l, cond);
        n.(cl := cl, pcs := n.pcs[t := if next == C.CallServer then Calling(l) else RetryWait(l)])
    case WakeRetrying(c, t) =>
      if !n.PcOf(t).RetryWait? then n else
        var l := n.PcOf(t).l;
        n.(cl := C.WakeRetrying(n.cl, l), pcs := n.pcs[t := Calling(l)])
    case Release(c, t, l) => n.(cl := C.Release(n.cl, t, l), held := n.held - {(t, l)})
    case ReleaserTake(c) =>
      if n.cl.released == [] then n else
        var (cl, l, retry) := C.TakeReleased(n.cl);
        n.(cl := cl, rel := Flushing(l, retry))
    case FlushDone(c) => if !n.rel.Flushing? then n else n.(rel := Releasing(n.rel.l, n.rel.retry))
    case _ => n
  }

  function Apply(s: Sys, a: Action): Sys
    requires Enabled(s, a)
  {
    match a
    case ServerAcquire(c, t) =>
      var n := s.nodes[c];
      var Sent(l, q) := n.PcOf(t);
      var (srv, r) := S.Acquire(s.srv, c, l, q);
      Put(s, c, n.(pcs := n.pcs[t := if r == S.OK then Granted(l) else Refused(l)])).(srv := srv)
    case ServerRelease(c) =>
      var n := s.nodes[c];
      var Releasing(l, retry) := n.rel;
      Put(s, c, n.(rel := Resting)).(srv := S.Release(s.srv, c, l, retry).0)
    case Revoker(primary) =>
      var (srv, call) := S.TakeRevoke(s.srv);
      s.(srv := srv, revoking := if primary then call else S.None)
    case RevokeCall =>
      var info := s.revoking.value;
      var n := s.nodes[info.clid];
      var end := C.Revoke(n.cl, info.lid, info.seqid);
      Put(s, info.clid, if end.Done? then n.(cl := end.c) else n).(revoking := S.None)
    case Retryer =>
      var (srv, m) := S.TakeRetries(s.srv);
      s.(srv := srv, retrying := m)
    case RetryCall(l, primary) =>
      var c := s.retrying[l];
      var n := s.nodes[c];
      Put(s, c, if primary then n.(cl := C.Retry(n.cl, l)) else n).(retrying := s.retrying - {l})
    case _ => Put(s, a.c, NodeStep(s.nodes[a.c], a))
  }

  /** The code stops in an assertion, returns with its mutex held or follows a null pointer. */
  predicate Faults(s: Sys, a: Action)
    requires Enabled(s, a)
  {
    match a
    case ReleaserTake(c) => s.nodes[c].cl.At(s.nodes[c].cl.released[0]).status != C.RELEASING
    case ServerRelease(c) => S.Release(s.srv, c, s.nodes[c].rel.l, s.nodes[c].rel.retry).1 != S.OK
    case RevokeCall =>
      var info := s.revoking.value;
      !C.Revoke(s.nodes[info.clid].cl, info.lid, info.seqid).Done?
    case RetryCall(l, primary) => primary && l !in s.nodes[s.retrying[l]].cl.locks
    case _ => false
  }

  // ---------------------------------------------------------------- one client

  /** The thread is between deciding to acquire and getting the lock. */
  predicate Looping(p: Pc, l: LockId) {
    (p.Calling? || p.Sent? || p.Granted? || p.Refused? || p.RetryWait?) && p.l == l
  }

  predicate Concerns(p: Pc, l: LockId) {
    p != Idle && p.l == l
  }

  predicate HasRelease(n: Node, l: LockId) {
    (n.rel.Flushing? || n.rel.Releasing?) && n.rel.l == l
  }

  predicate Cached(n: Node, l: LockId) {
    var st := n.cl.At(l).status;
    st == C.FREE || st == C.LOCKED || st == C.RELEASING
  }

  ghost predicate GrantOnWay(n: Node, l: LockId) {
    exists t :: n.PcOf(t) == Granted(l)
  }

  /** What one client keeps for one lock: at most one thread negotiates, in step with the status;
      the holder is the thread that believes to hold it; the queues match the status. */
  ghost predicate LockOk(n: Node, l: LockId) {
    var e := n.cl.At(l);
    && (forall t | Looping(n.PcOf(t), l) :: e.status == if n.PcOf(t).RetryWait? then C.RETRYING else C.ACQUIRING)
    && (forall t, u | Looping(n.PcOf(t), l) && Looping(n.PcOf(u), l) :: t == u)
    && (forall t | Concerns(n.PcOf(t), l) :: l in n.cl.locks && (n.PcOf(t).Sent? ==> n.PcOf(t).q <= n.cl.seqid))
    && (forall t :: (t, l) in n.held <==> t > 0 && e.thread == t)
    && (e.thread > 0 <==> e.status == C.LOCKED)
    && (l in n.cl.locks ==> e.waitingRevoke == C.NO_SEQ)
    && (l in n.cl.revokes ==> e.status == C.LOCKED)
    && (l in n.cl.released <==> e.status == C.RELEASING)
    && (HasRelease(n, l) ==> l in n.cl.locks && !Cached(n, l) && !GrantOnWay(n, l))
  }

  ghost predicate Distinct(q: seq<LockId>) {
    forall i, j | 0 <= i < j < |q| :: q[i] != q[j]
  }

  ghost predicate Local(n: Node) {
    Distinct(n.cl.released) && forall l: LockId :: LockOk(n, l)
  }

  // ------------------------------------------- what the server knows of a client

  /** The client has the lock's token: as a grant on its way to it, cached, or in its releaser. */
  ghost predicate Owns(n: Node, l: LockId) {
    GrantOnWay(n, l) || Cached(n, l) || HasRelease(n, l)
  }

  /** The client has taken notice of a revoke of the token it owns. */
  ghost predicate Revoked(n: Node, l: LockId) {
    l in n.cl.revokes || n.cl.At(l).status == C.RELEASING || HasRelease(n, l)
  }

  /** The seqid the client has recorded, or will record, for its token is at least `q`. */
  ghost predicate SeqAtLeast(n: Node, l: LockId, q: int) {
    && (GrantOnWay(n, l) ==> q <= n.cl.seqid)
    && (n.cl.At(l).status == C.FREE || n.cl.At(l).status == C.LOCKED ==>
          n.cl.At(l).seqid != C.NO_SEQ && q <= n.cl.At(l).seqid)
  }

  ghost predicate SameFace(n: Node, m: Node, l: LockId) {
    && (Owns(n, l) <==> Owns(m, l))
    && (Revoked(n, l) <==> Revoked(m, l))
    && (l in n.cl.locks ==> l in m.cl.locks)
    && (forall q | SeqAtLeast(n, l, q) :: SeqAtLeast(m, l, q))
  }

  /** `n` and `m` do not differ in what concerns lock `l`, but for a seqid that may have grown. */
  ghost predicate Agree(n: Node, m: Node, l: LockId) {
    && n.cl.At(l) == m.cl.At(l) && (l in n.cl.locks <==> l in m.cl.locks)
    && (forall t | Concerns(n.PcOf(t), l) || Concerns(m.PcOf(t), l) :: n.PcOf(t) == m.PcOf(t))
    && (forall t :: (t, l) in n.held <==> (t, l) in m.held)
    && (l in n.cl.revokes <==> l in m.cl.revokes)
    && (l in n.cl.released <==> l in m.cl.released)
    && (HasRelease(n, l) <==> HasRelease(m, l))
    && n.cl.seqid <= m.cl.seqid
  }

  lemma AgreeKeeps(n: Node, m: Node, l: LockId)
    requires LockOk(n, l) && Agree(n, m, l)
    ensures LockOk(m, l) && SameFace(n, m, l)
  {
    assert GrantOnWay(n, l) <==> GrantOnWay(m, l) by {
      assert forall t :: n.PcOf(t) == Granted(l) ==> Concerns(n.PcOf(t), l);
      assert forall t :: m.PcOf(t) == Granted(l) ==> Concerns(m.PcOf(t), l);
    }
    forall t | Looping(m.PcOf(t), l)
      ensures Looping(n.PcOf(t), l) && n.PcOf(t) == m.PcOf(t)
    {
      assert Concerns(m.PcOf(t), l);
    }
    forall t | Concerns(m.PcOf(t), l)
      ensures Concerns(n.PcOf(t), l) && n.PcOf(t) == m.PcOf(t)
    {
    }
  }

  /** A step of thread `t` about lock `l` leaves every other lock of the client alone. */
  ghost predicate Touches(n: Node, m: Node, t: ThreadId, l: LockId) {
    && (forall k: LockId | k != l ::
          && n.cl.At(k) == m.cl.At(k) && (k in n.cl.locks <==> k in m.cl.locks)
          && (k in n.cl.revokes <==> k in m.cl.revokes)
          && (k in n.cl.released <==> k in m.cl.released)
          && (HasRelease(n, k) <==> HasRelease(m, k))
          && (forall u :: (u, k) in n.held <==> (u, k) in m.held))
    && (forall u | u != t :: n.PcOf(u) == m.PcOf(u))
    && (n.PcOf(t) == Idle || n.PcOf(t).l == l)
    && (m.PcOf(t) == Idle || m.PcOf(t).l == l)
    && n.cl.seqid <= m.cl.seqid
    && (Distinct(n.cl.released) ==> Distinct(m.cl.released))
  }

  lemma TouchKeeps(n: Node, m: Node, t: ThreadId, l: LockId)
    requires Local(n) && Touches(n, m, t, l) && LockOk(m, l) && SameFace(n, m, l)
    ensures Local(m) && forall k: LockId :: SameFace(n, m, k)
  {
    forall k: LockId
      ensures LockOk(m, k) && SameFace(n, m, k)
    {
      if k != l {
        assert LockOk(n, k);
        assert Agree(n, m, k);
        AgreeKeeps(n, m, k);
      }
    }
  }

  lemma AcquTouches(n: Node, t: ThreadId, l: LockId, cond: C.Cond)
    requires n.PcOf(t) == Idle || n.PcOf(t) == LocalWait(l)
    ensures Touches(n, AfterAcqu(n, t, l, C.AtAcqu(n.cl, t, l, cond)), t, l)
  {
  }

  lemma AcquLockOk(n: Node, t: ThreadId, l: LockId, cond: C.Cond)
    requires Local(n) && t > 0 && (n.PcOf(t) == Idle || n.PcOf(t) == LocalWait(l)) && l in n.cl.locks
    ensures LockOk(AfterAcqu(n, t, l, C.AtAcqu(n.cl, t, l, cond)), l)
    ensures SameFace(n, AfterAcqu(n, t, l, C.AtAcqu(n.cl, t, l, cond)), l)
  {
    var m := AfterAcqu(n, t, l, C.AtAcqu(n.cl, t, l, cond));
    assert LockOk(n, l);
    assert forall u | u != t :: m.PcOf(u) == n.PcOf(u);
  }

  lemma IntroduceKeeps(n: Node, l: LockId)
    requires Local(n)
    ensures var m := n.(cl := C.Introduce(n.cl, l));
            Local(m) && l in m.cl.locks && forall k: LockId :: SameFace(n, m, k)
  {
    var m := n.(cl := C.Introduce(n.cl, l));
    assert forall t :: m.PcOf(t) == n.PcOf(t);
    forall k: LockId
      ensures LockOk(m, k) && SameFace(n, m, k)
    {
      assert LockOk(n, k);
      if k != l || l in n.cl.locks {
        AgreeKeeps(n, m, k);
      }
    }
  }

  lemma AcquKeeps(n: Node, t: ThreadId, l: LockId, cond: C.Cond)
    requires Local(n) && t > 0 && (n.PcOf(t) == Idle || n.PcOf(t) == LocalWait(l)) && l in n.cl.locks
    ensures var m := AfterAcqu(n, t, l, C.AtAcqu(n.cl, t, l, cond));
            Local(m) && forall k: LockId :: SameFace(n, m, k)
  {
    AcquTouches(n, t, l, cond);
    AcquLockOk(n, t, l, cond);
    TouchKeeps(n, AfterAcqu(n, t, l, C.AtAcqu(n.cl, t, l, cond)), t, l);
  }

  lemma AcquireKeeps(n: Node, a: Action)
    requires Local(n) && a.Acquire? && AtNode(n, a)
    ensures Local(NodeStep(n, a)) && forall k: LockId :: SameFace(n, NodeStep(n, a), k)
  {
    var n1 := n.(cl := C.Introduce(n.cl, a.l));
    IntroduceKeeps(n, a.l);
    assert n1.PcOf(a.t) == Idle;
    AcquKeeps(n1, a.t, a.l, a.cond);
    assert NodeStep(n, a) == AfterAcqu(n1, a.t, a.l, C.AtAcqu(n1.cl, a.t, a.l, a.cond));
    forall k: LockId ensures SameFace(n, NodeStep(n, a), k) {
      assert SameFace(n, n1, k) && SameFace(n1, NodeStep(n, a), k);
    }
  }

  lemma TakeGrantKeeps(n: Node, a: Action)
    requires Local(n) && a.TakeGrant? && AtNode(n, a)
    ensures Local(NodeStep(n, a)) && forall k: LockId :: SameFace(n, NodeStep(n, a), k)
  {
    var m, l := NodeStep(n, a), n.PcOf(a.t).l;
    assert LockOk(n, l) && Looping(n.PcOf(a.t), l) && Concerns(n.PcOf(a.t), l);
    assert forall u | u != a.t :: m.PcOf(u) == n.PcOf(u);
    assert !GrantOnWay(m, l) by {
      assert forall u :: m.PcOf(u) == Granted(l) ==> Looping(n.PcOf(u), l);
    }
    TouchKeeps(n, m, a.t, l);
  }

  lemma TakeRefusalKeeps(n: Node, a: Action)
    requires Local(n) && a.TakeRefusal? && AtNode(n, a)
    ensures Local(NodeStep(n, a)) && forall k: LockId :: SameFace(n, NodeStep(n, a), k)
  {
    var m, l := NodeStep(n, a), n.PcOf(a.t).l;
    assert LockOk(n, l) && Looping(n.PcOf(a.t), l) && Concerns(n.PcOf(a.t), l);
    assert forall u | u != a.t :: m.PcOf(u) == n.PcOf(u);
    assert GrantOnWay(m, l) <==> GrantOnWay(n, l);
    TouchKeeps(n, m, a.t, l);
  }

  lemma WakeRetryingKeeps(n: Node, a: Action)
    requires Local(n) && a.WakeRetrying? && AtNode(n, a)
    ensures Local(NodeStep(n, a)) && forall k: LockId :: SameFace(n, NodeStep(n, a), k)
  {
    var m, l := NodeStep(n, a), n.PcOf(a.t).l;
    assert LockOk(n, l) && Looping(n.PcOf(a.t), l) && Concerns(n.PcOf(a.t), l);
    assert forall u | u != a.t :: m.PcOf(u) == n.PcOf(u);
    assert GrantOnWay(m, l) <==> GrantOnWay(n, l);
    TouchKeeps(n, m, a.t, l);
  }

  lemma ReadSeqidKeeps(n: Node, a: Action)
    requires Local(n) && a.ReadSeqid? && AtNode(n, a)
    ensures Local(NodeStep(n, a)) && forall k: LockId :: SameFace(n, NodeStep(n, a), k)
  {
    var m, l := NodeStep(n, a), n.PcOf(a.t).l;
    assert LockOk(n, l) && Looping(n.PcOf(a.t), l) && Concerns(n.PcOf(a.t), l);
    assert forall u | u != a.t :: m.PcOf(u) == n.PcOf(u);
    assert GrantOnWay(m, l) <==> GrantOnWay(n, l);
    TouchKeeps(n, m, a.t, l);
  }

  lemma ReleaseKeeps(n: Node, a: Action)
    requires Local(n) && a.Release? && AtNode(n, a)
    ensures Local(NodeStep(n, a)) && forall k: LockId :: SameFace(n, NodeStep(n, a), k)
  {
    var m, l := NodeStep(n, a), a.l;
    assert LockOk(n, l);
    assert forall u :: m.PcOf(u) == n.PcOf(u);
    assert GrantOnWay(m, l) <==> GrantOnWay(n, l);
    TouchKeeps(n, m, a.t, l);
  }

  lemma ReleaserTakeKeeps(n: Node, a: Action)
    requires Local(n) && a.ReleaserTake? && AtNode(n, a)
    ensures Local(NodeStep(n, a)) && forall k: LockId :: SameFace(n, NodeStep(n, a), k)
  {
    var m, l := NodeStep(n, a), n.cl.released[0];
    assert n.cl.released == [l] + m.cl.released;
    assert LockOk(n, l);
    assert forall u :: m.PcOf(u) == n.PcOf(u);
    assert !GrantOnWay(m, l) by {
      assert forall u :: m.PcOf(u) == Granted(l) ==> Looping(n.PcOf(u), l);
    }
    forall k: LockId
      ensures LockOk(m, k) && SameFace(n, m, k)
    {
      assert LockOk(n, k);
      if k != l {
        AgreeKeeps(n, m, k);
      }
    }
  }

  lemma FlushDoneKeeps(n: Node, a: Action)
    requires Local(n) && a.FlushDone? && AtNode(n, a)
    ensures Local(NodeStep(n, a)) && forall k: LockId :: SameFace(n, NodeStep(n, a), k)
  {
    var m := NodeStep(n, a);
    assert forall u :: m.PcOf(u) == n.PcOf(u);
    forall k: LockId
      ensures LockOk(m, k) && SameFace(n, m, k)
    {
      assert LockOk(n, k);
      AgreeKeeps(n, m, k);
    }
  }

  lemma NodeKeeps(n: Node, a: Action)
    requires Local(n) && AtNode(n, a)
    ensures Local(NodeStep(n, a)) && forall k: LockId :: SameFace(n, NodeStep(n, a), k)
  {
    match a
    case Acquire(_, _, _, _) => AcquireKeeps(n, a);
    case ReadSeqid(_, _) => ReadSeqidKeeps(n, a);
    case TakeGrant(_, _) => TakeGrantKeeps(n, a);
    case TakeRefusal(_, _, _) => TakeRefusalKeeps(n, a);
    case WakeRetrying(_, _) => WakeRetryingKeeps(n, a);
    case WakeWaiting(_, t, cond) =>
      var l := n.PcOf(t).l;
      assert LockOk(n, l) && Concerns(n.PcOf(t), l);
      AcquKeeps(n, t, l, cond);
    case Release(_, _, _) => ReleaseKeeps(n, a);
    case ReleaserTake(_) => ReleaserTakeKeeps(n, a);
    case FlushDone(_) => FlushDoneKeeps(n, a);
  }

  // ---------------------------------------------------------------- the whole system

  /** The revoke request is for the grant the server has on record. */
  predicate Current(info: S.RevokeInfo, e: S.Entry) {
    e.status == S.REVOKING && info.clid == e.clid && info.seqid == e.seqid
  }

  ghost predicate Outstanding(s: Sys, l: LockId) {
    || (exists info :: info in s.srv.revokes && info.lid == l)
    || (s.revoking.Some? && s.revoking.value.lid == l)
  }

  ghost predicate OneRevokeEach(s: Sys) {
    && (forall i, j | 0 <= i < j < |s.srv.revokes| :: s.srv.revokes[i].lid != s.srv.revokes[j].lid)
    && (s.revoking.Some? ==> forall info | info in s.srv.revokes :: info.lid != s.revoking.value.lid)
  }

  /** The token of lock `l` is where the server's record says and nowhere else; the client that has
      it takes notice of a revoke once per grant, and only of the current grant. */
  ghost predicate Global(s: Sys, l: LockId) {
    var e := s.srv.At(l);
    && (e.status == S.FREE <==> e.clid <= 0)
    && (e.clid > 0 ==> e.clid in s.nodes && e.seqid >= 0 && SeqAtLeast(s.nodes[e.clid], l, e.seqid))
    && (forall c | c in s.nodes :: Owns(s.nodes[c], l) <==> e.clid == c)
    && (forall c | c in s.nodes && Revoked(s.nodes[c], l) :: e.status == S.REVOKING && !Outstanding(s, l))
    && (forall info | info in s.srv.revokes && info.lid == l :: Current(info, e))
    && (s.revoking.Some? && s.revoking.value.lid == l ==> Current(s.revoking.value, e))
    && (forall c | c in e.retries :: c in s.nodes && l in s.nodes[c].cl.locks)
    && (l in s.retrying ==> s.retrying[l] in s.nodes && l in s.nodes[s.retrying[l]].cl.locks)
  }

  ghost predicate Inv(s: Sys) {
    && s.srv.rpcc == s.nodes.Keys
    && (forall c | c in s.nodes :: c > 0 && Local(s.nodes[c]))
    && OneRevokeEach(s)
    && (forall l: LockId :: Global(s, l))
  }

  lemma InitInv(s: Sys)
    requires Init(s)
    ensures Inv(s)
  {
    assert forall t :: FreshNode.PcOf(t) == Idle;
    assert forall l: LockId :: LockOk(FreshNode, l) && !Owns(FreshNode, l);
  }

  /** From `s` to `s'` nothing about lock `l` changed, except that a revoke request or a waiter may
      have moved from its queue into the thread that serves it. */
  ghost predicate SameAt(s: Sys, s': Sys, l: LockId) {
    && s'.srv.At(l) == s.srv.At(l) && s'.nodes.Keys == s.nodes.Keys
    && (forall c | c in s.nodes :: SameFace(s.nodes[c], s'.nodes[c], l))
    && (forall info | info in s'.srv.revokes && info.lid == l :: info in s.srv.revokes)
    && (s'.revoking.Some? && s'.revoking.value.lid == l ==>
          s'.revoking == s.revoking || s'.revoking.value in s.srv.revokes)
    && (l in s'.retrying ==> l in s.retrying && s'.retrying[l] == s.retrying[l])
  }

  lemma GlobalFrame(s: Sys, s': Sys, l: LockId)
    requires Global(s, l) && SameAt(s, s', l)
    ensures Global(s', l)
  {
    assert Outstanding(s', l) ==> Outstanding(s, l);
    forall c | c in s'.nodes
      ensures SameFace(s.nodes[c], s'.nodes[c], l)
    {
    }
  }

  lemma NodeActionInv(s: Sys, a: Action)
    requires Inv(s) && Enabled(s, a)
    requires !AtServer(a)
    ensures Inv(Apply(s, a))
  {
    NodeKeeps(s.nodes[a.c], a);
    PutInv(s, a.c, NodeStep(s.nodes[a.c], a));
  }

  lemma PutInv(s: Sys, c: ClientId, m: Node)
    requires Inv(s) && c in s.nodes && Local(m) && forall k: LockId :: SameFace(s.nodes[c], m, k)
    ensures Inv(Put(s, c, m))
  {
    var s' := Put(s, c, m);
    assert s'.nodes.Keys == s.nodes.Keys;
    forall l: LockId ensures Global(s', l) {
      assert Global(s, l);
      assert SameFace(s.nodes[c], m, l);
      GlobalFrame(s, s', l);
    }
  }

  /** The thread's request becomes the reply `p`. */
  function Answered(n: Node, t: ThreadId, p: Pc): Node {
    n.(pcs := n.pcs[t := p])
  }

  lemma AnsweredKeeps(n: Node, t: ThreadId, l: LockId, p: Pc)
    requires Local(n) && n.PcOf(t).Sent? && n.PcOf(t).l == l
    requires p == Refused(l) || (p == Granted(l) && !HasRelease(n, l))
    ensures Local(Answered(n, t, p))
    ensures forall k: LockId | k != l || p == Refused(l) :: SameFace(n, Answered(n, t, p), k)
    ensures GrantOnWay(Answered(n, t, p), l) <==> p == Granted(l)
  {
    var m := Answered(n, t, p);
    assert LockOk(n, l) && Looping(n.PcOf(t), l) && Concerns(n.PcOf(t), l);
    assert m.PcOf(t) == p;
    assert forall u | u != t :: m.PcOf(u) == n.PcOf(u);
    assert GrantOnWay(m, l) <==> p == Granted(l) by {
      assert forall u | u != t :: m.PcOf(u) == Granted(l) ==> Looping(n.PcOf(u), l);
    }
    forall k: LockId
      ensures LockOk(m, k)
      ensures k != l || p == Refused(l) ==> SameFace(n, m, k)
    {
      assert LockOk(n, k);
      if k != l {
        AgreeKeeps(n, m, k);
      }
    }
  }

  /** What an acquire handler leaves alone, and what it does to the revoke queue. */
  lemma AcquireFrame(srv: S.Server, c: ClientId, l: LockId, q: int)
    ensures var srv' := S.Acquire(srv, c, l, q).0;
            && (forall k: LockId | k != l :: srv'.At(k) == srv.At(k))
            && srv'.rpcc == srv.rpcc
            && (srv'.revokes == srv.revokes ||
                srv'.revokes == srv.revokes + [S.RevokeInfo(l, srv'.At(l).clid, srv'.At(l).seqid)])
            && (srv.At(l).status == S.REVOKING ==> srv'.revokes == srv.revokes)
            && (srv'.At(l).status != S.REVOKING ==> srv'.revokes == srv.revokes)
  {
  }

  /** The client's node after the answer, and that nothing else about the clients changes. */
  lemma AcquireAnswer(s: Sys, a: Action)
    requires a.ServerAcquire? && Enabled(s, a)
    ensures var s', n := Apply(s, a), s.nodes[a.c];
      var l := n.PcOf(a.t).l;
      var p := if s.srv.At(l).status == S.FREE then Granted(l) else Refused(l);
      && s'.nodes == s.nodes[a.c := Answered(n, a.t, p)]
      && s'.srv == S.Acquire(s.srv, a.c, l, n.PcOf(a.t).q).0
      && s'.revoking == s.revoking && s'.retrying == s.retrying
  {
  }

  /** A client whose request is granted owns the token and has taken notice of no revoke of it. */
  lemma GrantedNode(n: Node, t: ThreadId)
    requires Local(n) && n.PcOf(t).Sent? && !Owns(n, n.PcOf(t).l)
    ensures var l, q := n.PcOf(t).l, n.PcOf(t).q;
      var m := Answered(n, t, Granted(l));
      Local(m) && Owns(m, l) && !Revoked(m, l) && SeqAtLeast(m, l, q) && (l in n.cl.locks ==> l in m.cl.locks)
  {
    var l := n.PcOf(t).l;
    assert LockOk(n, l) && Concerns(n.PcOf(t), l) && Looping(n.PcOf(t), l);
    AnsweredKeeps(n, t, l, Granted(l));
  }

  lemma GrantAt(s: Sys, a: Action)
    requires a.ServerAcquire? && Enabled(s, a) && Local(s.nodes[a.c]) && forall c | c in s.nodes :: c > 0
    requires Global(s, s.nodes[a.c].PcOf(a.t).l) && s.srv.At(s.nodes[a.c].PcOf(a.t).l).status == S.FREE
    ensures Global(Apply(s, a), s.nodes[a.c].PcOf(a.t).l)
    ensures Local(Apply(s, a).nodes[a.c])
  {
    GrantedNode(s.nodes[a.c], a.t);
    AcquireAnswer(s, a);
  }

  lemma RefuseAt(s: Sys, a: Action)
    requires a.ServerAcquire? && Enabled(s, a) && Local(s.nodes[a.c])
    requires Global(s, s.nodes[a.c].PcOf(a.t).l) && s.srv.At(s.nodes[a.c].PcOf(a.t).l).status != S.FREE
    ensures Global(Apply(s, a), s.nodes[a.c].PcOf(a.t).l)
    ensures Local(Apply(s, a).nodes[a.c])
  {
    var n := s.nodes[a.c];
    var Sent(l, q) := n.PcOf(a.t);
    var m := Answered(n, a.t, Refused(l));
    assert LockOk(n, l) && Concerns(n.PcOf(a.t), l);
    AnsweredKeeps(n, a.t, l, Refused(l));
    AcquireAnswer(s, a);
    assert SameFace(n, m, l);
  }

  lemma AcquireSameAt(s: Sys, a: Action, k: LockId)
    requires a.ServerAcquire? && Enabled(s, a) && k != s.nodes[a.c].PcOf(a.t).l
    requires SameFace(s.nodes[a.c], Apply(s, a).nodes[a.c], k)
    ensures SameAt(s, Apply(s, a), k)
  {
    AcquireAnswer(s, a);
    AcquireFrame(s.srv, a.c, s.nodes[a.c].PcOf(a.t).l, s.nodes[a.c].PcOf(a.t).q);
  }

  lemma ServerAcquireElsewhere(s: Sys, a: Action, k: LockId)
    requires a.ServerAcquire? && Enabled(s, a) && k != s.nodes[a.c].PcOf(a.t).l && Local(s.nodes[a.c])
    requires Global(s, k) && Global(s, s.nodes[a.c].PcOf(a.t).l) && a.c > 0
    ensures Global(Apply(s, a), k)
  {
    var n := s.nodes[a.c];
    var l := n.PcOf(a.t).l;
    assert HasRelease(n, l) ==> Owns(n, l);
    AnsweredKeeps(n, a.t, l, if s.srv.At(l).status == S.FREE then Granted(l) else Refused(l));
    AcquireAnswer(s, a);
    AcquireSameAt(s, a, k);
    GlobalFrame(s, Apply(s, a), k);
  }

  lemma ServerAcquireOneRevoke(s: Sys, a: Action)
    requires Inv(s) && a.ServerAcquire? && Enabled(s, a)
    ensures OneRevokeEach(Apply(s, a))
  {
    var Sent(l, q) := s.nodes[a.c].PcOf(a.t);
    AcquireFrame(s.srv, a.c, l, q);
    if s.srv.At(l).status != S.REVOKING {
      assert Global(s, l);
      assert !Outstanding(s, l);
      forall i | 0 <= i < |s.srv.revokes| ensures s.srv.revokes[i].lid != l {
        assert s.srv.revokes[i] in s.srv.revokes;
      }
    }
  }

  lemma ServerAcquireHere(s: Sys, a: Action)
    requires Inv(s) && a.ServerAcquire? && Enabled(s, a)
    ensures Global(Apply(s, a), s.nodes[a.c].PcOf(a.t).l) && Local(Apply(s, a).nodes[a.c])
  {
    var l := s.nodes[a.c].PcOf(a.t).l;
    assert Global(s, l);
    if s.srv.At(l).status == S.FREE { GrantAt(s, a); } else { RefuseAt(s, a); }
  }

  lemma ServerAcquireNodes(s: Sys, a: Action)
    requires a.ServerAcquire? && Enabled(s, a)
    ensures var s' := Apply(s, a);
      s'.srv.rpcc == s.srv.rpcc && s'.nodes == s.nodes[a.c := s'.nodes[a.c]]
  {
    AcquireAnswer(s, a);
    AcquireFrame(s.srv, a.c, s.nodes[a.c].PcOf(a.t).l, s.nodes[a.c].PcOf(a.t).q);
  }

  lemma ServerAcquireInv(s: Sys, a: Action)
    requires Inv(s) && a.ServerAcquire? && Enabled(s, a)
    ensures Inv(Apply(s, a))
  {
    var l := s.nodes[a.c].PcOf(a.t).l;
    assert Global(s, l);
    ServerAcquireOneRevoke(s, a);
    ServerAcquireHere(s, a);
    ServerAcquireNodes(s, a);
    forall k: LockId ensures Global(Apply(s, a), k) {
      if k != l { ServerAcquireElsewhere(s, a, k); }
    }
  }

  lemma ReleasedNode(n: Node)
    requires Local(n) && n.rel.Releasing?
    ensures var m := n.(rel := Resting);
            Local(m) && (forall k: LockId | k != n.rel.l :: SameFace(n, m, k)) && !Owns(m, n.rel.l) && n.rel.l in m.cl.locks
  {
    var m, l := n.(rel := Resting), n.rel.l;
    assert forall t :: m.PcOf(t) == n.PcOf(t);
    assert GrantOnWay(m, l) <==> GrantOnWay(n, l);
    assert LockOk(n, l) && HasRelease(n, l);
    forall k: LockId
      ensures LockOk(m, k) && (k != l ==> SameFace(n, m, k))
    {
      assert LockOk(n, k);
      if k != l { AgreeKeeps(n, m, k); }
    }
  }

  /** The server accepts the release, and after it no client has the token. */
  lemma ServerReleaseAt(s: Sys, a: Action)
    requires Inv(s) && a.ServerRelease? && Enabled(s, a)
    ensures !Faults(s, a) && Global(Apply(s, a), s.nodes[a.c].rel.l)
  {
    var s', n := Apply(s, a), s.nodes[a.c];
    var l, m := n.rel.l, n.(rel := Resting);
    ReleasedNode(n);
    assert Global(s, l) && HasRelease(n, l) && Owns(n, l) && Revoked(n, l);
    assert s'.nodes == s.nodes[a.c := m];
    forall c | c in s'.nodes ensures !Owns(s'.nodes[c], l) && !Revoked(s'.nodes[c], l) {
      assert LockOk(s'.nodes[c], l);
    }
    assert !Outstanding(s, l) && !Outstanding(s', l);
  }

  lemma ServerReleaseElsewhere(s: Sys, a: Action, k: LockId)
    requires a.ServerRelease? && Enabled(s, a) && k != s.nodes[a.c].rel.l && Local(s.nodes[a.c]) && Global(s, k)
    ensures Global(Apply(s, a), k)
  {
    var s', n := Apply(s, a), s.nodes[a.c];
    ReleasedNode(n);
    assert s'.nodes == s.nodes[a.c := n.(rel := Resting)];
    assert SameFace(n, n.(rel := Resting), k);
    GlobalFrame(s, s', k);
  }

  lemma ServerReleaseInv(s: Sys, a: Action)
    requires Inv(s) && a.ServerRelease? && Enabled(s, a)
    ensures Inv(Apply(s, a))
  {
    ReleasedNode(s.nodes[a.c]);
    ServerReleaseAt(s, a);
    forall k: LockId | k != s.nodes[a.c].rel.l ensures Global(Apply(s, a), k) {
      ServerReleaseElsewhere(s, a, k);
    }
  }

  lemma RevokerInv(s: Sys, a: Action)
    requires Inv(s) && a.Revoker? && Enabled(s, a)
    ensures Inv(Apply(s, a))
    ensures S.TakeRevoke(s.srv).1 == S.Some(s.srv.revokes[0])
  {
    var s' := Apply(s, a);
    var info := s.srv.revokes[0];
    assert info in s.srv.revokes && Global(s, info.lid);
    assert s.srv.revokes == [info] + s'.srv.revokes;
    forall k: LockId ensures Global(s', k) {
      assert Global(s, k);
      GlobalFrame(s, s', k);
    }
  }

  lemma RevokeCallAt(s: Sys)
    requires Inv(s) && Enabled(s, RevokeCall)
    ensures var info := s.revoking.value;
            var st := s.nodes[info.clid].cl.At(info.lid).status;
            (st == C.FREE || st == C.LOCKED) && !Faults(s, RevokeCall) && !Revoked(s.nodes[info.clid], info.lid)
  {
    var info := s.revoking.value;
    var n := s.nodes[info.clid];
    assert Global(s, info.lid) && Current(info, s.srv.At(info.lid)) && LockOk(n, info.lid);
    assert Outstanding(s, info.lid);
    assert !GrantOnWay(n, info.lid) by {
      assert forall t :: n.PcOf(t) == Granted(info.lid) ==> Looping(n.PcOf(t), info.lid);
    }
  }

  lemma RevokedNode(n: Node, l: LockId, q: int)
    requires Local(n) && !Revoked(n, l) && (n.cl.At(l).status == C.FREE || n.cl.At(l).status == C.LOCKED)
    requires C.Revoke(n.cl, l, q).Done?
    ensures var m := n.(cl := C.Revoke(n.cl, l, q).c);
            && Local(m) && (forall k: LockId | k != l :: SameFace(n, m, k))
            && Owns(m, l) && l in m.cl.locks && (forall p | SeqAtLeast(n, l, p) :: SeqAtLeast(m, l, p))
  {
    var m := n.(cl := C.Revoke(n.cl, l, q).c);
    assert forall t :: m.PcOf(t) == n.PcOf(t);
    assert LockOk(n, l);
    assert GrantOnWay(m, l) <==> GrantOnWay(n, l);
    forall k: LockId
      ensures LockOk(m, k) && (k != l ==> SameFace(n, m, k))
    {
      assert LockOk(n, k);
      if k != l { AgreeKeeps(n, m, k); }
    }
  }

  lemma RevokeCallHere(s: Sys)
    requires Inv(s) && Enabled(s, RevokeCall)
    ensures Global(Apply(s, RevokeCall), s.revoking.value.lid)
  {
    var s', info := Apply(s, RevokeCall), s.revoking.value;
    var n, l := s.nodes[info.clid], info.lid;
    RevokeCallAt(s);
    RevokedNode(n, l, info.seqid);
    assert Global(s, l) && LockOk(n, l);
    assert !Outstanding(s', l);
  }

  lemma RevokeCallInv(s: Sys)
    requires Inv(s) && Enabled(s, RevokeCall)
    ensures Inv(Apply(s, RevokeCall))
  {
    var s', info := Apply(s, RevokeCall), s.revoking.value;
    var n := s.nodes[info.clid];
    RevokeCallAt(s);
    RevokedNode(n, info.lid, info.seqid);
    RevokeCallHere(s);
    forall k: LockId | k != info.lid ensures Global(s', k) {
      assert Global(s, k);
      assert SameFace(n, s'.nodes[info.clid], k);
      GlobalFrame(s, s', k);
    }
  }

  lemma RetryerInv(s: Sys)
    requires Inv(s) && Enabled(s, Retryer)
    ensures Inv(Apply(s, Retryer))
  {
    var s' := Apply(s, Retryer);
    forall k: LockId ensures Global(s', k) {
      assert Global(s, k);
      var e, e' := s.srv.At(k), s'.srv.At(k);
      assert e'.status == e.status && e'.clid == e.clid && e'.seqid == e.seqid;
      assert forall c | c in e'.retries :: c in e.retries;
      if k in s'.retrying {
        assert s'.retrying[k] == e.retries[0] && e.retries[0] in e.retries;
      }
      assert Outstanding(s', k) <==> Outstanding(s, k);
    }
  }

  lemma RetriedNode(n: Node, l: LockId)
    requires Local(n) && l in n.cl.locks
    ensures var m := n.(cl := C.Retry(n.cl, l));
            Local(m) && forall k: LockId :: SameFace(n, m, k)
  {
    var m := n.(cl := C.Retry(n.cl, l));
    assert forall t :: m.PcOf(t) == n.PcOf(t);
    forall k: LockId
      ensures LockOk(m, k) && SameFace(n, m, k)
    {
      assert LockOk(n, k);
      if k != l {
        AgreeKeeps(n, m, k);
      } else {
        assert GrantOnWay(m, k) <==> GrantOnWay(n, k);
      }
    }
  }

  lemma RetryCallInv(s: Sys, a: Action)
    requires Inv(s) && a.RetryCall? && Enabled(s, a)
    ensures Inv(Apply(s, a)) && !Faults(s, a)
  {
    var s', l, c := Apply(s, a), a.l, s.retrying[a.l];
    assert Global(s, l);
    RetriedNode(s.nodes[c], l);
    var m := s'.nodes[c];
    PutInv(s, c, m);
    forall k: LockId ensures Global(s', k) {
      assert Global(Put(s, c, m), k);
      GlobalFrame(Put(s, c, m), s', k);
    }
  }

  lemma StepInv(s: Sys, a: Action)
    requires Inv(s) && Enabled(s, a)
    ensures Inv(Apply(s, a))
  {
    match a
    case ServerAcquire(_, _) => ServerAcquireInv(s, a);
    case ServerRelease(_) => ServerReleaseInv(s, a);
    case Revoker(_) => RevokerInv(s, a);
    case RevokeCall => RevokeCallInv(s);
    case Retryer => RetryerInv(s);
    case RetryCall(_, _) => RetryCallInv(s, a);
    case _ => NodeActionInv(s, a);
  }

  // ---------------------------------------------------------------- every run

  /** `trace` is a run: `acts[i]` leads from `trace[i]` to `trace[i + 1]`. */
  ghost predicate Run(trace: seq<Sys>, acts: seq<Action>) {
    && |trace| == |acts| + 1
    && Init(trace[0])
    && forall i {:trigger acts[i]} | 0 <= i < |acts| :: Enabled(trace[i], acts[i]) && trace[i + 1] == Apply(trace[i], acts[i])
  }

  lemma {:induction false} RunInv(trace: seq<Sys>, acts: seq<Action>, i: nat)
    requires Run(trace, acts) && i < |trace|
    ensures Inv(trace[i])
  {
    if i == 0 {
      InitInv(trace[0]);
    } else {
      RunInv(trace, acts, i - 1);
      StepInv(trace[i - 1], acts[i - 1]);
    }
  }

  /** In every state of every run the token of every lock is in exactly one place: with the server,
      or with one client, there either as one grant on its way to one thread, or cached, or in the
      releaser with its release call not yet handled. */
  lemma TokenConservation(trace: seq<Sys>, acts: seq<Action>, i: nat, l: LockId)
    requires Run(trace, acts) && i < |trace|
    ensures var s := trace[i];
      && (s.srv.At(l).status == S.FREE <==> forall c | c in s.nodes :: !Owns(s.nodes[c], l))
      && (forall c, d | c in s.nodes && d in s.nodes && Owns(s.nodes[c], l) && Owns(s.nodes[d], l) :: c == d)
      && (forall c | c in s.nodes ::
            var n := s.nodes[c];
            && !(GrantOnWay(n, l) && Cached(n, l))
            && !(GrantOnWay(n, l) && HasRelease(n, l))
            && !(Cached(n, l) && HasRelease(n, l))
            && (forall t, u | n.PcOf(t) == Granted(l) && n.PcOf(u) == Granted(l) :: t == u))
  {
    RunInv(trace, acts, i);
    var s := trace[i];
    assert Global(s, l);
    forall c | c in s.nodes
      ensures var n := s.nodes[c];
        && !(GrantOnWay(n, l) && Cached(n, l)) && !(GrantOnWay(n, l) && HasRelease(n, l))
        && !(Cached(n, l) && HasRelease(n, l))
        && (forall t, u | n.PcOf(t) == Granted(l) && n.PcOf(u) == Granted(l) :: t == u)
    {
      var n := s.nodes[c];
      assert LockOk(n, l);
      assert forall t | n.PcOf(t) == Granted(l) :: Looping(n.PcOf(t), l);
    }
  }

  /** No two threads, on the same client or on different ones, hold a lock at once. */
  lemma MutualExclusion(trace: seq<Sys>, acts: seq<Action>, i: nat, l: LockId,
                        c: ClientId, t: ThreadId, d: ClientId, u: ThreadId)
    requires Run(trace, acts) && i < |trace|
    requires c in trace[i].nodes && (t, l) in trace[i].nodes[c].held
    requires d in trace[i].nodes && (u, l) in trace[i].nodes[d].held
    ensures c == d && t == u
  {
    RunInv(trace, acts, i);
    assert Global(trace[i], l) && LockOk(trace[i].nodes[c], l) && LockOk(trace[i].nodes[d], l);
  }

  /** A revoke RPC that has waited out ACQUIRING finds its lock FREE or LOCKED by this client, for the
      grant it was sent for, so neither the early return nor `assert(false)` is ever reached. */
  lemma RevokesAreTimely(trace: seq<Sys>, acts: seq<Action>, i: nat)
    requires Run(trace, acts) && i < |trace| && Enabled(trace[i], RevokeCall)
    ensures var info := trace[i].revoking.value;
      var st := trace[i].nodes[info.clid].cl.At(info.lid).status;
      && (st == C.FREE || st == C.LOCKED)
      && C.Revoke(trace[i].nodes[info.clid].cl, info.lid, info.seqid).Done?
      && Current(info, trace[i].srv.At(info.lid))
  {
    RunInv(trace, acts, i);
    RevokeCallAt(trace[i]);
    assert Global(trace[i], trace[i].revoking.value.lid);
  }

  /** The revoker's tests for an out-of-date request never fire. */
  lemma RevokesAreNeverStale(trace: seq<Sys>, acts: seq<Action>, i: nat, primary: bool)
    requires Run(trace, acts) && i < |trace| && Enabled(trace[i], Revoker(primary))
    ensures S.TakeRevoke(trace[i].srv).1 == S.Some(trace[i].srv.revokes[0])
  {
    RunInv(trace, acts, i);
    RevokerInv(trace[i], Revoker(primary));
  }

  /** No run stops in an assertion of the client, leaves `map_lock` held or follows a null wait list:
      the releaser always finds RELEASING, the server accepts every release, revokes are timely and
      retries are for locks the client knows. */
  lemma NoRunFaults(trace: seq<Sys>, acts: seq<Action>, i: nat)
    requires Run(trace, acts) && i < |acts|
    ensures !Faults(trace[i], acts[i])
  {
    RunInv(trace, acts, i);
    var s := trace[i];
    match acts[i]
    case ReleaserTake(c) => assert LockOk(s.nodes[c], s.nodes[c].cl.released[0]);
    case ServerRelease(_) => ServerReleaseAt(s, acts[i]);
    case RevokeCall => RevokeCallAt(s);
    case RetryCall(_, _) => RetryCallInv(s, acts[i]);
    case _ =>
  }

  /** The revoke that was stored before its grant arrived (m_waiting_revoke) never exists. */
  lemma NoEarlyRevoke(trace: seq<Sys>, acts: seq<Action>, i: nat, c: ClientId, t: ThreadId)
    requires Run(trace, acts) && i < |trace| && Enabled(trace[i], TakeGrant(c, t))
    ensures var n := trace[i].nodes[c];
      C.TakeGrant(n.cl, t, n.PcOf(t).l).revokes == n.cl.revokes
  {
    RunInv(trace, acts, i);
    var n := trace[i].nodes[c];
    assert LockOk(n, n.PcOf(t).l) && Concerns(n.PcOf(t), n.PcOf(t).l);
  }
}
