/** The caching lock server (lock_server_cache.cc): its fields as a value, its RPC handlers and the
    critical sections of its two background threads as functions, and the class that runs them in
    place.  A C++ `m[k]` on a missing key reads as the default value of the type. */
module LockServer {

  type LockId = nat
  type ClientId = int

  datatype Option<+T> = None | Some(value: T)

  datatype LockStatus = FREE | LOCKED | REVOKING
  datatype Reply = OK | RETRY | RPCERR
  datatype RevokeInfo = RevokeInfo(lid: LockId, clid: ClientId, seqid: int)

  const NO_CLIENT: ClientId := -1
  const NO_SEQ: int := -1

  /** The per-lock maps of the source: holder, the seqid it acquired with, the clients to be told
      when the lock is free, and how often each client got the lock. */
  datatype Entry = Entry(status: LockStatus, clid: ClientId, seqid: int, retries: seq<ClientId>,
                         counts: map<ClientId, nat>)
  {
    function CountOf(c: ClientId): nat {
      if c in counts then counts[c] else 0
    }
  }

  /** What the source's `m[lid]` reads for a lock nobody asked for yet. */
  const Unknown: Entry := Entry(FREE, 0, 0, [], map[])
  /** What `acquire` creates for such a lock. */
  const NewEntry: Entry := Entry(FREE, NO_CLIENT, NO_SEQ, [], map[])

  datatype Server = Server(locks: map<LockId, Entry>, revokes: seq<RevokeInfo>, rpcc: set<ClientId>)
  {
    function At(l: LockId): Entry {
      if l in locks then locks[l] else Unknown
    }
  }

  /** The lock was free: record the client, and revoke at once if others already wait. */
  function Grant(s: Server, c: ClientId, l: LockId, q: int): Server {
    var e := s.At(l);
    var e1 := Entry(if e.retries == [] then LOCKED else REVOKING, c, q, e.retries,
                    e.counts[c := e.CountOf(c) + 1]);
    Server(s.locks[l := e1], if e.retries == [] then s.revokes else s.revokes + [RevokeInfo(l, c, q)], s.rpcc)
  }

  /** The lock was taken: revoke it unless that is under way, and queue the client. */
  function Refuse(s: Server, c: ClientId, l: LockId): Server {
    var e := s.At(l);
    var e1 := e.(status := REVOKING, retries := e.retries + [c]);
    Server(s.locks[l := e1],
           if e.status == REVOKING then s.revokes else s.revokes + [RevokeInfo(l, e.clid, e.seqid)], s.rpcc)
  }

  function Introduce(s: Server, l: LockId): Server {
    if l in s.locks then s else s.(locks := s.locks[l := NewEntry])
  }

  function Acquire(s: Server, c: ClientId, l: LockId, q: int): (Server, Reply) {
    var s1 := Introduce(s, l);
    if s1.At(l).status == FREE then (Grant(s1, c, l, q), OK) else (Refuse(s1, c, l), RETRY)
  }

  function Release(s: Server, c: ClientId, l: LockId, retry: bool): (Server, Reply) {
    var e := s.At(l);
    if e.clid != c then (s, RPCERR)
    else
      (s.(locks := s.locks[l := Entry(FREE, NO_CLIENT, NO_SEQ, if retry then e.retries + [c] else e.retries,
                                      e.counts)]), OK)
  }

  /** One round of the revoker: pop a request and drop it if it is out of date.  The first test of
      the source compares the holder with the constant FREE, which is 0. */
  function TakeRevoke(s: Server): (Server, Option<RevokeInfo>)
    requires s.revokes != []
  {
    var info := s.revokes[0];
    var e := s.At(info.lid);
    var s1 := s.(revokes := s.revokes[1..]);
    if e.clid == 0 then (s1, None)
    else if e.clid != info.clid || e.seqid != info.seqid then (s1, None)
    else (s1, Some(info))
  }

  /** The locks whose first waiter one round of the retryer pops. */
  predicate HasTurn(e: Entry) {
    e.status == FREE && e.retries != []
  }

  function FirstWaiters(locks: map<LockId, Entry>): map<LockId, ClientId> {
    map l | l in locks && HasTurn(locks[l]) :: locks[l].retries[0]
  }

  function PopWaiter(e: Entry): Entry {
    if HasTurn(e) then e.(retries := e.retries[1..]) else e
  }

  function PopWaiters(locks: map<LockId, Entry>): map<LockId, Entry> {
    map l | l in locks :: PopWaiter(locks[l])
  }

  function TakeRetries(s: Server): (Server, map<LockId, ClientId>) {
    (s.(locks := PopWaiters(s.locks)), FirstWaiters(s.locks))
  }

  class LockServerCache {
    var locks: map<LockId, Entry>
    var revokes: seq<RevokeInfo>
    var rpcc: set<ClientId>

    function View(): Server
      reads this
    {
      Server(locks, revokes, rpcc)
    }

    constructor ()
      ensures View() == Server(map[], [], {})
    {
      locks, revokes, rpcc := map[], [], {};
    }

    method AcquireCall(c: ClientId, l: LockId, q: int) returns (ret: Reply)
      requires c in rpcc
      modifies this
      ensures (View(), ret) == Acquire(old(View()), c, l, q)
    {
      if l !in locks {
        locks := locks[l := NewEntry];
      }
      var e := locks[l];
      if e.status == FREE {
        e := e.(clid := c, seqid := q, status := LOCKED);
        if c !in e.counts {
          e := e.(counts := e.counts[c := 1]);
        } else {
          e := e.(counts := e.counts[c := e.counts[c] + 1]);
        }
        if e.retries != [] {
          if e.status != REVOKING {
            e := e.(status := REVOKING);
            revokes := revokes + [RevokeInfo(l, e.clid, e.seqid)];
          }
        }
        ret := OK;
      } else {
        if e.status != REVOKING {
          e := e.(status := REVOKING);
          revokes := revokes + [RevokeInfo(l, e.clid, e.seqid)];
        }
        e := e.(retries := e.retries + [c]);
        ret := RETRY;
      }
      locks := locks[l := e];
    }

    method ReleaseCall(c: ClientId, l: LockId, retry: bool) returns (ret: Reply)
      requires c in rpcc
      modifies this
      ensures (View(), ret) == Release(old(View()), c, l, retry)
    {
      var e := View().At(l);
      if e.clid != c {
        return RPCERR;
      }
      e := e.(clid := NO_CLIENT, seqid := NO_SEQ, status := FREE);
      if retry {
        e := e.(retries := e.retries + [c]);
      }
      locks := locks[l := e];
      return OK;
    }

    method StatCall(c: ClientId, l: LockId) returns (r: nat)
      requires c in rpcc
      ensures r == View().At(l).CountOf(c)
    {
      var counts := View().At(l).counts;
      if c !in counts {
        r := 0;
      } else {
        r := counts[c];
      }
    }

    method RevokerRound() returns (call: Option<RevokeInfo>)
      requires revokes != []
      modifies this
      ensures (View(), call) == TakeRevoke(old(View()))
    {
      var info := revokes[0];
      revokes := revokes[1..];
      var e := View().At(info.lid);
      if e.clid == 0 {
        return None;
      }
      if e.clid != info.clid || e.seqid != info.seqid {
        return None;
      }
      return Some(info);
    }

    method FindFreeLocks() returns (free: seq<LockId>)
      ensures forall l :: l in free <==> l in locks && locks[l].status == FREE
      ensures forall i, j :: 0 <= i < j < |free| ==> free[i] != free[j]
    {
      free := [];
      var rest := locks.Keys;
      while rest != {}
        invariant rest <= locks.Keys
        invariant forall l :: l in free <==> l in locks && l !in rest && locks[l].status == FREE
        invariant forall i, j :: 0 <= i < j < |free| ==> free[i] != free[j]
        decreases rest
      {
        var l :| l in rest;
        rest := rest - {l};
        if locks[l].status == FREE {
          free := free + [l];
        }
      }
    }

    /** Take the first waiter of a free lock into the calls to be made. */
    method PopFirst(l: LockId, m: map<LockId, ClientId>) returns (m': map<LockId, ClientId>)
      requires l in locks && locks[l].status == FREE
      modifies this`locks
      ensures locks == old(locks)[l := PopWaiter(old(locks)[l])]
      ensures m' == if HasTurn(old(locks)[l]) then m[l := old(locks)[l].retries[0]] else m
    {
      var e := locks[l];
      m' := m;
      if e.retries != [] {
        m' := m[l := e.retries[0]];
        locks := locks[l := e.(retries := e.retries[1..])];
      } else {
        assert locks == locks[l := e];
      }
    }

    method RetryerRound() returns (m: map<LockId, ClientId>)
      modifies this`locks
      ensures (View(), m) == TakeRetries(old(View()))
    {
      var free := FindFreeLocks();
      m := map[];
      ghost var before, todo := locks, set l | l in free;
      while free != []
        invariant Halfway(before, locks, m, todo)
        invariant (forall l :: l in free <==> l in todo) && forall p, q :: 0 <= p < q < |free| ==> free[p] != free[q]
        decreases |free|
      {
        assert free == [free[0]] + free[1..];
        HalfwayStep(before, locks, m, todo, free[0]);
        m := PopFirst(free[0], m);
        todo := todo - {free[0]};
        free := free[1..];
      }
      HalfwayEnd(before, locks, m, todo);
    }
  }

  /** The free locks in todo are still to be visited, the others have been. */
  ghost predicate Halfway(before: map<LockId, Entry>, locks: map<LockId, Entry>, m: map<LockId, ClientId>,
                          todo: set<LockId>)
  {
    && locks.Keys == before.Keys
    && (forall l | l in todo :: l in before && before[l].status == FREE)
    && (forall l | l in before :: locks[l] == if l in todo then before[l] else PopWaiter(before[l]))
    && (forall l :: l in m <==> l in before && HasTurn(before[l]) && l !in todo)
    && (forall l | l in m :: m[l] == before[l].retries[0])
  }

  lemma HalfwayStep(before: map<LockId, Entry>, locks: map<LockId, Entry>, m: map<LockId, ClientId>,
                    todo: set<LockId>, l: LockId)
    requires Halfway(before, locks, m, todo) && l in todo
    ensures l in locks && locks[l].status == FREE
    ensures Halfway(before, locks[l := PopWaiter(locks[l])],
                    if HasTurn(locks[l]) then m[l := locks[l].retries[0]] else m, todo - {l})
  {
  }

  lemma HalfwayEnd(before: map<LockId, Entry>, locks: map<LockId, Entry>, m: map<LockId, ClientId>, todo: set<LockId>)
    requires Halfway(before, locks, m, todo) && todo == {}
    ensures m == FirstWaiters(before) && locks == PopWaiters(before)
  {
  }
}

/** What the server promises under any sequence of calls by any clients, together with its revoker
    and retryer, told from a history kept beside each lock. */
module LockServerAccounting {
  import opened LockServer

  datatype Event =
    | Granted(c: ClientId)                  // an acquire answered OK
    | Queued(c: ClientId)                   // an acquire answered RETRY, or a release with retry = 1
    | Popped(c: ClientId)                   // the retryer removed the client from the wait queue
    | Retried(c: ClientId, called: bool)    // its turn in the call loop; called when the node is primary
    | RevokeQueued(info: RevokeInfo)

  datatype State = State(srv: Server, pending: map<LockId, ClientId>, log: map<LockId, seq<Event>>)
  {
    function LogOf(l: LockId): seq<Event> {
      if l in log then log[l] else []
    }
  }

  datatype Action =
    | CallAcquire(c: ClientId, l: LockId, q: int)
    | CallRelease(c: ClientId, l: LockId, retry: bool)
    | Revoker
    | Retryer
    | RetryCall(l: LockId, primary: bool)

  predicate Init(s: State) {
    && s.srv == Server(map[], [], s.srv.rpcc)
    && s.pending == map[] && s.log == map[]
    && forall c | c in s.srv.rpcc :: c > 0
  }

  predicate Enabled(s: State, a: Action) {
    match a
    case CallAcquire(c, l, q) => c in s.srv.rpcc
    case CallRelease(c, l, retry) => c in s.srv.rpcc
    case Revoker => s.srv.revokes != []
    case Retryer => s.pending == map[]
    case RetryCall(l, primary) => l in s.pending
  }

  /** Revoke requests that the step from `s` to `t` appended to the queue. */
  function NewRevokes(s: Server, t: Server): seq<Event> {
    if |s.revokes| < |t.revokes| then [RevokeQueued(t.revokes[|s.revokes|])] else []
  }

  function Apply(s: State, a: Action): State
    requires Enabled(s, a)
  {
    match a
    case CallAcquire(c, l, q) =>
      var (t, r) := Acquire(s.srv, c, l, q);
      var e := if r == OK then [Granted(c)] else [Queued(c)];
      s.(srv := t, log := s.log[l := s.LogOf(l) + e + NewRevokes(s.srv, t)])
    case CallRelease(c, l, retry) =>
      var (t, r) := Release(s.srv, c, l, retry);
      s.(srv := t, log := if r == OK && retry then s.log[l := s.LogOf(l) + [Queued(c)]] else s.log)
    case Revoker => s.(srv := TakeRevoke(s.srv).0)
    case Retryer =>
      var (t, m) := TakeRetries(s.srv);
      State(t, m, map l | l in s.log.Keys + m.Keys :: s.LogOf(l) + if l in m then [Popped(m[l])] else [])
    case RetryCall(l, primary) =>
      s.(pending := s.pending - {l}, log := s.log[l := s.LogOf(l) + [Retried(s.pending[l], primary)]])
  }

  function Queue(h: seq<Event>): seq<ClientId> {
    if h == [] then [] else
      var n := |h| - 1;
      Queue(h[..n]) + if h[n].Queued? then [h[n].c] else []
  }

  function Pops(h: seq<Event>): seq<ClientId> {
    if h == [] then [] else
      var n := |h| - 1;
      Pops(h[..n]) + if h[n].Popped? then [h[n].c] else []
  }

  function Retries(h: seq<Event>): seq<ClientId> {
    if h == [] then [] else
      var n := |h| - 1;
      Retries(h[..n]) + if h[n].Retried? then [h[n].c] else []
  }

  function Grants(h: seq<Event>, c: ClientId): nat {
    if h == [] then 0 else
      var n := |h| - 1;
      Grants(h[..n], c) + if h[n] == Granted(c) then 1 else 0
  }

  /** Revokes queued since the latest grant. */
  function RevokesSinceGrant(h: seq<Event>): nat {
    if h == [] || h[|h| - 1].Granted? then 0 else
      var n := |h| - 1;
      RevokesSinceGrant(h[..n]) + if h[n].RevokeQueued? then 1 else 0
  }

  /** No stretch between two grants has queued a second revoke. */
  predicate OneRevokePerGrant(h: seq<Event>) {
    h == [] || (RevokesSinceGrant(h) <= 1 && OneRevokePerGrant(h[..|h| - 1]))
  }

  /** What the history `h` of a lock says about the server's record of it; `turn` is the client
      popped and not yet called. */
  ghost predicate Tells(h: seq<Event>, status: LockStatus, waiting: seq<ClientId>, turn: seq<ClientId>,
                        counts: map<ClientId, nat>)
  {
    && Queue(h) == Pops(h) + waiting
    && Pops(h) == Retries(h) + turn
    && (forall c :: Grants(h, c) == if c in counts then counts[c] else 0)
    && OneRevokePerGrant(h)
    && (status == LOCKED ==> RevokesSinceGrant(h) == 0)
    && (status == REVOKING ==> RevokesSinceGrant(h) == 1)
  }

  ghost predicate Accounted(s: State, l: LockId) {
    var e := s.srv.At(l);
    && (e.status == FREE <==> e.clid <= 0)
    && Tells(s.LogOf(l), e.status, e.retries, if l in s.pending then [s.pending[l]] else [], e.counts)
  }

  ghost predicate Inv(s: State) {
    (forall c | c in s.srv.rpcc :: c > 0) && forall l: LockId :: Accounted(s, l)
  }

  /** Appending one event changes each measure by that event only. */
  lemma Append(h: seq<Event>, e: Event)
    ensures Queue(h + [e]) == Queue(h) + if e.Queued? then [e.c] else []
    ensures Pops(h + [e]) == Pops(h) + if e.Popped? then [e.c] else []
    ensures Retries(h + [e]) == Retries(h) + if e.Retried? then [e.c] else []
    ensures forall c :: Grants(h + [e], c) == Grants(h, c) + if e == Granted(c) then 1 else 0
    ensures RevokesSinceGrant(h + [e]) ==
            if e.Granted? then 0 else RevokesSinceGrant(h) + if e.RevokeQueued? then 1 else 0
    ensures OneRevokePerGrant(h) && (e.RevokeQueued? ==> RevokesSinceGrant(h) == 0) ==>
              OneRevokePerGrant(h + [e])
  {
    assert (h + [e])[..|h|] == h;
  }

  lemma InitAccounted(s: State)
    requires Init(s)
    ensures Inv(s)
  {
    forall l: LockId ensures Accounted(s, l) {
      assert s.LogOf(l) == [];
    }
  }

  lemma GrantTells(h: seq<Event>, c: ClientId, info: RevokeInfo, waiting: seq<ClientId>, turn: seq<ClientId>,
                   counts: map<ClientId, nat>)
    requires Tells(h, FREE, waiting, turn, counts)
    ensures var counts' := counts[c := (if c in counts then counts[c] else 0) + 1];
            && Tells(h + [Granted(c)], LOCKED, waiting, turn, counts')
            && Tells(h + [Granted(c)] + [RevokeQueued(info)], REVOKING, waiting, turn, counts')
  {
    Append(h, Granted(c));
    Append(h + [Granted(c)], RevokeQueued(info));
  }

  lemma QueuedTells(h: seq<Event>, c: ClientId, info: RevokeInfo, st: LockStatus, waiting: seq<ClientId>,
                    turn: seq<ClientId>, counts: map<ClientId, nat>)
    requires Tells(h, st, waiting, turn, counts)
    ensures Tells(h + [Queued(c)], st, waiting + [c], turn, counts)
    ensures st == LOCKED ==> Tells(h + [Queued(c)] + [RevokeQueued(info)], REVOKING, waiting + [c], turn, counts)
  {
    Append(h, Queued(c));
    Append(h + [Queued(c)], RevokeQueued(info));
    assert Queue(h) + [c] == Pops(h) + (waiting + [c]);
  }

  lemma GrantAccounted(s: State, c: ClientId, l: LockId, q: int)
    requires Inv(s) && Enabled(s, CallAcquire(c, l, q)) && s.srv.At(l).status == FREE
    ensures Accounted(Apply(s, CallAcquire(c, l, q)), l)
  {
    var t := Apply(s, CallAcquire(c, l, q));
    var e, e' := s.srv.At(l), t.srv.At(l);
    assert Accounted(s, l);
    assert e' == Entry(if e.retries == [] then LOCKED else REVOKING, c, q, e.retries, e.counts[c := e.CountOf(c) + 1]);
    assert t.LogOf(l) == s.LogOf(l) + [Granted(c)] + NewRevokes(s.srv, t.srv);
    GrantTells(s.LogOf(l), c, RevokeInfo(l, c, q), e.retries, if l in s.pending then [s.pending[l]] else [], e.counts);
    if e.retries == [] {
      assert t.LogOf(l) == s.LogOf(l) + [Granted(c)];
    } else {
      assert t.LogOf(l) == s.LogOf(l) + [Granted(c)] + [RevokeQueued(RevokeInfo(l, c, q))];
    }
  }

  lemma RefuseAccounted(s: State, c: ClientId, l: LockId, q: int)
    requires Inv(s) && Enabled(s, CallAcquire(c, l, q)) && s.srv.At(l).status != FREE
    ensures Accounted(Apply(s, CallAcquire(c, l, q)), l)
  {
    var t := Apply(s, CallAcquire(c, l, q));
    var e := s.srv.At(l);
    assert Accounted(s, l);
    var info := RevokeInfo(l, e.clid, e.seqid);
    QueuedTells(s.LogOf(l), c, info, e.status, e.retries, if l in s.pending then [s.pending[l]] else [], e.counts);
    if e.status == REVOKING {
      assert t.LogOf(l) == s.LogOf(l) + [Queued(c)];
    } else {
      assert t.LogOf(l) == s.LogOf(l) + [Queued(c)] + [RevokeQueued(info)];
    }
  }

  lemma AcquireAccounted(s: State, c: ClientId, l: LockId, q: int)
    requires Inv(s) && Enabled(s, CallAcquire(c, l, q))
    ensures Inv(Apply(s, CallAcquire(c, l, q)))
  {
    if s.srv.At(l).status == FREE {
      GrantAccounted(s, c, l, q);
    } else {
      RefuseAccounted(s, c, l, q);
    }
    forall k: LockId | k != l ensures Accounted(Apply(s, CallAcquire(c, l, q)), k) {
      assert Accounted(s, k);
    }
  }

  lemma ReleaseAccounted(s: State, c: ClientId, l: LockId, retry: bool)
    requires Inv(s) && Enabled(s, CallRelease(c, l, retry))
    ensures Inv(Apply(s, CallRelease(c, l, retry)))
  {
    var t := Apply(s, CallRelease(c, l, retry));
    assert Accounted(s, l);
    QueuedTells(s.LogOf(l), c, RevokeInfo(l, c, 0), FREE, s.srv.At(l).retries,
                if l in s.pending then [s.pending[l]] else [], s.srv.At(l).counts);
    forall k: LockId ensures Accounted(t, k) {
      assert Accounted(s, k);
    }
  }

  lemma PoppedTells(h: seq<Event>, c: ClientId, st: LockStatus, waiting: seq<ClientId>, counts: map<ClientId, nat>)
    requires Tells(h, st, [c] + waiting, [], counts)
    ensures Tells(h + [Popped(c)], st, waiting, [c], counts)
  {
    Append(h, Popped(c));
    assert Pops(h) + ([c] + waiting) == Pops(h) + [c] + waiting;
  }

  lemma RetriedTells(h: seq<Event>, c: ClientId, called: bool, st: LockStatus, waiting: seq<ClientId>,
                     counts: map<ClientId, nat>)
    requires Tells(h, st, waiting, [c], counts)
    ensures Tells(h + [Retried(c, called)], st, waiting, [], counts)
  {
    Append(h, Retried(c, called));
  }

  lemma RetryerAccounted(s: State)
    requires Inv(s) && Enabled(s, Retryer)
    ensures Inv(Apply(s, Retryer))
  {
    var t := Apply(s, Retryer);
    forall k: LockId ensures Accounted(t, k) {
      assert Accounted(s, k);
      var e, e' := s.srv.At(k), t.srv.At(k);
      if k in t.pending {
        assert e.retries == [t.pending[k]] + e'.retries;
        PoppedTells(s.LogOf(k), t.pending[k], e.status, e'.retries, e.counts);
      } else {
        assert t.LogOf(k) == s.LogOf(k);
      }
    }
  }

  lemma RetryCallAccounted(s: State, l: LockId, primary: bool)
    requires Inv(s) && Enabled(s, RetryCall(l, primary))
    ensures Inv(Apply(s, RetryCall(l, primary)))
  {
    var t := Apply(s, RetryCall(l, primary));
    assert Accounted(s, l);
    RetriedTells(s.LogOf(l), s.pending[l], primary, s.srv.At(l).status, s.srv.At(l).retries, s.srv.At(l).counts);
    forall k: LockId ensures Accounted(t, k) {
      assert Accounted(s, k);
    }
  }

  lemma StepAccounted(s: State, a: Action)
    requires Inv(s) && Enabled(s, a)
    ensures Inv(Apply(s, a))
  {
    match a
    case CallAcquire(c, l, q) => AcquireAccounted(s, c, l, q);
    case CallRelease(c, l, retry) => ReleaseAccounted(s, c, l, retry);
    case Revoker =>
      forall l: LockId ensures Accounted(Apply(s, a), l) { assert Accounted(s, l); }
    case Retryer => RetryerAccounted(s);
    case RetryCall(l, primary) => RetryCallAccounted(s, l, primary);
  }

  /** A lock that is taken is being revoked exactly if it is waited for. */
  predicate WaitersRevoke(e: Entry) {
    e.status != FREE ==> (e.retries != [] <==> e.status == REVOKING)
  }

  lemma WaitersRevokeStep(s: State, a: Action, l: LockId)
    requires Enabled(s, a) && WaitersRevoke(s.srv.At(l))
    ensures WaitersRevoke(Apply(s, a).srv.At(l))
  {
  }

  /** `trace` is a run: `acts[i]` leads from `trace[i]` to `trace[i + 1]`. */
  predicate Run(trace: seq<State>, acts: seq<Action>) {
    && |trace| == |acts| + 1
    && Init(trace[0])
    && forall i {:trigger acts[i]} | 0 <= i < |acts| :: Enabled(trace[i], acts[i]) && trace[i + 1] == Apply(trace[i], acts[i])
  }

  /** In every run and for every lock: FREE exactly when no client is recorded; the waiters popped
      are the waiters queued, in order, each once; each popped waiter gets its turn in the call loop
      once, in order; the stat counts are the grants; and a grant queues at most one revoke. */
  lemma {:induction false} EveryRunAccounted(trace: seq<State>, acts: seq<Action>, i: nat)
    requires Run(trace, acts) && i < |trace|
    ensures Inv(trace[i])
  {
    if i == 0 {
      InitAccounted(trace[0]);
    } else {
      EveryRunAccounted(trace, acts, i - 1);
      StepAccounted(trace[i - 1], acts[i - 1]);
    }
  }

  lemma {:induction false} WaitersAlwaysRevoke(trace: seq<State>, acts: seq<Action>, i: nat, l: LockId)
    requires Run(trace, acts) && i < |trace|
    ensures WaitersRevoke(trace[i].srv.At(l))
  {
    if i > 0 {
      WaitersAlwaysRevoke(trace, acts, i - 1, l);
      WaitersRevokeStep(trace[i - 1], acts[i - 1], l);
    }
  }

  /** In every run a lock that is taken while others wait for it has been revoked exactly once since it was
      granted, and one that nobody waits for has not been. */
  lemma RevokedIffWaitedFor(trace: seq<State>, acts: seq<Action>, i: nat, l: LockId)
    requires Run(trace, acts) && i < |trace| && trace[i].srv.At(l).status != FREE
    ensures RevokesSinceGrant(trace[i].LogOf(l)) == if trace[i].srv.At(l).retries != [] then 1 else 0
  {
    EveryRunAccounted(trace, acts, i);
    WaitersAlwaysRevoke(trace, acts, i, l);
    assert Accounted(trace[i], l);
  }

  /** The client granted last. */
  function LastGrant(h: seq<Event>): Option<ClientId> {
    if h == [] then None
    else if h[|h| - 1].Granted? then Some(h[|h| - 1].c) else LastGrant(h[..|h| - 1])
  }

  lemma LastGrantAppend(h: seq<Event>, e: Event)
    ensures LastGrant(h + [e]) == if e.Granted? then Some(e.c) else LastGrant(h)
  {
    assert (h + [e])[..|h|] == h;
  }

  predicate HolderOk(s: State, l: LockId) {
    s.srv.At(l).status != FREE ==> LastGrant(s.LogOf(l)) == Some(s.srv.At(l).clid)
  }

  lemma AcquireHolder(s: State, c: ClientId, l: LockId, q: int)
    requires Enabled(s, CallAcquire(c, l, q)) && HolderOk(s, l)
    ensures HolderOk(Apply(s, CallAcquire(c, l, q)), l)
  {
    var (t, r) := Acquire(s.srv, c, l, q);
    var h, e, n := s.LogOf(l), if r == OK then Granted(c) else Queued(c), NewRevokes(s.srv, t);
    LastGrantAppend(h, e);
    assert h + [e] + [] == h + [e];
    if n != [] {
      LastGrantAppend(h + [e], n[0]);
      assert n == [n[0]];
    }
  }

  lemma RetryerHolder(s: State, l: LockId)
    requires Enabled(s, Retryer) && HolderOk(s, l)
    ensures HolderOk(Apply(s, Retryer), l)
  {
    var h, m := s.LogOf(l), FirstWaiters(s.srv.locks);
    if l in m {
      LastGrantAppend(h, Popped(m[l]));
    } else {
      assert h + [] == h;
    }
  }

  lemma CallHolder(s: State, a: Action, l: LockId)
    requires Enabled(s, a) && HolderOk(s, l) && (a.CallRelease? || a.RetryCall?)
    ensures HolderOk(Apply(s, a), l)
  {
    if a.l == l {
      LastGrantAppend(s.LogOf(l), if a.CallRelease? then Queued(a.c) else Retried(s.pending[l], a.primary));
    }
  }

  lemma HolderStep(s: State, a: Action, l: LockId)
    requires Enabled(s, a) && HolderOk(s, l)
    ensures HolderOk(Apply(s, a), l)
  {
    match a
    case CallAcquire(c, k, q) =>
      if k == l {
        AcquireHolder(s, c, l, q);
      }
    case Revoker =>
    case Retryer => RetryerHolder(s, l);
    case _ => CallHolder(s, a, l);
  }

  /** In every run the recorded holder of a lock that is not free is the client it was granted to last. */
  lemma {:induction false} HolderWasGranted(trace: seq<State>, acts: seq<Action>, i: nat, l: LockId)
    requires Run(trace, acts) && i < |trace|
    ensures HolderOk(trace[i], l)
  {
    if i > 0 {
      HolderWasGranted(trace, acts, i - 1, l);
      HolderStep(trace[i - 1], acts[i - 1], l);
    }
  }

  /** Only the holder's release frees a lock, and with the retry flag it queues the client again; any other
      client's release changes nothing. */
  lemma OnlyTheHolderReleases(trace: seq<State>, acts: seq<Action>, i: nat, c: ClientId, l: LockId, retry: bool)
    requires Run(trace, acts) && i < |acts| && acts[i] == CallRelease(c, l, retry)
    ensures var e, f := trace[i].srv.At(l), trace[i + 1].srv.At(l);
      if e.clid == c then f.status == FREE && f.retries == e.retries + (if retry then [c] else [])
      else trace[i + 1] == trace[i]
  {
  }
}
