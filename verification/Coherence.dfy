/** Many clients reading and writing files through their write-back caches, each access under the
    lock of its file: the lock protocol and the extent cache composed.

    Every RPC to the extent server is an action of its own.  The history lists the completed reads
    and writes; the theorem is that it is a history of one plain file store. */
module Coherence {
  import opened LockProtocol
  import C = LockClient
  import X = Extent

  /** What a client is doing inside `extent_client`, whose mutex it holds meanwhile. */
  datatype Op =
    | NoOp
    | GotAttr(t: ThreadId, l: LockId, off: nat, n: nat, size: nat)        // read: getattr answered
    | GotData(t: ThreadId, l: LockId, off: nat, n: nat, data: string)     // read: get answered
    | FlushWrote(l: LockId)                                               // flush: write answered

  datatype Event =
    | Wrote(l: LockId, off: nat, buf: string)
    | ReadBack(l: LockId, off: nat, n: nat, buf: string)

  datatype State = State(sys: Sys, start: map<LockId, string>, files: map<LockId, X.File>,
                         caches: map<ClientId, map<LockId, X.Entry>>, ops: map<ClientId, Op>, hist: seq<Event>)
  {
    function CacheOf(c: ClientId): map<LockId, X.Entry> {
      if c in caches then caches[c] else map[]
    }
    function OpOf(c: ClientId): Op {
      if c in ops then ops[c] else NoOp
    }
  }

  datatype Act =
    | Lock(a: Action)
    | ReadHit(c: ClientId, t: ThreadId, l: LockId, off: nat, n: nat)
    | ReadGetAttr(c: ClientId, t: ThreadId, l: LockId, off: nat, n: nat)
    | ReadGet(c: ClientId)
    | ReadFinish(c: ClientId)
    | WriteThrough(c: ClientId, t: ThreadId, l: LockId, off: nat, buf: string)
    | WriteCached(c: ClientId, t: ThreadId, l: LockId, off: nat, buf: string)
    | FlushWrite(c: ClientId)
    | FlushEnd(c: ClientId)

  ghost predicate Init(s: State) {
    && LockProtocol.Init(s.sys)
    && s.files.Keys == s.start.Keys
    && (forall l | l in s.files :: |s.start[l]| < X.UINT_RANGE && s.files[l] == X.Put(s.start[l]))
    && s.caches == map[] && s.ops == map[] && s.hist == []
  }

  /** Thread `t` is between its acquire and its release of `l`, and enters `extent_client`. */
  predicate MayStart(s: State, c: ClientId, t: ThreadId, l: LockId) {
    && c in s.sys.nodes && (t, l) in s.sys.nodes[c].held && s.sys.nodes[c].PcOf(t) == Idle
    && l in s.files && s.OpOf(c) == NoOp
  }

  /** A lock action is none of a thread that is inside a read, and the flush is not skipped. */
  predicate LockMay(s: State, a: Action) {
    && Enabled(s.sys, a) && !a.FlushDone?
    && (a.Release? && (s.OpOf(a.c).GotAttr? || s.OpOf(a.c).GotData?) ==> s.OpOf(a.c).t != a.t)
  }

  predicate May(s: State, act: Act) {
    match act
    case Lock(a) => LockMay(s, a)
    case ReadHit(c, t, l, off, n) =>
      MayStart(s, c, t, l) && l in s.CacheOf(c) && off <= |s.CacheOf(c)[l].content|
    case ReadGetAttr(c, t, l, off, n) => MayStart(s, c, t, l) && l !in s.CacheOf(c)
    case ReadGet(c) =>
      && s.OpOf(c).GotAttr? && s.OpOf(c).l in s.files
      && X.GetFits(X.Substr(s.files[s.OpOf(c).l].content, 0, s.OpOf(c).size))
    case ReadFinish(c) => s.OpOf(c).GotData? && s.OpOf(c).l in s.files && s.OpOf(c).off <= |s.OpOf(c).data|
    case WriteThrough(c, t, l, off, buf) =>
      MayStart(s, c, t, l) && l !in s.CacheOf(c) && off + |buf| < X.UINT_RANGE && X.WriteFits(buf)
    case WriteCached(c, t, l, off, buf) =>
      MayStart(s, c, t, l) && l in s.CacheOf(c) && off + |buf| < X.UINT_RANGE
    case FlushWrite(c) =>
      && c in s.sys.nodes && s.sys.nodes[c].rel.Flushing? && s.OpOf(c) == NoOp
      && s.sys.nodes[c].rel.l in s.CacheOf(c) && s.sys.nodes[c].rel.l in s.files
      && s.CacheOf(c)[s.sys.nodes[c].rel.l].status == X.MODIFIED
      && X.WriteFits(s.CacheOf(c)[s.sys.nodes[c].rel.l].content)
    case FlushEnd(c) =>
      && c in s.sys.nodes && s.sys.nodes[c].rel.Flushing?
      && var l := s.sys.nodes[c].rel.l;
         if l in s.CacheOf(c) && s.CacheOf(c)[l].status == X.MODIFIED
         then s.OpOf(c) == FlushWrote(l) && l in s.files
         else s.OpOf(c) == NoOp
  }

  function Do(s: State, act: Act): State
    requires May(s, act)
  {
    match act
    case Lock(a) => s.(sys := Apply(s.sys, a))
    case ReadHit(c, t, l, off, n) =>
      s.(hist := s.hist + [ReadBack(l, off, n, X.Substr(s.CacheOf(c)[l].content, off, n))])
    case ReadGetAttr(c, t, l, off, n) => s.(ops := s.ops[c := GotAttr(t, l, off, n, s.files[l].size)])
    case ReadGet(c) =>
      var GotAttr(t, l, off, n, size) := s.OpOf(c);
      s.(ops := s.ops[c := GotData(t, l, off, n, X.Substr(s.files[l].content, 0, size))])
    case ReadFinish(c) =>
      var GotData(t, l, off, n, data) := s.OpOf(c);
      s.(caches := s.caches[c := s.CacheOf(c)[l := X.Entry(data, s.files[l].size, X.CACHED)]],
         ops := s.ops[c := NoOp], hist := s.hist + [ReadBack(l, off, n, X.Substr(data, off, n))])
    case WriteThrough(c, t, l, off, buf) =>
      s.(files := s.files[l := X.ServerWrite(s.files[l], off, |buf|, buf)], hist := s.hist + [Wrote(l, off, buf)])
    case WriteCached(c, t, l, off, buf) =>
      s.(caches := s.caches[c := s.CacheOf(c)[l := X.CacheWrite(s.CacheOf(c)[l], off, buf)]],
         hist := s.hist + [Wrote(l, off, buf)])
    case FlushWrite(c) =>
      var l := s.sys.nodes[c].rel.l;
      var e := s.CacheOf(c)[l];
      s.(files := s.files[l := X.ServerWrite(s.files[l], 0, e.size, e.content)], ops := s.ops[c := FlushWrote(l)])
    case FlushEnd(c) =>
      var l := s.sys.nodes[c].rel.l;
      var t := s.(sys := Apply(s.sys, FlushDone(c)), caches := s.caches[c := s.CacheOf(c) - {l}], ops := s.ops[c := NoOp]);
      if s.OpOf(c) == FlushWrote(l) then t.(files := s.files[l := X.ServerSetAttr(s.files[l], s.CacheOf(c)[l].size)])
      else t
  }

  // ---------------------------------------------------------------- one plain file store

  /** The bytes of file `l` after the writes of `h`, in order. */
  function After(start: map<LockId, string>, h: seq<Event>, l: LockId): string {
    if h == [] then (if l in start then start[l] else [])
    else
      var e, before := h[|h| - 1], After(start, h[..|h| - 1], l);
      if e.Wrote? && e.l == l then X.Written(before, e.off, |e.buf|, e.buf) else before
  }

  /** Every read in `h` returned the bytes that the writes before it left. */
  ghost predicate Sequential(start: map<LockId, string>, h: seq<Event>) {
    forall i | 0 <= i < |h| && h[i].ReadBack? ::
      var now := After(start, h[..i], h[i].l);
      X.BytesFrom(h[i].buf, now, h[i].off, h[i].n)
  }

  lemma AfterAppend(start: map<LockId, string>, h: seq<Event>, e: Event, l: LockId)
    ensures After(start, h + [e], l) ==
            if e.Wrote? && e.l == l then X.Written(After(start, h, l), e.off, |e.buf|, e.buf) else After(start, h, l)
  {
    assert (h + [e])[..|h|] == h;
  }

  lemma SequentialAppend(start: map<LockId, string>, h: seq<Event>, e: Event)
    requires Sequential(start, h)
    requires e.ReadBack? ==> X.BytesFrom(e.buf, After(start, h, e.l), e.off, e.n)
    ensures Sequential(start, h + [e])
  {
    forall i | 0 <= i < |h + [e]| && (h + [e])[i].ReadBack?
      ensures var now := After(start, (h + [e])[..i], (h + [e])[i].l);
        X.BytesFrom((h + [e])[i].buf, now, (h + [e])[i].off, (h + [e])[i].n)
    {
      assert (h + [e])[..i] == h[..i];
      assert i == |h| ==> h[..i] == h;
    }
  }

  // ---------------------------------------------------------------- the invariant

  /** The client may have the file in its cache: it has the token and has not flushed. */
  predicate MayCache(n: Node, l: LockId) {
    Cached(n, l) || (n.rel.Flushing? && n.rel.l == l)
  }

  /** The file at the server and in whatever cache has it, against the bytes `now` it should have. */
  ghost predicate FileOk(s: State, l: LockId, now: string)
    requires l in s.files
  {
    && |now| < X.UINT_RANGE
    && s.files[l] == X.Put(s.files[l].content) && |s.files[l].content| <= |now|
    && (forall c | l in s.CacheOf(c) ::
          && c in s.sys.nodes && MayCache(s.sys.nodes[c], l)
          && s.CacheOf(c)[l].content == now && s.CacheOf(c)[l].size == |now|
          && (s.CacheOf(c)[l].status == X.CACHED || s.OpOf(c) == FlushWrote(l) ==> s.files[l].content == now))
    && ((forall c :: l !in s.CacheOf(c)) ==> s.files[l].content == now)
  }

  /** What the client's unfinished operation has seen so far is still true. */
  ghost predicate OpOk(s: State, c: ClientId) {
    match s.OpOf(c)
    case NoOp => true
    case GotAttr(t, l, off, n, size) =>
      && c in s.sys.nodes && (t, l) in s.sys.nodes[c].held && l in s.files && l !in s.CacheOf(c)
      && size == |After(s.start, s.hist, l)|
    case GotData(t, l, off, n, data) =>
      && c in s.sys.nodes && (t, l) in s.sys.nodes[c].held && l in s.files && l !in s.CacheOf(c)
      && data == After(s.start, s.hist, l)
    case FlushWrote(l) =>
      && c in s.sys.nodes && s.sys.nodes[c].rel.Flushing? && s.sys.nodes[c].rel.l == l
      && l in s.files && l in s.CacheOf(c) && s.CacheOf(c)[l].status == X.MODIFIED
  }

  ghost predicate DataInv(s: State) {
    && s.files.Keys == s.start.Keys
    && (forall c, l | l in s.CacheOf(c) :: l in s.files)
    && (forall l | l in s.files :: FileOk(s, l, After(s.start, s.hist, l)))
    && (forall c :: OpOk(s, c))
    && Sequential(s.start, s.hist)
  }

  ghost predicate CInv(s: State) {
    Inv(s.sys) && DataInv(s)
  }

  lemma InitCInv(s: State)
    requires Init(s)
    ensures CInv(s)
  {
    InitInv(s.sys);
  }

  /** Client `c` has the right to cache file `l`, no other client has it or holds its lock. */
  ghost predicate Sole(sys: Sys, c: ClientId, l: LockId) {
    && c in sys.nodes && MayCache(sys.nodes[c], l)
    && forall d | d in sys.nodes && d != c :: !MayCache(sys.nodes[d], l) && forall t :: (t, l) !in sys.nodes[d].held
  }

  lemma HolderMayCache(sys: Sys, c: ClientId, t: ThreadId, l: LockId)
    requires Inv(sys) && c in sys.nodes && (t, l) in sys.nodes[c].held
    ensures MayCache(sys.nodes[c], l)
  {
    assert LockOk(sys.nodes[c], l);
  }

  lemma CacherIsSole(sys: Sys, c: ClientId, l: LockId)
    requires Inv(sys) && c in sys.nodes && MayCache(sys.nodes[c], l)
    ensures Sole(sys, c, l)
  {
    assert Global(sys, l) && Owns(sys.nodes[c], l);
    forall d | d in sys.nodes && d != c
      ensures !MayCache(sys.nodes[d], l) && forall t :: (t, l) !in sys.nodes[d].held
    {
      assert !Owns(sys.nodes[d], l);
      assert LockOk(sys.nodes[d], l);
    }
  }

  // ---------------------------------------------------------------- lock actions

  /** A client keeps the right to cache through every lock action but the end of the flush. */
  lemma NodeKeepsRight(n: Node, a: Action, l: LockId)
    requires Local(n) && AtNode(n, a) && !a.FlushDone? && MayCache(n, l)
    ensures MayCache(NodeStep(n, a), l)
  {
    assert LockOk(n, l);
    match a
    case TakeGrant(_, t) => assert Looping(n.PcOf(t), n.PcOf(t).l);
    case TakeRefusal(_, t, _) => assert Looping(n.PcOf(t), n.PcOf(t).l);
    case WakeRetrying(_, t) => assert Looping(n.PcOf(t), n.PcOf(t).l);
    case _ =>
  }

  lemma LockKeepsRight(sys: Sys, a: Action, c: ClientId, l: LockId)
    requires Inv(sys) && Enabled(sys, a) && !a.FlushDone? && c in sys.nodes && MayCache(sys.nodes[c], l)
    ensures c in Apply(sys, a).nodes && MayCache(Apply(sys, a).nodes[c], l)
  {
    if !AtServer(a) && a.c == c {
      NodeKeepsRight(sys.nodes[c], a, l);
    }
  }

  lemma LockKeepsHeld(sys: Sys, a: Action, c: ClientId, t: ThreadId, l: LockId)
    requires Enabled(sys, a) && c in sys.nodes && (t, l) in sys.nodes[c].held
    requires !(a.Release? && a.c == c && a.t == t)
    ensures c in Apply(sys, a).nodes && (t, l) in Apply(sys, a).nodes[c].held
  {
  }

  lemma LockKeepsFlushing(sys: Sys, a: Action, c: ClientId)
    requires Enabled(sys, a) && !a.FlushDone? && c in sys.nodes && sys.nodes[c].rel.Flushing?
    ensures c in Apply(sys, a).nodes && Apply(sys, a).nodes[c].rel == sys.nodes[c].rel
  {
  }

  lemma LockActFile(s: State, a: Action, l: LockId, now: string)
    requires Inv(s.sys) && LockMay(s, a) && l in s.files && FileOk(s, l, now)
    ensures FileOk(Do(s, Lock(a)), l, now)
  {
    var s' := Do(s, Lock(a));
    assert forall c :: s'.CacheOf(c) == s.CacheOf(c) && s'.OpOf(c) == s.OpOf(c);
    forall c | l in s'.CacheOf(c) ensures c in s'.sys.nodes && MayCache(s'.sys.nodes[c], l) {
      assert l in s.CacheOf(c);
      LockKeepsRight(s.sys, a, c, l);
    }
  }

  lemma LockActOp(s: State, a: Action, c: ClientId)
    requires OpOk(s, c) && LockMay(s, a)
    ensures OpOk(Do(s, Lock(a)), c)
  {
    match s.OpOf(c)
    case NoOp =>
    case GotAttr(t, l, _, _, _) => LockKeepsHeld(s.sys, a, c, t, l);
    case GotData(t, l, _, _, _) => LockKeepsHeld(s.sys, a, c, t, l);
    case FlushWrote(_) => LockKeepsFlushing(s.sys, a, c);
  }

  lemma LockActInv(s: State, a: Action)
    requires CInv(s) && LockMay(s, a)
    ensures CInv(Do(s, Lock(a)))
  {
    var s' := Do(s, Lock(a));
    StepInv(s.sys, a);
    assert forall c :: s'.CacheOf(c) == s.CacheOf(c);
    forall l | l in s'.files ensures FileOk(s', l, After(s'.start, s'.hist, l)) {
      LockActFile(s, a, l, After(s.start, s.hist, l));
    }
    forall c ensures OpOk(s', c) {
      LockActOp(s, a, c);
    }
  }

  // ---------------------------------------------------------------- reads, writes and flushes

  /** From `s` to `s'` only client `c` and file `l` are touched, and no lock. */
  ghost predicate Only(s: State, s': State, c: ClientId, l: LockId) {
    && s'.sys == s.sys && s'.start == s.start && s'.files.Keys == s.files.Keys
    && (forall k | k in s.files && k != l ::
          s'.files[k] == s.files[k] && After(s.start, s'.hist, k) == After(s.start, s.hist, k))
    && (forall d | d != c :: s'.CacheOf(d) == s.CacheOf(d) && s'.OpOf(d) == s.OpOf(d))
    && (forall k | k != l ::
          && (k in s'.CacheOf(c) <==> k in s.CacheOf(c))
          && (k in s.CacheOf(c) ==> s'.CacheOf(c)[k] == s.CacheOf(c)[k])
          && s.OpOf(c) != FlushWrote(k) && s'.OpOf(c) != FlushWrote(k))
  }

  lemma OtherFile(s: State, s': State, c: ClientId, l: LockId, k: LockId, now: string)
    requires Only(s, s', c, l) && k in s.files && k != l && FileOk(s, k, now)
    ensures FileOk(s', k, now)
  {
    assert forall d :: k in s'.CacheOf(d) <==> k in s.CacheOf(d);
    forall d | k in s'.CacheOf(d)
      ensures s'.CacheOf(d)[k] == s.CacheOf(d)[k] && (s'.OpOf(d) == FlushWrote(k) <==> s.OpOf(d) == FlushWrote(k))
    {
    }
  }

  lemma OtherClient(s: State, s': State, c: ClientId, l: LockId, d: ClientId)
    requires OpOk(s, d) && Only(s, s', c, l) && d != c && Sole(s.sys, c, l)
    ensures OpOk(s', d)
  {
  }

  lemma OnlyInv(s: State, s': State, c: ClientId, l: LockId)
    requires DataInv(s) && Only(s, s', c, l) && Sole(s.sys, c, l)
    requires l in s.files && FileOk(s', l, After(s'.start, s'.hist, l)) && OpOk(s', c) && Sequential(s'.start, s'.hist)
    ensures DataInv(s')
  {
    forall k | k in s'.files ensures FileOk(s', k, After(s'.start, s'.hist, k)) {
      if k != l { OtherFile(s, s', c, l, k, After(s.start, s.hist, k)); }
    }
    forall d ensures OpOk(s', d) {
      if d != c { OtherClient(s, s', c, l, d); }
    }
    forall d, k | k in s'.CacheOf(d) ensures k in s'.files {
      if d == c && k == l { } else { assert k in s.CacheOf(d); }
    }
  }

  /** FileOk for a file that only client `c` may have in its cache. */
  lemma SoleCache(s: State, c: ClientId, l: LockId, now: string)
    requires l in s.files && |now| < X.UINT_RANGE && s.files[l] == X.Put(s.files[l].content)
    requires |s.files[l].content| <= |now| && forall d | d != c :: l !in s.CacheOf(d)
    requires l !in s.CacheOf(c) ==> s.files[l].content == now
    requires l in s.CacheOf(c) ==>
      && c in s.sys.nodes && MayCache(s.sys.nodes[c], l)
      && s.CacheOf(c)[l].content == now && s.CacheOf(c)[l].size == |now|
      && (s.CacheOf(c)[l].status == X.CACHED || s.OpOf(c) == FlushWrote(l) ==> s.files[l].content == now)
    ensures FileOk(s, l, now)
  {
  }

  /** No other client has the file in its cache; a client that does not have it either is looking at
      the server's current bytes. */
  lemma SoleSees(s: State, c: ClientId, l: LockId)
    requires l in s.files && FileOk(s, l, After(s.start, s.hist, l)) && Sole(s.sys, c, l)
    ensures forall d | d != c :: l !in s.CacheOf(d)
    ensures l !in s.CacheOf(c) ==> s.files[l].content == After(s.start, s.hist, l)
  {
  }

  /** A step that completes operation `e` leaves the bytes of all other files. */
  lemma HistStep(start: map<LockId, string>, h: seq<Event>, e: Event)
    requires Sequential(start, h)
    requires e.ReadBack? ==> X.BytesFrom(e.buf, After(start, h, e.l), e.off, e.n)
    ensures Sequential(start, h + [e])
    ensures forall k | !(e.Wrote? && e.l == k) :: After(start, h + [e], k) == After(start, h, k)
    ensures e.Wrote? ==> After(start, h + [e], e.l) == X.Written(After(start, h, e.l), e.off, |e.buf|, e.buf)
  {
    SequentialAppend(start, h, e);
    forall k { AfterAppend(start, h, e, k); }
    if e.Wrote? { AfterAppend(start, h, e, e.l); }
  }

  lemma ReadHitHist(s: State, c: ClientId, t: ThreadId, l: LockId, off: nat, n: nat)
    requires Sequential(s.start, s.hist) && May(s, ReadHit(c, t, l, off, n))
    requires s.CacheOf(c)[l].content == After(s.start, s.hist, l)
    ensures var h := Do(s, ReadHit(c, t, l, off, n)).hist;
      Sequential(s.start, h) && forall k :: After(s.start, h, k) == After(s.start, s.hist, k)
  {
    HistStep(s.start, s.hist, ReadBack(l, off, n, X.Substr(s.CacheOf(c)[l].content, off, n)));
  }

  /** A step that changes neither files nor caches nor operations, and the bytes of no file but `l`. */
  lemma HistOnly(s: State, s': State, c: ClientId, l: LockId)
    requires s' == s.(hist := s'.hist, files := s'.files) && l in s.files && s.OpOf(c) == NoOp
    requires s'.files.Keys == s.files.Keys && forall k | k in s.files && k != l :: s'.files[k] == s.files[k]
    requires forall k | k != l :: After(s.start, s'.hist, k) == After(s.start, s.hist, k)
    ensures Only(s, s', c, l)
  {
    assert forall d :: s'.CacheOf(d) == s.CacheOf(d) && s'.OpOf(d) == s.OpOf(d);
  }

  lemma HistFile(s: State, s': State, l: LockId, now: string)
    requires s' == s.(hist := s'.hist) && l in s.files && FileOk(s, l, now)
    ensures FileOk(s', l, now)
  {
    assert forall d :: s'.CacheOf(d) == s.CacheOf(d) && s'.OpOf(d) == s.OpOf(d);
  }

  lemma ReadHitInv(s: State, c: ClientId, t: ThreadId, l: LockId, off: nat, n: nat)
    requires DataInv(s) && May(s, ReadHit(c, t, l, off, n)) && Sole(s.sys, c, l)
    ensures DataInv(Do(s, ReadHit(c, t, l, off, n)))
  {
    var s' := Do(s, ReadHit(c, t, l, off, n));
    assert FileOk(s, l, After(s.start, s.hist, l));
    ReadHitHist(s, c, t, l, off, n);
    HistFile(s, s', l, After(s.start, s.hist, l));
    HistOnly(s, s', c, l);
    OnlyInv(s, s', c, l);
  }

  /** A step that only records progress of a read of `l` in the client's own operation. */
  lemma OpStep(s: State, s': State, c: ClientId, l: LockId)
    requires DataInv(s) && Sole(s.sys, c, l) && l in s.files && l !in s.CacheOf(c)
    requires s' == s.(ops := s.ops[c := s'.OpOf(c)]) && OpOk(s', c)
    requires !s.OpOf(c).FlushWrote? && !s'.OpOf(c).FlushWrote?
    ensures DataInv(s')
  {
    assert forall d :: s'.CacheOf(d) == s.CacheOf(d);
    assert FileOk(s, l, After(s.start, s.hist, l));
    SoleSees(s, c, l);
    SoleCache(s', c, l, After(s.start, s.hist, l));
    OnlyInv(s, s', c, l);
  }

  lemma ReadGetAttrInv(s: State, c: ClientId, t: ThreadId, l: LockId, off: nat, n: nat)
    requires DataInv(s) && May(s, ReadGetAttr(c, t, l, off, n)) && Sole(s.sys, c, l)
    ensures DataInv(Do(s, ReadGetAttr(c, t, l, off, n)))
  {
    assert FileOk(s, l, After(s.start, s.hist, l));
    SoleSees(s, c, l);
    OpStep(s, Do(s, ReadGetAttr(c, t, l, off, n)), c, l);
  }

  lemma ReadGetInv(s: State, c: ClientId)
    requires DataInv(s) && May(s, ReadGet(c)) && Sole(s.sys, c, s.OpOf(c).l)
    ensures DataInv(Do(s, ReadGet(c)))
  {
    var l := s.OpOf(c).l;
    assert OpOk(s, c) && FileOk(s, l, After(s.start, s.hist, l));
    SoleSees(s, c, l);
    OpStep(s, Do(s, ReadGet(c)), c, l);
  }

  lemma ReadFinishHist(s: State, c: ClientId)
    requires OpOk(s, c) && Sequential(s.start, s.hist) && May(s, ReadFinish(c))
    ensures var h := Do(s, ReadFinish(c)).hist;
      Sequential(s.start, h) && forall k :: After(s.start, h, k) == After(s.start, s.hist, k)
  {
    var GotData(t, l, off, n, data) := s.OpOf(c);
    HistStep(s.start, s.hist, ReadBack(l, off, n, X.Substr(data, off, n)));
  }

  lemma ReadFinishFile(s: State, c: ClientId)
    requires OpOk(s, c) && May(s, ReadFinish(c)) && Sole(s.sys, c, s.OpOf(c).l)
    requires FileOk(s, s.OpOf(c).l, After(s.start, s.hist, s.OpOf(c).l))
    ensures FileOk(Do(s, ReadFinish(c)), s.OpOf(c).l, After(s.start, s.hist, s.OpOf(c).l))
  {
    var s', l := Do(s, ReadFinish(c)), s.OpOf(c).l;
    SoleSees(s, c, l);
    assert forall d | d != c :: s'.CacheOf(d) == s.CacheOf(d);
    SoleCache(s', c, l, After(s.start, s.hist, l));
  }

  lemma ReadFinishOnly(s: State, c: ClientId)
    requires May(s, ReadFinish(c))
    requires forall k :: After(s.start, Do(s, ReadFinish(c)).hist, k) == After(s.start, s.hist, k)
    ensures Only(s, Do(s, ReadFinish(c)), c, s.OpOf(c).l)
  {
  }

  lemma ReadFinishInv(s: State, c: ClientId)
    requires DataInv(s) && May(s, ReadFinish(c)) && Sole(s.sys, c, s.OpOf(c).l)
    ensures DataInv(Do(s, ReadFinish(c)))
  {
    assert OpOk(s, c);
    ReadFinishFile(s, c);
    ReadFinishHist(s, c);
    ReadFinishOnly(s, c);
    OnlyInv(s, Do(s, ReadFinish(c)), c, s.OpOf(c).l);
  }

  lemma WriteThroughFile(s: State, c: ClientId, t: ThreadId, l: LockId, off: nat, buf: string, now: string)
    requires May(s, WriteThrough(c, t, l, off, buf)) && s.files[l].content == now && |now| < X.UINT_RANGE
    requires forall d | d != c :: l !in s.CacheOf(d)
    ensures FileOk(Do(s, WriteThrough(c, t, l, off, buf)), l, X.Written(now, off, |buf|, buf))
  {
    var s' := Do(s, WriteThrough(c, t, l, off, buf));
    X.WrittenMeans(now, off, buf, 0);
    assert forall d :: s'.CacheOf(d) == s.CacheOf(d);
    SoleCache(s', c, l, X.Written(now, off, |buf|, buf));
  }

  lemma WriteThroughOnly(s: State, c: ClientId, t: ThreadId, l: LockId, off: nat, buf: string)
    requires Sequential(s.start, s.hist) && May(s, WriteThrough(c, t, l, off, buf))
    ensures var s' := Do(s, WriteThrough(c, t, l, off, buf));
      && Only(s, s', c, l) && Sequential(s.start, s'.hist) && s'.OpOf(c) == NoOp && s'.start == s.start
      && After(s.start, s'.hist, l) == X.Written(After(s.start, s.hist, l), off, |buf|, buf)
  {
    HistStep(s.start, s.hist, Wrote(l, off, buf));
    HistOnly(s, Do(s, WriteThrough(c, t, l, off, buf)), c, l);
  }

  lemma WriteThroughInv(s: State, c: ClientId, t: ThreadId, l: LockId, off: nat, buf: string)
    requires DataInv(s) && May(s, WriteThrough(c, t, l, off, buf)) && Sole(s.sys, c, l)
    ensures DataInv(Do(s, WriteThrough(c, t, l, off, buf)))
  {
    assert FileOk(s, l, After(s.start, s.hist, l));
    SoleSees(s, c, l);
    WriteThroughFile(s, c, t, l, off, buf, After(s.start, s.hist, l));
    WriteThroughOnly(s, c, t, l, off, buf);
    OnlyInv(s, Do(s, WriteThrough(c, t, l, off, buf)), c, l);
  }

  lemma WriteCachedOnly(s: State, c: ClientId, t: ThreadId, l: LockId, off: nat, buf: string)
    requires May(s, WriteCached(c, t, l, off, buf))
    requires var h := Do(s, WriteCached(c, t, l, off, buf)).hist;
      forall k | k != l :: After(s.start, h, k) == After(s.start, s.hist, k)
    ensures Only(s, Do(s, WriteCached(c, t, l, off, buf)), c, l)
  {
  }

  lemma WriteCachedFile(s: State, c: ClientId, t: ThreadId, l: LockId, off: nat, buf: string, now: string)
    requires May(s, WriteCached(c, t, l, off, buf)) && Sole(s.sys, c, l)
    requires FileOk(s, l, now) && forall d | d != c :: l !in s.CacheOf(d)
    ensures FileOk(Do(s, WriteCached(c, t, l, off, buf)), l, X.Written(now, off, |buf|, buf))
  {
    var s' := Do(s, WriteCached(c, t, l, off, buf));
    X.WrittenMeans(now, off, buf, 0);
    assert forall d | d != c :: s'.CacheOf(d) == s.CacheOf(d);
    SoleCache(s', c, l, X.Written(now, off, |buf|, buf));
  }

  lemma WriteCachedInv(s: State, c: ClientId, t: ThreadId, l: LockId, off: nat, buf: string)
    requires DataInv(s) && May(s, WriteCached(c, t, l, off, buf)) && Sole(s.sys, c, l)
    ensures DataInv(Do(s, WriteCached(c, t, l, off, buf)))
  {
    SoleSees(s, c, l);
    HistStep(s.start, s.hist, Wrote(l, off, buf));
    WriteCachedOnly(s, c, t, l, off, buf);
    WriteCachedFile(s, c, t, l, off, buf, After(s.start, s.hist, l));
    OnlyInv(s, Do(s, WriteCached(c, t, l, off, buf)), c, l);
  }

  lemma FlushWriteFile(s: State, c: ClientId, now: string)
    requires May(s, FlushWrite(c)) && Sole(s.sys, c, s.sys.nodes[c].rel.l)
    requires FileOk(s, s.sys.nodes[c].rel.l, now) && forall d | d != c :: s.sys.nodes[c].rel.l !in s.CacheOf(d)
    ensures FileOk(Do(s, FlushWrite(c)), s.sys.nodes[c].rel.l, now)
    ensures Only(s, Do(s, FlushWrite(c)), c, s.sys.nodes[c].rel.l)
  {
    var s', l := Do(s, FlushWrite(c)), s.sys.nodes[c].rel.l;
    assert forall d :: s'.CacheOf(d) == s.CacheOf(d);
    assert s'.files[l].content == s.CacheOf(c)[l].content;
    SoleCache(s', c, l, now);
  }

  lemma FlushWriteInv(s: State, c: ClientId)
    requires DataInv(s) && May(s, FlushWrite(c)) && Sole(s.sys, c, s.sys.nodes[c].rel.l)
    ensures DataInv(Do(s, FlushWrite(c)))
  {
    var l := s.sys.nodes[c].rel.l;
    SoleSees(s, c, l);
    FlushWriteFile(s, c, After(s.start, s.hist, l));
    OnlyInv(s, Do(s, FlushWrite(c)), c, l);
  }

  /** The end of the flush without the step of the lock protocol: attributes set, entry dropped. */
  function Dropped(s: State, c: ClientId): State
    requires May(s, FlushEnd(c))
  {
    Do(s, FlushEnd(c)).(sys := s.sys)
  }

  lemma DroppedFile(s: State, c: ClientId, now: string)
    requires May(s, FlushEnd(c)) && s.sys.nodes[c].rel.l in s.files && FileOk(s, s.sys.nodes[c].rel.l, now)
    requires forall d | d != c :: s.sys.nodes[c].rel.l !in s.CacheOf(d)
    ensures FileOk(Dropped(s, c), s.sys.nodes[c].rel.l, now)
  {
    var s', l := Dropped(s, c), s.sys.nodes[c].rel.l;
    assert forall d | d != c :: s'.CacheOf(d) == s.CacheOf(d);
    SoleCache(s', c, l, now);
  }

  lemma DroppedStepFile(s: State, c: ClientId, l: LockId, now: string)
    requires Enabled(s.sys, FlushDone(c)) && s.sys.nodes[c].rel.l !in s.CacheOf(c) && l in s.files && FileOk(s, l, now)
    ensures FileOk(s.(sys := Apply(s.sys, FlushDone(c))), l, now)
  {
    var s' := s.(sys := Apply(s.sys, FlushDone(c)));
    assert forall d :: s'.CacheOf(d) == s.CacheOf(d) && s'.OpOf(d) == s.OpOf(d);
  }

  lemma DroppedStepOp(s: State, c: ClientId, d: ClientId)
    requires Enabled(s.sys, FlushDone(c)) && s.OpOf(c) == NoOp && OpOk(s, d)
    ensures OpOk(s.(sys := Apply(s.sys, FlushDone(c))), d)
  {
  }

  /** Setting the releaser on to its call takes no right from a client that still caches. */
  lemma DroppedStep(s: State, c: ClientId)
    requires DataInv(s) && Enabled(s.sys, FlushDone(c)) && s.sys.nodes[c].rel.l !in s.CacheOf(c) && s.OpOf(c) == NoOp
    ensures DataInv(s.(sys := Apply(s.sys, FlushDone(c))))
  {
    var s' := s.(sys := Apply(s.sys, FlushDone(c)));
    assert forall d :: s'.CacheOf(d) == s.CacheOf(d);
    forall l | l in s'.files ensures FileOk(s', l, After(s'.start, s'.hist, l)) {
      DroppedStepFile(s, c, l, After(s.start, s.hist, l));
    }
    forall d ensures OpOk(s', d) {
      DroppedStepOp(s, c, d);
    }
  }

  lemma NothingDropped(s: State, s': State)
    requires DataInv(s) && s' == s.(caches := s'.caches, ops := s'.ops)
    requires forall d :: s'.CacheOf(d) == s.CacheOf(d) && s'.OpOf(d) == s.OpOf(d)
    ensures DataInv(s')
  {
    forall l | l in s'.files ensures FileOk(s', l, After(s'.start, s'.hist, l)) {
      assert FileOk(s, l, After(s.start, s.hist, l));
    }
    forall d ensures OpOk(s', d) {
      assert OpOk(s, d);
    }
  }

  lemma DroppedCached(s: State, c: ClientId)
    requires DataInv(s) && May(s, FlushEnd(c)) && Sole(s.sys, c, s.sys.nodes[c].rel.l)
    requires s.sys.nodes[c].rel.l in s.files
    ensures DataInv(Dropped(s, c))
  {
    var l := s.sys.nodes[c].rel.l;
    SoleSees(s, c, l);
    DroppedFile(s, c, After(s.start, s.hist, l));
    DroppedOnly(s, c);
    DroppedRest(s, c);
    OnlyInv(s, Dropped(s, c), c, l);
  }

  lemma DroppedOnly(s: State, c: ClientId)
    requires May(s, FlushEnd(c)) && s.sys.nodes[c].rel.l in s.files
    ensures Only(s, Dropped(s, c), c, s.sys.nodes[c].rel.l)
  {
  }

  lemma DroppedRest(s: State, c: ClientId)
    requires May(s, FlushEnd(c))
    ensures Dropped(s, c).hist == s.hist && Dropped(s, c).start == s.start && Dropped(s, c).OpOf(c) == NoOp
  {
  }

  lemma DroppedInv(s: State, c: ClientId)
    requires DataInv(s) && May(s, FlushEnd(c)) && Sole(s.sys, c, s.sys.nodes[c].rel.l)
    ensures DataInv(Dropped(s, c))
  {
    if s.sys.nodes[c].rel.l in s.files {
      DroppedCached(s, c);
    } else {
      NoSuchFile(s, c);
    }
  }

  lemma NoSuchFile(s: State, c: ClientId)
    requires DataInv(s) && May(s, FlushEnd(c)) && s.sys.nodes[c].rel.l !in s.files
    ensures DataInv(Dropped(s, c))
  {
    assert Dropped(s, c).CacheOf(c) == s.CacheOf(c);
    NothingDropped(s, Dropped(s, c));
  }

  lemma FlushEndInv(s: State, c: ClientId)
    requires DataInv(s) && May(s, FlushEnd(c)) && Sole(s.sys, c, s.sys.nodes[c].rel.l)
    ensures DataInv(Do(s, FlushEnd(c)))
  {
    DroppedInv(s, c);
    DroppedStep(Dropped(s, c), c);
  }

  lemma ActInv(s: State, act: Act)
    requires CInv(s) && May(s, act)
    ensures CInv(Do(s, act))
  {
    match act
    case Lock(a) => LockActInv(s, a);
    case ReadHit(c, t, l, off, n) =>
      HolderMayCache(s.sys, c, t, l); CacherIsSole(s.sys, c, l); ReadHitInv(s, c, t, l, off, n);
    case ReadGetAttr(c, t, l, off, n) =>
      HolderMayCache(s.sys, c, t, l); CacherIsSole(s.sys, c, l); ReadGetAttrInv(s, c, t, l, off, n);
    case ReadGet(c) =>
      assert OpOk(s, c);
      HolderMayCache(s.sys, c, s.OpOf(c).t, s.OpOf(c).l); CacherIsSole(s.sys, c, s.OpOf(c).l); ReadGetInv(s, c);
    case ReadFinish(c) =>
      assert OpOk(s, c);
      HolderMayCache(s.sys, c, s.OpOf(c).t, s.OpOf(c).l); CacherIsSole(s.sys, c, s.OpOf(c).l); ReadFinishInv(s, c);
    case WriteThrough(c, t, l, off, buf) =>
      HolderMayCache(s.sys, c, t, l); CacherIsSole(s.sys, c, l); WriteThroughInv(s, c, t, l, off, buf);
    case WriteCached(c, t, l, off, buf) =>
      HolderMayCache(s.sys, c, t, l); CacherIsSole(s.sys, c, l); WriteCachedInv(s, c, t, l, off, buf);
    case FlushWrite(c) => CacherIsSole(s.sys, c, s.sys.nodes[c].rel.l); FlushWriteInv(s, c);
    case FlushEnd(c) =>
      CacherIsSole(s.sys, c, s.sys.nodes[c].rel.l);
      FlushEndInv(s, c);
      StepInv(s.sys, FlushDone(c));
  }

  // ---------------------------------------------------------------- every run

  ghost predicate Run(trace: seq<State>, acts: seq<Act>) {
    && |trace| == |acts| + 1
    && Init(trace[0])
    && forall i {:trigger acts[i]} | 0 <= i < |acts| :: May(trace[i], acts[i]) && trace[i + 1] == Do(trace[i], acts[i])
  }

  lemma {:induction false} RunCInv(trace: seq<State>, acts: seq<Act>, i: nat)
    requires Run(trace, acts) && i < |trace|
    ensures CInv(trace[i])
  {
    if i == 0 {
      InitCInv(trace[0]);
    } else {
      RunCInv(trace, acts, i - 1);
      ActInv(trace[i - 1], acts[i - 1]);
    }
  }

  /** In every run, over all clients and threads, the completed operations form a sequential history
      of plain files: every read returns exactly the bytes left by the writes completed before it. */
  lemma ReadsSeeLatestWrites(trace: seq<State>, acts: seq<Act>, i: nat)
    requires Run(trace, acts) && i < |trace|
    ensures Sequential(trace[i].start, trace[i].hist)
  {
    RunCInv(trace, acts, i);
  }

  /** The bytes of file `l` after the writes that the clients made, in the order in which they made them. */
  function Contents(start: map<LockId, string>, acts: seq<Act>, l: LockId): string {
    if acts == [] then (if l in start then start[l] else [])
    else
      var a, before := acts[|acts| - 1], Contents(start, acts[..|acts| - 1], l);
      if (a.WriteThrough? || a.WriteCached?) && a.l == l then X.Written(before, a.off, |a.buf|, a.buf) else before
  }

  lemma ActAfter(s: State, act: Act, l: LockId)
    requires May(s, act)
    ensures Do(s, act).start == s.start
    ensures After(s.start, Do(s, act).hist, l) ==
            if (act.WriteThrough? || act.WriteCached?) && act.l == l
            then X.Written(After(s.start, s.hist, l), act.off, |act.buf|, act.buf) else After(s.start, s.hist, l)
  {
    var h := Do(s, act).hist;
    if act.WriteThrough? || act.WriteCached? || act.ReadHit? || act.ReadFinish? {
      assert h == s.hist + [h[|s.hist|]];
      AfterAppend(s.start, s.hist, h[|s.hist|], l);
    }
  }

  lemma StepAfter(trace: seq<State>, acts: seq<Act>, i: nat, l: LockId)
    requires Run(trace, acts) && i < |acts|
    ensures trace[i + 1].start == trace[i].start
    ensures After(trace[i + 1].start, trace[i + 1].hist, l) ==
            if (acts[i].WriteThrough? || acts[i].WriteCached?) && acts[i].l == l
            then X.Written(After(trace[i].start, trace[i].hist, l), acts[i].off, |acts[i].buf|, acts[i].buf)
            else After(trace[i].start, trace[i].hist, l)
  {
    ActAfter(trace[i], acts[i], l);
  }

  lemma ContentsNext(start: map<LockId, string>, acts: seq<Act>, i: nat, l: LockId)
    requires i < |acts|
    ensures Contents(start, acts[..i + 1], l) ==
            if (acts[i].WriteThrough? || acts[i].WriteCached?) && acts[i].l == l
            then X.Written(Contents(start, acts[..i], l), acts[i].off, |acts[i].buf|, acts[i].buf)
            else Contents(start, acts[..i], l)
  {
    assert acts[..i + 1][..i] == acts[..i];
  }

  lemma {:induction false} HistoryIsActions(trace: seq<State>, acts: seq<Act>, i: nat, l: LockId)
    requires Run(trace, acts) && i < |trace|
    ensures trace[i].start == trace[0].start
    ensures After(trace[i].start, trace[i].hist, l) == Contents(trace[0].start, acts[..i], l)
  {
    if i > 0 {
      HistoryIsActions(trace, acts, i - 1, l);
      StepAfter(trace, acts, i - 1, l);
      ContentsNext(trace[0].start, acts, i - 1, l);
    }
  }

  /** The step completes a read of `n` bytes at `off`, and what it returns are the file's bytes there. */
  ghost predicate Returns(trace: seq<State>, acts: seq<Act>, i: nat, l: LockId, off: nat, n: nat)
    requires |trace| == |acts| + 1 && i < |acts|
  {
    var s, t := trace[i], trace[i + 1];
    && |t.hist| == |s.hist| + 1
    && var e := t.hist[|s.hist|];
       && e.ReadBack? && e.l == l && e.off == off && e.n == n
       && X.BytesFrom(e.buf, Contents(trace[0].start, acts[..i], l), off, n)
  }

  /** The bytes a cached read returns, from the clients' actions alone. */
  lemma CachedReadReturns(trace: seq<State>, acts: seq<Act>, i: nat)
    requires Run(trace, acts) && i < |acts| && acts[i].ReadHit?
    ensures Returns(trace, acts, i, acts[i].l, acts[i].off, acts[i].n)
  {
    ReadReturns(trace, acts, i, acts[i].l);
  }

  /** The step's event is a read of `l`, so its bytes are those that the writes before it left. */
  lemma ReadReturns(trace: seq<State>, acts: seq<Act>, i: nat, l: LockId)
    requires Run(trace, acts) && i < |acts|
    requires var s, t := trace[i], trace[i + 1];
      |t.hist| == |s.hist| + 1 && t.hist[..|s.hist|] == s.hist && t.hist[|s.hist|].ReadBack? && t.hist[|s.hist|].l == l
    ensures var e := trace[i + 1].hist[|trace[i].hist|]; Returns(trace, acts, i, l, e.off, e.n)
  {
    ReadsSeeLatestWrites(trace, acts, i + 1);
    HistoryIsActions(trace, acts, i, l);
    HistoryIsActions(trace, acts, i + 1, l);
  }

  ghost predicate InRead(s: State, c: ClientId, t: ThreadId, l: LockId, off: nat, n: nat) {
    match s.OpOf(c)
    case GotAttr(t', l', off', n', _) => t' == t && l' == l && off' == off && n' == n
    case GotData(t', l', off', n', _) => t' == t && l' == l && off' == off && n' == n
    case _ => false
  }

  lemma InReadStep(s: State, act: Act, c: ClientId, t: ThreadId, l: LockId, off: nat, n: nat)
    requires May(s, act) && act != ReadFinish(c) && InRead(s, c, t, l, off, n)
    ensures InRead(Do(s, act), c, t, l, off, n)
  {
  }

  lemma {:induction false} StaysInRead(trace: seq<State>, acts: seq<Act>, j: nat, i: nat)
    requires Run(trace, acts) && j < i <= |acts| && acts[j].ReadGetAttr?
    requires forall x | j < x < i :: acts[x] != ReadFinish(acts[j].c)
    ensures var a := acts[j]; InRead(trace[i], a.c, a.t, a.l, a.off, a.n)
    decreases i
  {
    var a := acts[j];
    if j + 1 < i {
      StaysInRead(trace, acts, j, i - 1);
      assert trace[i] == Do(trace[i - 1], acts[i - 1]);
      InReadStep(trace[i - 1], acts[i - 1], a.c, a.t, a.l, a.off, a.n);
    } else {
      assert trace[i] == Do(trace[j], a);
    }
  }

  /** The bytes a fetching read returns, and that it leaves the file in the cache: it was started at step `j`
      and ends at step `i`. */
  lemma FetchedReadReturns(trace: seq<State>, acts: seq<Act>, j: nat, i: nat)
    requires Run(trace, acts) && j < i < |acts| && acts[j].ReadGetAttr? && acts[i] == ReadFinish(acts[j].c)
    requires forall x | j < x < i :: acts[x] != ReadFinish(acts[j].c)
    ensures Returns(trace, acts, i, acts[j].l, acts[j].off, acts[j].n)
    ensures var e := trace[i + 1].CacheOf(acts[j].c);
      acts[j].l in e && e[acts[j].l].status == X.CACHED
      && e[acts[j].l].content == Contents(trace[0].start, acts[..i + 1], acts[j].l)
  {
    StaysInRead(trace, acts, j, i);
    ReadReturns(trace, acts, i, acts[j].l);
    RunCInv(trace, acts, i + 1);
    HistoryIsActions(trace, acts, i + 1, acts[j].l);
    assert FileOk(trace[i + 1], acts[j].l, After(trace[i + 1].start, trace[i + 1].hist, acts[j].l));
  }

  /** At every moment the current bytes of a file are in the one cache that has it, or else at the
      server; whoever caches it has the lock's token and has not sent the release. */
  lemma CacheOnlyUnderToken(trace: seq<State>, acts: seq<Act>, i: nat, l: LockId)
    requires Run(trace, acts) && i < |trace| && l in trace[i].files
    ensures var s := trace[i];
      var now := After(s.start, s.hist, l);
      && (forall c | l in s.CacheOf(c) :: s.CacheOf(c)[l].content == now && c in s.sys.nodes && MayCache(s.sys.nodes[c], l))
      && (forall c, d | l in s.CacheOf(c) && l in s.CacheOf(d) :: c == d)
      && ((forall c :: l !in s.CacheOf(c)) ==> s.files[l].content == now)
  {
    RunCInv(trace, acts, i);
    var s := trace[i];
    assert FileOk(s, l, After(s.start, s.hist, l));
    forall c, d | l in s.CacheOf(c) && l in s.CacheOf(d) ensures c == d {
      CacherIsSole(s.sys, c, l);
    }
  }
}
