/** Who gets a lock and who waits for it: what a pass over label `acqu` comes to, and that no waiting
    thread and no refused client is forgotten. */
module LockWaiting {
  import C = LockClient
  import S = LockServer
  import opened LockProtocol

  // ---------------------------------------------------------------- who gets the lock

  /** Thread t of client c goes over label `acqu` for lock l, on entry or after waiting there. */
  predicate Passes(s: Sys, a: Action, c: ClientId, t: ThreadId, l: LockId) {
    && (a.Acquire? || a.WakeWaiting?) && a.c == c && a.t == t && c in s.nodes
    && (if a.Acquire? then a.l == l else s.nodes[c].PcOf(t) == LocalWait(l))
  }

  /** What a thread finds decides what becomes of it: a lock that the client does not have is asked for,
      one that is free in the cache or its own is handed out at once, and any other makes it wait. */
  lemma AcquireComesTo(trace: seq<Sys>, acts: seq<Action>, i: nat, c: ClientId, t: ThreadId, l: LockId)
    requires Run(trace, acts) && i < |acts| && Passes(trace[i], acts[i], c, t, l)
    ensures c in trace[i + 1].nodes
    ensures var n, m := trace[i].nodes[c], trace[i + 1].nodes[c];
      var st, own := n.cl.At(l).status, (t, l) in n.held;
      && (m.PcOf(t) == Calling(l) <==> st == C.NONE)
      && (m.PcOf(t) == Idle <==> st == C.FREE || own)
      && (m.PcOf(t) == LocalWait(l) <==> st != C.NONE && st != C.FREE && !own)
      && m.held == if st == C.FREE || own then n.held + {(t, l)} else n.held
  {
    RunInv(trace, acts, i);
    var n := trace[i].nodes[c];
    assert LockOk(n, l);
    assert trace[i + 1] == Apply(trace[i], acts[i]);
  }

  /** A free lock in the cache is handed to the thread that asks, without a call to the server. */
  lemma FreeLockIsHandedOut(trace: seq<Sys>, acts: seq<Action>, i: nat, c: ClientId, t: ThreadId, l: LockId)
    requires Run(trace, acts) && i < |acts| && Passes(trace[i], acts[i], c, t, l)
    requires trace[i].nodes[c].cl.At(l).status == C.FREE
    ensures trace[i + 1].srv == trace[i].srv && c in trace[i + 1].nodes
    ensures var m := trace[i + 1].nodes[c];
      (t, l) in m.held && m.PcOf(t) == Idle && m.cl.At(l).status == C.LOCKED && m.cl.At(l).thread == t
  {
    AcquireComesTo(trace, acts, i, c, t, l);
    RunInv(trace, acts, i + 1);
    assert LockOk(trace[i + 1].nodes[c], l);
  }

  /** A thread that waits for another one of its client found the lock neither missing nor free nor its own. */
  lemma WaitersFoundItTaken(trace: seq<Sys>, acts: seq<Action>, i: nat, c: ClientId, t: ThreadId, l: LockId)
    requires Run(trace, acts) && i < |acts| && c in trace[i].nodes && c in trace[i + 1].nodes
    requires trace[i + 1].nodes[c].PcOf(t) == LocalWait(l)
    requires trace[i].nodes[c].PcOf(t) == LocalWait(l) ==> acts[i].WakeWaiting? && acts[i].c == c && acts[i].t == t
    ensures Passes(trace[i], acts[i], c, t, l) && (t, l) !in trace[i].nodes[c].held
    ensures trace[i].nodes[c].cl.At(l).status != C.NONE && trace[i].nodes[c].cl.At(l).status != C.FREE
  {
    PutToWait(trace[i], acts[i], c, t, l);
    AcquireComesTo(trace, acts, i, c, t, l);
  }

  lemma PutToWait(s: Sys, a: Action, c: ClientId, t: ThreadId, l: LockId)
    requires Enabled(s, a) && c in s.nodes && c in Apply(s, a).nodes && Apply(s, a).nodes[c].PcOf(t) == LocalWait(l)
    requires s.nodes[c].PcOf(t) == LocalWait(l) ==> a.WakeWaiting? && a.c == c && a.t == t
    ensures Passes(s, a, c, t, l)
  {
  }

  /** A release by the holder ends its hold.  A revoked lock goes to the releaser with its waiters; any other
      stays in the cache, and the first waiter is signalled. */
  lemma ReleaseComesTo(trace: seq<Sys>, acts: seq<Action>, i: nat, c: ClientId, t: ThreadId, l: LockId)
    requires Run(trace, acts) && i < |acts| && acts[i] == Release(c, t, l)
    ensures c in trace[i].nodes && c in trace[i + 1].nodes
    ensures var n, m := trace[i].nodes[c], trace[i + 1].nodes[c];
      && m.held == n.held - {(t, l)}
      && (if (t, l) !in n.held then m.cl == n.cl
          else if l in n.cl.revokes then m.cl.At(l).status == C.RELEASING && m.cl.released == n.cl.released + [l]
          else m.cl.At(l).status == C.FREE && m.cl.released == n.cl.released)
      && ((t, l) in n.held ==>
            var w := n.cl.At(l).waitlist;
            m.cl.At(l).waitlist == if l in n.cl.revokes || w == [] then w else w[1..])
  {
    RunInv(trace, acts, i);
    assert LockOk(trace[i].nodes[c], l);
  }

  // ---------------------------------------------------------------- whose turn it is

  /** One round of the retryer calls the first waiter of every free lock and of no other. */
  lemma FirstWaiterHasItsTurn(trace: seq<Sys>, acts: seq<Action>, i: nat, l: LockId)
    requires Run(trace, acts) && i < |acts| && acts[i] == Retryer
    ensures var e, f := trace[i].srv.At(l), trace[i + 1].srv.At(l);
      if e.status == S.FREE && e.retries != []
      then l in trace[i + 1].retrying && trace[i + 1].retrying[l] == e.retries[0] && f == e.(retries := e.retries[1..])
      else l !in trace[i + 1].retrying && f == e
  {
  }

  /** The client waits to be called for the lock: in the lock's list, or in the retryer's hands. */
  predicate Queued(s: Sys, c: ClientId, l: LockId) {
    c in s.srv.At(l).retries || (l in s.retrying && s.retrying[l] == c)
  }

  predicate Calls(s: Sys, a: Action, c: ClientId, l: LockId) {
    a.RetryCall? && a.l == l && l in s.retrying && s.retrying[l] == c
  }

  lemma QueuedStays(s: Sys, a: Action, c: ClientId, l: LockId)
    requires Enabled(s, a) && Queued(s, c, l) && !Calls(s, a, c, l)
    ensures Queued(Apply(s, a), c, l)
  {
    if a.Retryer? {
      var r := s.srv.At(l).retries;
      assert r[0] == c || c in r[1..];
    }
  }

  // ---------------------------------------------------------------- nobody is forgotten

  /** The refusal is on its way and the client is queued, or has been called and will ask again. */
  predicate RefusalCovered(s: Sys, c: ClientId, l: LockId) {
    c in s.nodes && (Queued(s, c, l) || s.nodes[c].cl.At(l).retryFlag)
  }

  /** The thread waits with its condition first in the list, which is the one a call signals. */
  predicate WaitCovered(s: Sys, c: ClientId, l: LockId, cond: C.Cond) {
    c in s.nodes && Queued(s, c, l) && s.nodes[c].cl.At(l).waitlist != [] && s.nodes[c].cl.At(l).waitlist[0] == cond
  }

  /** The step signals this condition: it takes it from the front of the list. */
  predicate Signals(s: Sys, s': Sys, c: ClientId, l: LockId, cond: C.Cond) {
    && c in s.nodes && c in s'.nodes
    && s.nodes[c].cl.At(l).waitlist == [cond] + s'.nodes[c].cl.At(l).waitlist
  }

  predicate At(s: Sys, c: ClientId, t: ThreadId, p: Pc) {
    c in s.nodes && s.nodes[c].PcOf(t) == p
  }

  lemma RefusedStep(s: Sys, a: Action, c: ClientId, t: ThreadId, l: LockId)
    requires Inv(s) && Enabled(s, a) && At(s, c, t, Refused(l)) && At(Apply(s, a), c, t, Refused(l))
    requires RefusalCovered(s, c, l) && (Calls(s, a, c, l) ==> a.primary)
    ensures RefusalCovered(Apply(s, a), c, l)
  {
    assert LockOk(s.nodes[c], l) && Looping(s.nodes[c].PcOf(t), l);
    if Queued(s, c, l) && !Calls(s, a, c, l) {
      QueuedStays(s, a, c, l);
    } else {
      FlagStep(s, a, c, l);
      RefusalIsKept(s, a, c, t, l);
    }
  }

  lemma RefusalIsKept(s: Sys, a: Action, c: ClientId, t: ThreadId, l: LockId)
    requires Enabled(s, a) && At(s, c, t, Refused(l)) && At(Apply(s, a), c, t, Refused(l))
    requires LockOk(s.nodes[c], l)
    ensures !Unflags(s, a, c, l)
  {
    assert Looping(s.nodes[c].PcOf(t), l);
  }

  lemma RefusalEnds(s: Sys, a: Action, c: ClientId, t: ThreadId, l: LockId)
    requires Enabled(s, a) && At(s, c, t, Refused(l)) && At(Apply(s, a), c, t, RetryWait(l))
    requires RefusalCovered(s, c, l)
    ensures a.TakeRefusal? && a.c == c && a.t == t && WaitCovered(Apply(s, a), c, l, a.cond)
  {
  }

  lemma NodeFrontStays(n: Node, a: Action, t: ThreadId, l: LockId, cond: C.Cond)
    requires LockOk(n, l) && AtNode(n, a) && n.PcOf(t) == RetryWait(l) == NodeStep(n, a).PcOf(t)
    requires n.cl.At(l).waitlist != [] && n.cl.At(l).waitlist[0] == cond
    ensures NodeStep(n, a).cl.At(l).waitlist != [] && NodeStep(n, a).cl.At(l).waitlist[0] == cond
  {
    assert Looping(n.PcOf(t), l);
  }

  /** Only a retry call takes a condition from the list of a lock that is not held. */
  lemma OtherListsStay(s: Sys, a: Action, c: ClientId, l: LockId)
    requires Enabled(s, a) && c in s.nodes && (AtServer(a) || a.c != c) && !(Calls(s, a, c, l) && a.primary)
    ensures c in Apply(s, a).nodes && Apply(s, a).nodes[c].cl.At(l).waitlist == s.nodes[c].cl.At(l).waitlist
  {
  }

  lemma FrontStays(s: Sys, a: Action, c: ClientId, t: ThreadId, l: LockId, cond: C.Cond)
    requires Inv(s) && Enabled(s, a) && At(s, c, t, RetryWait(l)) && At(Apply(s, a), c, t, RetryWait(l))
    requires s.nodes[c].cl.At(l).waitlist != [] && s.nodes[c].cl.At(l).waitlist[0] == cond
    ensures var w := Apply(s, a).nodes[c].cl.At(l).waitlist;
      if Calls(s, a, c, l) && a.primary then s.nodes[c].cl.At(l).waitlist == [cond] + w else w != [] && w[0] == cond
  {
    assert LockOk(s.nodes[c], l) && Looping(s.nodes[c].PcOf(t), l);
    if !AtServer(a) && a.c == c {
      NodeFrontStays(s.nodes[c], a, t, l, cond);
    } else if !(Calls(s, a, c, l) && a.primary) {
      OtherListsStay(s, a, c, l);
    }
  }

  lemma WaitStep(s: Sys, a: Action, c: ClientId, t: ThreadId, l: LockId, cond: C.Cond)
    requires Inv(s) && Enabled(s, a) && At(s, c, t, RetryWait(l)) && At(Apply(s, a), c, t, RetryWait(l))
    requires WaitCovered(s, c, l, cond) && (Calls(s, a, c, l) ==> a.primary)
    ensures WaitCovered(Apply(s, a), c, l, cond) || (Calls(s, a, c, l) && Signals(s, Apply(s, a), c, l, cond))
  {
    FrontStays(s, a, c, t, l, cond);
    if !Calls(s, a, c, l) {
      QueuedStays(s, a, c, l);
    }
  }

  /** From step j on the thread has been refused the lock and has not asked again, and every call to its
      client for that lock was made, since the node stayed primary. */
  ghost predicate Waiting(trace: seq<Sys>, acts: seq<Action>, j: nat, k: nat, c: ClientId, t: ThreadId, l: LockId) {
    && |trace| == |acts| + 1 && j < k <= |acts| && acts[j] == ServerAcquire(c, t)
    && (forall x | j < x <= k :: At(trace[x], c, t, Refused(l)) || At(trace[x], c, t, RetryWait(l)))
    && (forall x {:trigger acts[x]} | j < x < k :: Calls(trace[x], acts[x], c, l) ==> acts[x].primary)
  }

  /** The thread took its refusal at y and was signalled by a call at some later step. */
  ghost predicate WasSignalled(trace: seq<Sys>, acts: seq<Action>, y: nat, k: nat, c: ClientId, l: LockId)
    requires |trace| == |acts| + 1 && y < k <= |acts|
  {
    acts[y].TakeRefusal? &&
    exists x {:trigger acts[x]} ::
      y < x < k && Calls(trace[x], acts[x], c, l) && Signals(trace[x], trace[x + 1], c, l, acts[y].cond)
  }

  lemma RefusedIsQueued(s: Sys, c: ClientId, t: ThreadId, l: LockId)
    requires Enabled(s, ServerAcquire(c, t))
    requires At(Apply(s, ServerAcquire(c, t)), c, t, Refused(l)) || At(Apply(s, ServerAcquire(c, t)), c, t, RetryWait(l))
    ensures At(Apply(s, ServerAcquire(c, t)), c, t, Refused(l)) && RefusalCovered(Apply(s, ServerAcquire(c, t)), c, l)
  {
  }

  /** A refusal on its way is covered; a thread that took one at y waits with its client queued and itself
      first to be signalled, or has been signalled. */
  ghost predicate Remembered(trace: seq<Sys>, acts: seq<Action>, j: nat, k: nat, y: nat,
                             c: ClientId, t: ThreadId, l: LockId)
    requires |trace| == |acts| + 1 && k <= |acts|
  {
    && (At(trace[k], c, t, Refused(l)) ==> RefusalCovered(trace[k], c, l))
    && (At(trace[k], c, t, RetryWait(l)) ==>
          && j < y < k && acts[y].TakeRefusal? && acts[y].c == c && acts[y].t == t
          && (WaitCovered(trace[k], c, l, acts[y].cond) || WasSignalled(trace, acts, y, k, c, l)))
  }

  lemma FirstRemembered(trace: seq<Sys>, acts: seq<Action>, j: nat, c: ClientId, t: ThreadId, l: LockId)
    requires Run(trace, acts) && j < |acts| && Waiting(trace, acts, j, j + 1, c, t, l)
    ensures Remembered(trace, acts, j, j + 1, j, c, t, l)
  {
    assert trace[j + 1] == Apply(trace[j], acts[j]);
    RefusedIsQueued(trace[j], c, t, l);
  }

  lemma WaitingBefore(trace: seq<Sys>, acts: seq<Action>, j: nat, k: nat, c: ClientId, t: ThreadId, l: LockId)
    requires Waiting(trace, acts, j, k, c, t, l) && j + 1 < k
    ensures Waiting(trace, acts, j, k - 1, c, t, l)
    ensures At(trace[k - 1], c, t, Refused(l)) || At(trace[k - 1], c, t, RetryWait(l))
  {
  }

  lemma RefusedRemembered(trace: seq<Sys>, acts: seq<Action>, j: nat, k: nat, c: ClientId, t: ThreadId, l: LockId)
    requires Run(trace, acts) && j < k < |acts| && Waiting(trace, acts, j, k + 1, c, t, l)
    requires At(trace[k], c, t, Refused(l)) && RefusalCovered(trace[k], c, l)
    ensures Remembered(trace, acts, j, k + 1, k, c, t, l)
  {
    var s, a := trace[k], acts[k];
    assert trace[k + 1] == Apply(s, a);
    if At(trace[k + 1], c, t, Refused(l)) {
      RunInv(trace, acts, k);
      RefusedStep(s, a, c, t, l);
    } else {
      RefusalEnds(s, a, c, t, l);
    }
  }

  lemma WaitRemembered(trace: seq<Sys>, acts: seq<Action>, j: nat, k: nat, y: nat, c: ClientId, t: ThreadId, l: LockId)
    requires Run(trace, acts) && j < k < |acts| && Waiting(trace, acts, j, k + 1, c, t, l)
    requires At(trace[k], c, t, RetryWait(l)) && Remembered(trace, acts, j, k, y, c, t, l)
    ensures Remembered(trace, acts, j, k + 1, y, c, t, l)
  {
    var s, a := trace[k], acts[k];
    assert trace[k + 1] == Apply(s, a);
    NoSecondRefusal(s, a, c, t, l);
    if WasSignalled(trace, acts, y, k, c, l) {
      assert WasSignalled(trace, acts, y, k + 1, c, l);
    } else {
      RunInv(trace, acts, k);
      WaitStep(s, a, c, t, l, acts[y].cond);
    }
  }

  /** In every run a refused client is never forgotten: as long as the refusal is on its way the client is
      queued or its retry flag is up, and once its thread waits the client is queued with that thread
      first to be signalled, or a call has signalled it. */
  lemma {:induction false} RefusedIsNotForgotten(trace: seq<Sys>, acts: seq<Action>, j: nat, k: nat,
                                                 c: ClientId, t: ThreadId, l: LockId) returns (y: nat)
    requires Run(trace, acts) && Waiting(trace, acts, j, k, c, t, l)
    ensures Remembered(trace, acts, j, k, y, c, t, l)
    decreases k
  {
    y := j;
    if k == j + 1 {
      FirstRemembered(trace, acts, j, c, t, l);
    } else {
      WaitingBefore(trace, acts, j, k, c, t, l);
      y := RefusedIsNotForgotten(trace, acts, j, k - 1, c, t, l);
      if At(trace[k - 1], c, t, Refused(l)) {
        RefusedRemembered(trace, acts, j, k - 1, c, t, l);
        y := k - 1;
      } else {
        WaitRemembered(trace, acts, j, k - 1, y, c, t, l);
      }
    }
  }

  lemma NoSecondRefusal(s: Sys, a: Action, c: ClientId, t: ThreadId, l: LockId)
    requires Enabled(s, a) && At(s, c, t, RetryWait(l))
    ensures !At(Apply(s, a), c, t, Refused(l))
  {
  }

  /** A refused thread that finds the retry flag up asks again at once, any other waits. */
  lemma FlagAsksAgain(trace: seq<Sys>, acts: seq<Action>, i: nat, c: ClientId, t: ThreadId, l: LockId)
    requires Run(trace, acts) && i < |acts| && acts[i].TakeRefusal? && acts[i].c == c && acts[i].t == t
    requires At(trace[i], c, t, Refused(l))
    ensures At(trace[i + 1], c, t, if trace[i].nodes[c].cl.At(l).retryFlag then Calling(l) else RetryWait(l))
  {
  }

  /** How asking the server goes on: the request carries the shared seqid, it is granted exactly if the lock
      is free there, a grant is held, and a thread that wakes from a refusal asks again. */
  lemma AskingGoesOn(trace: seq<Sys>, acts: seq<Action>, i: nat, c: ClientId, t: ThreadId, l: LockId)
    requires Run(trace, acts) && i < |acts| && c in trace[i].nodes && c in trace[i + 1].nodes
    requires Concerns(trace[i].nodes[c].PcOf(t), l)
    ensures acts[i] == ReadSeqid(c, t) ==> At(trace[i + 1], c, t, Sent(l, trace[i].nodes[c].cl.seqid))
    ensures acts[i] == ServerAcquire(c, t) ==>
      At(trace[i + 1], c, t, if trace[i].srv.At(l).status == S.FREE then Granted(l) else Refused(l))
    ensures acts[i] == TakeGrant(c, t) ==> At(trace[i + 1], c, t, Idle) && (t, l) in trace[i + 1].nodes[c].held
    ensures acts[i] == WakeRetrying(c, t) ==> At(trace[i + 1], c, t, Calling(l))
  {
  }

  /** A call that finds nobody to signal, or the client still asking, leaves the flag up. */
  predicate Flags(s: Sys, a: Action, c: ClientId, l: LockId) {
    && Calls(s, a, c, l) && a.primary && c in s.nodes
    && (s.nodes[c].cl.At(l).waitlist == [] || s.nodes[c].cl.At(l).status == C.ACQUIRING)
  }

  /** A refusal that is taken and a release by the holder take the flag down. */
  predicate Unflags(s: Sys, a: Action, c: ClientId, l: LockId) {
    && c in s.nodes
    && ((a.TakeRefusal? && a.c == c && s.nodes[c].PcOf(a.t) == Refused(l))
        || (a.Release? && a.c == c && a.l == l && s.nodes[c].cl.At(l).thread == a.t))
  }

  lemma NodeFlag(n: Node, a: Action, l: LockId)
    requires AtNode(n, a)
    ensures NodeStep(n, a).cl.At(l).retryFlag <==>
      n.cl.At(l).retryFlag && !((a.TakeRefusal? && n.PcOf(a.t) == Refused(l))
                               || (a.Release? && a.l == l && n.cl.At(l).thread == a.t))
  {
  }

  lemma FlagStep(s: Sys, a: Action, c: ClientId, l: LockId)
    requires Enabled(s, a) && c in s.nodes
    ensures c in Apply(s, a).nodes
    ensures Apply(s, a).nodes[c].cl.At(l).retryFlag <==>
      Flags(s, a, c, l) || (s.nodes[c].cl.At(l).retryFlag && !Unflags(s, a, c, l))
  {
    if !AtServer(a) && a.c == c {
      NodeFlag(s.nodes[c], a, l);
    } else {
      OtherFlag(s, a, c, l);
    }
  }

  lemma OtherFlag(s: Sys, a: Action, c: ClientId, l: LockId)
    requires Enabled(s, a) && c in s.nodes && (AtServer(a) || a.c != c)
    ensures c in Apply(s, a).nodes
    ensures Apply(s, a).nodes[c].cl.At(l).retryFlag <==> Flags(s, a, c, l) || s.nodes[c].cl.At(l).retryFlag
  {
  }

  /** Since step x the flag has not been taken down. */
  ghost predicate FlaggedSince(trace: seq<Sys>, acts: seq<Action>, x: nat, k: nat, c: ClientId, l: LockId)
    requires |trace| == |acts| + 1 && k <= |acts|
  {
    x < k && Flags(trace[x], acts[x], c, l) && forall z {:trigger acts[z]} | x < z < k :: !Unflags(trace[z], acts[z], c, l)
  }

  ghost predicate Flagged(trace: seq<Sys>, acts: seq<Action>, k: nat, c: ClientId, l: LockId)
    requires |trace| == |acts| + 1 && k <= |acts|
  {
    exists x: nat :: FlaggedSince(trace, acts, x, k, c, l)
  }

  /** In every run the retry flag is up exactly if such a call came since the last refusal or release. */
  lemma {:induction false} FlagIsACall(trace: seq<Sys>, acts: seq<Action>, k: nat, c: ClientId, l: LockId)
    requires Run(trace, acts) && k <= |acts| && c in trace[0].nodes
    ensures c in trace[k].nodes
    ensures trace[k].nodes[c].cl.At(l).retryFlag <==> Flagged(trace, acts, k, c, l)
  {
    if k > 0 {
      FlagIsACall(trace, acts, k - 1, c, l);
      var s, a := trace[k - 1], acts[k - 1];
      FlagStep(s, a, c, l);
      FlaggedNext(trace, acts, k - 1, c, l);
    }
  }

  lemma FlaggedNext(trace: seq<Sys>, acts: seq<Action>, k: nat, c: ClientId, l: LockId)
    requires |trace| == |acts| + 1 && k < |acts|
    ensures Flagged(trace, acts, k + 1, c, l) <==>
      Flags(trace[k], acts[k], c, l) || (Flagged(trace, acts, k, c, l) && !Unflags(trace[k], acts[k], c, l))
  {
    var n := k + 1;
    if Flags(trace[k], acts[k], c, l) {
      assert FlaggedSince(trace, acts, k, n, c, l);
    } else if Flagged(trace, acts, k, c, l) && !Unflags(trace[k], acts[k], c, l) {
      var x: nat :| FlaggedSince(trace, acts, x, k, c, l);
      assert FlaggedSince(trace, acts, x, n, c, l);
    }
    if Flagged(trace, acts, n, c, l) {
      var x: nat :| FlaggedSince(trace, acts, x, n, c, l);
      assert x < k ==> FlaggedSince(trace, acts, x, k, c, l);
    }
  }

  // ---------------------------------------------------------------- threads that wait for their own client

  lemma NodeWaiterStays(n: Node, a: Action, l: LockId, cond: C.Cond)
    requires AtNode(n, a) && cond in n.cl.At(l).waitlist
    ensures cond in NodeStep(n, a).cl.At(l).waitlist ||
            (a.Release? && a.l == l && n.cl.At(l).waitlist == [cond] + NodeStep(n, a).cl.At(l).waitlist)
  {
  }

  lemma WaiterStays(s: Sys, a: Action, c: ClientId, l: LockId, cond: C.Cond)
    requires Enabled(s, a) && c in s.nodes && cond in s.nodes[c].cl.At(l).waitlist
    ensures c in Apply(s, a).nodes
    ensures cond in Apply(s, a).nodes[c].cl.At(l).waitlist || Wakes(s, a, c, l, cond)
  {
    if !AtServer(a) && a.c == c {
      NodeWaiterStays(s.nodes[c], a, l, cond);
    } else if !(Calls(s, a, c, l) && a.primary) {
      OtherListsStay(s, a, c, l);
    }
  }

  /** The step is a release of the lock by its holder or a call for it, and signals this condition. */
  predicate Wakes(s: Sys, a: Action, c: ClientId, l: LockId, cond: C.Cond)
    requires Enabled(s, a)
  {
    ((a.Release? && a.c == c && a.l == l) || (Calls(s, a, c, l) && a.primary)) && Signals(s, Apply(s, a), c, l, cond)
  }

  /** In every run a thread that waits for its own client is in the lock's list until it is signalled. */
  lemma {:induction false} WaiterIsNotForgotten(trace: seq<Sys>, acts: seq<Action>, j: nat, k: nat,
                                                c: ClientId, t: ThreadId, l: LockId)
    requires Run(trace, acts) && j < k <= |acts| && Passes(trace[j], acts[j], c, t, l)
    requires At(trace[j + 1], c, t, LocalWait(l))
    ensures c in trace[k].nodes
    ensures acts[j].cond in trace[k].nodes[c].cl.At(l).waitlist ||
      exists x {:trigger acts[x]} :: j < x < k && Wakes(trace[x], acts[x], c, l, acts[j].cond)
    decreases k
  {
    if k > j + 1 {
      WaiterIsNotForgotten(trace, acts, j, k - 1, c, t, l);
      var s, a := trace[k - 1], acts[k - 1];
      assert trace[k] == Apply(s, a);
      if acts[j].cond in s.nodes[c].cl.At(l).waitlist {
        WaiterStays(s, a, c, l, acts[j].cond);
      } else {
        NodeStays(s, a, c);
      }
    } else {
      assert trace[k] == Apply(trace[j], acts[j]);
    }
  }

  lemma NodeStays(s: Sys, a: Action, c: ClientId)
    requires Enabled(s, a) && c in s.nodes
    ensures c in Apply(s, a).nodes
  {
  }

  /** The releaser of c has lock l in its hands and will ask for a call. */
  predicate Asking(s: Sys, c: ClientId, l: LockId) {
    c in s.nodes && (s.nodes[c].rel == Flushing(l, true) || s.nodes[c].rel == Releasing(l, true))
  }

  lemma AskingStays(s: Sys, a: Action, c: ClientId, l: LockId)
    requires Enabled(s, a) && Asking(s, c, l)
    ensures if a == ServerRelease(c) then s.nodes[c].rel == Releasing(l, true) else Asking(Apply(s, a), c, l)
  {
  }

  lemma {:induction false} AskingUntil(trace: seq<Sys>, acts: seq<Action>, j: nat, k: nat, c: ClientId, l: LockId)
    requires Run(trace, acts) && j <= k <= |acts| && Asking(trace[j], c, l)
    requires forall x | j <= x < k :: acts[x] != ServerRelease(c)
    ensures Asking(trace[k], c, l)
    decreases k
  {
    if k > j {
      AskingUntil(trace, acts, j, k - 1, c, l);
      AskingStays(trace[k - 1], acts[k - 1], c, l);
    }
  }

  /** How a revoked lock goes back: first in, first out, it leaves the cache, is flushed, and is free at the
      server when its release has been handled. */
  lemma ReleaserGoesOn(trace: seq<Sys>, acts: seq<Action>, i: nat, c: ClientId)
    requires Run(trace, acts) && i < |acts| && c in trace[i].nodes && c in trace[i + 1].nodes
    ensures var n, m := trace[i].nodes[c], trace[i + 1].nodes[c];
      && (acts[i] == ReleaserTake(c) ==>
            && n.cl.released != [] && m.cl.released == n.cl.released[1..]
            && var l := n.cl.released[0];
               m.cl.At(l).status == C.NONE && m.rel == Flushing(l, n.cl.At(l).waitlist != []))
      && (acts[i] == FlushDone(c) ==> n.rel.Flushing? && m == n.(rel := Releasing(n.rel.l, n.rel.retry)))
      && (acts[i] == ServerRelease(c) ==>
            n.rel.Releasing? && m == n.(rel := Resting) && trace[i + 1].srv.At(n.rel.l).status == S.FREE)
  {
    if acts[i] == ServerRelease(c) {
      NoRunFaults(trace, acts, i);
    }
  }

  /** A client that gives up a lock for which threads of its own wait is queued for it: the releaser takes
      the lock at step j, and the server handles the release at step k. */
  lemma GivenUpIsAskedFor(trace: seq<Sys>, acts: seq<Action>, j: nat, k: nat, c: ClientId, l: LockId)
    requires Run(trace, acts) && j < k < |acts| && acts[j] == ReleaserTake(c) && acts[k] == ServerRelease(c)
    requires c in trace[j].nodes && trace[j].nodes[c].cl.released[0] == l && trace[j].nodes[c].cl.At(l).waitlist != []
    requires forall x | j < x < k :: acts[x] != ServerRelease(c)
    ensures Queued(trace[k + 1], c, l) && trace[k + 1].srv.At(l).status == S.FREE
  {
    assert Asking(trace[j + 1], c, l);
    AskingUntil(trace, acts, j + 1, k, c, l);
    AskingStays(trace[k], acts[k], c, l);
    NoRunFaults(trace, acts, k);
  }
}
