/** One RPC client and its server over a network that loses, repeats and reorders (rpc/rpc.cc):
    the two windows together execute a call at most once until it is acknowledged. */
module Rpc {
  import opened XidWindow
  import opened ReplyWindow

  datatype Header = Header(xid: nat, rep: nat)

  datatype Answer = Answer(xid: nat, bytes: Bytes)

  /** next, window, pending and taken are the client's; server is its reply window there.  sent and
      replies hold every message ever sent, each of which may arrive any number of times.  received,
      execs and outs record what happened: ids received or given up, executions begun, results;
      replies counts how often each answer was sent. */
  datatype System = System(
    next: nat, window: seq<nat>, received: set<nat>, pending: set<nat>, taken: map<nat, Bytes>,
    sent: set<Header>, server: seq<Reply>, execs: multiset<nat>, running: multiset<nat>,
    outs: set<Answer>, replies: multiset<Answer>, forgotten: set<nat>, crashed: bool)

  datatype Action =
    | Call
    | Deliver(h: Header)
    | Finish(xid: nat, bytes: Bytes)
    | Receive(m: Answer)
    | Return(xid: nat)

  function Init(): System {
    System(1, [0], {}, {}, map[], {}, [], multiset{}, multiset{}, {}, multiset{}, {}, false)
  }

  predicate Enabled(s: System, a: Action) {
    match a
    case Call => s.window != []
    case Deliver(h) => h in s.sent && !s.crashed
    case Finish(xid, _) => xid in s.running
    case Receive(m) => m in s.replies && s.window != []
    case Return(xid) => xid in s.pending && s.window != []
  }

  function Call1(s: System): System
    requires s.window != []
  {
    s.(next := s.next + 1, pending := s.pending + {s.next}, sent := s.sent + {Header(s.next, s.window[0])})
  }

  function Dispatch(s: System, h: Header): System {
    var (l, c) := Check(s.server, h.xid, h.rep);
    var t := s.(server := l);
    match c
    case New => t.(execs := s.execs + multiset{h.xid}, running := s.running + multiset{h.xid})
    case InProgress => t
    case Done(b) => t.(replies := s.replies + multiset{Answer(h.xid, b)})
    case Forgotten => t.(forgotten := s.forgotten + {h.xid})
    case _ => t.(crashed := true)
  }

  function Finished(s: System, m: Answer): System {
    s.(server := AddReply(s.server, m.xid, m.bytes), running := s.running - multiset{m.xid},
       outs := s.outs + {m}, replies := s.replies + multiset{m})
  }

  function Acknowledge(s: System, xid: nat): System
    requires s.window != []
  {
    s.(window := Update(s.window, xid), received := s.received + {xid})
  }

  function GotPdu(s: System, m: Answer): System
    requires s.window != []
  {
    var t := Acknowledge(s, m.xid);
    if m.xid in s.pending && m.xid !in s.taken then t.(taken := s.taken[m.xid := m.bytes]) else t
  }

  function Apply(s: System, a: Action): System
    requires Enabled(s, a)
  {
    match a
    case Call => Call1(s)
    case Deliver(h) => Dispatch(s, h)
    case Finish(xid, b) => Finished(s, Answer(xid, b))
    case Receive(m) => GotPdu(s, m)
    case Return(xid) => Acknowledge(s.(pending := s.pending - {xid}), xid)
  }

  // ---------------------------------------------------------------- the invariant

  predicate Issued(s: System, x: nat) {
    1 <= x < s.next
  }

  ghost predicate WindowOk(s: System) {
    Stands(s.window, s.received) && s.next >= 1 && forall h :: h in s.sent ==> h.rep <= s.window[0]
  }

  ghost predicate ClientInv(s: System) {
    WindowOk(s) && BooksOk(s)
  }

  ghost predicate BooksOk(s: System) {
    && (forall x :: x in s.received || x in s.pending || x in s.running ==> Issued(s, x))
    && (forall m :: m in s.outs ==> Issued(s, m.xid))
    && (forall x :: x in s.taken ==> Answer(x, s.taken[x]) in s.outs)
    && (forall x :: x in s.pending && x in s.received ==> x in s.taken)
    && (forall h :: h in s.sent ==> Issued(s, h.xid) && h.rep < h.xid)
    && s.forgotten == {} && !s.crashed
  }

  predicate RepliesOk(s: System) {
    forall m :: m in s.replies ==> m in s.outs
  }

  predicate NoOutput(s: System, x: nat) {
    forall m :: m in s.outs ==> m.xid != x
  }

  predicate OnlyOutput(s: System, x: nat, b: Bytes) {
    Answer(x, b) in s.outs && forall m :: m in s.outs && m.xid == x ==> m.bytes == b
  }

  /** Where an unacknowledged call stands at the server: not started, running, or finished once. */
  predicate OnceOk(s: System, x: nat) {
    var e := Entry(s.server, x);
    && s.execs[x] == (if e.present then 1 else 0)
    && s.running[x] == (if e.present && e.buf.Null? then 1 else 0)
    && (if e.buf.Null? then NoOutput(s, x) else e.present && OnlyOutput(s, x, e.buf.bytes))
  }

  predicate BufferOk(s: System, x: nat) {
    var e := Entry(s.server, x);
    e.buf.Buf? ==> Answer(x, e.buf.bytes) in s.outs
  }

  ghost predicate Inv(s: System) {
    && ClientInv(s) && RepliesOk(s) && Contiguous(s.server)
    && (forall x: nat :: BufferOk(s, x))
    && (forall x: nat :: x > s.window[0] ==> OnceOk(s, x))
  }

  lemma CallInv(s: System)
    requires Inv(s)
    ensures Inv(Call1(s))
  {
    var t := Call1(s);
    assert s.window[0] in s.received || s.window[0] == 0;
    assert forall x: nat :: OnceOk(t, x) == OnceOk(s, x) && BufferOk(t, x) == BufferOk(s, x);
  }

  lemma DispatchOnce(s: System, h: Header, x: nat)
    requires Contiguous(s.server) && h.rep < h.xid && BufferOk(s, x)
    ensures BufferOk(Dispatch(s, h), x)
    ensures x > h.rep && OnceOk(s, x) ==> OnceOk(Dispatch(s, h), x)
  {
    Checked(s.server, h.xid, h.rep);
  }

  /** Nothing of the client's has changed, and at most an issued id runs in addition. */
  lemma ClientSide(s: System, t: System, x: nat)
    requires ClientInv(s) && Issued(s, x)
    requires t == s.(server := t.server, execs := t.execs, running := t.running, replies := t.replies)
    requires forall y :: y in t.running ==> y in s.running || y == x
    ensures ClientInv(t)
  {
  }

  lemma DispatchClient(s: System, h: Header)
    requires ClientInv(s) && Contiguous(s.server) && h in s.sent && BufferOk(s, h.xid)
    ensures ClientInv(Dispatch(s, h)) && Contiguous(Dispatch(s, h).server)
  {
    Checked(s.server, h.xid, h.rep);
    ClientSide(s, Dispatch(s, h), h.xid);
  }

  lemma DispatchReplies(s: System, h: Header)
    requires Contiguous(s.server) && h.rep < h.xid && BufferOk(s, h.xid) && RepliesOk(s)
    ensures RepliesOk(Dispatch(s, h))
  {
    Checked(s.server, h.xid, h.rep);
  }

  lemma DispatchInv(s: System, h: Header)
    requires Inv(s) && h in s.sent
    ensures Inv(Dispatch(s, h))
  {
    var t := Dispatch(s, h);
    DispatchClient(s, h);
    DispatchReplies(s, h);
    forall x: nat
      ensures BufferOk(t, x) && (x > t.window[0] ==> OnceOk(t, x))
    {
      DispatchOnce(s, h, x);
    }
  }

  lemma FinishInv(s: System, m: Answer)
    requires Inv(s) && m.xid in s.running
    ensures Inv(Finished(s, m))
  {
    var t := Finished(s, m);
    Replied(s.server, m.xid, m.bytes);
    forall x: nat
      ensures BufferOk(t, x)
    {
      assert BufferOk(s, x);
    }
    forall x: nat | x > t.window[0]
      ensures OnceOk(t, x)
    {
      assert OnceOk(s, x);
    }
  }

  lemma AcknowledgeWindow(s: System, xid: nat)
    requires WindowOk(s) && xid >= 1
    ensures WindowOk(Acknowledge(s, xid)) && Acknowledge(s, xid).window[0] >= s.window[0]
  {
    Updated(s.window, s.received, xid);
  }

  lemma AcknowledgeBooks(s: System, xid: nat, w: seq<nat>)
    requires BooksOk(s) && Issued(s, xid) && (xid in s.pending ==> xid in s.taken)
    ensures BooksOk(s.(window := w, received := s.received + {xid}))
  {
  }

  lemma AcknowledgeClient(s: System, xid: nat)
    requires ClientInv(s) && Issued(s, xid) && (xid in s.pending ==> xid in s.taken)
    ensures ClientInv(Acknowledge(s, xid)) && Acknowledge(s, xid).window[0] >= s.window[0]
  {
    AcknowledgeWindow(s, xid);
    AcknowledgeBooks(s, xid, Update(s.window, xid));
  }

  /** The server's side does not depend on the client's. */
  lemma ServerSide(s: System, t: System, x: nat)
    requires t.server == s.server && t.execs == s.execs && t.running == s.running && t.outs == s.outs
    ensures OnceOk(t, x) == OnceOk(s, x) && BufferOk(t, x) == BufferOk(s, x)
  {
  }

  lemma AcknowledgeInv(s: System, xid: nat)
    requires Inv(s) && Issued(s, xid) && (xid in s.pending ==> xid in s.taken)
    ensures Inv(Acknowledge(s, xid))
  {
    var t := Acknowledge(s, xid);
    AcknowledgeClient(s, xid);
    forall x: nat ensures BufferOk(t, x) && (x > t.window[0] ==> OnceOk(t, x)) {
      ServerSide(s, t, x);
    }
  }

  lemma ReceiveInv(s: System, m: Answer)
    requires Inv(s) && m in s.replies
    ensures Inv(GotPdu(s, m))
  {
    var t := if m.xid in s.pending && m.xid !in s.taken then s.(taken := s.taken[m.xid := m.bytes]) else s;
    assert forall x: nat :: OnceOk(t, x) == OnceOk(s, x) && BufferOk(t, x) == BufferOk(s, x);
    AcknowledgeInv(t, m.xid);
  }

  lemma ReturnInv(s: System, xid: nat)
    requires Inv(s) && xid in s.pending
    ensures Inv(Acknowledge(s.(pending := s.pending - {xid}), xid))
  {
    var t := s.(pending := s.pending - {xid});
    assert forall x: nat :: OnceOk(t, x) == OnceOk(s, x) && BufferOk(t, x) == BufferOk(s, x);
    AcknowledgeInv(t, xid);
  }

  lemma StepInv(s: System, a: Action)
    requires Inv(s) && Enabled(s, a)
    ensures Inv(Apply(s, a))
  {
    match a
    case Call => CallInv(s);
    case Deliver(h) => DispatchInv(s, h);
    case Finish(xid, b) => FinishInv(s, Answer(xid, b));
    case Receive(m) => ReceiveInv(s, m);
    case Return(xid) => ReturnInv(s, xid);
  }

  // ---------------------------------------------------------------- runs

  ghost predicate Run(trace: seq<System>, acts: seq<Action>) {
    && |trace| == |acts| + 1 && trace[0] == Init()
    && (forall i {:trigger acts[i]} ::
         0 <= i < |acts| ==> Enabled(trace[i], acts[i]) && trace[i + 1] == Apply(trace[i], acts[i]))
  }

  lemma InitInv()
    ensures Inv(Init())
  {
    assert forall x: nat :: OnceOk(Init(), x) && BufferOk(Init(), x);
  }

  lemma {:induction false} RunInv(trace: seq<System>, acts: seq<Action>, i: nat)
    requires Run(trace, acts) && i < |trace|
    ensures Inv(trace[i])
  {
    if i == 0 {
      InitInv();
    } else {
      RunInv(trace, acts, i - 1);
      StepInv(trace[i - 1], acts[i - 1]);
    }
  }

  /** In every run every header has rep < xid, so the server never reaches its exit, never reads the back
      of an empty list and never answers that it has forgotten a request. */
  lemma HeadersAreOrdered(trace: seq<System>, acts: seq<Action>, i: nat)
    requires Run(trace, acts) && i < |trace|
    ensures forall h :: h in trace[i].sent ==> h.rep < h.xid
    ensures !trace[i].crashed && trace[i].forgotten == {} && Contiguous(trace[i].server)
  {
    RunInv(trace, acts, i);
  }

  // ---------------------------------------------------------------- what a header says

  /** Up to step i the client has received a reply for x or given the call up. */
  ghost predicate Acked(acts: seq<Action>, i: nat, x: nat)
    requires i <= |acts|
  {
    exists j {:trigger acts[j]} :: 0 <= j < i && (acts[j] == Return(x) || (acts[j].Receive? && acts[j].m.xid == x))
  }

  lemma AckedNext(acts: seq<Action>, i: nat, x: nat)
    requires i < |acts|
    ensures Acked(acts, i + 1, x) <==>
            Acked(acts, i, x) || acts[i] == Return(x) || (acts[i].Receive? && acts[i].m.xid == x)
  {
  }

  lemma {:induction false} ReceivedIsAcked(trace: seq<System>, acts: seq<Action>, i: nat, x: nat)
    requires Run(trace, acts) && i <= |acts|
    ensures x in trace[i].received <==> Acked(acts, i, x)
  {
    if i > 0 {
      ReceivedIsAcked(trace, acts, i - 1, x);
      AckedNext(acts, i - 1, x);
      assert trace[i] == Apply(trace[i - 1], acts[i - 1]);
    }
  }

  function Calls(acts: seq<Action>): nat {
    if acts == [] then 0 else Calls(acts[..|acts| - 1]) + if acts[|acts| - 1].Call? then 1 else 0
  }

  lemma StepNext(s: System, a: Action)
    requires Enabled(s, a)
    ensures Apply(s, a).next == s.next + if a.Call? then 1 else 0
  {
  }

  lemma CallsNext(acts: seq<Action>, i: nat)
    requires i < |acts|
    ensures Calls(acts[..i + 1]) == Calls(acts[..i]) + if acts[i].Call? then 1 else 0
  {
    assert acts[..i + 1][..i] == acts[..i];
  }

  lemma {:induction false} NextCounts(trace: seq<System>, acts: seq<Action>, i: nat)
    requires Run(trace, acts) && i <= |acts|
    ensures trace[i].next == Calls(acts[..i]) + 1
  {
    if i > 0 {
      NextCounts(trace, acts, i - 1);
      StepNext(trace[i - 1], acts[i - 1]);
      CallsNext(acts, i - 1);
    }
  }

  /** Every call sends one header.  Its id counts the calls, so no earlier header has it, and it
      acknowledges exactly as far as every id up to there has been received or given up. */
  lemma HeaderSays(trace: seq<System>, acts: seq<Action>, i: nat) returns (h: Header)
    requires Run(trace, acts) && i < |acts| && acts[i] == Call
    ensures trace[i + 1].sent == trace[i].sent + {h} && h.xid in trace[i + 1].pending
    ensures h.xid == Calls(acts[..i]) + 1 && forall g :: g in trace[i].sent ==> g.xid != h.xid
    ensures (forall k: nat :: 1 <= k <= h.rep ==> Acked(acts, i, k)) && !Acked(acts, i, h.rep + 1)
  {
    var s := trace[i];
    h := Header(s.next, s.window[0]);
    RunInv(trace, acts, i);
    NextCounts(trace, acts, i);
    forall k: nat ensures k in s.received <==> Acked(acts, i, k) {
      ReceivedIsAcked(trace, acts, i, k);
    }
  }

  /** The call still waits for its reply, or the client's window has not passed its id. */
  predicate Open(s: System, x: nat) {
    (x in s.pending && x !in s.taken) || Unpassed(s, x)
  }

  predicate Unpassed(s: System, x: nat) {
    s.window != [] && x > s.window[0]
  }

  /** In every run a request that is still open has been executed at most once. */
  lemma AtMostOnce(trace: seq<System>, acts: seq<Action>, i: nat, x: nat)
    requires Run(trace, acts) && i < |trace|
    requires Open(trace[i], x)
    ensures trace[i].execs[x] <= 1
  {
    RunInv(trace, acts, i);
    WaitingIsUnacknowledged(trace[i], x);
    assert OnceOk(trace[i], x);
  }

  lemma WaitingIsUnacknowledged(s: System, x: nat)
    requires ClientInv(s)
    ensures x in s.pending && x !in s.taken ==> x > s.window[0]
  {
    assert x in s.pending ==> Issued(s, x);
  }

  /** What the server does with a copy of a request that is still open: the first one is executed, one that
      comes during the execution is dropped, and one that comes after it is answered with its result. */
  lemma DeliveryComesTo(trace: seq<System>, acts: seq<Action>, i: nat, h: Header)
    requires Run(trace, acts) && i < |acts| && acts[i] == Deliver(h) && Unpassed(trace[i], h.xid)
    ensures var s, t := trace[i], trace[i + 1];
      && (s.execs[h.xid] == 0 ==> t.execs[h.xid] == t.running[h.xid] == 1 && t.replies == s.replies)
      && (s.running[h.xid] > 0 ==> t.execs == s.execs && t.running == s.running && t.replies == s.replies)
      && (forall m :: m in s.outs && m.xid == h.xid ==>
            t.execs == s.execs && t.running == s.running && t.replies == s.replies + multiset{m})
  {
    var s := trace[i];
    RunInv(trace, acts, i);
    assert h in s.sent && OnceOk(s, h.xid);
    Checked(s.server, h.xid, h.rep);
  }

  /** A finished execution sends its result. */
  lemma ResultIsSent(trace: seq<System>, acts: seq<Action>, i: nat)
    requires Run(trace, acts) && i < |acts| && acts[i].Finish?
    ensures trace[i + 1].replies == trace[i].replies + multiset{Answer(acts[i].xid, acts[i].bytes)}
  {
  }

  /** When a waiting call takes a reply, its request has been executed exactly once and the reply is that
      execution's result. */
  lemma ReplyIsTheResult(trace: seq<System>, acts: seq<Action>, i: nat)
    requires Run(trace, acts) && i < |acts| && acts[i].Receive?
    requires acts[i].m.xid in trace[i].pending && acts[i].m.xid !in trace[i].taken
    ensures var s, m := trace[i], acts[i].m;
      && s.execs[m.xid] == 1 && OnlyOutput(s, m.xid, m.bytes)
      && trace[i + 1].taken == s.taken[m.xid := m.bytes]
  {
    var s, m := trace[i], acts[i].m;
    RunInv(trace, acts, i);
    assert m in s.outs;
    WaitingIsUnacknowledged(s, m.xid);
    assert OnceOk(s, m.xid);
  }
}
