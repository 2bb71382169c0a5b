/** Primary and backups within one view (rsm.cc): the replica object and its two entry points. */
module Rsm {
  import opened Sequences

  datatype Request = Request(proc: int, args: string)

  datatype Viewstamp = Viewstamp(vid: nat, seqno: nat)

  datatype Status = OK | NOTPRIMARY | BUSY

  const ERR: int := 1

  /** How one call to a backup ended: no connection, or the value call() returned. */
  datatype Outcome = NoHandle | Ret(ret: int)

  predicate Failed(o: Outcome) {
    o.NoHandle? || o.ret < 0
  }

  /** The position at which the primary's loop over the members stops. */
  function Reached(mems: seq<string>, me: string, outcomes: seq<Outcome>): (k: nat)
    requires |outcomes| == |mems|
    ensures k <= |mems|
    ensures forall i :: 0 <= i < k ==> mems[i] == me || !Failed(outcomes[i])
    ensures k < |mems| ==> mems[k] != me && Failed(outcomes[k])
  {
    if mems == [] || (mems[0] != me && Failed(outcomes[0])) then 0
    else 1 + Reached(mems[1..], me, outcomes[1..])
  }

  /** The members that are sent the request: those with a connection, up to the first failure. */
  function Contacted(mems: seq<string>, me: string, outcomes: seq<Outcome>): seq<string>
    requires |outcomes| == |mems|
  {
    if mems == [] then []
    else if mems[0] == me then Contacted(mems[1..], me, outcomes[1..])
    else
      (if outcomes[0].Ret? then [mems[0]] else [])
      + (if Failed(outcomes[0]) then [] else Contacted(mems[1..], me, outcomes[1..]))
  }

  /** A call that is not stopped by a failure contacts every other member. */
  lemma {:induction false} AllContacted(mems: seq<string>, me: string, outcomes: seq<Outcome>, x: string)
    requires |outcomes| == |mems| && Reached(mems, me, outcomes) == |mems|
    ensures x in Contacted(mems, me, outcomes) <==> x in mems && x != me
  {
    if mems != [] {
      AllContacted(mems[1..], me, outcomes[1..], x);
    }
  }

  lemma {:induction false} ReachedAt(mems: seq<string>, me: string, outcomes: seq<Outcome>, k: nat)
    requires |outcomes| == |mems| && k <= |mems|
    requires forall i :: 0 <= i < k ==> mems[i] == me || !Failed(outcomes[i])
    requires k < |mems| ==> mems[k] != me && Failed(outcomes[k])
    ensures Reached(mems, me, outcomes) == k
  {
    if k > 0 {
      ReachedAt(mems[1..], me, outcomes[1..], k - 1);
    }
  }

  /** Every other member answered, with whatever value of 0 or more. */
  predicate AllAnswered(mems: seq<string>, me: string, outcomes: seq<Outcome>)
    requires |outcomes| == |mems|
  {
    forall i | 0 <= i < |mems| && mems[i] != me :: outcomes[i].Ret? && outcomes[i].ret >= 0
  }

  /** The call at place i was made: every earlier one was answered, with whatever value of 0 or more. */
  predicate Called(mems: seq<string>, me: string, outcomes: seq<Outcome>, i: int)
    requires |outcomes| == |mems|
  {
    && 0 <= i < |mems| && mems[i] != me && outcomes[i].Ret?
    && (forall j | 0 <= j < i && mems[j] != me :: outcomes[j].Ret? && outcomes[j].ret >= 0)
  }

  predicate WasCalled(mems: seq<string>, me: string, outcomes: seq<Outcome>, x: string)
    requires |outcomes| == |mems|
  {
    exists i | 0 <= i < |mems| :: Called(mems, me, outcomes, i) && mems[i] == x
  }

  lemma CalledNext(mems: seq<string>, me: string, outcomes: seq<Outcome>, i: nat)
    requires |outcomes| == |mems| && i < |mems|
    requires mems[0] == me || (outcomes[0].Ret? && outcomes[0].ret >= 0)
    ensures i > 0 ==> (Called(mems, me, outcomes, i) <==> Called(mems[1..], me, outcomes[1..], i - 1))
  {
    if i > 0 {
      assert forall j | 0 < j < i :: mems[j] == mems[1..][j - 1] && outcomes[j] == outcomes[1..][j - 1];
      assert forall j | 0 <= j < i - 1 :: mems[1..][j] == mems[j + 1] && outcomes[1..][j] == outcomes[j + 1];
    }
  }

  /** The members contacted are those that were called. */
  lemma {:induction false} ContactedMeans(mems: seq<string>, me: string, outcomes: seq<Outcome>, x: string)
    requires |outcomes| == |mems|
    ensures x in Contacted(mems, me, outcomes) <==> WasCalled(mems, me, outcomes, x)
  {
    if mems != [] {
      if mems[0] == me || (outcomes[0].Ret? && outcomes[0].ret >= 0) {
        ContactedMeans(mems[1..], me, outcomes[1..], x);
        if WasCalled(mems[1..], me, outcomes[1..], x) {
          var i :| 0 <= i < |mems| - 1 && Called(mems[1..], me, outcomes[1..], i) && mems[1..][i] == x;
          CalledNext(mems, me, outcomes, i + 1);
          assert Called(mems, me, outcomes, i + 1) && mems[i + 1] == x;
        }
        if WasCalled(mems, me, outcomes, x) {
          var i :| 0 <= i < |mems| && Called(mems, me, outcomes, i) && mems[i] == x;
          CalledNext(mems, me, outcomes, i);
          assert i > 0 ==> Called(mems[1..], me, outcomes[1..], i - 1) && mems[1..][i - 1] == x;
        }
        assert mems[0] != me ==> Called(mems, me, outcomes, 0);
      } else {
        assert Called(mems, me, outcomes, 0) <==> outcomes[0].Ret?;
      }
    }
  }

  lemma AllCalled(mems: seq<string>, me: string, outcomes: seq<Outcome>)
    requires |outcomes| == |mems|
    ensures forall x :: x in Contacted(mems, me, outcomes) <==> WasCalled(mems, me, outcomes, x)
  {
    forall x ensures x in Contacted(mems, me, outcomes) <==> WasCalled(mems, me, outcomes, x) {
      ContactedMeans(mems, me, outcomes, x);
    }
  }

  lemma ReachedMeans(mems: seq<string>, me: string, outcomes: seq<Outcome>)
    requires |outcomes| == |mems|
    ensures Reached(mems, me, outcomes) == |mems| <==> AllAnswered(mems, me, outcomes)
  {
  }

  /** The names are those at these places of the list, in its order, from place lo on. */
  predicate AtPlaces(ps: seq<nat>, names: seq<string>, mems: seq<string>, lo: nat) {
    && |ps| == |names| && (forall j :: 0 <= j < |ps| ==> lo <= ps[j] < |mems| && names[j] == mems[ps[j]])
    && (forall i, j :: 0 <= i < j < |ps| ==> ps[i] < ps[j])
  }

  lemma PlacesCons(ps: seq<nat>, names: seq<string>, mems: seq<string>, k: nat)
    requires k < |mems| && AtPlaces(ps, names, mems, k + 1)
    ensures AtPlaces([k] + ps, [mems[k]] + names, mems, k)
  {
  }

  lemma ContactedNext(mems: seq<string>, me: string, outcomes: seq<Outcome>, k: nat)
    requires |outcomes| == |mems| && k < |mems|
    ensures Contacted(mems[k..], me, outcomes[k..]) ==
            (if mems[k] != me && outcomes[k].Ret? then [mems[k]] else [])
            + (if mems[k] != me && Failed(outcomes[k]) then [] else Contacted(mems[k + 1..], me, outcomes[k + 1..]))
  {
    assert mems[k..][1..] == mems[k + 1..] && outcomes[k..][1..] == outcomes[k + 1..];
  }

  /** And they are contacted in the order of the list. */
  lemma {:induction false} ContactedInOrder(mems: seq<string>, me: string, outcomes: seq<Outcome>, k: nat)
    returns (ps: seq<nat>)
    requires |outcomes| == |mems| && k <= |mems|
    ensures AtPlaces(ps, Contacted(mems[k..], me, outcomes[k..]), mems, k)
    decreases |mems| - k
  {
    if k == |mems| {
      ps := [];
    } else {
      ContactedNext(mems, me, outcomes, k);
      var names := [];
      ps := [];
      if mems[k] == me || !Failed(outcomes[k]) {
        ps := ContactedInOrder(mems, me, outcomes, k + 1);
        names := Contacted(mems[k + 1..], me, outcomes[k + 1..]);
      }
      if mems[k] != me && outcomes[k].Ret? {
        PlacesCons(ps, names, mems, k);
        ps := [k] + ps;
      }
    }
  }

  /** With these members sent the request so far, the loop at place k will have contacted what it contacts
      from the start. */
  ghost predicate SoFar(sent: seq<string>, mems: seq<string>, me: string, outcomes: seq<Outcome>, k: nat)
    requires |outcomes| == |mems| && k <= |mems|
  {
    sent + Contacted(mems[k..], me, outcomes[k..]) == Contacted(mems, me, outcomes)
  }

  lemma SoFarStart(mems: seq<string>, me: string, outcomes: seq<Outcome>)
    requires |outcomes| == |mems|
    ensures SoFar([], mems, me, outcomes, 0)
  {
    assert mems[0..] == mems && outcomes[0..] == outcomes;
  }

  lemma SoFarNext(sent: seq<string>, mems: seq<string>, me: string, outcomes: seq<Outcome>, k: nat)
    requires |outcomes| == |mems| && k < |mems| && SoFar(sent, mems, me, outcomes, k)
    ensures var now := sent + if mems[k] != me && outcomes[k].Ret? then [mems[k]] else [];
      if mems[k] != me && Failed(outcomes[k]) then now == Contacted(mems, me, outcomes)
      else SoFar(now, mems, me, outcomes, k + 1)
  {
    var here := if mems[k] != me && outcomes[k].Ret? then [mems[k]] else [];
    ContactedNext(mems, me, outcomes, k);
    Cat(sent, here, Contacted(mems[k + 1..], me, outcomes[k + 1..]));
    assert here + [] == here;
  }

  lemma SoFarEnd(sent: seq<string>, mems: seq<string>, me: string, outcomes: seq<Outcome>)
    requires |outcomes| == |mems| && SoFar(sent, mems, me, outcomes, |mems|)
    ensures sent == Contacted(mems, me, outcomes)
  {
    assert sent + [] == sent;
  }

  /** The primary's loop over the members; all is false when a call failed. */
  method CallMembers(mems: seq<string>, me: string, outcomes: seq<Outcome>) returns (sent: seq<string>, all: bool)
    requires |outcomes| == |mems|
    ensures sent == Contacted(mems, me, outcomes) && (all <==> Reached(mems, me, outcomes) == |mems|)
  {
    sent := [];
    var i := 0;
    SoFarStart(mems, me, outcomes);
    while i < |mems|
      invariant 0 <= i <= |mems| && SoFar(sent, mems, me, outcomes, i)
      invariant forall j :: 0 <= j < i ==> mems[j] == me || !Failed(outcomes[j])
    {
      SoFarNext(sent, mems, me, outcomes, i);
      assert sent + [] == sent;
      if mems[i] != me {
        if outcomes[i].Ret? {
          sent := sent + [mems[i]];
        }
        if Failed(outcomes[i]) {
          ReachedAt(mems, me, outcomes, i);
          return sent, false;
        }
      }
      i := i + 1;
    }
    SoFarEnd(sent, mems, me, outcomes);
    ReachedAt(mems, me, outcomes, |mems|);
    return sent, true;
  }

  /** app is the registered state machine: it maps a state and a request to the new state and the reply. */
  class Replica<St> {
    var myvs: Viewstamp
    var lastMyvs: Viewstamp
    var state: St
    const app: (St, Request) -> (St, int)

    /** vid is the view of the configuration that is in force at the start. */
    constructor (vid: nat, s: St, a: (St, Request) -> (St, int))
      ensures myvs == Viewstamp(0, 1) && lastMyvs == Viewstamp(vid, 0) && state == s && app == a
    {
      myvs := Viewstamp(0, 1);
      lastMyvs := Viewstamp(vid, 0);
      state := s;
      app := a;
    }

    method Invoke(vs: Viewstamp, req: Request, member: bool) returns (ret: int)
      modifies this
      ensures if old(myvs).vid == vs.vid && vs.seqno == old(myvs).seqno + 1 && member
              then (state, ret) == app(old(state), req) && myvs == vs && lastMyvs == old(myvs)
              else ret == ERR && state == old(state) && myvs == old(myvs) && lastMyvs == old(lastMyvs)
    {
      if myvs.vid != vs.vid || myvs.seqno + 1 != vs.seqno || !member {
        return ERR;
      }
      var (s, r) := app(state, req);
      state := s;
      ret := r;
      lastMyvs := myvs;
      myvs := vs;
    }

    /** The primary's side; sent lists the members that were sent the request, stamped with stamp. */
    method ClientInvoke(req: Request, inviewchange: bool, primary: bool,
                        mems: seq<string>, me: string, outcomes: seq<Outcome>)
      returns (status: Status, reply: int, sent: seq<string>, stamp: Viewstamp)
      requires |outcomes| == |mems|
      modifies this
      ensures status == (if inviewchange then BUSY else if !primary then NOTPRIMARY
                         else if Reached(mems, me, outcomes) < |mems| then BUSY else OK)
      ensures status == OK <==> !inviewchange && primary && AllAnswered(mems, me, outcomes)
      ensures status == NOTPRIMARY <==> !inviewchange && !primary
      ensures stamp == Viewstamp(old(myvs).vid, old(myvs).seqno + 1)
      ensures sent == if inviewchange || !primary then [] else Contacted(mems, me, outcomes)
      ensures forall x :: x in sent <==> !inviewchange && primary && WasCalled(mems, me, outcomes, x)
      ensures status == OK ==> (state, reply) == app(old(state), req) && myvs == stamp && lastMyvs == old(myvs)
      ensures status != OK ==> state == old(state) && myvs == old(myvs) && lastMyvs == old(lastMyvs)
    {
      sent, reply, stamp := [], 0, Viewstamp(myvs.vid, myvs.seqno + 1);
      if inviewchange {
        return BUSY, reply, sent, stamp;
      }
      if !primary {
        return NOTPRIMARY, reply, sent, stamp;
      }
      AllCalled(mems, me, outcomes);
      ReachedMeans(mems, me, outcomes);
      var all;
      sent, all := CallMembers(mems, me, outcomes);
      if !all {
        return BUSY, reply, sent, stamp;
      }
      var (s, r) := app(state, req);
      state := s;
      reply := r;
      lastMyvs := myvs;
      myvs := stamp;
      status := OK;
    }
  }

  /** The state a replica reaches by executing requests in order. */
  function Fold<St>(app: (St, Request) -> (St, int), s: St, log: seq<Request>): St {
    if log == [] then s else app(Fold(app, s, log[..|log| - 1]), log[|log| - 1]).0
  }
}

/** Every interleaving of client_invoke at the primary with invoke at the backups, in one view with a
    fixed member list.  Invoke messages are delayed, lost or handled late; a call may time out after its
    handler ran, and the RPC layer runs the handler of a call once. A handler is two steps: the test
    and the execution under the mutex, and the update of myvs after the mutex has been released. */
module RsmOrder {
  import opened Rsm

  datatype Entry = Entry(seqno: nat, req: Request)

  datatype Msg = Msg(attempt: nat, place: nat, to: string, seqno: nat, req: Request)

  /** done is what the node has executed; unstamped are the handlers between their two steps. */
  datatype Node = Node(seqno: nat, done: seq<Entry>, unstamped: seq<Msg>)

  datatype Phase = Idle | Calling(req: Request, k: nat, sent: bool)

  datatype State = State(
    me: string, mems: seq<string>, base: nat, nodes: map<string, Node>, phase: Phase, attempt: nat,
    net: set<Msg>, handled: set<Msg>, answered: set<Msg>, stamped: set<Entry>)

  datatype Action =
    | Begin(req: Request)
    | Skip
    | Send
    | Execute(m: Msg)
    | Stamp(x: string, i: nat)
    | Refuse(m: Msg)
    | Answered
    | GiveUp
    | Finish

  /** The nodes are the primary and the members. */
  predicate Listed(s: State) {
    && s.me in s.nodes && (forall x :: x in s.mems ==> x in s.nodes)
    && (forall x :: x in s.nodes && x != s.me ==> x in s.mems)
  }

  /** A synced start: every node has the same seqno and the same state. */
  predicate Init(s: State) {
    && Listed(s)
    && (forall x :: x in s.nodes ==> s.nodes[x] == Node(s.base, [], []))
    && s.phase == Idle && s.net == {} && s.handled == {} && s.answered == {} && s.stamped == {}
  }

  function Primary(s: State): nat
    requires s.me in s.nodes
  {
    s.nodes[s.me].seqno
  }

  predicate AtBackup(s: State) {
    s.phase.Calling? && s.phase.k < |s.mems| && s.mems[s.phase.k] != s.me
  }

  function Current(s: State): Msg
    requires s.me in s.nodes && AtBackup(s)
  {
    Msg(s.attempt, s.phase.k, s.mems[s.phase.k], Primary(s) + 1, s.phase.req)
  }

  /** The test of invoke() in the one view of the run. */
  predicate IsNext(n: Node, m: Msg) {
    n.seqno + 1 == m.seqno
  }

  predicate Enabled(s: State, a: Action) {
    && s.me in s.nodes
    && match a
       case Begin(_) => s.phase.Idle?
       case Skip => s.phase.Calling? && s.phase.k < |s.mems| && s.mems[s.phase.k] == s.me
       case Send => AtBackup(s) && !s.phase.sent
       case Execute(m) => m in s.net && m !in s.handled && m.to in s.nodes && IsNext(s.nodes[m.to], m)
       case Stamp(x, i) => x in s.nodes && i < |s.nodes[x].unstamped|
       case Refuse(m) => m in s.net && m !in s.handled && m.to in s.nodes && !IsNext(s.nodes[m.to], m)
       case Answered => AtBackup(s) && s.phase.sent && Current(s) in s.answered
       case GiveUp => AtBackup(s)
       case Finish => s.phase.Calling? && s.phase.k >= |s.mems|
  }

  function Put(s: State, x: string, n: Node): State {
    s.(nodes := s.nodes[x := n])
  }

  function Apply(s: State, a: Action): State
    requires Enabled(s, a)
  {
    match a
    case Begin(req) =>
      s.(phase := Calling(req, 0, false), attempt := s.attempt + 1,
         stamped := s.stamped + {Entry(Primary(s) + 1, req)})
    case Skip => s.(phase := s.phase.(k := s.phase.k + 1, sent := false))
    case Send => s.(phase := s.phase.(sent := true), net := s.net + {Current(s)})
    case Execute(m) =>
      var n := s.nodes[m.to];
      Put(s, m.to, n.(done := n.done + [Entry(m.seqno, m.req)], unstamped := n.unstamped + [m]))
        .(handled := s.handled + {m})
    case Stamp(x, i) =>
      var n := s.nodes[x];
      Put(s, x, n.(seqno := n.unstamped[i].seqno, unstamped := n.unstamped[..i] + n.unstamped[i + 1..]))
        .(answered := s.answered + {n.unstamped[i]})
    case Refuse(m) => s.(handled := s.handled + {m}, answered := s.answered + {m})
    case Answered => s.(phase := s.phase.(k := s.phase.k + 1, sent := false))
    case GiveUp => s.(phase := Idle)
    case Finish =>
      var n := s.nodes[s.me];
      Put(s, s.me, n.(seqno := n.seqno + 1, done := n.done + [Entry(n.seqno + 1, s.phase.req)])).(phase := Idle)
  }

  /** The action does not overlap another handler of the same backup between test and update. */
  predicate NoOverlap(s: State, a: Action) {
    a.Execute? && a.m.to in s.nodes ==> s.nodes[a.m.to].unstamped == []
  }

  // ---------------------------------------------------------------- the invariant of serial runs

  /** The node has executed base+1, base+2, ... in order, each once. */
  predicate GapFree(done: seq<Entry>, base: nat) {
    forall i :: 0 <= i < |done| ==> done[i].seqno == base + 1 + i
  }

  /** A backup has executed up to the primary's seqno or one more. */
  predicate BackupOk(s: State, x: string)
    requires s.me in s.nodes && x in s.nodes
  {
    var n, p := s.nodes[x], s.nodes[s.me].seqno;
    && GapFree(n.done, s.base)
    && p <= n.seqno <= p + 1
    && s.base + |n.done| == n.seqno + |n.unstamped| <= p + 1
    && (forall m :: m in n.unstamped ==> m.seqno == p + 1 && m.to == x && m in s.net)
    && (forall e :: e in n.done ==> e in s.stamped)
  }

  predicate PrimaryOk(s: State)
    requires s.me in s.nodes
  {
    var n := s.nodes[s.me];
    && GapFree(n.done, s.base) && n.unstamped == [] && s.base + |n.done| == n.seqno
    && (forall e :: e in n.done ==> e in s.stamped)
  }

  predicate MsgOk(s: State, m: Msg)
    requires s.me in s.nodes
  {
    var p := s.nodes[s.me].seqno;
    && m.to in s.nodes && m.to != s.me && m.seqno <= p + 1 && Entry(m.seqno, m.req) in s.stamped
    && (m in s.answered && m.seqno == p + 1 ==> s.nodes[m.to].seqno == p + 1)
  }

  predicate PhaseOk(s: State)
    requires s.me in s.nodes
  {
    s.phase.Calling? ==>
      && s.phase.k <= |s.mems| && Entry(Primary(s) + 1, s.phase.req) in s.stamped
      && (s.phase.sent ==> AtBackup(s) && Current(s) in s.net)
      && (forall j :: 0 <= j < s.phase.k ==> AtNew(s, s.mems[j]))
  }

  predicate AtNew(s: State, x: string)
    requires s.me in s.nodes
  {
    x != s.me ==> x in s.nodes && s.nodes[x].seqno == Primary(s) + 1
  }

  predicate Inv(s: State) {
    && Listed(s) && PrimaryOk(s) && PhaseOk(s) && s.answered <= s.net
    && (forall x :: x in s.nodes && x != s.me ==> BackupOk(s, x))
    && (forall m :: m in s.net ==> MsgOk(s, m))
  }

  /** What a step of one backup or of the primary's loop leaves alone. */
  predicate Frame(s: State, t: State, x: string) {
    && s.me == t.me && s.mems == t.mems && s.base == t.base && s.net <= t.net && s.stamped <= t.stamped
    && s.nodes.Keys == t.nodes.Keys
    && (forall y :: y in s.nodes && y != x ==> s.nodes[y] == t.nodes[y])
  }

  lemma Others(s: State, t: State, x: string)
    requires Inv(s) && Frame(s, t, x) && x != s.me
    ensures forall y :: y in t.nodes && y != s.me && y != x ==> BackupOk(t, y)
    ensures Listed(t) && PrimaryOk(t)
  {
    forall y | y in t.nodes && y != s.me && y != x
      ensures BackupOk(t, y)
    {
      assert BackupOk(s, y);
    }
  }

  lemma ExecuteInv(s: State, m: Msg)
    requires Inv(s) && Enabled(s, Execute(m)) && NoOverlap(s, Execute(m))
    ensures Inv(Apply(s, Execute(m)))
  {
    var t := Apply(s, Execute(m));
    assert MsgOk(s, m) && BackupOk(s, m.to);
    Others(s, t, m.to);
    assert BackupOk(t, m.to);
    forall n | n in t.net
      ensures MsgOk(t, n)
    {
      assert MsgOk(s, n);
    }
    assert s.phase.Calling? ==> forall j :: 0 <= j < s.phase.k ==> AtNew(s, s.mems[j]) && AtNew(t, s.mems[j]);
  }

  lemma StampInv(s: State, x: string, i: nat)
    requires Inv(s) && Enabled(s, Stamp(x, i))
    ensures Inv(Apply(s, Stamp(x, i)))
  {
    var t, m := Apply(s, Stamp(x, i)), s.nodes[x].unstamped[i];
    assert x != s.me;
    assert BackupOk(s, x);
    assert m in s.nodes[x].unstamped && t.nodes[x].unstamped == [];
    Others(s, t, x);
    assert BackupOk(t, x);
    forall n | n in t.net
      ensures MsgOk(t, n)
    {
      assert MsgOk(s, n);
    }
    assert s.phase.Calling? ==> forall j :: 0 <= j < s.phase.k ==> AtNew(s, s.mems[j]) && AtNew(t, s.mems[j]);
  }

  lemma RefuseInv(s: State, m: Msg)
    requires Inv(s) && Enabled(s, Refuse(m))
    ensures Inv(Apply(s, Refuse(m)))
  {
    var t := Apply(s, Refuse(m));
    assert MsgOk(s, m) && BackupOk(s, m.to);
    Others(s, t, m.to);
    assert BackupOk(t, m.to);
    forall n | n in t.net
      ensures MsgOk(t, n)
    {
      assert MsgOk(s, n);
    }
    assert s.phase.Calling? ==> forall j :: 0 <= j < s.phase.k ==> AtNew(s, s.mems[j]) && AtNew(t, s.mems[j]);
  }

  /** When the loop ends every backup has executed and stamped exactly the new seqno. */
  lemma AllAtNew(s: State)
    requires Inv(s) && Enabled(s, Finish)
    ensures forall x :: x in s.nodes && x != s.me ==>
      s.nodes[x].seqno == Primary(s) + 1 && s.nodes[x].unstamped == []
  {
    forall x | x in s.nodes && x != s.me
      ensures s.nodes[x].seqno == Primary(s) + 1 && s.nodes[x].unstamped == []
    {
      var j :| 0 <= j < |s.mems| && s.mems[j] == x;
      assert AtNew(s, s.mems[j]);
      assert BackupOk(s, x);
    }
  }

  lemma FinishInv(s: State)
    requires Inv(s) && Enabled(s, Finish)
    ensures Inv(Apply(s, Finish))
  {
    var t := Apply(s, Finish);
    AllAtNew(s);
    forall x | x in t.nodes && x != s.me
      ensures BackupOk(t, x)
    {
      assert BackupOk(s, x);
    }
    forall n | n in t.net
      ensures MsgOk(t, n)
    {
      assert MsgOk(s, n);
    }
  }

  lemma LoopInv(s: State, a: Action)
    requires Inv(s) && Enabled(s, a) && (a.Begin? || a.Skip? || a.Send? || a.Answered? || a.GiveUp?)
    ensures Inv(Apply(s, a))
  {
    var t := Apply(s, a);
    forall x | x in t.nodes && x != s.me
      ensures BackupOk(t, x)
    {
      assert BackupOk(s, x);
    }
    forall n | n in t.net
      ensures MsgOk(t, n)
    {
      assert n in s.net ==> MsgOk(s, n);
    }
    LoopPhase(s, a);
  }

  lemma LoopPhase(s: State, a: Action)
    requires Inv(s) && Enabled(s, a) && (a.Begin? || a.Skip? || a.Send? || a.Answered? || a.GiveUp?)
    ensures PhaseOk(Apply(s, a))
  {
    var t := Apply(s, a);
    assert a.Answered? ==> MsgOk(s, Current(s));
    assert s.phase.Calling? ==> forall j :: 0 <= j < s.phase.k ==> AtNew(s, s.mems[j]) && AtNew(t, s.mems[j]);
  }

  lemma StepInv(s: State, a: Action)
    requires Inv(s) && Enabled(s, a) && NoOverlap(s, a)
    ensures Inv(Apply(s, a))
  {
    match a
    case Execute(m) => ExecuteInv(s, m);
    case Stamp(x, i) => StampInv(s, x, i);
    case Refuse(m) => RefuseInv(s, m);
    case Finish => FinishInv(s);
    case _ => LoopInv(s, a);
  }

  // ---------------------------------------------------------------- runs

  ghost predicate Run(trace: seq<State>, acts: seq<Action>) {
    && |trace| == |acts| + 1 && Init(trace[0])
    && (forall i {:trigger acts[i]} ::
         0 <= i < |acts| ==> Enabled(trace[i], acts[i]) && trace[i + 1] == Apply(trace[i], acts[i]))
  }

  /** No invoke() passes its test while another one at that backup has executed but not updated myvs. */
  ghost predicate Serial(trace: seq<State>, acts: seq<Action>, k: nat)
    requires |trace| == |acts| + 1 && k <= |acts|
  {
    forall i :: 0 <= i < k ==> NoOverlap(trace[i], acts[i])
  }

  lemma {:induction false} RunInv(trace: seq<State>, acts: seq<Action>, k: nat)
    requires Run(trace, acts) && k <= |acts| && Serial(trace, acts, k)
    ensures Inv(trace[k])
  {
    if k > 0 {
      RunInv(trace, acts, k - 1);
      assert NoOverlap(trace[k - 1], acts[k - 1]);
      StepInv(trace[k - 1], acts[k - 1]);
    }
  }

  /** In every serial run each backup is at the primary's seqno or one more, and every node has executed
      base+1, base+2, ... without a gap and each once. */
  lemma BackupsFollow(trace: seq<State>, acts: seq<Action>, k: nat, x: string)
    requires Run(trace, acts) && k <= |acts| && Serial(trace, acts, k) && x in trace[k].nodes
    ensures trace[k].me in trace[k].nodes
    ensures Primary(trace[k]) <= trace[k].nodes[x].seqno <= Primary(trace[k]) + 1
    ensures GapFree(trace[k].nodes[x].done, trace[k].base)
  {
    RunInv(trace, acts, k);
    assert x == trace[k].me || BackupOk(trace[k], x);
  }

  /** When client_invoke returns OK, every backup is at exactly the new seqno, whatever it answered. */
  lemma OkMeansAll(trace: seq<State>, acts: seq<Action>, k: nat, x: string)
    requires Run(trace, acts) && k < |acts| && Serial(trace, acts, k + 1) && acts[k] == Finish
    requires x in trace[k + 1].nodes
    ensures trace[k].me in trace[k].nodes && trace[k + 1].nodes[x].seqno == Primary(trace[k]) + 1
    ensures |trace[k + 1].nodes[x].done| == Primary(trace[k]) + 1 - trace[k].base
  {
    RunInv(trace, acts, k);
    AllAtNew(trace[k]);
    RunInv(trace, acts, k + 1);
    assert x == trace[k].me || BackupOk(trace[k + 1], x);
  }

  predicate Once(s: State) {
    forall x, i, j :: x in s.nodes && 0 <= i < j < |s.nodes[x].done| ==> s.nodes[x].done[i].seqno != s.nodes[x].done[j].seqno
  }

  lemma OverlapRepeats(s: State, m: Msg)
    requires Inv(s) && Enabled(s, Execute(m)) && !NoOverlap(s, Execute(m))
    ensures !Once(Apply(s, Execute(m)))
  {
    assert MsgOk(s, m) && BackupOk(s, m.to);
    var n, d := s.nodes[m.to], Apply(s, Execute(m)).nodes[m.to].done;
    assert d[|n.done| - 1].seqno == s.base + |n.done| == m.seqno == d[|n.done|].seqno;
  }

  lemma InvIsOnce(s: State)
    requires Inv(s)
    ensures Once(s)
  {
    forall x | x in s.nodes ensures GapFree(s.nodes[x].done, s.base) {
      assert x == s.me || BackupOk(s, x);
    }
  }

  lemma SerialIsOnce(trace: seq<State>, acts: seq<Action>, k: nat)
    requires Run(trace, acts) && k <= |acts| && Serial(trace, acts, k)
    ensures Once(trace[k])
  {
    RunInv(trace, acts, k);
    InvIsOnce(trace[k]);
  }

  lemma OverlapIsNotOnce(trace: seq<State>, acts: seq<Action>, k: nat)
    requires Run(trace, acts) && k < |acts| && Serial(trace, acts, k) && !NoOverlap(trace[k], acts[k])
    ensures !Once(trace[k + 1])
  {
    RunInv(trace, acts, k);
    OverlapRepeats(trace[k], acts[k].m);
  }

  lemma SerialNext(trace: seq<State>, acts: seq<Action>, k: nat)
    requires |trace| == |acts| + 1 && k < |acts|
    ensures Serial(trace, acts, k + 1) <==> Serial(trace, acts, k) && NoOverlap(trace[k], acts[k])
  {
  }

  ghost predicate OnceUpTo(trace: seq<State>, k: nat)
    requires k < |trace|
  {
    forall i :: 0 <= i <= k ==> Once(trace[i])
  }

  lemma OnceNext(trace: seq<State>, k: nat)
    requires k + 1 < |trace|
    ensures OnceUpTo(trace, k + 1) <==> OnceUpTo(trace, k) && Once(trace[k + 1])
  {
  }

  /** One step further a run is serial exactly if it was and the states show no repetition. */
  lemma SerialStepIff(trace: seq<State>, acts: seq<Action>, k: nat)
    requires Run(trace, acts) && k < |acts| && Serial(trace, acts, k)
    ensures Serial(trace, acts, k + 1) <==> Once(trace[k + 1])
  {
    SerialNext(trace, acts, k);
    if NoOverlap(trace[k], acts[k]) {
      SerialIsOnce(trace, acts, k + 1);
    } else {
      OverlapIsNotOnce(trace, acts, k);
    }
  }

  /** Exactly the serial runs execute no seqno twice: the gap between releasing the mutex and updating
      myvs is the one way to repeat an execution. */
  lemma {:induction false} OnceIffSerial(trace: seq<State>, acts: seq<Action>, k: nat)
    requires Run(trace, acts) && k <= |acts|
    ensures Serial(trace, acts, k) <==> OnceUpTo(trace, k)
  {
    if k == 0 {
      SerialIsOnce(trace, acts, 0);
    } else {
      OnceIffSerial(trace, acts, k - 1);
      OnceNext(trace, k - 1);
      SerialNext(trace, acts, k - 1);
      if Serial(trace, acts, k - 1) {
        SerialStepIff(trace, acts, k - 1);
      }
    }
  }

  // ---------------------------------------------------------------- equal states

  /** Each seqno was given to one request only. */
  predicate OneRequestEach(stamped: set<Entry>) {
    forall e, f :: e in stamped && f in stamped && e.seqno == f.seqno ==> e == f
  }

  function Requests(done: seq<Entry>): seq<Request> {
    seq(|done|, i requires 0 <= i < |done| => done[i].req)
  }

  /** If each seqno was stamped for one request only, nodes with equal viewstamps are in equal states,
      whatever deterministic state machine they run. */
  lemma EqualStampsEqualStates<St>(trace: seq<State>, acts: seq<Action>, k: nat, x: string, y: string,
                                   app: (St, Request) -> (St, int), init: St)
    requires Run(trace, acts) && k <= |acts| && Serial(trace, acts, k) && OneRequestEach(trace[k].stamped)
    requires x in trace[k].nodes && y in trace[k].nodes
    requires trace[k].nodes[x].unstamped == trace[k].nodes[y].unstamped == []
    requires trace[k].nodes[x].seqno == trace[k].nodes[y].seqno
    ensures trace[k].nodes[x].done == trace[k].nodes[y].done
    ensures Fold(app, init, Requests(trace[k].nodes[x].done)) == Fold(app, init, Requests(trace[k].nodes[y].done))
  {
    RunInv(trace, acts, k);
    var s := trace[k];
    assert x == s.me || BackupOk(s, x);
    assert y == s.me || BackupOk(s, y);
    var d, e := s.nodes[x].done, s.nodes[y].done;
    forall i | 0 <= i < |d|
      ensures d[i] == e[i]
    {
      assert d[i] in d && e[i] in e && d[i].seqno == e[i].seqno;
    }
  }

  function Two(p: Node, b: Node, ph: Phase, at: nat, net: set<Msg>, handled: set<Msg>, answered: set<Msg>,
               st: set<Entry>): State
  {
    State("p", ["p", "b"], 0, map["p" := p, "b" := b], ph, at, net, handled, answered, st)
  }

  function TimeOutAct(a: Request, i: nat): Action {
    match i
    case 0 => Begin(a)
    case 1 => Skip
    case 2 => Send
    case 3 => Execute(Msg(1, 1, "b", 1, a))
    case 4 => Stamp("b", 0)
    case _ => GiveUp
  }

  /** A request that reaches the only backup and then times out at the primary. */
  function TimeOut(a: Request, i: nat): State {
    var n, m, st := Node(0, [], []), Msg(1, 1, "b", 1, a), {Entry(1, a)};
    match i
    case 0 => Two(n, n, Idle, 0, {}, {}, {}, {})
    case 1 => Two(n, n, Calling(a, 0, false), 1, {}, {}, {}, st)
    case 2 => Two(n, n, Calling(a, 1, false), 1, {}, {}, {}, st)
    case 3 => Two(n, n, Calling(a, 1, true), 1, {m}, {}, {}, st)
    case 4 => Two(n, Node(0, [Entry(1, a)], [m]), Calling(a, 1, true), 1, {m}, {m}, {}, st)
    case 5 => Two(n, Node(1, [Entry(1, a)], []), Calling(a, 1, true), 1, {m}, {m}, {m}, st)
    case _ => Two(n, Node(1, [Entry(1, a)], []), Idle, 1, {m}, {m}, {m}, st)
  }

  function ReuseAct(b: Request, i: nat): Action {
    match i
    case 0 => Begin(b)
    case 1 => Skip
    case 2 => Send
    case 3 => Refuse(Msg(2, 1, "b", 1, b))
    case 4 => Answered
    case _ => Finish
  }

  /** The next request, stamped with the same seqno. */
  function Reuse(a: Request, b: Request, i: nat): State {
    var n, f := Node(0, [], []), Node(1, [Entry(1, a)], []);
    var m, k, st := Msg(1, 1, "b", 1, a), Msg(2, 1, "b", 1, b), {Entry(1, a), Entry(1, b)};
    match i
    case 0 => Two(n, f, Idle, 1, {m}, {m}, {m}, {Entry(1, a)})
    case 1 => Two(n, f, Calling(b, 0, false), 2, {m}, {m}, {m}, st)
    case 2 => Two(n, f, Calling(b, 1, false), 2, {m}, {m}, {m}, st)
    case 3 => Two(n, f, Calling(b, 1, true), 2, {m, k}, {m}, {m}, st)
    case 4 => Two(n, f, Calling(b, 1, true), 2, {m, k}, {m, k}, {m, k}, st)
    case 5 => Two(n, f, Calling(b, 2, false), 2, {m, k}, {m, k}, {m, k}, st)
    case _ => Two(Node(1, [Entry(1, b)], []), f, Idle, 2, {m, k}, {m, k}, {m, k}, st)
  }

  lemma Same(s: State, t: State)
    requires s.(nodes := t.nodes, net := t.net, handled := t.handled, answered := t.answered, stamped := t.stamped) == t
    requires s.handled <= t.handled <= s.handled
    requires s.nodes.Keys == t.nodes.Keys && forall x :: x in t.nodes ==> SameNode(s.nodes[x], t.nodes[x])
    requires s.net <= t.net <= s.net && s.answered <= t.answered <= s.answered && s.stamped <= t.stamped <= s.stamped
    ensures s == t
  {
    assert s.nodes == t.nodes;
  }

  predicate SameNode(m: Node, n: Node) {
    m.seqno == n.seqno && m.done == n.done && m.unstamped == n.unstamped
  }

  lemma TimeOutStep(a: Request, i: nat)
    requires i < 6
    ensures Enabled(TimeOut(a, i), TimeOutAct(a, i)) && NoOverlap(TimeOut(a, i), TimeOutAct(a, i))
    ensures Apply(TimeOut(a, i), TimeOutAct(a, i)) == TimeOut(a, i + 1)
  {
    assert "p"[0] != "b"[0];
    var s, t := TimeOut(a, i), TimeOut(a, i + 1);
    assert Enabled(s, TimeOutAct(a, i));
    Same(Apply(s, TimeOutAct(a, i)), t);
  }

  lemma ReuseStep(a: Request, b: Request, i: nat)
    requires i < 6
    ensures Enabled(Reuse(a, b, i), ReuseAct(b, i)) && NoOverlap(Reuse(a, b, i), ReuseAct(b, i))
    ensures Apply(Reuse(a, b, i), ReuseAct(b, i)) == Reuse(a, b, i + 1)
  {
    assert "p"[0] != "b"[0];
    var s, t := Reuse(a, b, i), Reuse(a, b, i + 1);
    assert Enabled(s, ReuseAct(b, i));
    Same(Apply(s, ReuseAct(b, i)), t);
  }

  /** Otherwise they need not be: a backup runs a, the call times out, the client's next request b gets
      the same seqno, the backup answers ERR, and the primary runs b and returns OK. */
  lemma ReusedSeqnoDiverges(a: Request, b: Request) returns (trace: seq<State>, acts: seq<Action>)
    requires a != b
    ensures Run(trace, acts) && Serial(trace, acts, |acts|) && acts != [] && acts[|acts| - 1] == Finish
    ensures var s := trace[|acts|];
      && "p" in s.nodes && "b" in s.nodes && s.nodes["p"].seqno == s.nodes["b"].seqno
      && s.nodes["p"].done == [Entry(1, b)] && s.nodes["b"].done == [Entry(1, a)]
  {
    trace := seq(13, i requires 0 <= i < 13 => if i < 6 then TimeOut(a, i) else Reuse(a, b, i - 6));
    acts := seq(12, i requires 0 <= i < 12 => if i < 6 then TimeOutAct(a, i) else ReuseAct(b, i - 6));
    assert TimeOut(a, 6) == Reuse(a, b, 0);
    forall i | 0 <= i < |acts|
      ensures Enabled(trace[i], acts[i]) && NoOverlap(trace[i], acts[i]) && trace[i + 1] == Apply(trace[i], acts[i])
    {
      if i < 6 {
        TimeOutStep(a, i);
      } else {
        ReuseStep(a, b, i - 6);
      }
    }
    assert Init(trace[0]);
    assert acts[11] == ReuseAct(b, 5) == Finish && trace[12] == Reuse(a, b, 6);
  }

  // ---------------------------------------------------------------- an overlap

  function OverlapAct(a: Request, b: Request, i: nat): Action {
    match i
    case 0 => Begin(a)
    case 1 => Skip
    case 2 => Send
    case 3 => GiveUp
    case 4 => Begin(b)
    case 5 => Skip
    case 6 => Send
    case 7 => Execute(Msg(1, 1, "b", 1, a))
    case _ => Execute(Msg(2, 1, "b", 1, b))
  }

  /** The request a is late at the backup, times out, and meets its successor b there. */
  function Overlap(a: Request, b: Request, i: nat): State {
    var n, m, k := Node(0, [], []), Msg(1, 1, "b", 1, a), Msg(2, 1, "b", 1, b);
    var one, st := {Entry(1, a)}, {Entry(1, a), Entry(1, b)};
    match i
    case 0 => Two(n, n, Idle, 0, {}, {}, {}, {})
    case 1 => Two(n, n, Calling(a, 0, false), 1, {}, {}, {}, one)
    case 2 => Two(n, n, Calling(a, 1, false), 1, {}, {}, {}, one)
    case 3 => Two(n, n, Calling(a, 1, true), 1, {m}, {}, {}, one)
    case 4 => Two(n, n, Idle, 1, {m}, {}, {}, one)
    case 5 => Two(n, n, Calling(b, 0, false), 2, {m}, {}, {}, st)
    case 6 => Two(n, n, Calling(b, 1, false), 2, {m}, {}, {}, st)
    case 7 => Two(n, n, Calling(b, 1, true), 2, {m, k}, {}, {}, st)
    case 8 => Two(n, Node(0, [Entry(1, a)], [m]), Calling(b, 1, true), 2, {m, k}, {m}, {}, st)
    case _ => Two(n, Node(0, [Entry(1, a), Entry(1, b)], [m, k]), Calling(b, 1, true), 2, {m, k}, {m, k}, {}, st)
  }

  lemma OverlapFirst(a: Request, b: Request, i: nat)
    requires i < 4
    ensures Enabled(Overlap(a, b, i), OverlapAct(a, b, i))
    ensures Apply(Overlap(a, b, i), OverlapAct(a, b, i)) == Overlap(a, b, i + 1)
  {
    assert "p"[0] != "b"[0];
    var s, t := Overlap(a, b, i), Overlap(a, b, i + 1);
    assert Enabled(s, OverlapAct(a, b, i));
    Same(Apply(s, OverlapAct(a, b, i)), t);
  }

  lemma OverlapSecond(a: Request, b: Request, i: nat)
    requires 4 <= i < 7
    ensures Enabled(Overlap(a, b, i), OverlapAct(a, b, i))
    ensures Apply(Overlap(a, b, i), OverlapAct(a, b, i)) == Overlap(a, b, i + 1)
  {
    assert "p"[0] != "b"[0];
    var s, t := Overlap(a, b, i), Overlap(a, b, i + 1);
    assert Enabled(s, OverlapAct(a, b, i));
    Same(Apply(s, OverlapAct(a, b, i)), t);
  }

  lemma OverlapHandlers(a: Request, b: Request, i: nat)
    requires 7 <= i < 9
    ensures Enabled(Overlap(a, b, i), OverlapAct(a, b, i))
    ensures Apply(Overlap(a, b, i), OverlapAct(a, b, i)) == Overlap(a, b, i + 1)
  {
    assert "p"[0] != "b"[0];
    var s, t := Overlap(a, b, i), Overlap(a, b, i + 1);
    assert Enabled(s, OverlapAct(a, b, i));
    Same(Apply(s, OverlapAct(a, b, i)), t);
  }

  /** A backup does execute a seqno twice: the handlers of a request that timed out and of its successor
      with the same seqno, even of the same request sent again, both pass the test before either has
      updated myvs. */
  lemma OverlapExecutesTwice(a: Request, b: Request) returns (trace: seq<State>, acts: seq<Action>)
    ensures Run(trace, acts) && !Serial(trace, acts, |acts|)
    ensures var s := trace[|acts|];
      "b" in s.nodes && s.nodes["b"].done == [Entry(1, a), Entry(1, b)] && !Once(s)
  {
    trace := seq(10, i requires 0 <= i < 10 => Overlap(a, b, i));
    acts := seq(9, i requires 0 <= i < 9 => OverlapAct(a, b, i));
    forall i | 0 <= i < |acts|
      ensures Enabled(trace[i], acts[i]) && trace[i + 1] == Apply(trace[i], acts[i])
    {
      if i < 4 {
        OverlapFirst(a, b, i);
      } else if i < 7 {
        OverlapSecond(a, b, i);
      } else {
        OverlapHandlers(a, b, i);
      }
    }
    assert Init(trace[0]);
    assert acts[8] == Execute(Msg(2, 1, "b", 1, b)) && trace[8] == Overlap(a, b, 8) && trace[9] == Overlap(a, b, 9);
    assert !NoOverlap(trace[8], acts[8]);
    var d := trace[9].nodes["b"].done;
    assert d[0].seqno == d[1].seqno;
  }
}
