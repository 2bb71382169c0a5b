/** One instance of Paxos among any number of nodes (paxos.cc): proposers that run one round at a
    time, acceptors that may crash and restart on their log at any moment, and messages that may be
    lost, delayed, reordered and repeated, so that every message ever sent stays deliverable. */
module Paxos {
  import opened Acceptor
  import opened Proposer

  datatype Promise = Promise(from: string, b: Prop, na: Prop, va: string)
  datatype Ask = Ask(b: Prop, v: string, to: string)
  datatype Vote = Vote(a: string, b: Prop, v: string)

  /** Where a proposer is in `run`; `got` lists the replies behind `accepts`. */
  datatype Round =
    | Resting
    | Preparing(b: Prop, cv: string, i: nat, accepts: seq<string>, best: Best, got: seq<Promise>)
    | Accepting(b: Prop, v: string, targets: seq<string>, i: nat, accepts: seq<string>)
    | Deciding(b: Prop, v: string, accepts: seq<string>)

  /** `told` are the values carried by decide requests and by replies for a decided instance. */
  datatype State = State(nodes: seq<string>, inst: nat, acc: map<string, Acceptor>, num: map<string, nat>,
                         rounds: map<string, Round>, prepares: set<(Prop, string)>, promises: set<Promise>,
                         asks: set<Ask>, votes: set<Vote>, told: set<string>)
  {
    function RoundOf(p: string): Round {
      if p in rounds then rounds[p] else Resting
    }
  }

  ghost predicate Init(s: State) {
    && (forall x | x in s.nodes :: x in s.acc)
    && s.num.Keys == s.acc.Keys
    && (forall a | a in s.acc ::
          var c := s.acc[a];
          c.me == a && c.instH < s.inst && c.nh.n == 0 && c.na.n == 0 && c.va == "" && Durable(c))
    && s.rounds == map[] && s.prepares == {} && s.promises == {} && s.asks == {} && s.votes == {} && s.told == {}
  }

  datatype Action =
    | Start(p: string, cv: string)
    | SendPrepare(p: string)
    | GotPromise(p: string, m: Promise)
    | GotOld(p: string, v: string)
    | Skip(p: string)
    | GiveUp(p: string)
    | EndPrepare(p: string)
    | SendAsk(p: string)
    | GotVote(p: string)
    | EndAccept(p: string)
    | Tell(p: string)
    | HandlePrepare(b: Prop, a: string)
    | HandleAsk(k: Ask)
    | HandleDecide(a: string, v: string)
    | Crash(a: string)

  predicate Decided(s: State, a: string)
    requires a in s.acc
  {
    s.acc[a].instH >= s.inst
  }

  /** The steps as the code is written.  A rejected, abandoned or interrupted round is GiveUp; a call
      without a usable reply is Skip. */
  predicate Ready(s: State, x: Action) {
    match x
    case Start(p, cv) => p in s.acc && p in s.num && s.RoundOf(p) == Resting && cv != ""
    case SendPrepare(p) => s.RoundOf(p).Preparing? && s.RoundOf(p).i < |s.nodes|
    case GotPromise(p, m) =>
      && s.RoundOf(p).Preparing? && s.RoundOf(p).i < |s.nodes|
      && m in s.promises && m.b == s.RoundOf(p).b && m.from == s.nodes[s.RoundOf(p).i]
    case GotOld(p, v) => s.RoundOf(p).Preparing? && v in s.told && p in s.acc
    case Skip(p) =>
      || (s.RoundOf(p).Preparing? && s.RoundOf(p).i < |s.nodes|)
      || (s.RoundOf(p).Accepting? && s.RoundOf(p).i < |s.RoundOf(p).targets|)
    case GiveUp(p) => s.RoundOf(p) != Resting
    case EndPrepare(p) =>
      s.RoundOf(p).Preparing? && s.RoundOf(p).i == |s.nodes| && Quorum(s.nodes, Names(s.RoundOf(p).accepts))
    case SendAsk(p) => s.RoundOf(p).Accepting? && s.RoundOf(p).i < |s.RoundOf(p).targets|
    case GotVote(p) =>
      && s.RoundOf(p).Accepting? && s.RoundOf(p).i < |s.RoundOf(p).targets|
      && Vote(s.RoundOf(p).targets[s.RoundOf(p).i], s.RoundOf(p).b, s.RoundOf(p).v) in s.votes
    case EndAccept(p) =>
      && s.RoundOf(p).Accepting? && s.RoundOf(p).i == |s.RoundOf(p).targets|
      && Quorum(s.nodes, Names(s.RoundOf(p).accepts))
    case Tell(p) => s.RoundOf(p).Deciding?
    case HandlePrepare(b, a) => (b, a) in s.prepares && a in s.acc
    case HandleAsk(k) => k in s.asks && k.to in s.acc
    case HandleDecide(a, v) => a in s.acc && v in s.told
    case Crash(a) => a in s.acc
  }

  /** The hypothesis the source needs: `acceptreq` does not compare instances, so an accept request must
      not reach an acceptor that has decided. */
  predicate Enabled(s: State, x: Action) {
    Ready(s, x) && (x.HandleAsk? ==> !Decided(s, x.k.to))
  }

  function PutRound(s: State, p: string, r: Round): State {
    s.(rounds := s.rounds[p := r])
  }

  /** The prepare loop takes in one positive reply. */
  function Counted(r: Round, m: Promise): Round
    requires r.Preparing?
  {
    Preparing(r.b, r.cv, r.i + 1, r.accepts + [m.from], Better(r.best, m.na, m.va), r.got + [m])
  }

  /** The prepare loop or the accept loop goes on to the next node. */
  function Skipped(r: Round): Round {
    match r
    case Preparing(b, cv, i, accepts, best, got) => Preparing(b, cv, i + 1, accepts, best, got)
    case Accepting(b, v, targets, i, accepts) => Accepting(b, v, targets, i + 1, accepts)
    case _ => r
  }

  /** The accept loop counts one positive reply. */
  function VoteCounted(r: Round): Round
    requires r.Accepting? && r.i < |r.targets|
  {
    Accepting(r.b, r.v, r.targets, r.i + 1, r.accepts + [r.targets[r.i]])
  }

  function Apply(s: State, x: Action): State
    requires Ready(s, x)
  {
    match x
    case Start(p, cv) =>
      var n := NextNumber(s.acc[p].nh, s.num[p]);
      PutRound(s, p, Preparing(Prop(n, p), cv, 0, [], NoBest, [])).(num := s.num[p := n])
    case SendPrepare(p) => s.(prepares := s.prepares + {(s.RoundOf(p).b, s.nodes[s.RoundOf(p).i])})
    case GotPromise(p, m) => PutRound(s, p, Counted(s.RoundOf(p), m))
    case GotOld(p, v) => PutRound(s, p, Resting).(acc := s.acc[p := Commit(s.acc[p], s.inst, v)])
    case Skip(p) => PutRound(s, p, Skipped(s.RoundOf(p)))
    case GiveUp(p) => PutRound(s, p, Resting)
    case EndPrepare(p) =>
      var r := s.RoundOf(p);
      PutRound(s, p, Accepting(r.b, if |r.best.v| == 0 then r.cv else r.best.v, r.accepts, 0, []))
    case SendAsk(p) =>
      var r := s.RoundOf(p);
      s.(asks := s.asks + {Ask(r.b, r.v, r.targets[r.i])})
    case GotVote(p) => PutRound(s, p, VoteCounted(s.RoundOf(p)))
    case EndAccept(p) => PutRound(s, p, Deciding(s.RoundOf(p).b, s.RoundOf(p).v, s.RoundOf(p).accepts))
    case Tell(p) => s.(told := s.told + {s.RoundOf(p).v})
    case HandlePrepare(b, a) =>
      var (c, r) := Prepare(s.acc[a], s.inst, b);
      var t := s.(acc := s.acc[a := c]);
      (match r
       case Accepted(na, va) => t.(promises := s.promises + {Promise(a, b, na, va)})
       case OldInstance(v) => t.(told := s.told + {v})
       case Rejected => t)
    case HandleAsk(k) =>
      var (c, ok) := Accept(s.acc[k.to], k.b, k.v);
      s.(acc := s.acc[k.to := c], votes := if ok then s.votes + {Vote(k.to, k.b, k.v)} else s.votes)
    case HandleDecide(a, v) => s.(acc := s.acc[a := Decide(s.acc[a], s.inst, v)])
    case Crash(a) => s.(acc := s.acc[a := Restart(a, s.acc[a].log)])
  }

  // ---------------------------------------------------------------- the loops are these steps

  /** A round after the steps for these calls: a promise is counted, a call without a reply skipped. */
  function Prepared(r: Round, nodes: seq<string>, outs: seq<Outcome>): Round
    requires r.Preparing? && |outs| <= |nodes|
    ensures Prepared(r, nodes, outs).Preparing?
  {
    if outs == [] then r
    else
      var n := |outs| - 1;
      var q := Prepared(r, nodes, outs[..n]);
      if outs[n].Replied? && outs[n].res.Accepted?
      then Counted(q, Promise(nodes[n], r.b, outs[n].res.na, outs[n].res.va)) else Skipped(q)
  }

  /** The prepare loop of the source, run to its end, is the sequence of those steps: same nodes
      counted, same value and number picked. */
  lemma {:induction false} PrepareLoopIsSteps(r: Round, nodes: seq<string>, outs: seq<Outcome>, k: nat)
    requires r.Preparing? && r.accepts == [] && r.best == NoBest && |outs| == |nodes| && k <= |nodes|
    requires PrepareFrom(nodes, outs, 0, [], NoBest).Collected?
    ensures var q := Prepared(r, nodes, outs[..k]);
      && q.i == r.i + k && q.b == r.b && q.cv == r.cv
      && PrepareFrom(nodes, outs, k, q.accepts, q.best) == PrepareFrom(nodes, outs, 0, [], NoBest)
      && (k == |nodes| ==> PrepareFrom(nodes, outs, 0, [], NoBest) == Collected(q.accepts, q.best))
  {
    if k > 0 {
      PrepareLoopIsSteps(r, nodes, outs, k - 1);
      assert outs[..k][..k - 1] == outs[..k - 1];
    }
  }

  lemma {:induction false} PreparedAt(r: Round, nodes: seq<string>, outs: seq<Outcome>)
    requires r.Preparing? && |outs| <= |nodes|
    ensures Prepared(r, nodes, outs).i == r.i + |outs|
  {
    if outs != [] {
      PreparedAt(r, nodes, outs[..|outs| - 1]);
    }
  }

  /** A loop that ends in an old instance is those steps up to the reply and then the step that learns
      its value: the round is over and the proposer's own acceptor has decided it. */
  lemma LearnedIsGotOld(s: State, p: string, outs: seq<Outcome>, v: string) returns (i: nat)
    requires p in s.acc && s.RoundOf(p).Preparing? && s.RoundOf(p).i == 0 && |outs| == |s.nodes|
    requires PrepareFrom(s.nodes, outs, 0, [], NoBest) == Learned(v) && v in s.told
    ensures FirstStop(outs, i) && outs[i] == Replied(OldInstance(v))
    ensures var t := PutRound(s, p, Prepared(s.RoundOf(p), s.nodes, outs[..i]));
      && t.RoundOf(p).i == i && Ready(t, GotOld(p, v))
      && var u := Apply(t, GotOld(p, v));
         u.RoundOf(p) == Resting && Decided(u, p) && (!Decided(s, p) ==> u.acc[p].Value(s.inst) == v)
  {
    PrepareEnds(s.nodes, outs, 0, [], NoBest);
    i :| FirstStop(outs, i) && outs[i] == Replied(OldInstance(v));
    PreparedAt(s.RoundOf(p), s.nodes, outs[..i]);
  }

  function Voted(r: Round, oks: seq<bool>): Round
    requires r.Accepting? && r.i == 0 && |oks| <= |r.targets|
    ensures var q := Voted(r, oks); q.Accepting? && q.i == |oks| && q.targets == r.targets && q.b == r.b && q.v == r.v
  {
    if oks == [] then r
    else
      var n := |oks| - 1;
      var q := Voted(r, oks[..n]);
      if oks[n] then VoteCounted(q) else Skipped(q)
  }

  /** And the accept loop counts what the vote steps count. */
  lemma {:induction false} AcceptLoopIsSteps(r: Round, oks: seq<bool>)
    requires r.Accepting? && r.i == 0 && r.accepts == [] && |oks| <= |r.targets|
    ensures Voted(r, oks).accepts == Answering(r.targets[..|oks|], oks)
  {
    if oks != [] {
      var n := |oks| - 1;
      AcceptLoopIsSteps(r, oks[..n]);
      assert r.targets[..n + 1][..n] == r.targets[..n];
    }
  }

  // ---------------------------------------------------------------- the invariant

  /** The acceptor will never vote at number `b` again. */
  predicate Closed(s: State, a: string, b: Prop) {
    a in s.acc && (Decided(s, a) || Above(s.acc[a].nh, b))
  }

  /** Some member of `q` has not voted for `v` at `b` and never will. */
  ghost predicate Blocked(s: State, b: Prop, v: string, q: set<string>) {
    exists a :: a in q && Vote(a, b, v) !in s.votes && Closed(s, a, b)
  }

  /** No other value can be chosen at a lower number. */
  ghost predicate Safe(s: State, b: Prop, v: string) {
    forall lo: Prop, w: string, q: set<string> | lo.n >= 1 && Above(b, lo) && w != v && Quorum(s.nodes, q) ::
      Blocked(s, lo, w, q)
  }

  ghost predicate Chosen(s: State, b: Prop, v: string, q: set<string>) {
    Quorum(s.nodes, q) && forall a | a in q && a in s.nodes :: Vote(a, b, v) in s.votes
  }

  ghost predicate ChosenValue(s: State, v: string) {
    exists b, q :: Chosen(s, b, v, q)
  }

  ghost predicate AccOk(s: State, a: string)
    requires a in s.acc
  {
    var c := s.acc[a];
    && c.me == a
    && (Decided(s, a) ==> c.instH == s.inst && ChosenValue(s, c.Value(s.inst)))
    && (!Decided(s, a) ==>
          && (c.na.n == 0 ==> forall w | w in s.votes :: w.a != a)
          && (c.na.n > 0 ==> Vote(a, c.na, c.va) in s.votes && forall w | w in s.votes && w.a == a :: AtLeast(c.na, w.b))
          && (c.na.n > 0 ==> AtLeast(c.nh, c.na))
          && (forall m | m in s.promises && m.from == a :: AtLeast(c.nh, m.b)))
  }

  ghost predicate PromiseOk(s: State, m: Promise) {
    && m.b.n >= 1 && m.from in s.acc
    && (m.va == "" ==> forall w | w in s.votes && w.a == m.from :: !Above(m.b, w.b))
    && (m.va != "" ==>
          && m.na.n >= 1 && Vote(m.from, m.na, m.va) in s.votes && Above(m.b, m.na)
          && forall w | w in s.votes && w.a == m.from && Above(m.b, w.b) :: AtLeast(m.na, w.b))
  }

  ghost predicate HasPromise(s: State, a: string, b: Prop) {
    exists m :: m in s.promises && m.from == a && m.b == b
  }

  ghost predicate AskOk(s: State, m: Ask) {
    && m.b.n >= 1 && m.v != "" && HasPromise(s, m.to, m.b) && Safe(s, m.b, m.v)
    && (forall k | k in s.asks && k.b == m.b :: k.v == m.v)
    && m.b.m in s.num && m.b.n <= s.num[m.b.m]
  }

  /** What the promises taken in so far report. */
  function Reported(got: seq<Promise>): seq<Report> {
    seq(|got|, i requires 0 <= i < |got| => Report(got[i].na, got[i].va))
  }

  ghost predicate RoundOk(s: State, p: string) {
    match s.RoundOf(p)
    case Resting => true
    case Preparing(b, cv, i, accepts, best, got) =>
      && cv != "" && b.m == p && p in s.num && b.n == s.num[p] && b.n >= 1 && (forall k | k in s.asks :: k.b != b)
      && |got| == |accepts|
      && (forall j | 0 <= j < |got| :: got[j] in s.promises && got[j].b == b && got[j].from == accepts[j])
      && Highest(Reported(got), best)
    case Accepting(b, v, targets, i, accepts) =>
      && v != "" && b.m == p && p in s.num && b.n == s.num[p] && b.n >= 1 && Safe(s, b, v)
      && (forall k | k in s.asks && k.b == b :: k.v == v)
      && (forall j | 0 <= j < |targets| :: HasPromise(s, targets[j], b))
      && (forall j | 0 <= j < |accepts| :: Vote(accepts[j], b, v) in s.votes)
    case Deciding(b, v, accepts) =>
      && Quorum(s.nodes, Names(accepts)) && (forall j | 0 <= j < |accepts| :: Vote(accepts[j], b, v) in s.votes)
  }

  /** Every acceptor's log on disk stands for its state in memory. */
  ghost predicate Logged(acc: map<string, Acceptor>) {
    forall a | a in acc :: acc[a].me == a && Durable(acc[a])
  }

  ghost predicate Inv(s: State) {
    && (forall x | x in s.nodes :: x in s.acc)
    && (forall a | a in s.acc :: AccOk(s, a))
    && (forall pr | pr in s.prepares :: pr.0.n >= 1)
    && (forall m | m in s.promises :: PromiseOk(s, m))
    && (forall m | m in s.asks :: AskOk(s, m))
    && (forall w | w in s.votes :: Ask(w.b, w.v, w.a) in s.asks)
    && (forall p :: RoundOk(s, p))
    && (forall v | v in s.told :: ChosenValue(s, v))
  }

  // ---------------------------------------------------------------- what every step keeps

  /** Messages stay, numbers grow, closed stays closed, and new votes are not where it is closed. */
  ghost predicate Grows(s: State, t: State) {
    && t.nodes == s.nodes && t.inst == s.inst && t.acc.Keys == s.acc.Keys && t.num.Keys == s.num.Keys
    && s.promises <= t.promises && s.asks <= t.asks && s.votes <= t.votes
    && (forall p | p in s.num :: s.num[p] <= t.num[p])
    && (forall a: string, b: Prop | b.n >= 1 && Closed(s, a, b) :: Closed(t, a, b))
    && (forall w | w in t.votes && w !in s.votes :: !Closed(s, w.a, w.b))
  }

  lemma BlockedStays(s: State, t: State, b: Prop, v: string, q: set<string>)
    requires Grows(s, t) && b.n >= 1 && Blocked(s, b, v, q)
    ensures Blocked(t, b, v, q)
  {
    var a :| a in q && Vote(a, b, v) !in s.votes && Closed(s, a, b);
    assert Closed(t, a, b) && Vote(a, b, v) !in t.votes;
  }

  lemma SafeStays(s: State, t: State, b: Prop, v: string)
    requires Grows(s, t) && Safe(s, b, v)
    ensures Safe(t, b, v)
  {
    forall lo: Prop, w: string, q: set<string> | lo.n >= 1 && Above(b, lo) && w != v && Quorum(t.nodes, q)
      ensures Blocked(t, lo, w, q)
    {
      BlockedStays(s, t, lo, w, q);
    }
  }

  lemma ChosenStays(s: State, t: State, v: string)
    requires Grows(s, t) && ChosenValue(s, v)
    ensures ChosenValue(t, v)
  {
    var b, q :| Chosen(s, b, v, q);
    assert Chosen(t, b, v, q);
  }

  lemma PromiseStays(s: State, t: State, m: Promise)
    requires Grows(s, t) && m in s.promises && PromiseOk(s, m) && AccOk(s, m.from)
    ensures PromiseOk(t, m)
  {
    forall w | w in t.votes && w.a == m.from && Above(m.b, w.b)
      ensures w in s.votes
    {
      if !Decided(s, m.from) {
        PropOrder(s.acc[m.from].nh, m.b, w.b);
      }
    }
  }

  lemma HasPromiseStays(s: State, t: State, a: string, b: Prop)
    requires Grows(s, t) && HasPromise(s, a, b)
    ensures HasPromise(t, a, b)
  {
    var m :| m in s.promises && m.from == a && m.b == b;
    assert m in t.promises;
  }

  lemma AskStays(s: State, t: State, m: Ask)
    requires Grows(s, t) && m in s.asks && AskOk(s, m)
    requires forall k | k in t.asks && k !in s.asks && k.b == m.b :: k.v == m.v
    ensures AskOk(t, m)
  {
    SafeStays(s, t, m.b, m.v);
    HasPromiseStays(s, t, m.to, m.b);
  }

  lemma RoundStays(s: State, t: State, p: string)
    requires Grows(s, t) && RoundOk(s, p) && t.RoundOf(p) == s.RoundOf(p)
    requires p in s.num ==> t.num[p] == s.num[p]
    requires forall k | k in t.asks && k !in s.asks && k.b.m == p :: s.RoundOf(p).Accepting? && k.v == s.RoundOf(p).v
    ensures RoundOk(t, p)
  {
    match s.RoundOf(p)
    case Accepting(b, v, targets, i, accepts) =>
      SafeStays(s, t, b, v);
      forall j | 0 <= j < |targets| ensures HasPromise(t, targets[j], b) {
        HasPromiseStays(s, t, targets[j], b);
      }
    case _ =>
  }

  /** An acceptor that took no part in the step. */
  lemma AccStays(s: State, t: State, a: string)
    requires Grows(s, t) && a in s.acc && AccOk(s, a) && t.acc[a] == s.acc[a]
    requires forall w | w in t.votes && w !in s.votes :: w.a != a
    requires forall m | m in t.promises && m !in s.promises :: m.from != a
    ensures AccOk(t, a)
  {
    if Decided(s, a) { ChosenStays(s, t, s.acc[a].Value(s.inst)); }
  }

  /** A step of a proposer that leaves all acceptors alone keeps all but its own round. */
  lemma ProposerInv(s: State, t: State, p: string)
    requires Inv(s) && Grows(s, t) && t.acc == s.acc && t.votes == s.votes && t.promises == s.promises
    requires forall q | q != p :: t.RoundOf(q) == s.RoundOf(q) && (q in s.num ==> t.num[q] == s.num[q])
    requires forall pr | pr in t.prepares :: pr.0.n >= 1
    requires forall k | k in t.asks && k !in s.asks ::
      AskOk(t, k) && k.b.m == p && forall m | m in s.asks && m.b == k.b :: k.v == m.v
    requires forall v | v in t.told && v !in s.told :: ChosenValue(t, v)
    requires RoundOk(t, p)
    ensures Inv(t)
  {
    forall a | a in t.acc ensures AccOk(t, a) { AccStays(s, t, a); }
    forall m | m in t.promises ensures PromiseOk(t, m) { PromiseStays(s, t, m); }
    forall m | m in t.asks ensures AskOk(t, m) {
      if m in s.asks { AskStays(s, t, m); }
    }
    forall q ensures RoundOk(t, q) {
      if q != p { RoundStays(s, t, q); }
    }
    forall v | v in t.told ensures ChosenValue(t, v) {
      if v in s.told { ChosenStays(s, t, v); }
    }
  }

  /** The step is one of acceptor `a`. */
  predicate OfAcceptor(s: State, t: State, a: string) {
    && a in s.acc && t.acc.Keys == s.acc.Keys && t.rounds == s.rounds && t.num == s.num
    && t.prepares == s.prepares && t.asks == s.asks
    && (forall d | d in s.acc && d != a :: t.acc[d] == s.acc[d])
    && (forall w | w in t.votes && w !in s.votes :: w.a == a && Ask(w.b, w.v, w.a) in t.asks)
    && (forall m | m in t.promises && m !in s.promises :: m.from == a)
  }

  /** A step of acceptor `a` keeps all but its own state and its new messages. */
  lemma AcceptorInv(s: State, t: State, a: string)
    requires Inv(s) && Grows(s, t) && OfAcceptor(s, t, a)
    requires forall m | m in t.promises && m !in s.promises :: PromiseOk(t, m)
    requires forall v | v in t.told && v !in s.told :: ChosenValue(t, v)
    requires AccOk(t, a)
    ensures Inv(t)
  {
    forall d | d in t.acc ensures AccOk(t, d) {
      if d != a { AccStays(s, t, d); }
    }
    forall m | m in t.promises ensures PromiseOk(t, m) {
      if m in s.promises { PromiseStays(s, t, m); }
    }
    forall m | m in t.asks ensures AskOk(t, m) { AskStays(s, t, m); }
    forall q ensures RoundOk(t, q) {
      assert t.RoundOf(q) == s.RoundOf(q);
      RoundStays(s, t, q);
    }
    forall v | v in t.told ensures ChosenValue(t, v) {
      if v in s.told { ChosenStays(s, t, v); }
    }
  }

  // ---------------------------------------------------------------- proposers

  lemma StartInv(s: State, x: Action)
    requires Inv(s) && x.Start? && Enabled(s, x)
    ensures Inv(Apply(s, x))
  {
    var t := Apply(s, x);
    forall k | k in s.asks ensures k.b != t.RoundOf(x.p).b {
      assert AskOk(s, k);
    }
    ProposerInv(s, t, x.p);
  }

  lemma GotPromiseInv(s: State, x: Action)
    requires Inv(s) && x.GotPromise? && Enabled(s, x)
    ensures Inv(Apply(s, x))
  {
    var t, r := Apply(s, x), s.RoundOf(x.p);
    assert RoundOk(s, x.p) && PromiseOk(s, x.m);
    BetterKeeps(Reported(r.got), r.best, Report(x.m.na, x.m.va));
    assert Reported(r.got + [x.m]) == Reported(r.got) + [Report(x.m.na, x.m.va)];
    assert RoundOk(t, x.p);
    ProposerInv(s, t, x.p);
  }

  /** The heart of the protocol: a value picked from a majority of promises is safe. */
  lemma PickedIsSafe(s: State, p: string)
    requires Inv(s) && s.RoundOf(p).Preparing? && Quorum(s.nodes, Names(s.RoundOf(p).accepts))
    ensures var r := s.RoundOf(p); Safe(s, r.b, if |r.best.v| == 0 then r.cv else r.best.v)
  {
    var r := s.RoundOf(p);
    var v := if |r.best.v| == 0 then r.cv else r.best.v;
    assert RoundOk(s, p);
    forall lo: Prop, w: string, q: set<string> | lo.n >= 1 && Above(r.b, lo) && w != v && Quorum(s.nodes, q)
      ensures Blocked(s, lo, w, q)
    {
      PickedBlocks(s, p, lo, w, q);
    }
  }

  /** A member of both majorities promised `r.b`, so it votes no more at the lower number `lo`. */
  lemma Witness(s: State, p: string, lo: Prop, q: set<string>) returns (a: string, m: Promise)
    requires Inv(s) && s.RoundOf(p).Preparing? && Quorum(s.nodes, Names(s.RoundOf(p).accepts))
    requires Above(s.RoundOf(p).b, lo) && Quorum(s.nodes, q)
    ensures a in q && Closed(s, a, lo) && m in s.promises && m in s.RoundOf(p).got && m.from == a && m.b == s.RoundOf(p).b
  {
    var r := s.RoundOf(p);
    assert RoundOk(s, p);
    QuorumsMeet(s.nodes, q, Names(r.accepts));
    a :| a in s.nodes && a in q && a in Names(r.accepts);
    var j :| 0 <= j < |r.accepts| && r.accepts[j] == a;
    m := r.got[j];
    assert m in s.promises && AccOk(s, a);
    PropOrder(s.acc[a].nh, r.b, lo);
  }

  /** The proposal reported with the highest number was asked for, and is safe itself. */
  lemma BestWasAsked(s: State, p: string)
    requires Inv(s) && s.RoundOf(p).Preparing? && s.RoundOf(p).best != NoBest
    ensures var best := s.RoundOf(p).best;
      Safe(s, best.ph, best.v) && forall k | k in s.asks && k.b == best.ph :: k.v == best.v
  {
    var r := s.RoundOf(p);
    assert RoundOk(s, p);
    var j :| 0 <= j < |r.got| && Reported(r.got)[j] == Report(r.best.ph, r.best.v);
    assert r.got[j] in s.promises && PromiseOk(s, r.got[j]);
    assert AskOk(s, Ask(r.best.ph, r.best.v, r.got[j].from));
  }

  /** A witness that reported nothing above `ph` did not vote for another value from `ph` up. */
  lemma WitnessDidNot(s: State, m: Promise, lo: Prop, w: string, best: Best)
    requires m in s.promises && PromiseOk(s, m) && Above(m.b, lo) && lo.n >= 1
    requires forall k | k in s.votes :: Ask(k.b, k.v, k.a) in s.asks
    requires best == NoBest ==> m.va == ""
    requires best != NoBest ==>
      && w != best.v && (m.va != "" ==> AtLeast(best.ph, m.na)) && !Above(best.ph, lo)
      && forall k | k in s.asks && k.b == best.ph :: k.v == best.v
    ensures Vote(m.from, lo, w) !in s.votes
  {
    if Vote(m.from, lo, w) in s.votes {
      assert Ask(lo, w, m.from) in s.asks;
      PropOrder(best.ph, m.na, lo);
      PropOrder(lo, best.ph, m.na);
      PropOrder(m.na, lo, lo);
      PropOrder(best.ph, lo, lo);
      assert false;
    }
  }

  lemma PickedBlocks(s: State, p: string, lo: Prop, w: string, q: set<string>)
    requires Inv(s) && s.RoundOf(p).Preparing? && Quorum(s.nodes, Names(s.RoundOf(p).accepts))
    requires lo.n >= 1 && Above(s.RoundOf(p).b, lo) && Quorum(s.nodes, q)
    requires var r := s.RoundOf(p); w != if |r.best.v| == 0 then r.cv else r.best.v
    ensures Blocked(s, lo, w, q)
  {
    var r := s.RoundOf(p);
    assert RoundOk(s, p);
    if r.best != NoBest { BestWasAsked(s, p); }
    if r.best == NoBest || !Above(r.best.ph, lo) {
      var a, m := Witness(s, p, lo, q);
      var j :| 0 <= j < |r.got| && r.got[j] == m;
      assert Reported(r.got)[j] == Report(m.na, m.va);
      WitnessDidNot(s, m, lo, w, r.best);
    }
  }

  lemma EndPrepareInv(s: State, x: Action)
    requires Inv(s) && x.EndPrepare? && Enabled(s, x)
    ensures Inv(Apply(s, x))
  {
    var t, r := Apply(s, x), s.RoundOf(x.p);
    assert RoundOk(s, x.p);
    PickedIsSafe(s, x.p);
    SafeStays(s, t, r.b, t.RoundOf(x.p).v);
    forall j | 0 <= j < |r.accepts| ensures HasPromise(t, r.accepts[j], r.b) {
      assert r.got[j] in t.promises;
    }
    ProposerInv(s, t, x.p);
  }

  lemma SendAskInv(s: State, x: Action)
    requires Inv(s) && x.SendAsk? && Enabled(s, x)
    ensures Inv(Apply(s, x))
  {
    var t, r := Apply(s, x), s.RoundOf(x.p);
    assert RoundOk(s, x.p);
    SafeStays(s, t, r.b, r.v);
    HasPromiseStays(s, t, r.targets[r.i], r.b);
    RoundStays(s, t, x.p);
    ProposerInv(s, t, x.p);
  }

  lemma GotVoteInv(s: State, x: Action)
    requires Inv(s) && x.GotVote? && Enabled(s, x)
    ensures Inv(Apply(s, x))
  {
    var t, r := Apply(s, x), s.RoundOf(x.p);
    assert RoundOk(s, x.p);
    SafeStays(s, t, r.b, r.v);
    forall j | 0 <= j < |r.targets| ensures HasPromise(t, r.targets[j], r.b) {
      HasPromiseStays(s, t, r.targets[j], r.b);
    }
    ProposerInv(s, t, x.p);
  }

  lemma SkipInv(s: State, x: Action)
    requires Inv(s) && x.Skip? && Enabled(s, x)
    ensures Inv(Apply(s, x))
  {
    var t, r := Apply(s, x), s.RoundOf(x.p);
    assert RoundOk(s, x.p);
    if r.Accepting? {
      SafeStays(s, t, r.b, r.v);
      forall j | 0 <= j < |r.targets| ensures HasPromise(t, r.targets[j], r.b) {
        HasPromiseStays(s, t, r.targets[j], r.b);
      }
    }
    ProposerInv(s, t, x.p);
  }

  lemma TellInv(s: State, x: Action)
    requires Inv(s) && x.Tell? && Enabled(s, x)
    ensures Inv(Apply(s, x))
  {
    var t, r := Apply(s, x), s.RoundOf(x.p);
    assert RoundOk(s, x.p);
    assert Chosen(t, r.b, r.v, Names(r.accepts));
    assert t.RoundOf(x.p) == r;
    RoundStays(s, t, x.p);
    ProposerInv(s, t, x.p);
  }

  lemma PlainProposerInv(s: State, x: Action)
    requires Inv(s) && Enabled(s, x) && (x.SendPrepare? || x.GiveUp? || x.EndAccept?)
    ensures Inv(Apply(s, x))
  {
    var t := Apply(s, x);
    assert RoundOk(s, x.p);
    assert forall q | q != x.p :: t.RoundOf(q) == s.RoundOf(q);
    if x.SendPrepare? { RoundStays(s, t, x.p); }
    ProposerInv(s, t, x.p);
  }

  // ---------------------------------------------------------------- acceptors

  lemma HigherStaysClosed(s: State, a: string, c: Acceptor, b: Prop)
    requires a in s.acc && (c.instH >= s.inst || c.nh == s.acc[a].nh || Above(c.nh, s.acc[a].nh))
    requires Decided(s, a) ==> c.instH >= s.inst
    requires Closed(s, a, b)
    ensures Closed(s.(acc := s.acc[a := c]), a, b)
  {
    PropOrder(c.nh, s.acc[a].nh, b);
  }

  /** An acceptor's step: its number does not fall unless it decides. */
  lemma AcceptorGrows(s: State, t: State, a: string)
    requires a in s.acc && t == s.(acc := t.acc, votes := t.votes, promises := t.promises, told := t.told)
    requires a in t.acc && t.acc == s.acc[a := t.acc[a]]
    requires t.acc[a].instH >= s.inst || t.acc[a].nh == s.acc[a].nh || Above(t.acc[a].nh, s.acc[a].nh)
    requires Decided(s, a) ==> t.acc[a].instH >= s.inst
    requires s.promises <= t.promises && s.votes <= t.votes
    requires forall w | w in t.votes && w !in s.votes :: !Closed(s, w.a, w.b)
    ensures Grows(s, t)
  {
    forall d: string, b: Prop | b.n >= 1 && Closed(s, d, b) ensures Closed(t, d, b) {
      if d == a { HigherStaysClosed(s, a, t.acc[a], b); }
    }
  }

  lemma PromiseMade(s: State, x: Action)
    requires Inv(s) && x.HandlePrepare? && Enabled(s, x) && !Decided(s, x.a) && Above(x.b, s.acc[x.a].nh)
    ensures var r := Prepare(s.acc[x.a], s.inst, x.b).1;
      PromiseOk(Apply(s, x), Promise(x.a, x.b, r.na, r.va)) && AccOk(Apply(s, x), x.a)
  {
    var t, c := Apply(s, x), s.acc[x.a];
    assert AccOk(s, x.a);
    if c.na.n > 0 {
      assert Ask(c.na, c.va, x.a) in s.asks && AskOk(s, Ask(c.na, c.va, x.a));
      PropOrder(x.b, c.nh, c.na);
      PropOrder(c.nh, c.na, c.na);
      PropOrder(x.b, c.na, c.na);
    }
    forall k | k in t.promises && k.from == x.a ensures AtLeast(x.b, k.b) {
      PropOrder(x.b, c.nh, k.b);
      PropOrder(c.nh, k.b, k.b);
      PropOrder(x.b, k.b, k.b);
    }
  }

  lemma PrepareShape(s: State, x: Action)
    requires x.HandlePrepare? && Ready(s, x)
    ensures var t, r := Apply(s, x), Prepare(s.acc[x.a], s.inst, x.b).1;
      && OfAcceptor(s, t, x.a) && Grows(s, t)
      && t.promises == (if r.Accepted? then s.promises + {Promise(x.a, x.b, r.na, r.va)} else s.promises)
      && t.told == (if r.OldInstance? then s.told + {r.v} else s.told)
  {
    AcceptorGrows(s, Apply(s, x), x.a);
  }

  /** A decided acceptor answers with its value. */
  lemma OldAnswered(s: State, x: Action)
    requires Inv(s) && x.HandlePrepare? && Enabled(s, x) && Decided(s, x.a)
    ensures AccOk(Apply(s, x), x.a) && ChosenValue(Apply(s, x), s.acc[x.a].Value(s.inst))
  {
    var c := s.acc[x.a];
    assert AccOk(s, x.a);
    PrepareShape(s, x);
    ChosenStays(s, Apply(s, x), c.Value(s.inst));
  }

  lemma HandlePrepareInv(s: State, x: Action)
    requires Inv(s) && x.HandlePrepare? && Enabled(s, x)
    ensures Inv(Apply(s, x))
  {
    assert AccOk(s, x.a);
    PrepareShape(s, x);
    if Decided(s, x.a) {
      OldAnswered(s, x);
    } else if Above(x.b, s.acc[x.a].nh) {
      PromiseMade(s, x);
    }
    AcceptorInv(s, Apply(s, x), x.a);
  }

  /** An accept request reaches an undecided acceptor only at the very number it last promised. */
  lemma AskMeetsPromise(s: State, k: Ask)
    requires Inv(s) && k in s.asks && k.to in s.acc && !Decided(s, k.to) && AtLeast(k.b, s.acc[k.to].nh)
    ensures s.acc[k.to].nh == k.b && !Closed(s, k.to, k.b)
    ensures forall w | w in s.votes && w.a == k.to :: AtLeast(k.b, w.b)
  {
    var c := s.acc[k.to];
    assert AccOk(s, k.to) && AskOk(s, k);
    var m :| m in s.promises && m.from == k.to && m.b == k.b;
    PropOrder(c.nh, k.b, k.b);
    PropOrder(k.b, c.nh, k.b);
    forall w | w in s.votes && w.a == k.to ensures AtLeast(k.b, w.b) {
      PropOrder(k.b, c.na, w.b);
      PropOrder(c.na, w.b, w.b);
      PropOrder(k.b, w.b, w.b);
      PropOrder(k.b, c.na, c.na);
    }
  }

  lemma VoteCast(s: State, x: Action)
    requires Inv(s) && x.HandleAsk? && Enabled(s, x) && AtLeast(x.k.b, s.acc[x.k.to].nh)
    ensures Grows(s, Apply(s, x)) && AccOk(Apply(s, x), x.k.to)
  {
    var t, k := Apply(s, x), x.k;
    assert AccOk(s, k.to) && AskOk(s, k);
    AskMeetsPromise(s, k);
    PropOrder(k.b, k.b, k.b);
    AcceptorGrows(s, t, k.to);
  }

  lemma AskShape(s: State, x: Action)
    requires x.HandleAsk? && Ready(s, x)
    ensures OfAcceptor(s, Apply(s, x), x.k.to)
    ensures Apply(s, x).promises == s.promises && Apply(s, x).told == s.told
  {
  }

  lemma HandleAskInv(s: State, x: Action)
    requires Inv(s) && x.HandleAsk? && Enabled(s, x)
    ensures Inv(Apply(s, x))
  {
    if AtLeast(x.k.b, s.acc[x.k.to].nh) {
      VoteCast(s, x);
      AskShape(s, x);
      AcceptorInv(s, Apply(s, x), x.k.to);
    } else {
      assert Apply(s, x) == s.(acc := s.acc[x.k.to := s.acc[x.k.to]]) == s;
    }
  }

  lemma HandleDecideInv(s: State, x: Action)
    requires Inv(s) && x.HandleDecide? && Enabled(s, x)
    ensures Inv(Apply(s, x))
  {
    CommitInv(s, x.a, x.v);
  }

  lemma CommitInv(s: State, a: string, v: string)
    requires Inv(s) && a in s.acc && ChosenValue(s, v)
    ensures Inv(s.(acc := s.acc[a := Commit(s.acc[a], s.inst, v)]))
  {
    var t := s.(acc := s.acc[a := Commit(s.acc[a], s.inst, v)]);
    assert AccOk(s, a);
    AcceptorGrows(s, t, a);
    ChosenStays(s, t, v);
    if Decided(s, a) { ChosenStays(s, t, s.acc[a].Value(s.inst)); }
    AcceptorInv(s, t, a);
  }

  lemma GotOldInv(s: State, x: Action)
    requires Inv(s) && x.GotOld? && Enabled(s, x)
    ensures Inv(Apply(s, x))
  {
    var u := s.(acc := s.acc[x.p := Commit(s.acc[x.p], s.inst, x.v)]);
    CommitInv(s, x.p, x.v);
    ProposerInv(u, Apply(s, x), x.p);
  }

  /** The restarted acceptor differs at most in the names of zero numbers, which no number from 1 up
      is compared with. */
  lemma AlikeInv(s: State, a: string, d: Acceptor)
    requires Inv(s) && a in s.acc && d.me == a && SameProp(s.acc[a].nh, d.nh) && SameProp(s.acc[a].na, d.na)
    requires s.acc[a].va == d.va && s.acc[a].instH == d.instH && s.acc[a].Value(s.inst) == d.Value(s.inst)
    ensures Inv(s.(acc := s.acc[a := d]))
  {
    var t := s.(acc := s.acc[a := d]);
    assert AccOk(s, a);
    assert Grows(s, t);
    if Decided(s, a) { ChosenStays(s, t, d.Value(s.inst)); }
    forall m | m in s.promises && m.from == a ensures PromiseOk(s, m) { }
    AcceptorInv(s, t, a);
  }

  lemma CrashInv(s: State, x: Action)
    requires Inv(s) && Logged(s.acc) && x.Crash? && Enabled(s, x)
    ensures Inv(Apply(s, x))
  {
    var c, d := s.acc[x.a], Restart(x.a, s.acc[x.a].log);
    assert Durable(c) && Alike(c, d);
    assert c.Value(s.inst) == d.Value(s.inst);
    AlikeInv(s, x.a, d);
  }

  lemma RestartDurable(me: string, log: seq<Record>)
    ensures Restart(me, log).me == me && Durable(Restart(me, log))
  {
    ReplayMe(Fresh(me), log);
  }

  lemma LoggedHandle(acc: map<string, Acceptor>, a: string, q: Request)
    requires Logged(acc) && a in acc
    ensures Logged(acc[a := Handle(acc[a], q).0])
  {
    DurableStep(acc[a], q);
  }

  lemma LoggedRestart(acc: map<string, Acceptor>, a: string)
    requires Logged(acc) && a in acc
    ensures Logged(acc[a := Restart(a, acc[a].log)])
  {
    RestartDurable(a, acc[a].log);
  }

  lemma StepLogged(s: State, x: Action)
    requires Logged(s.acc) && Enabled(s, x)
    ensures Logged(Apply(s, x).acc)
  {
    match x
    case HandlePrepare(b, a) => LoggedHandle(s.acc, a, PrepareReq(s.inst, b));
    case HandleAsk(k) => LoggedHandle(s.acc, k.to, AcceptReq(k.b, k.v));
    case HandleDecide(a, v) => LoggedHandle(s.acc, a, DecideReq(s.inst, v));
    case GotOld(p, v) => LoggedHandle(s.acc, p, DecideReq(s.inst, v));
    case Crash(a) => LoggedRestart(s.acc, a);
    case _ => assert Apply(s, x).acc == s.acc;
  }

  lemma InitInv(s: State)
    requires Init(s)
    ensures Inv(s)
  {
  }

  predicate AtAcceptor(x: Action) {
    x.HandlePrepare? || x.HandleAsk? || x.HandleDecide? || x.Crash?
  }

  lemma ProposerStepInv(s: State, x: Action)
    requires Inv(s) && Enabled(s, x) && !AtAcceptor(x)
    ensures Inv(Apply(s, x))
  {
    match x
    case Start(_, _) => StartInv(s, x);
    case GotPromise(_, _) => GotPromiseInv(s, x);
    case GotOld(_, _) => GotOldInv(s, x);
    case Skip(_) => SkipInv(s, x);
    case EndPrepare(_) => EndPrepareInv(s, x);
    case SendAsk(_) => SendAskInv(s, x);
    case GotVote(_) => GotVoteInv(s, x);
    case Tell(_) => TellInv(s, x);
    case _ => PlainProposerInv(s, x);
  }

  lemma AcceptorStepInv(s: State, x: Action)
    requires Inv(s) && Logged(s.acc) && Enabled(s, x) && AtAcceptor(x)
    ensures Inv(Apply(s, x))
  {
    if x.HandlePrepare? {
      HandlePrepareInv(s, x);
    } else if x.HandleAsk? {
      HandleAskInv(s, x);
    } else if x.HandleDecide? {
      HandleDecideInv(s, x);
    } else {
      CrashInv(s, x);
    }
  }

  lemma StepInv(s: State, x: Action)
    requires Inv(s) && Logged(s.acc) && Enabled(s, x)
    ensures Inv(Apply(s, x))
  {
    if AtAcceptor(x) {
      AcceptorStepInv(s, x);
    } else {
      ProposerStepInv(s, x);
    }
  }

  // ---------------------------------------------------------------- every run

  ghost predicate Run(trace: seq<State>, acts: seq<Action>) {
    && |trace| == |acts| + 1
    && Init(trace[0])
    && forall i {:trigger acts[i]} | 0 <= i < |acts| :: Enabled(trace[i], acts[i]) && trace[i + 1] == Apply(trace[i], acts[i])
  }

  lemma {:induction false} RunInv(trace: seq<State>, acts: seq<Action>, i: nat)
    requires Run(trace, acts) && i < |trace|
    ensures Inv(trace[i]) && Logged(trace[i].acc)
  {
    if i == 0 {
      InitInv(trace[0]);
    } else {
      RunInv(trace, acts, i - 1);
      StepInv(trace[i - 1], acts[i - 1]);
      StepLogged(trace[i - 1], acts[i - 1]);
    }
  }

  lemma ChosenOrdered(s: State, b: Prop, v: string, q: set<string>, c: Prop, w: string, r: set<string>)
    requires Inv(s) && Chosen(s, b, v, q) && Chosen(s, c, w, r) && (Above(b, c) || b == c)
    ensures v == w
  {
    QuorumsMeet(s.nodes, q, r);
    var a :| a in s.nodes && a in q && a in r;
    assert Vote(a, b, v) in s.votes && Vote(a, c, w) in s.votes;
    assert Ask(b, v, a) in s.asks && Ask(c, w, a) in s.asks;
    assert AskOk(s, Ask(b, v, a)) && AskOk(s, Ask(c, w, a));
    InList(s.nodes, r);
    assert v != w && Above(b, c) ==> Blocked(s, c, w, r * Names(s.nodes));
  }

  /** Only the listed members of a set count for its majority. */
  lemma {:induction false} InList(l: seq<string>, q: set<string>)
    ensures Places(l, q * Names(l)) == Places(l, q)
  {
    PlacesWithin(l, q, Names(l));
  }

  lemma {:induction false} PlacesWithin(l: seq<string>, q: set<string>, all: set<string>)
    requires Names(l) <= all
    ensures Places(l, q * all) == Places(l, q)
  {
    if l != [] {
      assert Names(l[1..]) <= Names(l) && l[0] in Names(l);
      PlacesWithin(l[1..], q, all);
    }
  }

  /** Agreement: in every run any two rounds that reach an accept majority carry the same value, and
      every node that has decided the instance has decided that value. */
  lemma Agreement(trace: seq<State>, acts: seq<Action>, i: nat, b: Prop, v: string, q: set<string>)
    requires Run(trace, acts) && i < |trace| && Chosen(trace[i], b, v, q)
    ensures forall c, w, r | Chosen(trace[i], c, w, r) :: w == v
    ensures forall a | a in trace[i].acc && Decided(trace[i], a) :: trace[i].acc[a].Value(trace[i].inst) == v
  {
    var s := trace[i];
    RunInv(trace, acts, i);
    forall c, w, r | Chosen(s, c, w, r) ensures w == v {
      PropOrder(b, c, c);
      if Above(c, b) { ChosenOrdered(s, c, w, r, b, v, q); } else { ChosenOrdered(s, b, v, q, c, w, r); }
    }
    forall a | a in s.acc && Decided(s, a) ensures s.acc[a].Value(s.inst) == v {
      assert AccOk(s, a);
      var c, r :| Chosen(s, c, s.acc[a].Value(s.inst), r);
    }
  }

  /** Two nodes that have decided the instance have decided the same value. */
  lemma DecidedAgree(trace: seq<State>, acts: seq<Action>, i: nat, a: string, d: string)
    requires Run(trace, acts) && i < |trace|
    requires a in trace[i].acc && Decided(trace[i], a) && d in trace[i].acc && Decided(trace[i], d)
    ensures trace[i].acc[a].Value(trace[i].inst) == trace[i].acc[d].Value(trace[i].inst)
  {
    var s := trace[i];
    RunInv(trace, acts, i);
    assert AccOk(s, a);
    var b, q :| Chosen(s, b, s.acc[a].Value(s.inst), q);
    Agreement(trace, acts, i, b, s.acc[a].Value(s.inst), q);
  }

  /** What a node is told, by a decide request or by the answer to its prepare, is what it has decided
      from then on. */
  lemma ToldIsDecided(trace: seq<State>, acts: seq<Action>, i: nat, a: string, v: string)
    requires Run(trace, acts) && i < |acts| && (acts[i] == GotOld(a, v) || acts[i] == HandleDecide(a, v))
    ensures a in trace[i + 1].acc && Decided(trace[i + 1], a)
    ensures trace[i + 1].acc[a].Value(trace[i + 1].inst) == v
  {
    RunInv(trace, acts, i + 1);
    ToldStep(trace[i], acts[i], a, v);
    var t := trace[i + 1];
    assert ChosenValue(t, v);
    var b, q :| Chosen(t, b, v, q);
    Agreement(trace, acts, i + 1, b, v, q);
  }

  lemma ToldStep(s: State, x: Action, a: string, v: string)
    requires Enabled(s, x) && (x == GotOld(a, v) || x == HandleDecide(a, v))
    ensures v in Apply(s, x).told && a in Apply(s, x).acc && Decided(Apply(s, x), a)
  {
  }

  /** How an acceptor answers a prepare request in a run: a decided one tells its value and promises
      nothing; an undecided one promises exactly the numbers above its promise, keeps them promised, and
      reports the last proposal it has accepted, if any. */
  lemma PrepareAnswered(trace: seq<State>, acts: seq<Action>, i: nat, b: Prop, a: string)
    requires Run(trace, acts) && i < |acts| && acts[i] == HandlePrepare(b, a)
    ensures a in trace[i].acc && a in trace[i + 1].acc
    ensures Decided(trace[i], a) ==>
      && trace[i].acc[a].Value(trace[i].inst) in trace[i + 1].told && trace[i + 1].promises == trace[i].promises
    ensures !Decided(trace[i], a) && Above(b, trace[i].acc[a].nh) ==>
      && trace[i + 1].acc[a].nh == b && trace[i + 1].told == trace[i].told
      && exists na, va :: trace[i + 1].promises == trace[i].promises + {Promise(a, b, na, va)} &&
           if forall w | w in trace[i].votes :: w.a != a then va == ""
           else Vote(a, na, va) in trace[i].votes && forall w | w in trace[i].votes && w.a == a :: AtLeast(na, w.b)
    ensures !Decided(trace[i], a) && !Above(b, trace[i].acc[a].nh) ==> trace[i + 1] == trace[i]
  {
    var s, t := trace[i], trace[i + 1];
    RunInv(trace, acts, i);
    assert AccOk(s, a);
    assert t == Apply(s, HandlePrepare(b, a));
    if !Decided(s, a) && Above(b, s.acc[a].nh) {
      var c := s.acc[a];
      var na, va := if c.na.n == 0 then Prop(0, "") else c.na, if c.na.n == 0 then "" else c.va;
      assert t.promises == s.promises + {Promise(a, b, na, va)};
    }
    if !Decided(s, a) && !Above(b, s.acc[a].nh) {
      assert t.acc == s.acc;
    }
  }

  /** A crash leaves an acceptor its log and what replaying it rebuilds, and nobody who sends numbers from 1 up
      can tell. */
  lemma CrashReplays(trace: seq<State>, acts: seq<Action>, i: nat, a: string)
    requires Run(trace, acts) && i < |acts| && acts[i] == Crash(a)
    ensures a in trace[i].acc && trace[i + 1] == trace[i].(acc := trace[i + 1].acc)
    ensures trace[i + 1].acc == trace[i].acc[a := Replay(Fresh(a), trace[i].acc[a].log).(log := trace[i].acc[a].log)]
    ensures Alike(trace[i].acc[a], trace[i + 1].acc[a])
  {
    RunInv(trace, acts, i);
    assert Durable(trace[i].acc[a]);
  }

  /** An accept request to an undecided acceptor is voted for exactly if its number is not below the promise. */
  lemma AskAnswered(trace: seq<State>, acts: seq<Action>, i: nat, k: Ask)
    requires Run(trace, acts) && i < |acts| && acts[i] == HandleAsk(k)
    ensures k.to in trace[i].acc
    ensures trace[i + 1].votes ==
      if AtLeast(k.b, trace[i].acc[k.to].nh) then trace[i].votes + {Vote(k.to, k.b, k.v)} else trace[i].votes
  {
  }

  // ---------------------------------------------------------------- why Enabled has its hypothesis

  /** A run of the steps as they are written. */
  ghost predicate RunAsWritten(trace: seq<State>, acts: seq<Action>) {
    |trace| == |acts| + 1 && Init(trace[0]) && Steps(trace, acts)
  }

  predicate Steps(trace: seq<State>, acts: seq<Action>)
    requires |trace| == |acts| + 1
  {
    forall i {:trigger acts[i]} | 0 <= i < |acts| :: Next(trace[i], acts[i], trace[i + 1])
  }

  predicate Next(s: State, x: Action, t: State) {
    Ready(s, x) && t == Apply(s, x)
  }

  function Last(trace: seq<State>): State
    requires trace != []
  {
    trace[|trace| - 1]
  }

  lemma Extend(trace: seq<State>, acts: seq<Action>, x: Action, t: State)
    returns (tr: seq<State>, ac: seq<Action>)
    requires |trace| == |acts| + 1 && Steps(trace, acts) && Next(Last(trace), x, t)
    ensures |tr| == |ac| + 1 && Steps(tr, ac) && tr[0] == trace[0] && Last(tr) == t
  {
    tr, ac := trace + [t], acts + [x];
    forall i | 0 <= i < |ac| ensures Next(tr[i], ac[i], tr[i + 1]) {
      if i < |acts| {
        assert Next(trace[i], acts[i], trace[i + 1]);
      }
    }
  }

  lemma ExtendThree(trace: seq<State>, acts: seq<Action>, x: Action, y: Action, z: Action, t: State)
    returns (tr: seq<State>, ac: seq<Action>)
    requires |trace| == |acts| + 1 && Steps(trace, acts) && Leads(Last(trace), x, y, z, t)
    ensures |tr| == |ac| + 1 && Steps(tr, ac) && tr[0] == trace[0] && Last(tr) == t
  {
    var s := Last(trace);
    tr, ac := Extend(trace, acts, x, Apply(s, x));
    tr, ac := Extend(tr, ac, y, Apply(Apply(s, x), y));
    tr, ac := Extend(tr, ac, z, t);
  }

  predicate Leads(s: State, x: Action, y: Action, z: Action, t: State) {
    Ready(s, x) && Ready(Apply(s, x), y) && Ready(Apply(Apply(s, x), y), z) && t == Apply(Apply(Apply(s, x), y), z)
  }

  /** What three steps of the run below change: one acceptor and one round. */
  predicate Becomes(s: State, t: State, a: string, c: Acceptor, p: string, r: Round) {
    && t.nodes == s.nodes && t.inst == s.inst && t.num == s.num
    && t.acc == s.acc[a := c] && t.rounds == s.rounds[p := r]
  }

  /** Proposer p asks the next node for a promise and gets one that reports nothing. */
  lemma GetPromise(s: State, p: string, a: string) returns (t: State, m: Promise)
    requires var r := s.RoundOf(p);
      && r.Preparing? && r.best == NoBest && r.i < |s.nodes| && s.nodes[r.i] == a && a in s.acc
      && Prepare(s.acc[a], s.inst, r.b).1 == Accepted(Prop(0, ""), "")
    ensures var r := s.RoundOf(p);
      && Leads(s, SendPrepare(p), HandlePrepare(r.b, a), GotPromise(p, m), t)
      && Becomes(s, t, a, Prepare(s.acc[a], s.inst, r.b).0, p,
                 Preparing(r.b, r.cv, r.i + 1, r.accepts + [a], NoBest, r.got + [m]))
  {
    var r := s.RoundOf(p);
    m := Promise(a, r.b, Prop(0, ""), "");
    var s1 := Apply(s, SendPrepare(p));
    var s2 := Apply(s1, HandlePrepare(r.b, a));
    assert s2.RoundOf(p) == r && m in s2.promises && s2.nodes == s.nodes;
    t := Apply(s2, GotPromise(p, m));
  }

  /** Proposer p asks the next node for its vote and gets it. */
  lemma GetVote(s: State, p: string, a: string) returns (t: State)
    requires var r := s.RoundOf(p);
      && r.Accepting? && r.i < |r.targets| && r.targets[r.i] == a && a in s.acc && Accept(s.acc[a], r.b, r.v).1
    ensures var r := s.RoundOf(p);
      && Leads(s, SendAsk(p), HandleAsk(Ask(r.b, r.v, a)), GotVote(p), t)
      && Becomes(s, t, a, Accept(s.acc[a], r.b, r.v).0, p,
                 Accepting(r.b, r.v, r.targets, r.i + 1, r.accepts + [a]))
  {
    var r := s.RoundOf(p);
    var s1 := Apply(s, SendAsk(p));
    var s2 := Apply(s1, HandleAsk(Ask(r.b, r.v, a)));
    assert s2.RoundOf(p) == r && Vote(a, r.b, r.v) in s2.votes;
    t := Apply(s2, GotVote(p));
  }

  /** Proposer p has its majority of votes and tells node a. */
  lemma Conclude(s: State, p: string, a: string) returns (t: State)
    requires var r := s.RoundOf(p);
      && r.Accepting? && r.i == |r.targets| && Quorum(s.nodes, Names(r.accepts)) && a in s.acc
    ensures var r := s.RoundOf(p);
      && Leads(s, EndAccept(p), Tell(p), HandleDecide(a, r.v), t)
      && Becomes(s, t, a, Decide(s.acc[a], s.inst, r.v), p, Deciding(r.b, r.v, r.accepts))
  {
    var r := s.RoundOf(p);
    var s1 := Apply(s, EndAccept(p));
    var s2 := Apply(s1, Tell(p));
    t := Apply(s2, HandleDecide(a, r.v));
  }

  /** The nodes of the run and what they answer, in its order. */
  lemma Answers()
    ensures var nb, nc := Prop(1, "b"), Prop(1, "c");
      var (a1, r1) := Prepare(Fresh("a"), 1, nb);
      var (c1, r2) := Prepare(Fresh("c"), 1, nb);
      var (a2, r3) := Prepare(a1, 1, nc);
      var (b1, r4) := Prepare(Fresh("b"), 1, nc);
      var (a3, ok1) := Accept(a2, nc, "y");
      var (b2, ok2) := Accept(b1, nc, "y");
      var a4 := Decide(a3, 1, "y");
      var (a5, ok3) := Accept(a4, nb, "x");
      var (c2, ok4) := Accept(c1, nb, "x");
      var c3 := Decide(c2, 1, "x");
      && r1 == r2 == r3 == r4 == Accepted(Prop(0, ""), "")
      && ok1 && ok2 && ok3 && ok4
      && a4.instH == a5.instH == c3.instH == 1 && a5.Value(1) == "y" && c3.Value(1) == "x"
  {
    StrOrder("c", "c", "c");
    StrOrder("b", "b", "b");
    assert StrAbove("c", "b") && !StrAbove("b", "c");
  }

  lemma TwoOfThree()
    ensures Quorum(["a", "b", "c"], Names(["a", "c"])) && Quorum(["a", "b", "c"], Names(["a", "b"]))
  {
    var l := ["a", "b", "c"];
    assert l[1..] == ["b", "c"] && l[1..][1..] == ["c"] && l[1..][1..][1..] == [];
    var q := Names(["a", "c"]);
    assert "a" in ["a", "c"] && "c" in ["a", "c"];
    assert Places([], q) == 0 && Places(["c"], q) == 1 && Places(l, q) >= 2;
    var r := Names(["a", "b"]);
    assert "a" in ["a", "b"] && "b" in ["a", "b"];
    assert Places(["b", "c"], r) >= 1 && Places(l, r) >= 2;
  }

  predicate Chain(s0: State, tr: seq<State>, ac: seq<Action>) {
    |tr| == |ac| + 1 && Steps(tr, ac) && tr[0] == s0
  }

  lemma PromiseRun(s0: State, trace: seq<State>, acts: seq<Action>, p: string, a: string)
    returns (tr: seq<State>, ac: seq<Action>, m: Promise)
    requires Chain(s0, trace, acts)
    requires var s := Last(trace); var r := s.RoundOf(p);
      && r.Preparing? && r.best == NoBest && r.i < |s.nodes| && s.nodes[r.i] == a && a in s.acc
      && Prepare(s.acc[a], s.inst, r.b).1 == Accepted(Prop(0, ""), "")
    ensures Chain(s0, tr, ac)
    ensures var s := Last(trace); var r := s.RoundOf(p);
      Becomes(s, Last(tr), a, Prepare(s.acc[a], s.inst, r.b).0, p,
              Preparing(r.b, r.cv, r.i + 1, r.accepts + [a], NoBest, r.got + [m]))
  {
    var r := Last(trace).RoundOf(p);
    var t;
    t, m := GetPromise(Last(trace), p, a);
    tr, ac := ExtendThree(trace, acts, SendPrepare(p), HandlePrepare(r.b, a), GotPromise(p, m), t);
  }

  lemma VoteRun(s0: State, trace: seq<State>, acts: seq<Action>, p: string, a: string)
    returns (tr: seq<State>, ac: seq<Action>)
    requires Chain(s0, trace, acts)
    requires var s := Last(trace); var r := s.RoundOf(p);
      && r.Accepting? && r.i < |r.targets| && r.targets[r.i] == a && a in s.acc && Accept(s.acc[a], r.b, r.v).1
    ensures Chain(s0, tr, ac)
    ensures var s := Last(trace); var r := s.RoundOf(p);
      Becomes(s, Last(tr), a, Accept(s.acc[a], r.b, r.v).0, p,
              Accepting(r.b, r.v, r.targets, r.i + 1, r.accepts + [a]))
  {
    var r := Last(trace).RoundOf(p);
    var t := GetVote(Last(trace), p, a);
    tr, ac := ExtendThree(trace, acts, SendAsk(p), HandleAsk(Ask(r.b, r.v, a)), GotVote(p), t);
  }

  lemma ConcludeRun(s0: State, trace: seq<State>, acts: seq<Action>, p: string, a: string)
    returns (tr: seq<State>, ac: seq<Action>)
    requires Chain(s0, trace, acts)
    requires var s := Last(trace); var r := s.RoundOf(p);
      && r.Accepting? && r.i == |r.targets| && Quorum(s.nodes, Names(r.accepts)) && a in s.acc
    ensures Chain(s0, tr, ac)
    ensures var s := Last(trace); var r := s.RoundOf(p);
      Becomes(s, Last(tr), a, Decide(s.acc[a], s.inst, r.v), p, Deciding(r.b, r.v, r.accepts))
  {
    var r := Last(trace).RoundOf(p);
    var t := Conclude(Last(trace), p, a);
    tr, ac := ExtendThree(trace, acts, EndAccept(p), Tell(p), HandleDecide(a, r.v), t);
  }

  lemma RoundRun(s0: State, trace: seq<State>, acts: seq<Action>, x: Action)
    returns (tr: seq<State>, ac: seq<Action>)
    requires Chain(s0, trace, acts) && (x.Skip? || x.EndPrepare?) && Ready(Last(trace), x)
    ensures Chain(s0, tr, ac)
    ensures var s := Last(trace);
      && Last(tr).nodes == s.nodes && Last(tr).inst == s.inst && Last(tr).acc == s.acc
      && Last(tr).rounds == s.rounds[x.p := Apply(s, x).RoundOf(x.p)]
  {
    tr, ac := Extend(trace, acts, x, Apply(Last(trace), x));
  }

  /** Where a run from s0 of the three nodes stands: their acceptors and the rounds of b and c. */
  predicate At(s0: State, tr: seq<State>, ac: seq<Action>, a: Acceptor, b: Acceptor, c: Acceptor, rb: Round, rc: Round) {
    && Chain(s0, tr, ac)
    && var s := Last(tr);
       && s.nodes == ["a", "b", "c"] && s.inst == 1
       && "a" in s.acc && s.acc["a"] == a && "b" in s.acc && s.acc["b"] == b && "c" in s.acc && s.acc["c"] == c
       && s.RoundOf("b") == rb && s.RoundOf("c") == rc
  }

  lemma NamesDiffer()
    ensures "a" != "b" && "b" != "c" && "a" != "c"
  {
    assert "b"[0] != "a"[0] && "c"[0] != "a"[0] && "c"[0] != "b"[0];
  }

  lemma ThreeNodes() returns (s0: State)
    ensures Init(s0) && s0.nodes == ["a", "b", "c"] && s0.inst == 1 && s0.rounds == map[]
    ensures s0.acc == map["a" := Fresh("a"), "b" := Fresh("b"), "c" := Fresh("c")]
    ensures s0.num == map["a" := 0, "b" := 0, "c" := 0]
  {
    var acc := map["a" := Fresh("a"), "b" := Fresh("b"), "c" := Fresh("c")];
    s0 := State(["a", "b", "c"], 1, acc, map["a" := 0, "b" := 0, "c" := 0], map[], {}, {}, {}, {}, {});
    StartsDurable("a", false, "");
    StartsDurable("b", false, "");
    StartsDurable("c", false, "");
    NamesDiffer();
  }

  /** Both proposers start before any acceptor has promised, so both get number 1. */
  lemma BothStart() returns (s0: State, tr: seq<State>, ac: seq<Action>)
    ensures Init(s0)
    ensures At(s0, tr, ac, Fresh("a"), Fresh("b"), Fresh("c"),
               Preparing(Prop(1, "b"), "x", 0, [], NoBest, []), Preparing(Prop(1, "c"), "y", 0, [], NoBest, []))
  {
    s0 := ThreeNodes();
    NamesDiffer();
    var s1 := Apply(s0, Start("b", "x"));
    tr, ac := Extend([s0], [], Start("b", "x"), s1);
    tr, ac := Extend(tr, ac, Start("c", "y"), Apply(s1, Start("c", "y")));
  }

  /** Two acceptors and one round have changed. */
  predicate BecomesTwo(s: State, t: State, x: string, c: Acceptor, y: string, d: Acceptor, p: string, r: Round) {
    && t.nodes == s.nodes && t.inst == s.inst
    && t.acc == s.acc[x := c][y := d] && t.rounds == s.rounds[p := r]
  }

  /** Of three nodes, proposer p gets promises from the first and from one of the others. */
  lemma TwoPromise(s0: State, trace: seq<State>, acts: seq<Action>, p: string, x: string, y: string, b: Prop, cv: string)
    returns (tr: seq<State>, ac: seq<Action>)
    requires Chain(s0, trace, acts) && x != y
    requires var s := Last(trace);
      && s.RoundOf(p) == Preparing(b, cv, 0, [], NoBest, []) && |s.nodes| == 3 && s.nodes[0] == x
      && (s.nodes[1] == y || s.nodes[2] == y) && x in s.acc && y in s.acc && Quorum(s.nodes, Names([x, y]))
      && Prepare(s.acc[x], s.inst, b).1 == Prepare(s.acc[y], s.inst, b).1 == Accepted(Prop(0, ""), "")
    ensures Chain(s0, tr, ac)
    ensures var s := Last(trace);
      BecomesTwo(s, Last(tr), x, Prepare(s.acc[x], s.inst, b).0, y, Prepare(s.acc[y], s.inst, b).0, p,
                 Accepting(b, cv, [x, y], 0, []))
  {
    var m;
    tr, ac, m := PromiseRun(s0, trace, acts, p, x);
    if Last(trace).nodes[1] == y {
      tr, ac, m := PromiseRun(s0, tr, ac, p, y);
      tr, ac := RoundRun(s0, tr, ac, Skip(p));
    } else {
      tr, ac := RoundRun(s0, tr, ac, Skip(p));
      tr, ac, m := PromiseRun(s0, tr, ac, p, y);
    }
    assert [] + [x] + [y] == [x, y];
    tr, ac := RoundRun(s0, tr, ac, EndPrepare(p));
  }

  /** Both nodes that promised vote. */
  lemma TwoVote(s0: State, trace: seq<State>, acts: seq<Action>, p: string, x: string, y: string, b: Prop, v: string)
    returns (tr: seq<State>, ac: seq<Action>)
    requires Chain(s0, trace, acts) && x != y
    requires var s := Last(trace);
      && s.RoundOf(p) == Accepting(b, v, [x, y], 0, []) && x in s.acc && y in s.acc
      && Accept(s.acc[x], b, v).1 && Accept(s.acc[y], b, v).1
    ensures Chain(s0, tr, ac)
    ensures var s := Last(trace);
      BecomesTwo(s, Last(tr), x, Accept(s.acc[x], b, v).0, y, Accept(s.acc[y], b, v).0, p,
                 Accepting(b, v, [x, y], 2, [x, y]))
  {
    tr, ac := VoteRun(s0, trace, acts, p, x);
    tr, ac := VoteRun(s0, tr, ac, p, y);
    assert [] + [x] + [y] == [x, y];
  }

  /** Proposer b gets promises from a and c, and proposer c from a and b. */
  lemma BothPrepared() returns (s0: State, tr: seq<State>, ac: seq<Action>)
    ensures Init(s0)
    ensures var nb, nc := Prop(1, "b"), Prop(1, "c");
      At(s0, tr, ac, Prepare(Prepare(Fresh("a"), 1, nb).0, 1, nc).0, Prepare(Fresh("b"), 1, nc).0,
         Prepare(Fresh("c"), 1, nb).0, Accepting(nb, "x", ["a", "c"], 0, []), Accepting(nc, "y", ["a", "b"], 0, []))
  {
    Answers();
    NamesDiffer();
    TwoOfThree();
    s0, tr, ac := BothStart();
    tr, ac := TwoPromise(s0, tr, ac, "b", "a", "c", Prop(1, "b"), "x");
    tr, ac := TwoPromise(s0, tr, ac, "c", "a", "b", Prop(1, "c"), "y");
  }

  /** Both nodes that promised vote for c's value, and a decides it. */
  lemma AcceptC(s0: State, trace: seq<State>, acts: seq<Action>, a: Acceptor, b: Acceptor, c: Acceptor, rb: Round)
    returns (tr: seq<State>, ac: seq<Action>, rc: Round)
    requires At(s0, trace, acts, a, b, c, rb, Accepting(Prop(1, "c"), "y", ["a", "b"], 0, []))
    requires Accept(a, Prop(1, "c"), "y").1 && Accept(b, Prop(1, "c"), "y").1
    ensures At(s0, tr, ac, Decide(Accept(a, Prop(1, "c"), "y").0, 1, "y"), Accept(b, Prop(1, "c"), "y").0, c, rb, rc)
  {
    NamesDiffer();
    TwoOfThree();
    tr, ac := TwoVote(s0, trace, acts, "c", "a", "b", Prop(1, "c"), "y");
    tr, ac := ConcludeRun(s0, tr, ac, "c", "a");
    rc := Last(tr).RoundOf("c");
  }

  /** Both nodes that promised vote for b's value, and c decides it. */
  lemma AcceptB(s0: State, trace: seq<State>, acts: seq<Action>, a: Acceptor, b: Acceptor, c: Acceptor, rc: Round)
    returns (tr: seq<State>, ac: seq<Action>, rb: Round)
    requires At(s0, trace, acts, a, b, c, Accepting(Prop(1, "b"), "x", ["a", "c"], 0, []), rc)
    requires Accept(a, Prop(1, "b"), "x").1 && Accept(c, Prop(1, "b"), "x").1
    ensures At(s0, tr, ac, Accept(a, Prop(1, "b"), "x").0, b, Decide(Accept(c, Prop(1, "b"), "x").0, 1, "x"), rb, rc)
  {
    NamesDiffer();
    TwoOfThree();
    tr, ac := TwoVote(s0, trace, acts, "b", "a", "c", Prop(1, "b"), "x");
    tr, ac := ConcludeRun(s0, tr, ac, "b", "c");
    rb := Last(tr).RoundOf("b");
  }

  /** Without the hypothesis a run reaches two decided values.  Of three nodes, b prepares number (1, b)
      at a and c, and c prepares (1, c) at a and b.  Both of c's accept requests are granted and a is
      told to decide "y", which resets its numbers.  Now b's accept request for "x", late, is granted
      by a although a has promised (1, c) and decided; c grants it too, and decides "x". */
  lemma LateAcceptBreaksAgreement() returns (tr: seq<State>, ac: seq<Action>)
    ensures RunAsWritten(tr, ac)
    ensures var s := Last(tr);
      && "a" in s.acc && Decided(s, "a") && s.acc["a"].Value(s.inst) == "y"
      && "c" in s.acc && Decided(s, "c") && s.acc["c"].Value(s.inst) == "x"
  {
    Answers();
    NamesDiffer();
    TwoOfThree();
    var nb, nc := Prop(1, "b"), Prop(1, "c");
    var s0, rc, rb;
    s0, tr, ac := BothPrepared();
    var a2, b1 := Prepare(Prepare(Fresh("a"), 1, nb).0, 1, nc).0, Prepare(Fresh("b"), 1, nc).0;
    var c1 := Prepare(Fresh("c"), 1, nb).0;
    tr, ac, rc := AcceptC(s0, tr, ac, a2, b1, c1, Accepting(nb, "x", ["a", "c"], 0, []));
    tr, ac, rb := AcceptB(s0, tr, ac, Decide(Accept(a2, nc, "y").0, 1, "y"), Accept(b1, nc, "y").0, c1, rc);
  }
}
