/** Proposal numbers, the Paxos acceptor (paxos.cc) and its durable log (log.cc, as records). */
module Acceptor {

  /** A proposal number: a counter and the name of the proposer. */
  datatype Prop = Prop(n: nat, m: string)

  /** `a > b` of std::string: bytewise, a longer string above its prefix. */
  predicate StrAbove(a: string, b: string) {
    a != [] && (b == [] || a[0] > b[0] || (a[0] == b[0] && StrAbove(a[1..], b[1..])))
  }

  predicate Above(a: Prop, b: Prop) {
    a.n > b.n || (a.n == b.n && StrAbove(a.m, b.m))
  }

  predicate AtLeast(a: Prop, b: Prop) {
    a.n > b.n || (a.n == b.n && (StrAbove(a.m, b.m) || a.m == b.m))
  }

  lemma {:induction false} StrOrder(a: string, b: string, c: string)
    ensures !StrAbove(a, a)
    ensures StrAbove(a, b) || StrAbove(b, a) || a == b
    ensures !(StrAbove(a, b) && StrAbove(b, a))
    ensures StrAbove(a, b) && StrAbove(b, c) ==> StrAbove(a, c)
  {
    if a == [] {
    } else {
      StrOrder(a[1..], if b == [] then [] else b[1..], if c == [] then [] else c[1..]);
      if b != [] && a[0] == b[0] && a[1..] == b[1..] {
        assert a == [a[0]] + a[1..] && b == [b[0]] + b[1..];
      }
    }
  }

  /** The first place where they differ decides, and a string is above its proper prefixes. */
  lemma {:induction false} StrAboveMeans(a: string, b: string)
    ensures StrAbove(a, b) <==> exists k :: 0 <= k < |a| && k <= |b| && a[..k] == b[..k] && (k == |b| || a[k] > b[k])
  {
    if a != [] && b != [] {
      StrAboveMeans(a[1..], b[1..]);
      if k :| 0 <= k < |a[1..]| && k <= |b[1..]| && a[1..][..k] == b[1..][..k]
              && (k == |b[1..]| || a[1..][k] > b[1..][k]) {
        assert a[0] == b[0] ==> a[..k + 1] == [a[0]] + a[1..][..k] == b[..k + 1];
      }
      if k :| 0 < k < |a| && k <= |b| && a[..k] == b[..k] && (k == |b| || a[k] > b[k]) {
        assert a[0] == a[..k][0] == b[..k][0] == b[0];
        assert a[1..][..k - 1] == a[..k][1..] == b[..k][1..] == b[1..][..k - 1];
      }
      assert a[..0] == b[..0];
    } else {
      assert a[..0] == b[..0];
    }
  }

  /** Proposal numbers are totally ordered and `>=` is `>` or equal. */
  lemma PropOrder(a: Prop, b: Prop, c: Prop)
    ensures !Above(a, a)
    ensures Above(a, b) || Above(b, a) || a == b
    ensures !(Above(a, b) && Above(b, a))
    ensures Above(a, b) && Above(b, c) ==> Above(a, c)
    ensures AtLeast(a, b) <==> Above(a, b) || a == b
  {
    StrOrder(a.m, b.m, c.m);
  }

  datatype Record = Done(inst: nat, v: string) | High(p: Prop) | Proposed(p: Prop, v: string)

  datatype Acceptor = Acceptor(me: string, nh: Prop, na: Prop, va: string, instH: nat,
                               values: map<nat, string>, log: seq<Record>)
  {
    function Value(inst: nat): string {
      if inst in values then values[inst] else ""
    }
  }

  datatype PrepareRes = OldInstance(v: string) | Accepted(na: Prop, va: string) | Rejected

  function Fresh(me: string): Acceptor {
    Acceptor(me, Prop(0, me), Prop(0, me), "", 0, map[], [])
  }

  function Prepare(a: Acceptor, inst: nat, n: Prop): (Acceptor, PrepareRes) {
    if inst <= a.instH then
      (a.(values := a.values[inst := a.Value(inst)]), OldInstance(a.Value(inst)))
    else if Above(n, a.nh) then
      (a.(nh := n, log := a.log + [High(n)]), if a.na.n == 0 then Accepted(Prop(0, ""), "") else Accepted(a.na, a.va))
    else
      (a, Rejected)
  }

  /** The instance of the request is not looked at. */
  function Accept(a: Acceptor, n: Prop, v: string): (Acceptor, bool) {
    if AtLeast(n, a.nh) then (a.(na := n, va := v, log := a.log + [Proposed(n, v)]), true)
    else (a, false)
  }

  function Commit(a: Acceptor, inst: nat, v: string): Acceptor {
    if inst > a.instH then
      Acceptor(a.me, Prop(0, a.me), Prop(0, a.me), "", inst, a.values[inst := v], a.log + [Done(inst, v)])
    else a
  }

  function Decide(a: Acceptor, inst: nat, v: string): Acceptor {
    if !(inst <= a.instH) then Commit(a, inst, v) else a
  }

  // ---------------------------------------------------------------- replay of the log

  /** `logread` on one record: the names of a number that becomes zero are left as they were. */
  function ReplayOne(a: Acceptor, r: Record): Acceptor {
    match r
    case Done(inst, v) =>
      a.(values := a.values[inst := v], instH := inst, va := "", nh := a.nh.(n := 0), na := a.na.(n := 0))
    case High(p) => a.(nh := p)
    case Proposed(p, v) => a.(na := p, va := v)
  }

  function Replay(a: Acceptor, log: seq<Record>): Acceptor {
    if log == [] then a else ReplayOne(Replay(a, log[..|log| - 1]), log[|log| - 1])
  }

  /** The acceptor that starts on an existing log. */
  function Restart(me: string, log: seq<Record>): Acceptor {
    Replay(Fresh(me), log).(log := log)
  }

  /** The node that founds the system records the first view as instance 1. */
  function Founded(a: Acceptor, v: string): Acceptor {
    a.(values := a.values[1 := v], instH := 1, log := a.log + [Done(1, v)])
  }

  /** The state in which a node starts on its log. */
  function Started(me: string, log: seq<Record>, first: bool, v: string): Acceptor {
    var a := Restart(me, log);
    if a.instH == 0 && first then Founded(a, v) else a
  }

  predicate SameProp(p: Prop, q: Prop) {
    p == q || (p.n == 0 && q.n == 0)
  }

  /** Nobody who sends proposal numbers from 1 up can tell the two apart. */
  ghost predicate Alike(a: Acceptor, b: Acceptor) {
    && a.me == b.me && SameProp(a.nh, b.nh) && SameProp(a.na, b.na) && a.va == b.va
    && a.instH == b.instH && a.log == b.log
    && forall i: nat :: a.Value(i) == b.Value(i)
  }

  datatype Request = PrepareReq(inst: nat, n: Prop) | AcceptReq(n: Prop, v: string) | DecideReq(inst: nat, v: string)

  datatype Reply = PrepareReply(r: PrepareRes) | AcceptReply(ok: bool) | DecideReply

  function Handle(a: Acceptor, q: Request): (Acceptor, Reply) {
    match q
    case PrepareReq(inst, n) =>
      var (b, r) := Prepare(a, inst, n);
      (b, PrepareReply(r))
    case AcceptReq(n, v) =>
      var (b, ok) := Accept(a, n, v);
      (b, AcceptReply(ok))
    case DecideReq(inst, v) => (Decide(a, inst, v), DecideReply)
  }

  predicate Numbered(q: Request) {
    q.DecideReq? || q.n.n >= 1
  }

  function HandleAll(a: Acceptor, qs: seq<Request>): (Acceptor, seq<Reply>)
    decreases |qs|
  {
    if qs == [] then (a, [])
    else
      var (b, r) := Handle(a, qs[0]);
      var (c, rs) := HandleAll(b, qs[1..]);
      (c, [r] + rs)
  }

  lemma AlikeStep(a: Acceptor, b: Acceptor, q: Request)
    requires Alike(a, b) && Numbered(q)
    ensures Alike(Handle(a, q).0, Handle(b, q).0) && Handle(a, q).1 == Handle(b, q).1
  {
    assert q.PrepareReq? ==> a.Value(q.inst) == b.Value(q.inst);
    forall i: nat ensures Handle(a, q).0.Value(i) == Handle(b, q).0.Value(i) {
      assert a.Value(i) == b.Value(i);
    }
  }

  lemma {:induction false} AlikeAnswers(a: Acceptor, b: Acceptor, qs: seq<Request>)
    requires Alike(a, b) && forall i | 0 <= i < |qs| :: Numbered(qs[i])
    ensures HandleAll(a, qs).1 == HandleAll(b, qs).1 && Alike(HandleAll(a, qs).0, HandleAll(b, qs).0)
    decreases |qs|
  {
    if qs != [] {
      AlikeStep(a, b, qs[0]);
      AlikeAnswers(Handle(a, qs[0]).0, Handle(b, qs[0]).0, qs[1..]);
    }
  }

  /** The log on disk stands for the state in memory. */
  ghost predicate Durable(a: Acceptor) {
    Alike(a, Restart(a.me, a.log))
  }

  lemma ReplayAppend(a: Acceptor, log: seq<Record>, r: Record)
    ensures Replay(a, log + [r]) == ReplayOne(Replay(a, log), r)
  {
    assert (log + [r])[..|log|] == log;
  }

  lemma {:induction false} ReplayMe(a: Acceptor, log: seq<Record>)
    ensures Replay(a, log).me == a.me
  {
    if log != [] { ReplayMe(a, log[..|log| - 1]); }
  }

  /** The step from `a` to `b` wrote the record `r`, and reading it back has the same effect. */
  lemma DurableAppend(a: Acceptor, b: Acceptor, r: Record)
    requires Durable(a) && b.log == a.log + [r] && b.me == a.me
    requires Alike(b, ReplayOne(a, r).(log := b.log))
    ensures Durable(b)
  {
    var c := Restart(a.me, a.log);
    ReplayAppend(Fresh(a.me), a.log, r);
    ReplayMe(Fresh(a.me), a.log);
    var d := Restart(b.me, b.log);
    assert d == ReplayOne(c, r).(log := b.log);
    forall i: nat ensures b.Value(i) == d.Value(i) {
      assert b.Value(i) == ReplayOne(a, r).(log := b.log).Value(i) && a.Value(i) == c.Value(i);
    }
  }

  lemma DurableStep(a: Acceptor, q: Request)
    requires Durable(a)
    ensures Durable(Handle(a, q).0)
  {
    var b := Handle(a, q).0;
    if |b.log| > |a.log| {
      DurableAppend(a, b, b.log[|a.log|]);
    } else {
      forall i: nat ensures b.Value(i) == Restart(b.me, b.log).Value(i) {
        assert a.Value(i) == Restart(a.me, a.log).Value(i);
      }
    }
  }

  lemma {:induction false} DurableRun(a: Acceptor, qs: seq<Request>)
    requires Durable(a)
    ensures Durable(HandleAll(a, qs).0)
    decreases |qs|
  {
    if qs != [] {
      DurableStep(a, qs[0]);
      DurableRun(Handle(a, qs[0]).0, qs[1..]);
    }
  }

  lemma StartsDurable(me: string, first: bool, v: string)
    ensures Durable(Started(me, [], first, v))
  {
    ReplayAppend(Fresh(me), [], Done(1, v));
  }

  /** The founding node starts with the first view as instance 1, any other new node with no instance. */
  lemma FounderHasFirstView(me: string, first: bool, v: string)
    ensures var a := Started(me, [], first, v);
      a.instH == (if first then 1 else 0) && a.Value(1) == (if first then v else "") && a.nh.n == a.na.n == 0
  {
  }

  /** A crash at any moment cannot be noticed: after any requests `past`, the acceptor that restarts
      on the log answers all `later` requests, with proposal numbers from 1 up, exactly as the one
      that kept running. */
  lemma CrashTransparent(first: Acceptor, past: seq<Request>, later: seq<Request>)
    requires Durable(first) && forall i | 0 <= i < |later| :: Numbered(later[i])
    ensures var a := HandleAll(first, past).0;
      HandleAll(a, later).1 == HandleAll(Restart(a.me, a.log), later).1
  {
    DurableRun(first, past);
    var a := HandleAll(first, past).0;
    AlikeAnswers(a, Restart(a.me, a.log), later);
  }

  lemma SameStep(a: Acceptor, b: Acceptor, q: Request)
    requires Alike(a, b) && a.nh == b.nh
    ensures Alike(Handle(a, q).0, Handle(b, q).0) && Handle(a, q).0.nh == Handle(b, q).0.nh
    ensures Handle(a, q).1 == Handle(b, q).1
  {
    assert q.PrepareReq? ==> a.Value(q.inst) == b.Value(q.inst);
    forall i: nat ensures Handle(a, q).0.Value(i) == Handle(b, q).0.Value(i) {
      assert a.Value(i) == b.Value(i);
    }
  }

  lemma {:induction false} SameAnswers(a: Acceptor, b: Acceptor, qs: seq<Request>)
    requires Alike(a, b) && a.nh == b.nh
    ensures HandleAll(a, qs).1 == HandleAll(b, qs).1
    decreases |qs|
  {
    if qs != [] {
      SameStep(a, b, qs[0]);
      SameAnswers(Handle(a, qs[0]).0, Handle(b, qs[0]).0, qs[1..]);
    }
  }

  /** The request that tells two acceptors with different promises apart: the larger promise again. */
  lemma ProbeTells(a: Acceptor, b: Acceptor) returns (q: Request)
    requires Alike(a, b) && a.nh != b.nh
    ensures HandleAll(a, [q]).1 != HandleAll(b, [q]).1
  {
    PropOrder(a.nh, b.nh, a.nh);
    PropOrder(b.nh, a.nh, b.nh);
    q := PrepareReq(a.instH + 1, if Above(a.nh, b.nh) then a.nh else b.nh);
    assert HandleAll(a, [q]).1[0] == Handle(a, q).1 && HandleAll(b, [q]).1[0] == Handle(b, q).1;
  }

  /** All requests, those with number 0 included, are answered alike by the acceptor that restarts on
      the log and the one that kept running if and only if replay restores the promised number with its
      name.  Number 0 takes a sender other than this proposer, whose numbers start at 1. */
  lemma RestartUnnoticedIff(a: Acceptor)
    requires Durable(a)
    ensures (forall qs: seq<Request> :: HandleAll(a, qs).1 == HandleAll(Restart(a.me, a.log), qs).1)
       <==> a.nh == Restart(a.me, a.log).nh
  {
    var b := Restart(a.me, a.log);
    if a.nh == b.nh {
      forall qs: seq<Request> ensures HandleAll(a, qs).1 == HandleAll(b, qs).1 {
        SameAnswers(a, b, qs);
      }
    } else {
      var q := ProbeTells(a, b);
    }
  }

  lemma HandleTwo(a: Acceptor, q: Request, r: Request)
    ensures HandleAll(a, [q, r]).0 == Handle(Handle(a, q).0, r).0
  {
    assert [q, r][1..] == [r] && [r][1..] == [];
    assert HandleAll(Handle(a, q).0, [r]).0 == Handle(Handle(a, q).0, r).0;
  }

  /** The bound on the numbers is needed: number 0 is compared by name, and replay does not restore
      the name of a zero number. */
  lemma ZeroNumberTellsRestart()
    ensures var a := HandleAll(Fresh("a"), [PrepareReq(1, Prop(1, "b")), DecideReq(1, "v")]).0;
      var probe := PrepareReq(2, Prop(0, "b"));
      Handle(a, probe).1 != Handle(Restart("a", a.log), probe).1
  {
    var p := Prop(1, "b");
    var f := Fresh("a");
    HandleTwo(f, PrepareReq(1, p), DecideReq(1, "v"));
    var a := HandleAll(f, [PrepareReq(1, p), DecideReq(1, "v")]).0;
    assert a.nh == Prop(0, "a") && a.instH == 1 && a.log == [High(p)] + [Done(1, "v")];
    ReplayAppend(f, [High(p)], Done(1, "v"));
    ReplayAppend(f, [], High(p));
    assert [] + [High(p)] == [High(p)];
    var b := Restart("a", a.log);
    assert b.nh == Prop(0, "b") && b.instH == 1;
    StrOrder("b", "b", "b");
    assert StrAbove("b", "a");
  }

  class AcceptorNode {
    const me: string
    var nh: Prop
    var na: Prop
    var va: string
    var instH: nat
    var values: map<nat, string>
    var log: seq<Record>

    function View(): Acceptor
      reads this
    {
      Acceptor(me, nh, na, va, instH, values, log)
    }

    /** Start, reading the log that is on disk. */
    constructor (me: string, log: seq<Record>, first: bool, v: string)
      ensures View() == Started(me, log, first, v)
    {
      this.me := me;
      nh, na, va, instH, values := Prop(0, me), Prop(0, me), "", 0, map[];
      this.log := log;
      new;
      LogRead();
      if instH == 0 && first {
        values := values[1 := v];
        this.log := log + [Done(1, v)];
        instH := 1;
      }
    }

    method LogRead()
      requires nh == Prop(0, me) && na == Prop(0, me) && va == "" && instH == 0 && values == map[]
      modifies this
      ensures View() == Restart(me, log) && log == old(log)
    {
      var records, i := log, 0;
      while i < |records|
        invariant 0 <= i <= |records| && log == old(log)
        invariant View() == Replay(Fresh(me), records[..i]).(log := log)
      {
        assert records[..i + 1] == records[..i] + [records[i]];
        ReplayAppend(Fresh(me), records[..i], records[i]);
        match records[i] {
          case Done(inst, v) =>
            values := values[inst := v];
            instH := inst;
            va := "";
            nh := nh.(n := 0);
            na := na.(n := 0);
          case High(p) =>
            nh := p;
          case Proposed(p, v) =>
            na := p;
            va := v;
        }
        i := i + 1;
      }
      assert records[..i] == records;
    }

    method Preparereq(inst: nat, n: Prop) returns (r: PrepareRes)
      modifies this
      ensures (View(), r) == Prepare(old(View()), inst, n)
      ensures old(log) <= log && instH == old(instH) && (nh == old(nh) || Above(nh, old(nh)))
      ensures r.Accepted? <==> inst > instH && nh == n && Above(n, old(nh))
    {
      if inst <= instH {
        if inst !in values {
          values := values[inst := ""];
        } else {
          assert values == values[inst := values[inst]];
        }
        return OldInstance(values[inst]);
      }
      PropOrder(n, nh, nh);
      if Above(n, nh) {
        nh := n;
        log := log + [High(nh)];
        if na.n == 0 {
          return Accepted(Prop(0, ""), "");
        } else {
          return Accepted(na, va);
        }
      }
      return Rejected;
    }

    method Acceptreq(n: Prop, v: string) returns (ok: bool)
      modifies this
      ensures (View(), ok) == Accept(old(View()), n, v)
      ensures old(log) <= log && nh == old(nh) && (ok ==> na == n && va == v)
    {
      if AtLeast(n, nh) {
        na := n;
        va := v;
        log := log + [Proposed(na, va)];
        return true;
      }
      return false;
    }

    method Decidereq(inst: nat, v: string)
      modifies this
      ensures View() == Decide(old(View()), inst, v)
      ensures old(log) <= log && instH >= inst && instH >= old(instH)
    {
      if !(inst <= instH) {
        CommitWo(inst, v);
      }
    }

    method CommitWo(inst: nat, v: string)
      modifies this
      ensures View() == Commit(old(View()), inst, v)
      ensures old(log) <= log && instH >= inst && instH >= old(instH)
    {
      if inst > instH {
        values := values[inst := v];
        log := log + [Done(inst, v)];
        instH := inst;
        nh := Prop(0, me);
        na := Prop(0, me);
        va := "";
      }
    }
  }
}
