/** client_invoke as the replica runs it and as the protocol's steps: every way in which the calls to the
    members can end is played by the primary's steps, and the primary's steps in a run are always one of
    those ways. */
module RsmCalls {
  import opened Rsm
  import opened RsmOrder
  import opened Sequences

  /** Playing the actions leads from s to t. */
  ghost predicate Plays(s: State, acts: seq<Action>, t: State)
    decreases |acts|
  {
    if acts == [] then s == t else Enabled(s, acts[0]) && Plays(Apply(s, acts[0]), acts[1..], t)
  }

  lemma {:induction false} PlaysOn(s: State, a: seq<Action>, t: State, b: seq<Action>, u: State)
    requires Plays(s, a, t) && Plays(t, b, u)
    ensures Plays(s, a + b, u)
    decreases |a|
  {
    if a == [] {
      assert a + b == b;
    } else {
      PlaysOn(Apply(s, a[0]), a[1..], t, b, u);
      assert (a + b)[1..] == a[1..] + b;
    }
  }

  lemma PlaysOne(s: State, a: Action)
    requires Enabled(s, a)
    ensures Plays(s, [a], Apply(s, a))
  {
    assert [a][1..] == [];
  }

  lemma PlaysTwo(s: State, a: Action, b: Action)
    requires Enabled(s, a) && Enabled(Apply(s, a), b)
    ensures Plays(s, [a, b], Apply(Apply(s, a), b))
  {
    assert [a, b][1..] == [b];
    PlaysOne(Apply(s, a), b);
  }

  // ---------------------------------------------------------------- the primary's steps

  predicate OwnAct(a: Action) {
    !a.Execute? && !a.Stamp? && !a.Refuse?
  }

  /** The steps of the primary among these. */
  function Own(acts: seq<Action>): seq<Action> {
    if acts == [] then [] else (if OwnAct(acts[0]) then [acts[0]] else []) + Own(acts[1..])
  }

  lemma {:induction false} OwnCat(a: seq<Action>, b: seq<Action>)
    ensures Own(a + b) == Own(a) + Own(b)
  {
    if a == [] {
      assert a + b == b;
    } else {
      OwnCat(a[1..], b);
      assert (a + b)[1..] == a[1..] + b;
      Cat(if OwnAct(a[0]) then [a[0]] else [], Own(a[1..]), Own(b));
    }
  }

  lemma OwnOne(a: Action)
    ensures Own([a]) == if OwnAct(a) then [a] else []
  {
    assert [a][1..] == [];
  }

  lemma OwnTwo(a: Action, b: Action)
    ensures Own([a, b]) == (if OwnAct(a) then [a] else []) + (if OwnAct(b) then [b] else [])
  {
    assert [a, b][1..] == [b];
    OwnOne(b);
  }

  /** What the primary does about one member whose call ends like this. */
  function PlaceActs(x: string, me: string, o: Outcome): seq<Action> {
    if x == me then [Skip]
    else
      match o
      case NoHandle => [GiveUp]
      case Ret(r) => if r < 0 then [Send, GiveUp] else [Send, Answered]
  }

  /** The primary's steps after Begin when the calls end like this. */
  function PrimaryActs(mems: seq<string>, me: string, outcomes: seq<Outcome>): (r: seq<Action>)
    requires |outcomes| == |mems|
    ensures r != []
  {
    if mems == [] then [Finish]
    else
      var here := PlaceActs(mems[0], me, outcomes[0]);
      if here[|here| - 1] == GiveUp then here else here + PrimaryActs(mems[1..], me, outcomes[1..])
  }

  function Last(acts: seq<Action>): Action
    requires acts != []
  {
    acts[|acts| - 1]
  }

  /** They end in Finish exactly if client_invoke returns OK, and in GiveUp otherwise. */
  lemma {:induction false} FinishIsOk(mems: seq<string>, me: string, outcomes: seq<Outcome>)
    requires |outcomes| == |mems|
    ensures Last(PrimaryActs(mems, me, outcomes)) ==
            if Reached(mems, me, outcomes) == |mems| then Finish else GiveUp
    ensures Reached(mems, me, outcomes) == |mems| <==> AllAnswered(mems, me, outcomes)
  {
    if mems != [] {
      FinishIsOk(mems[1..], me, outcomes[1..]);
    }
  }

  // ---------------------------------------------------------------- every outcome is played

  /** Messages are numbered by attempt and place, so those of a new attempt have not been handled. */
  predicate Tidy(s: State) {
    && Listed(s) && s.handled <= s.net
    && (forall m | m in s.net :: m.attempt <= s.attempt &&
         (s.phase.Calling? && m.attempt == s.attempt ==> m.place < s.phase.k || (m.place == s.phase.k && s.phase.sent)))
  }

  lemma TidyStep(s: State, a: Action)
    requires Tidy(s) && Enabled(s, a)
    ensures Tidy(Apply(s, a))
  {
  }

  lemma {:induction false} TidyRun(trace: seq<State>, acts: seq<Action>, k: nat)
    requires Run(trace, acts) && k <= |acts|
    ensures Tidy(trace[k])
  {
    if k > 0 {
      TidyRun(trace, acts, k - 1);
      TidyStep(trace[k - 1], acts[k - 1]);
    }
  }

  /** The primary and its loop are as before. */
  predicate Waits(s: State, t: State) {
    && t.me == s.me && t.mems == s.mems && t.phase == s.phase && t.attempt == s.attempt && t.net == s.net
    && s.me in s.nodes && t.me in t.nodes && Primary(t) == Primary(s)
  }

  /** The backup handles the message, whether it executes or refuses it, and its answer is there. */
  lemma BackupAnswers(s: State) returns (acts: seq<Action>, t: State)
    requires Tidy(s) && AtBackup(s) && Current(s) in s.net && Current(s) !in s.handled
    ensures Plays(s, acts, t) && Own(acts) == [] && Tidy(t) && Waits(s, t) && Current(s) in t.answered
    ensures acts == [Refuse(Current(s))] || (|acts| == 2 && acts[0] == Execute(Current(s)))
  {
    var m := Current(s);
    var n := s.nodes[m.to];
    if IsNext(n, m) {
      var i, u := |n.unstamped|, Apply(s, Execute(m));
      assert u.nodes[m.to].unstamped[i] == m;
      acts, t := [Execute(m), Stamp(m.to, i)], Apply(u, Stamp(m.to, i));
      PlaysTwo(s, Execute(m), Stamp(m.to, i));
      TidyStep(s, Execute(m));
      TidyStep(u, Stamp(m.to, i));
      OwnTwo(Execute(m), Stamp(m.to, i));
    } else {
      acts, t := [Refuse(m)], Apply(s, Refuse(m));
      PlaysOne(s, Refuse(m));
      OwnOne(Refuse(m));
      TidyStep(s, Refuse(m));
    }
  }

  /** Who was sent a message between s and t. */
  function NewTo(s: State, t: State): set<string> {
    set m | m in t.net && m !in s.net :: m.to
  }

  /** One call to a backup that is answered. */
  lemma AnsweredPlays(s: State) returns (acts: seq<Action>, t: State)
    requires Tidy(s) && AtBackup(s) && !s.phase.sent
    ensures Plays(s, acts, t) && Own(acts) == [Send, Answered]
    ensures Tidy(t) && t.me == s.me && t.mems == s.mems && Primary(t) == Primary(s)
    ensures t.phase == Calling(s.phase.req, s.phase.k + 1, false) && t.net == s.net + {Current(s)}
  {
    var s1 := Sends(s);
    var more, s2 := BackupAnswers(s1);
    t := TakesAnswer(s2);
    acts := [Send] + (more + [Answered]);
    PlaysOn(s1, more, s2, [Answered], t);
    PlaysOn(s, [Send], s1, more + [Answered], t);
    OwnAround(more);
  }

  lemma Sends(s: State) returns (t: State)
    requires Tidy(s) && AtBackup(s) && !s.phase.sent
    ensures Plays(s, [Send], t) && Tidy(t) && AtBackup(t) && Current(t) == Current(s)
    ensures t == s.(phase := s.phase.(sent := true), net := s.net + {Current(s)}) && Current(s) !in t.handled
  {
    t := Apply(s, Send);
    PlaysOne(s, Send);
    TidyStep(s, Send);
    assert Current(s) !in s.net;
  }

  lemma TakesAnswer(s: State) returns (t: State)
    requires Tidy(s) && AtBackup(s) && s.phase.sent && Current(s) in s.answered
    ensures Plays(s, [Answered], t) && Tidy(t)
    ensures t == s.(phase := Calling(s.phase.req, s.phase.k + 1, false))
  {
    t := Apply(s, Answered);
    PlaysOne(s, Answered);
    TidyStep(s, Answered);
  }

  lemma OwnAround(more: seq<Action>)
    requires Own(more) == []
    ensures Own([Send] + (more + [Answered])) == [Send, Answered]
  {
    OwnCat(more, [Answered]);
    OwnCat([Send], more + [Answered]);
    OwnOne(Send);
    OwnOne(Answered);
  }

  predicate Fails(x: string, me: string, o: Outcome) {
    x != me && (o.NoHandle? || o.ret < 0)
  }

  /** What is done about one member. */
  lemma PlacePlays(s: State, o: Outcome) returns (acts: seq<Action>, t: State)
    requires Tidy(s) && s.phase.Calling? && !s.phase.sent && s.phase.k < |s.mems|
    ensures var x := s.mems[s.phase.k];
      && Plays(s, acts, t) && Own(acts) == PlaceActs(x, s.me, o)
      && t.phase == (if Fails(x, s.me, o) then Idle else Calling(s.phase.req, s.phase.k + 1, false))
      && t.net == s.net + (if x != s.me && o.Ret? then {Current(s)} else {})
    ensures Tidy(t) && t.me == s.me && t.mems == s.mems && Primary(t) == Primary(s)
  {
    var x := s.mems[s.phase.k];
    if x == s.me {
      acts, t := [Skip], Apply(s, Skip);
      PlaysOne(s, Skip);
      TidyStep(s, Skip);
      OwnOne(Skip);
    } else if o.NoHandle? {
      acts, t := [GiveUp], Apply(s, GiveUp);
      PlaysOne(s, GiveUp);
      TidyStep(s, GiveUp);
      OwnOne(GiveUp);
    } else if o.ret < 0 {
      acts, t := [Send, GiveUp], Apply(Apply(s, Send), GiveUp);
      PlaysTwo(s, Send, GiveUp);
      TidyStep(s, Send);
      TidyStep(Apply(s, Send), GiveUp);
      OwnTwo(Send, GiveUp);
    } else {
      acts, t := AnsweredPlays(s);
    }
  }

  lemma NewToSplit(s: State, t: State, u: State)
    requires s.net <= t.net <= u.net
    ensures NewTo(s, u) == NewTo(s, t) + NewTo(t, u)
  {
    forall x | x in NewTo(s, t) + NewTo(t, u) ensures x in NewTo(s, u) {
      var m: Msg :| m.to == x && m in u.net && m !in s.net;
    }
  }

  lemma NewHere(s: State, u: State, o: Outcome)
    requires Tidy(s) && s.phase.Calling? && !s.phase.sent && s.phase.k < |s.mems|
    requires u.net == s.net + (if s.mems[s.phase.k] != s.me && o.Ret? then {Current(s)} else {})
    ensures NewTo(s, u) == if s.mems[s.phase.k] != s.me && o.Ret? then {s.mems[s.phase.k]} else {}
  {
    if s.mems[s.phase.k] != s.me && o.Ret? {
      var m := Current(s);
      assert m !in s.net && m in u.net;
      assert m.to in NewTo(s, u);
    }
  }

  lemma ContactedHere(mems: seq<string>, me: string, outs: seq<Outcome>)
    requires |outs| == |mems| && mems != [] && !Fails(mems[0], me, outs[0])
    ensures PrimaryActs(mems, me, outs) == PlaceActs(mems[0], me, outs[0]) + PrimaryActs(mems[1..], me, outs[1..])
    ensures forall x :: x in Contacted(mems, me, outs) <==>
      (mems[0] != me && x == mems[0]) || x in Contacted(mems[1..], me, outs[1..])
  {
  }

  /** The loop over the members from the place where it is. */
  lemma {:induction false} LoopPlays(s: State, outs: seq<Outcome>) returns (acts: seq<Action>, t: State)
    requires Tidy(s) && s.phase.Calling? && !s.phase.sent && s.phase.k + |outs| == |s.mems|
    ensures var own := PrimaryActs(s.mems[s.phase.k..], s.me, outs);
      && Plays(s, acts, t) && Own(acts) == own
      && t.me == s.me && s.me in t.nodes && t.phase == Idle && s.net <= t.net
      && Primary(t) == Primary(s) + if Last(own) == Finish then 1 else 0
    ensures forall x :: x in NewTo(s, t) <==> x in Contacted(s.mems[s.phase.k..], s.me, outs)
    decreases |outs|
  {
    var mems := s.mems[s.phase.k..];
    if outs == [] {
      acts, t := [Finish], Apply(s, Finish);
      PlaysOne(s, Finish);
      OwnOne(Finish);
    } else {
      var x, o := mems[0], outs[0];
      var first, u := PlacePlays(s, o);
      NewHere(s, u, o);
      if Fails(x, s.me, o) {
        acts, t := first, u;
        assert Contacted(mems, s.me, outs) == if o.Ret? then [x] else [];
      } else {
        assert u.mems[u.phase.k..] == mems[1..];
        var rest;
        rest, t := LoopPlays(u, outs[1..]);
        acts := first + rest;
        PlaysOn(s, first, u, rest, t);
        OwnCat(first, rest);
        NewToSplit(s, u, t);
        ContactedHere(mems, s.me, outs);
      }
    }
  }

  /** Whatever the calls to the members come to, after every run that leaves the primary idle its steps
      play just that call: it ends in Finish and moves the primary on exactly if every other member
      answered, a refusal included, and messages go to exactly the members client_invoke contacts. */
  lemma EveryOutcomeIsPlayed(trace: seq<State>, acts: seq<Action>, req: Request, outcomes: seq<Outcome>)
    returns (more: seq<Action>, t: State)
    requires Run(trace, acts) && trace[|acts|].phase == Idle && |outcomes| == |trace[|acts|].mems|
    ensures var s := trace[|acts|];
      && s.me in s.nodes && t.me == s.me && t.me in t.nodes
      && Plays(s, more, t) && Own(more) == [Begin(req)] + PrimaryActs(s.mems, s.me, outcomes)
      && Primary(t) == Primary(s) + (if AllAnswered(s.mems, s.me, outcomes) then 1 else 0)
      && forall x :: x in NewTo(s, t) <==> x in Contacted(s.mems, s.me, outcomes)
  {
    var s := trace[|acts|];
    TidyRun(trace, acts, |acts|);
    TidyStep(s, Begin(req));
    var u := Apply(s, Begin(req));
    assert u.mems[0..] == s.mems;
    var rest;
    rest, t := LoopPlays(u, outcomes);
    more := [Begin(req)] + rest;
    PlaysOne(s, Begin(req));
    PlaysOn(s, [Begin(req)], u, rest, t);
    OwnCat([Begin(req)], rest);
    OwnOne(Begin(req));
    FinishIsOk(s.mems, s.me, outcomes);
    assert NewTo(s, t) == NewTo(u, t);
  }

  // ---------------------------------------------------------------- every run plays an outcome

  /** The steps about the members before place k, all of them answered. */
  function Passed(mems: seq<string>, me: string, k: nat): seq<Action>
    requires k <= |mems|
  {
    if k == 0 then []
    else Passed(mems, me, k - 1) + if mems[k - 1] == me then [Skip] else [Send, Answered]
  }

  function InCall(s: State): seq<Action>
    requires s.phase.Calling? && s.phase.k <= |s.mems|
  {
    [Begin(s.phase.req)] + Passed(s.mems, s.me, s.phase.k) + if s.phase.sent then [Send] else []
  }

  lemma PassesHere(mems: seq<string>, me: string, outcomes: seq<Outcome>)
    requires |outcomes| == |mems| && mems != []
    requires mems[0] != me ==> outcomes[0].Ret? && outcomes[0].ret >= 0
    ensures PrimaryActs(mems, me, outcomes) ==
            (if mems[0] == me then [Skip] else [Send, Answered]) + PrimaryActs(mems[1..], me, outcomes[1..])
  {
  }

  lemma {:induction false} PassedIsAnswered(mems: seq<string>, me: string, outcomes: seq<Outcome>, k: nat)
    requires |outcomes| == |mems| && k <= |mems|
    requires forall i | 0 <= i < k && mems[i] != me :: outcomes[i].Ret? && outcomes[i].ret >= 0
    ensures PrimaryActs(mems, me, outcomes) == Passed(mems, me, k) + PrimaryActs(mems[k..], me, outcomes[k..])
  {
    if k == 0 {
      assert mems[0..] == mems && outcomes[0..] == outcomes;
    } else {
      PassedIsAnswered(mems, me, outcomes, k - 1);
      PassesHere(mems[k - 1..], me, outcomes[k - 1..]);
      assert mems[k - 1..][1..] == mems[k..] && outcomes[k - 1..][1..] == outcomes[k..];
      Cat(Passed(mems, me, k - 1), if mems[k - 1] == me then [Skip] else [Send, Answered],
          PrimaryActs(mems[k..], me, outcomes[k..]));
    }
  }

  lemma InCallStep(s: State, a: Action)
    requires Enabled(s, a) && s.phase.Calling? && s.phase.k <= |s.mems| && Apply(s, a).phase.Calling?
    requires s.phase.sent ==> AtBackup(s)
    ensures Apply(s, a).phase.k <= |s.mems| && (Apply(s, a).phase.sent ==> AtBackup(Apply(s, a)))
    ensures InCall(Apply(s, a)) == InCall(s) + if OwnAct(a) then [a] else []
  {
    var t := Apply(s, a);
    var b, p := [Begin(s.phase.req)], Passed(s.mems, s.me, s.phase.k);
    if a.Answered? {
      assert InCall(t) == b + (p + [Send, Answered]) + [];
      assert b + (p + [Send, Answered]) + [] == (b + p + [Send]) + [Answered];
    } else if a.Skip? {
      assert b + (p + [Skip]) + [] == (b + p + []) + [Skip];
    } else if a.Send? {
      assert b + p + [Send] == (b + p + []) + [Send];
    } else {
      assert t.phase == s.phase && t.mems == s.mems && t.me == s.me;
      assert InCall(s) + [] == InCall(s);
    }
  }

  lemma {:induction false} CallSoFar(trace: seq<State>, acts: seq<Action>, i: nat, j: nat)
    requires Run(trace, acts) && i < j <= |acts| && acts[i].Begin?
    requires forall x | i < x <= j :: trace[x].phase.Calling?
    ensures trace[j].phase.sent ==> AtBackup(trace[j])
    ensures trace[j].phase.k <= |trace[j].mems| && trace[j].mems == trace[i].mems && trace[j].me == trace[i].me
    ensures trace[j].phase.req == acts[i].req && Own(acts[i..j]) == InCall(trace[j])
    decreases j
  {
    if j == i + 1 {
      assert acts[i..j] == [acts[i]];
      OwnOne(acts[i]);
    } else {
      CallSoFar(trace, acts, i, j - 1);
      assert acts[i..j] == acts[i..j - 1] + [acts[j - 1]];
      OwnCat(acts[i..j - 1], [acts[j - 1]]);
      OwnOne(acts[j - 1]);
      InCallStep(trace[j - 1], acts[j - 1]);
    }
  }

  /** The outcome in which the call at place k got lost. */
  function Lost(mems: seq<string>, k: nat, sent: bool): (r: seq<Outcome>)
    ensures |r| == |mems|
  {
    seq(|mems|, n => if n == k then (if sent then Ret(-1) else NoHandle) else Ret(0))
  }

  lemma LostActs(mems: seq<string>, me: string, k: nat, sent: bool)
    requires k <= |mems| && (k < |mems| ==> mems[k] != me) && (k == |mems| ==> !sent)
    ensures PrimaryActs(mems, me, Lost(mems, k, sent)) ==
            Passed(mems, me, k) + (if sent then [Send] else []) + [if k == |mems| then Finish else GiveUp]
    ensures AllAnswered(mems, me, Lost(mems, k, sent)) <==> k == |mems|
  {
    var o := Lost(mems, k, sent);
    PassedIsAnswered(mems, me, o, k);
    var rest := PrimaryActs(mems[k..], me, o[k..]);
    if k == |mems| {
      assert rest == [Finish];
    } else {
      assert o[k..][0] == (if sent then Ret(-1) else NoHandle) && mems[k..][0] == mems[k];
      assert rest == (if sent then [Send] else []) + [GiveUp];
    }
    Cat(Passed(mems, me, k), if sent then [Send] else [], [if k == |mems| then Finish else GiveUp]);
  }

  lemma Join(a: seq<Action>, b: seq<Action>, c: seq<Action>, d: seq<Action>)
    ensures (a + b + c) + d == a + (b + c + d)
  {
  }

  /** The loop has come to its end or is at another member. */
  predicate AtAnEnd(s: State) {
    && s.phase.Calling? && s.phase.k <= |s.mems|
    && (if s.phase.k < |s.mems| then s.mems[s.phase.k] != s.me else !s.phase.sent)
  }

  lemma InCallIsLost(s: State)
    requires AtAnEnd(s)
    ensures var outcomes := Lost(s.mems, s.phase.k, s.phase.sent);
      && InCall(s) + [if s.phase.k == |s.mems| then Finish else GiveUp]
           == [Begin(s.phase.req)] + PrimaryActs(s.mems, s.me, outcomes)
      && (s.phase.k == |s.mems| <==> AllAnswered(s.mems, s.me, outcomes))
  {
    LostActs(s.mems, s.me, s.phase.k, s.phase.sent);
    Join([Begin(s.phase.req)], Passed(s.mems, s.me, s.phase.k), if s.phase.sent then [Send] else [],
         [if s.phase.k == |s.mems| then Finish else GiveUp]);
  }

  lemma CallEnds(trace: seq<State>, acts: seq<Action>, i: nat, j: nat)
    requires Run(trace, acts) && i < j < |acts| && acts[i].Begin? && (acts[j] == Finish || acts[j] == GiveUp)
    requires forall x | i < x <= j :: trace[x].phase.Calling?
    ensures AtAnEnd(trace[j]) && trace[j].mems == trace[i].mems && trace[j].me == trace[i].me
    ensures acts[i] == Begin(trace[j].phase.req) && Own(acts[i..j + 1]) == InCall(trace[j]) + [acts[j]]
    ensures acts[j] == if trace[j].phase.k == |trace[j].mems| then Finish else GiveUp
  {
    CallSoFar(trace, acts, i, j);
    assert acts[i..j + 1] == acts[i..j] + [acts[j]];
    OwnCat(acts[i..j], [acts[j]]);
    OwnOne(acts[j]);
  }

  /** The primary's steps of every call in every run are those of some outcome of its calls, and the call
      finishes exactly if in that outcome every other member answered. */
  lemma EveryCallIsAnOutcome(trace: seq<State>, acts: seq<Action>, i: nat, j: nat) returns (outcomes: seq<Outcome>)
    requires Run(trace, acts) && i < j < |acts| && acts[i].Begin? && (acts[j] == Finish || acts[j] == GiveUp)
    requires forall x | i < x <= j :: trace[x].phase.Calling?
    ensures var s := trace[i];
      && |outcomes| == |s.mems|
      && Own(acts[i..j + 1]) == [acts[i]] + PrimaryActs(s.mems, s.me, outcomes)
      && (acts[j] == Finish <==> AllAnswered(s.mems, s.me, outcomes))
  {
    CallEnds(trace, acts, i, j);
    outcomes := Lost(trace[j].mems, trace[j].phase.k, trace[j].phase.sent);
    InCallIsLost(trace[j]);
  }
}
