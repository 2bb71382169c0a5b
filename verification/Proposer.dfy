/** Majorities of member lists and the proposer's loops (paxos.cc).  What the network does to each RPC
    is a parameter of the loops. */
module Proposer {
  import opened Acceptor

  // ---------------------------------------------------------------- majorities

  /** How many places of the list are taken by members of the set; a repeated name takes several. */
  function Places(l: seq<string>, q: set<string>): nat {
    if l == [] then 0 else (if l[0] in q then 1 else 0) + Places(l[1..], q)
  }

  predicate Quorum(l: seq<string>, q: set<string>) {
    Places(l, q) >= |l| / 2 + 1
  }

  function Names(l: seq<string>): set<string> {
    set x | x in l
  }

  lemma {:induction false} PlacesMeet(l: seq<string>, q: set<string>, r: set<string>)
    requires Places(l, q) + Places(l, r) > |l|
    ensures exists i :: 0 <= i < |l| && l[i] in q && l[i] in r
  {
    if l == [] {
    } else if l[0] in q && l[0] in r {
    } else {
      PlacesMeet(l[1..], q, r);
      var i :| 0 <= i < |l[1..]| && l[1..][i] in q && l[1..][i] in r;
      assert l[i + 1] in q && l[i + 1] in r;
    }
  }

  /** Any two majorities of the same list share a member, also when the list repeats names. */
  lemma QuorumsMeet(l: seq<string>, q: set<string>, r: set<string>)
    requires Quorum(l, q) && Quorum(l, r)
    ensures exists x :: x in l && x in q && x in r
  {
    PlacesMeet(l, q, r);
    var i :| 0 <= i < |l| && l[i] in q && l[i] in r;
    assert l[i] in l;
  }

  method IsAMember(m: string, nodes: seq<string>) returns (r: bool)
    ensures r <==> m in nodes
  {
    var i := 0;
    while i < |nodes|
      invariant 0 <= i <= |nodes| && m !in nodes[..i]
    {
      if nodes[i] == m {
        return true;
      }
      i := i + 1;
    }
    return false;
  }

  lemma {:induction false} PlacesSplit(l: seq<string>, i: nat, q: set<string>)
    requires i < |l|
    ensures Places(l[..i + 1], q) == Places(l[..i], q) + if l[i] in q then 1 else 0
  {
    if i > 0 {
      PlacesSplit(l[1..], i - 1, q);
      assert l[1..][..i] == l[..i + 1][1..] && l[1..][..i - 1] == l[..i][1..];
    } else {
      assert l[..1][1..] == [];
    }
  }

  method MajorityOf(l1: seq<string>, l2: seq<string>) returns (r: bool)
    ensures r <==> Quorum(l1, Names(l2))
  {
    var n, i := 0, 0;
    while i < |l1|
      invariant 0 <= i <= |l1| && n == Places(l1[..i], Names(l2))
    {
      var member := IsAMember(l1[i], l2);
      PlacesSplit(l1, i, Names(l2));
      if member {
        n := n + 1;
      }
      i := i + 1;
    }
    assert l1[..i] == l1;
    return n >= |l1| / 2 + 1;
  }

  // ---------------------------------------------------------------- the proposer's loops

  /** The number for a new round: the least above the local acceptor's and above the proposer's last one. */
  function NextNumber(nh: Prop, mine: nat): (r: nat)
    ensures r > nh.n && r > mine && (r == nh.n + 1 || r == mine + 1)
  {
    if nh.n + 1 > mine + 1 then nh.n + 1 else mine + 1
  }

  /** The value to propose so far and the number it was accepted with. */
  datatype Best = Best(ph: Prop, v: string)

  const NoBest: Best := Best(Prop(0, ""), "")

  /** Interpret one positive prepare reply. */
  function Better(best: Best, na: Prop, va: string): Best {
    if va != "" && Above(na, best.ph) then Best(na, va) else best
  }

  datatype PrepareEnd = Learned(v: string) | Turned | Collected(accepts: seq<string>, best: Best)

  /** No reply is a node that cannot be reached or a call that failed. */
  datatype Outcome = NoReply | Replied(res: PrepareRes)

  function PrepareFrom(nodes: seq<string>, outs: seq<Outcome>, i: nat, accepts: seq<string>, best: Best): PrepareEnd
    requires |outs| == |nodes| && i <= |nodes|
    decreases |nodes| - i
  {
    if i == |nodes| then Collected(accepts, best)
    else
      match outs[i]
      case NoReply => PrepareFrom(nodes, outs, i + 1, accepts, best)
      case Replied(OldInstance(v)) => Learned(v)
      case Replied(Rejected) => Turned
      case Replied(Accepted(na, va)) =>
        PrepareFrom(nodes, outs, i + 1, accepts + [nodes[i]], Better(best, na, va))
  }

  /** An accepted proposal that a prepare reply reports; the empty value reports none. */
  datatype Report = Report(na: Prop, va: string)

  /** The value is that of the reported proposal with the highest number, or none was reported. */
  ghost predicate Highest(rs: seq<Report>, best: Best) {
    && (best == NoBest || (best.v != "" && Report(best.ph, best.v) in rs))
    && (forall i | 0 <= i < |rs| && rs[i].va != "" :: AtLeast(best.ph, rs[i].na))
  }

  lemma BetterKeeps(rs: seq<Report>, best: Best, r: Report)
    requires Highest(rs, best)
    ensures Highest(rs + [r], Better(best, r.na, r.va))
  {
    var next, all := Better(best, r.na, r.va), rs + [r];
    assert all[|rs|] == r;
    forall i | 0 <= i < |all| && all[i].va != ""
      ensures AtLeast(next.ph, all[i].na)
    {
      PropOrder(r.na, best.ph, all[i].na);
      PropOrder(best.ph, r.na, r.na);
      PropOrder(best.ph, all[i].na, r.na);
      PropOrder(r.na, all[i].na, r.na);
    }
  }

  /** What the replies of a loop that ran to its end report. */
  function Reports(outs: seq<Outcome>): seq<Report> {
    if outs == [] then []
    else
      var o := outs[|outs| - 1];
      Reports(outs[..|outs| - 1])
      + if o.Replied? && o.res.Accepted? then [Report(o.res.na, o.res.va)] else []
  }

  /** When the loop runs to its end, the value it hands on is that of the highest-numbered accepted
      proposal any reply reported, or none if no reply reported one. */
  lemma {:induction false} PrepareTakesHighest(nodes: seq<string>, outs: seq<Outcome>, i: nat,
                                               accepts: seq<string>, best: Best)
    requires |outs| == |nodes| && i <= |nodes| && Highest(Reports(outs[..i]), best)
    requires PrepareFrom(nodes, outs, i, accepts, best).Collected?
    ensures Highest(Reports(outs), PrepareFrom(nodes, outs, i, accepts, best).best)
    decreases |nodes| - i
  {
    if i == |nodes| {
      assert outs[..i] == outs;
    } else {
      assert outs[..i + 1][..i] == outs[..i];
      match outs[i]
      case NoReply => PrepareTakesHighest(nodes, outs, i + 1, accepts, best);
      case Replied(Accepted(na, va)) =>
        BetterKeeps(Reports(outs[..i]), best, Report(na, va));
        PrepareTakesHighest(nodes, outs, i + 1, accepts + [nodes[i]], Better(best, na, va));
    }
  }

  /** A reply that ends the loop. */
  predicate Stops(o: Outcome) {
    o.Replied? && !o.res.Accepted?
  }

  predicate FirstStop(outs: seq<Outcome>, i: int) {
    0 <= i < |outs| && Stops(outs[i]) && forall j | 0 <= j < i :: !Stops(outs[j])
  }

  /** The node promised at one of its places. */
  ghost predicate Promised(nodes: seq<string>, outs: seq<Outcome>, x: string)
    requires |outs| <= |nodes|
  {
    exists i :: 0 <= i < |outs| && nodes[i] == x && outs[i].Replied? && outs[i].res.Accepted?
  }

  lemma PromisedNext(nodes: seq<string>, outs: seq<Outcome>, i: nat, x: string)
    requires |outs| == |nodes| && i < |nodes|
    ensures Promised(nodes, outs[..i + 1], x) <==>
            Promised(nodes, outs[..i], x) || (nodes[i] == x && outs[i].Replied? && outs[i].res.Accepted?)
  {
    assert forall j | 0 <= j < i :: outs[..i + 1][j] == outs[..i][j];
    assert outs[..i + 1][i] == outs[i];
  }

  /** The loop ends at the first reply that is no promise, and as that reply says; without one it
      collects exactly the nodes that promised. */
  lemma {:induction false} PrepareEnds(nodes: seq<string>, outs: seq<Outcome>, i: nat, accepts: seq<string>, best: Best)
    requires |outs| == |nodes| && i <= |nodes| && forall j | 0 <= j < i :: !Stops(outs[j])
    requires forall x :: x in accepts <==> Promised(nodes, outs[..i], x)
    ensures var end := PrepareFrom(nodes, outs, i, accepts, best);
      && (forall v :: end == Learned(v) <==> exists k :: FirstStop(outs, k) && outs[k] == Replied(OldInstance(v)))
      && (end == Turned <==> exists k :: FirstStop(outs, k) && outs[k] == Replied(Rejected))
      && (end.Collected? <==> forall k | 0 <= k < |outs| :: !Stops(outs[k]))
      && (end.Collected? ==> forall x :: x in end.accepts <==> Promised(nodes, outs, x))
    decreases |nodes| - i
  {
    if i == |nodes| {
      assert outs[..i] == outs;
    } else if Stops(outs[i]) {
      assert FirstStop(outs, i);
      assert forall k | FirstStop(outs, k) :: k == i;
    } else {
      forall x ensures Promised(nodes, outs[..i + 1], x) <==>
          Promised(nodes, outs[..i], x) || (nodes[i] == x && outs[i].Replied? && outs[i].res.Accepted?) {
        PromisedNext(nodes, outs, i, x);
      }
      match outs[i]
      case NoReply => PrepareEnds(nodes, outs, i + 1, accepts, best);
      case Replied(Accepted(na, va)) =>
        PrepareEnds(nodes, outs, i + 1, accepts + [nodes[i]], Better(best, na, va));
    }
  }

  method PrepareLoop(nodes: seq<string>, outs: seq<Outcome>) returns (end: PrepareEnd)
    requires |outs| == |nodes|
    ensures end == PrepareFrom(nodes, outs, 0, [], NoBest)
    ensures forall v :: end == Learned(v) <==> exists i :: FirstStop(outs, i) && outs[i] == Replied(OldInstance(v))
    ensures end == Turned <==> exists i :: FirstStop(outs, i) && outs[i] == Replied(Rejected)
    ensures end.Collected? <==> forall i | 0 <= i < |outs| :: !Stops(outs[i])
    ensures end.Collected? ==> Highest(Reports(outs), end.best)
    ensures end.Collected? ==> forall x :: x in end.accepts <==> Promised(nodes, outs, x)
  {
    var accepts: seq<string>, ph, v := [], Prop(0, ""), "";
    PrepareEnds(nodes, outs, 0, [], NoBest);
    var i := 0;
    while i < |nodes|
      invariant 0 <= i <= |nodes|
      invariant PrepareFrom(nodes, outs, i, accepts, Best(ph, v)) == PrepareFrom(nodes, outs, 0, [], NoBest)
    {
      match outs[i] {
        case NoReply =>
        case Replied(OldInstance(learned)) =>
          return Learned(learned);
        case Replied(Rejected) =>
          return Turned;
        case Replied(Accepted(na, va)) =>
          accepts := accepts + [nodes[i]];
          if va != "" {
            if Above(na, ph) {
              ph := na;
              v := va;
            }
          }
      }
      i := i + 1;
    }
    PrepareTakesHighest(nodes, outs, 0, [], NoBest);
    return Collected(accepts, Best(ph, v));
  }

  /** The nodes that said yes, in order. */
  function Answering(nodes: seq<string>, oks: seq<bool>): seq<string>
    requires |oks| == |nodes|
  {
    if nodes == [] then [] else
      Answering(nodes[..|nodes| - 1], oks[..|nodes| - 1]) + if oks[|nodes| - 1] then [nodes[|nodes| - 1]] else []
  }

  /** A name is counted exactly when it answered yes at one of its places. */
  ghost predicate SaidYes(nodes: seq<string>, oks: seq<bool>, x: string)
    requires |oks| == |nodes|
  {
    exists i :: 0 <= i < |nodes| && nodes[i] == x && oks[i]
  }

  lemma {:induction false} AnsweringMeans(nodes: seq<string>, oks: seq<bool>, x: string)
    requires |oks| == |nodes|
    ensures x in Answering(nodes, oks) <==> SaidYes(nodes, oks, x)
  {
    if nodes != [] {
      var n := |nodes| - 1;
      AnsweringMeans(nodes[..n], oks[..n], x);
      if SaidYes(nodes[..n], oks[..n], x) {
        var i :| 0 <= i < n && nodes[..n][i] == x && oks[..n][i];
        assert nodes[i] == x && oks[i];
      }
      if SaidYes(nodes, oks, x) {
        var i :| 0 <= i < |nodes| && nodes[i] == x && oks[i];
        assert i < n ==> nodes[..n][i] == x && oks[..n][i];
      }
    }
  }

  /** The names counted are exactly those that answered yes, so the majority test is about them. */
  method AcceptLoop(nodes: seq<string>, oks: seq<bool>) returns (accepts: seq<string>)
    requires |oks| == |nodes|
    ensures accepts == Answering(nodes, oks)
    ensures forall x :: x in accepts <==> SaidYes(nodes, oks, x)
  {
    accepts := [];
    var i := 0;
    while i < |nodes|
      invariant 0 <= i <= |nodes| && accepts == Answering(nodes[..i], oks[..i])
    {
      assert nodes[..i + 1][..i] == nodes[..i] && oks[..i + 1][..i] == oks[..i];
      if oks[i] {
        accepts := accepts + [nodes[i]];
      }
      i := i + 1;
    }
    assert nodes[..i] == nodes && oks[..i] == oks;
    forall x ensures x in accepts <==> SaidYes(nodes, oks, x) {
      AnsweringMeans(nodes, oks, x);
    }
  }
}
