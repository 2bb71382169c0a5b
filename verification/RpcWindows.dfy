/** The client's window of received transaction ids (rpcc in rpc/rpc.cc). */
module XidWindow {
  /** std::list::insert before the first larger element, or push_back. */
  function Insert(w: seq<nat>, xid: nat): (r: seq<nat>)
    ensures |r| == |w| + 1
  {
    if w == [] then [xid]
    else if w[0] > xid then [xid] + w
    else [w[0]] + Insert(w[1..], xid)
  }

  /** The compress loop: how many elements are popped in all, with f popped so far and the iterator on
      the element that was at position i. */
  function Popped(w: seq<nat>, f: nat, i: nat): (k: nat)
    requires f < |w|
    ensures k < |w|
    decreases |w| - f, |w| - i
  {
    if i >= |w| then f
    else if w[f] + 1 == w[i] && f + 1 < |w| then Popped(w, f + 1, i)
    else Popped(w, f, i + 1)
  }

  function Update(w: seq<nat>, xid: nat): (r: seq<nat>)
    requires w != []
    ensures r != []
  {
    if xid <= w[0] then w else var v := Insert(w, xid); v[Popped(v, 0, 1)..]
  }

  predicate Sorted(w: seq<nat>) {
    forall i, j :: 0 <= i < j < |w| ==> w[i] <= w[j]
  }

  ghost predicate Lists(w: seq<nat>, received: set<nat>) {
    && w != [] && Sorted(w)
    && (forall k :: 1 <= k <= w[0] ==> k in received)
    && (forall x :: x > w[0] ==> (x in w <==> x in received))
  }

  /** The list stands for the set of received ids: its front is the largest k with 1..k all received,
      and behind the front it holds exactly the other received ids. */
  ghost predicate Stands(w: seq<nat>, received: set<nat>) {
    Lists(w, received) && w[0] + 1 !in received
  }

  lemma {:induction false} Inserted(w: seq<nat>, xid: nat)
    requires Sorted(w)
    ensures Sorted(Insert(w, xid)) && |Insert(w, xid)| == |w| + 1
    ensures forall x :: x in Insert(w, xid) <==> x in w || x == xid
    ensures w != [] && w[0] <= xid ==> Insert(w, xid)[0] == w[0]
  {
    if w != [] && w[0] <= xid {
      Inserted(w[1..], xid);
      assert w == [w[0]] + w[1..];
      var r := Insert(w[1..], xid);
      assert forall x :: x in r ==> w[0] <= x;
      assert forall i :: 0 <= i < |r| ==> r[i] in r;
    }
  }

  ghost predicate Full(w: seq<nat>, k: nat)
    requires k < |w|
  {
    forall x :: w[0] <= x <= w[k] ==> x in w
  }

  /** Whenever the loop pops from here on, the iterator is on a later element than the one popped. */
  predicate KeepsIterator(w: seq<nat>, f: nat, i: nat)
    requires f < |w|
    decreases |w| - f, |w| - i
  {
    if i >= |w| then true
    else if w[f] + 1 == w[i] then f < i && KeepsIterator(w, f + 1, i)
    else KeepsIterator(w, f, i + 1)
  }

  /** The loop never pops its iterator's element: it pops only an id that is one below that element. */
  lemma {:induction false} IteratorKept(w: seq<nat>, f: nat, i: nat)
    requires f < |w| && f <= i
    ensures KeepsIterator(w, f, i)
    decreases |w| - f, |w| - i
  {
    if i < |w| {
      if w[f] + 1 == w[i] {
        IteratorKept(w, f + 1, i);
      } else {
        IteratorKept(w, f, i + 1);
      }
    }
  }

  /** The loop pops only consecutive ids and stops at the first gap. */
  lemma {:induction false} PoppedMeans(w: seq<nat>, f: nat, i: nat)
    requires Sorted(w) && f <= i <= |w| && f < |w| && Full(w, f)
    requires forall j :: f <= j < i ==> w[j] != w[f] + 1
    ensures f <= Popped(w, f, i) && Full(w, Popped(w, f, i))
    ensures w[Popped(w, f, i)] + 1 !in w[Popped(w, f, i)..]
    decreases |w| - f, |w| - i
  {
    if i >= |w| {
      var rest := w[f..];
      assert forall j :: 0 <= j < |rest| ==> rest[j] == w[f + j] != w[f] + 1;
    } else if w[f] + 1 == w[i] {
      assert w[f] <= w[f + 1] <= w[i];
      assert forall j :: f <= j < i ==> w[j] == w[f];
      PoppedMeans(w, f + 1, i);
    } else {
      PoppedMeans(w, f, i + 1);
    }
  }

  lemma Behind(v: seq<nat>, k: nat, received: set<nat>)
    requires k < |v| && Lists(v, received) && Full(v, k)
    ensures Lists(v[k..], received)
  {
    assert v == v[..k] + v[k..];
    assert forall x :: x in v[..k] ==> x <= v[k];
    assert v[0] <= v[k];
    assert forall x :: v[0] < x <= v[k] ==> x in v;
  }

  lemma Squeezed(v: seq<nat>, received: set<nat>)
    requires Lists(v, received)
    ensures v[Popped(v, 0, 1)] >= v[0] && Stands(v[Popped(v, 0, 1)..], received)
  {
    PoppedMeans(v, 0, 1);
    Behind(v, Popped(v, 0, 1), received);
  }

  lemma Joined(w: seq<nat>, received: set<nat>, xid: nat)
    requires Lists(w, received) && xid > w[0]
    ensures Lists(Insert(w, xid), received + {xid}) && Insert(w, xid)[0] == w[0]
  {
    Inserted(w, xid);
  }

  /** update_xid_rep adds one id to the set, repeats included. */
  lemma Updated(w: seq<nat>, received: set<nat>, xid: nat)
    requires Stands(w, received) && xid >= 1
    ensures Stands(Update(w, xid), received + {xid}) && Update(w, xid)[0] >= w[0]
  {
    if xid > w[0] {
      Joined(w, received, xid);
      Squeezed(Insert(w, xid), received + {xid});
    } else {
      assert received + {xid} == received;
    }
  }

  function UpdateAll(w: seq<nat>, xids: seq<nat>): (r: seq<nat>)
    requires w != []
    ensures r != []
    decreases |xids|
  {
    if xids == [] then w else Update(UpdateAll(w, xids[..|xids| - 1]), xids[|xids| - 1])
  }

  function Ids(xids: seq<nat>): set<nat> {
    set x | x in xids
  }

  lemma IdsSnoc(xids: seq<nat>, x: nat)
    ensures Ids(xids + [x]) == Ids(xids) + {x}
  {
  }

  /** After any updates of a new client's window the front is the largest k with 1..k all received. */
  lemma {:induction false} WindowIsSet(xids: seq<nat>)
    requires 0 !in xids
    ensures Stands(UpdateAll([0], xids), Ids(xids))
    decreases |xids|
  {
    if xids == [] {
      assert Ids(xids) == {};
    } else {
      var past, x := xids[..|xids| - 1], xids[|xids| - 1];
      assert xids == past + [x];
      assert x in xids;
      WindowIsSet(past);
      IdsSnoc(past, x);
      Updated(UpdateAll([0], past), Ids(past), x);
    }
  }

  lemma {:induction false} InsertAt(w: seq<nat>, xid: nat, i: nat)
    requires i <= |w| && (forall j :: 0 <= j < i ==> w[j] <= xid) && (i < |w| ==> w[i] > xid)
    ensures Insert(w, xid) == w[..i] + [xid] + w[i..]
  {
    if i > 0 {
      InsertAt(w[1..], xid, i - 1);
      assert w[..i] == [w[0]] + w[1..][..i - 1];
      assert w[i..] == w[1..][i - 1..];
    }
  }

  class Rpcc {
    var xid: nat
    var window: seq<nat>

    constructor ()
      ensures xid == 1 && window == [0]
    {
      xid := 1;
      window := [0];
    }

    /** The id and the acknowledged id of the next request header, as call1 fills them in. */
    method NextHeader() returns (id: nat, rep: nat)
      requires window != []
      modifies this`xid
      ensures id == old(xid) && xid == id + 1 && rep == window[0]
    {
      id := xid;
      xid := xid + 1;
      rep := window[0];
    }

    method UpdateXidRep(id: nat)
      requires window != []
      modifies this`window
      ensures window == Update(old(window), id) && window != []
    {
      if id <= window[0] {
        return;
      }
      var i := 0;
      while i < |window| && window[i] <= id
        invariant 0 <= i <= |window| && forall j :: 0 <= j < i ==> window[j] <= id
      {
        i := i + 1;
      }
      InsertAt(window, id, i);
      window := window[..i] + [id] + window[i..];
      PopReceived();
    }

    method PopReceived()
      requires window != []
      modifies this`window
      ensures window == old(window)[Popped(old(window), 0, 1)..]
    {
      ghost var f: nat := 0;
      var it: nat := 1;
      while it < |window|
        invariant f < |old(window)| && window == old(window)[f..] && it <= |window|
        invariant Popped(old(window), f, f + it) == Popped(old(window), 0, 1)
        decreases |window|, |window| - it
      {
        if window[0] + 1 == window[it] {
          window := window[1..];
          it := it - 1;
          f := f + 1;
        } else {
          it := it + 1;
        }
      }
    }
  }
}

/** The server's per-client window of replies (rpcs in rpc/rpc.cc). */
module ReplyWindow {
  import Wire

  type Bytes = seq<Wire.Byte>

  datatype Buf = Null | Buf(bytes: Bytes)

  datatype Reply = Reply(xid: nat, present: bool, buf: Buf)

  /** NotFound is the exit at the end of the function, NoBack the back() of an empty list. */
  datatype State = New | InProgress | Done(bytes: Bytes) | Forgotten | NotFound | NoBack

  function Dummy(xid: nat): Reply {
    Reply(xid, false, Null)
  }

  function Trim(l: seq<Reply>, rep: nat): seq<Reply> {
    if l == [] || l[0].xid > rep then l else Trim(l[1..], rep)
  }

  function FillFront(l: seq<Reply>, rep: nat, first: int): seq<Reply>
    decreases first
  {
    if rep < first then FillFront([Dummy(first)] + l, rep, first - 1) else l
  }

  function FillBack(l: seq<Reply>, last: nat, xid: nat): seq<Reply>
    decreases xid - last
  {
    if xid > last then FillBack(l + [Dummy(last + 1)], last + 1, xid) else l
  }

  function Filled(l: seq<Reply>, xid: nat, rep: nat): seq<Reply> {
    var t := Trim(l, rep);
    var f := FillFront(t, rep, if t == [] then xid else t[0].xid - 1);
    if f == [] then f else FillBack(f, f[|f| - 1].xid, xid)
  }

  /** The position of the first entry for xid, or the length. */
  function Find(l: seq<Reply>, xid: nat): (i: nat)
    ensures i <= |l| && (i < |l| ==> l[i].xid == xid)
    ensures forall j :: 0 <= j < i ==> l[j].xid != xid
  {
    if l == [] || l[0].xid == xid then 0 else 1 + Find(l[1..], xid)
  }

  function Judge(e: Reply): State {
    if !e.present then New else if e.buf.Null? then InProgress else Done(e.buf.bytes)
  }

  /** checkduplicate_and_update on one client's list. */
  function Check(l: seq<Reply>, xid: nat, rep: nat): (seq<Reply>, State) {
    var f := Filled(l, xid, rep);
    var i := Find(f, xid);
    if f == [] then (f, NoBack)
    else if f[0].xid > xid then (f, Forgotten)
    else if i == |f| then (f, NotFound)
    else (f[i := f[i].(present := true)], Judge(f[i]))
  }

  function AddReply(l: seq<Reply>, xid: nat, b: Bytes): seq<Reply> {
    var i := Find(l, xid);
    if i < |l| then l[i := l[i].(buf := Buf(b))] else l
  }

  // ---------------------------------------------------------------- the list as a window

  predicate Contiguous(l: seq<Reply>) {
    forall i :: 0 <= i < |l| ==> l[i].xid == l[0].xid + i
  }

  predicate Holds(l: seq<Reply>, x: nat) {
    l != [] && l[0].xid <= x < l[0].xid + |l|
  }

  /** What the window knows of an id: its entry, or nothing. */
  function Entry(l: seq<Reply>, x: nat): Reply {
    if Holds(l, x) then l[x - l[0].xid] else Dummy(x)
  }

  lemma {:induction false} Trimmed(l: seq<Reply>, rep: nat)
    requires Contiguous(l)
    ensures Contiguous(Trim(l, rep))
    ensures Trim(l, rep) != [] ==> Trim(l, rep)[0].xid > rep
    ensures forall x: nat :: Holds(Trim(l, rep), x) <==> x > rep && Holds(l, x)
    ensures forall x: nat :: x > rep ==> Entry(Trim(l, rep), x) == Entry(l, x)
  {
    if l != [] && l[0].xid <= rep {
      assert forall i :: 0 <= i < |l[1..]| ==> l[1..][i] == l[i + 1];
      assert forall x: nat :: x > rep ==> Entry(l[1..], x) == Entry(l, x);
      Trimmed(l[1..], rep);
    }
  }

  lemma {:induction false} FrontFilled(l: seq<Reply>, rep: nat, first: int)
    requires Contiguous(l) && (l != [] ==> first == l[0].xid - 1) && first >= rep && (l == [] ==> first > rep)
    ensures var r := FillFront(l, rep, first);
      && r != [] && Contiguous(r) && r[0].xid == rep + 1 && |r| == |l| + (first - rep)
      && (forall x: nat :: Entry(r, x) == Entry(l, x))
    decreases first
  {
    if rep < first {
      var v := [Dummy(first)] + l;
      assert forall x: nat :: Entry(v, x) == Entry(l, x);
      FrontFilled(v, rep, first - 1);
    }
  }

  lemma {:induction false} BackFilled(l: seq<Reply>, last: nat, xid: nat)
    requires l != [] && Contiguous(l) && last == l[|l| - 1].xid
    ensures var r := FillBack(l, last, xid);
      && r != [] && Contiguous(r) && r[0] == l[0]
      && r[|r| - 1].xid == (if xid > last then xid else last)
      && (forall x: nat :: Entry(r, x) == Entry(l, x))
    decreases xid - last
  {
    if xid > last {
      var v := l + [Dummy(last + 1)];
      assert forall x: nat :: Entry(v, x) == Entry(l, x);
      BackFilled(v, last + 1, xid);
    }
  }

  /** The largest id the list knows of, once xid has been asked about. */
  function Last(l: seq<Reply>, xid: nat): nat {
    if l != [] && l[|l| - 1].xid > xid then l[|l| - 1].xid else xid
  }

  /** After the fills the window is exactly rep + 1 .. max(previous last, xid), with every surviving
      entry as it was and nothing known of the others. */
  lemma FilledWindow(l: seq<Reply>, xid: nat, rep: nat)
    requires Contiguous(l) && rep < xid
    ensures var f := Filled(l, xid, rep);
      && f != [] && Contiguous(f) && f[0].xid == rep + 1 && f[|f| - 1].xid == Last(l, xid)
      && (forall x: nat :: x > rep ==> Entry(f, x) == Entry(l, x))
  {
    Trimmed(l, rep);
    var t := Trim(l, rep);
    assert l != [] && l[|l| - 1].xid > rep ==> Holds(l, l[|l| - 1].xid);
    assert t != [] ==> Holds(t, t[|t| - 1].xid) && Holds(l, t[|t| - 1].xid);
    assert t != [] ==> t[|t| - 1].xid == l[|l| - 1].xid;
    var first := if t == [] then xid else t[0].xid - 1;
    FrontFilled(t, rep, first);
    var f := FillFront(t, rep, first);
    BackFilled(f, f[|f| - 1].xid, xid);
  }

  /** With rep < xid the request is never forgotten and never missing; it is judged by what was known
      of it, is known from now on, and everything up to rep is dropped. */
  lemma Checked(l: seq<Reply>, xid: nat, rep: nat)
    requires Contiguous(l) && rep < xid
    ensures var (r, c) := Check(l, xid, rep);
      && c == Judge(Entry(l, xid))
      && Contiguous(r) && r != [] && r[0].xid == rep + 1 && r[|r| - 1].xid == Last(l, xid)
      && (forall x: nat :: x > rep && x != xid ==> Entry(r, x) == Entry(l, x))
      && Entry(r, xid) == Entry(l, xid).(present := true)
  {
    FilledWindow(l, xid, rep);
    var f := Filled(l, xid, rep);
    var i := Find(f, xid);
    assert f[xid - f[0].xid].xid == xid;
    assert i < |f| && f[i] == Entry(f, xid);
  }

  lemma FilledFront(l: seq<Reply>, xid: nat, rep: nat)
    requires Contiguous(l) && Trim(l, rep) != []
    ensures Filled(l, xid, rep) != [] && Filled(l, xid, rep)[0].xid == rep + 1
  {
    Trimmed(l, rep);
    var t := Trim(l, rep);
    FrontFilled(t, rep, t[0].xid - 1);
    var f := FillFront(t, rep, t[0].xid - 1);
    BackFilled(f, f[|f| - 1].xid, xid);
  }

  /** FORGOTTEN exactly when the header acknowledges its own id and some entry survives; without one the
      source reads the back of an empty list. */
  lemma ForgottenWhen(l: seq<Reply>, xid: nat, rep: nat)
    requires Contiguous(l)
    ensures Check(l, xid, rep).1 == Forgotten <==> rep >= xid && Trim(l, rep) != []
    ensures Check(l, xid, rep).1 == NoBack <==> rep >= xid && Trim(l, rep) == []
  {
    if rep < xid {
      Checked(l, xid, rep);
    } else if Trim(l, rep) != [] {
      FilledFront(l, xid, rep);
    }
  }

  lemma Replied(l: seq<Reply>, xid: nat, b: Bytes)
    requires Contiguous(l)
    ensures Contiguous(AddReply(l, xid, b)) && |AddReply(l, xid, b)| == |l|
    ensures l != [] ==> AddReply(l, xid, b)[0].xid == l[0].xid
    ensures forall x: nat :: x != xid ==> Entry(AddReply(l, xid, b), x) == Entry(l, x)
    ensures Entry(AddReply(l, xid, b), xid)
         == if Holds(l, xid) then Entry(l, xid).(buf := Buf(b)) else Dummy(xid)
  {
    var i := Find(l, xid);
    assert Holds(l, xid) ==> l[xid - l[0].xid].xid == xid;
    assert i < |l| ==> l[i].xid == l[0].xid + i;
  }

  // ---------------------------------------------------------------- histories

  /** What happens to one client's window: a request is processed, or an execution stores its reply. */
  datatype Event = Request(xid: nat, rep: nat) | Stored(xid: nat, bytes: Bytes)

  predicate WellFormed(h: seq<Event>) {
    forall e :: e in h && e.Request? ==> e.rep < e.xid
  }

  function After(l: seq<Reply>, e: Event): seq<Reply>
    requires e.Request? ==> e.rep < e.xid
  {
    match e
    case Request(xid, rep) => Check(l, xid, rep).0
    case Stored(xid, bytes) => AddReply(l, xid, bytes)
  }

  function Window(h: seq<Event>): seq<Reply>
    requires WellFormed(h)
  {
    if h == [] then [] else After(Window(h[..|h| - 1]), h[|h| - 1])
  }

  /** Some copy of x was processed, and no request acknowledging x was processed since. */
  ghost predicate Seen(h: seq<Event>, x: nat) {
    exists i :: 0 <= i < |h| && IsCopy(h[i], x) && Unacknowledged(h, i, x)
  }

  predicate IsCopy(e: Event, x: nat) {
    e.Request? && e.xid == x
  }

  predicate Unacknowledged(h: seq<Event>, i: nat, x: nat) {
    forall j :: i < j < |h| && h[j].Request? ==> h[j].rep < x
  }

  /** An execution of x stored these bytes at j, none stored later, and nothing acknowledged x since. */
  predicate StoredAt(h: seq<Event>, x: nat, b: Bytes, j: nat) {
    && j < |h| && h[j] == Stored(x, b) && Unacknowledged(h, j, x)
    && (forall k :: j < k < |h| && h[k].Stored? ==> h[k].xid != x)
  }

  lemma SeenStep(h: seq<Event>, e: Event, x: nat)
    requires WellFormed(h + [e])
    ensures Seen(h + [e], x) <==> IsCopy(e, x) || (Seen(h, x) && (e.Request? ==> e.rep < x))
  {
    var g := h + [e];
    assert e in g;
    if IsCopy(e, x) {
      assert IsCopy(g[|h|], x) && Unacknowledged(g, |h|, x);
    } else {
      if Seen(h, x) && (e.Request? ==> e.rep < x) {
        var i :| 0 <= i < |h| && IsCopy(h[i], x) && Unacknowledged(h, i, x);
        assert IsCopy(g[i], x) && Unacknowledged(g, i, x);
      }
      if Seen(g, x) {
        var i :| 0 <= i < |g| && IsCopy(g[i], x) && Unacknowledged(g, i, x);
        assert forall j :: i < j < |h| ==> g[j] == h[j];
        assert IsCopy(h[i], x) && Unacknowledged(h, i, x);
        assert g[|h|] == e;
      }
    }
  }

  lemma {:induction false} WindowContiguous(h: seq<Event>)
    requires WellFormed(h)
    ensures Contiguous(Window(h))
  {
    if h != [] {
      var g, e := h[..|h| - 1], h[|h| - 1];
      WindowContiguous(g);
      assert e in h;
      match e
      case Request(xid, rep) => Checked(Window(g), xid, rep);
      case Stored(xid, bytes) => Replied(Window(g), xid, bytes);
    }
  }

  /** The window remembers exactly the ids with a processed copy that nothing acknowledged since. */
  lemma {:induction false} PresentIffSeen(h: seq<Event>, x: nat)
    requires WellFormed(h)
    ensures Entry(Window(h), x).present <==> Seen(h, x)
  {
    if h != [] {
      var g, e := h[..|h| - 1], h[|h| - 1];
      assert h == g + [e] && e in h;
      WindowContiguous(g);
      PresentIffSeen(g, x);
      SeenStep(g, e, x);
      match e
      case Request(xid, rep) => Checked(Window(g), xid, rep);
      case Stored(xid, bytes) => Replied(Window(g), xid, bytes);
    }
  }

  /** A request is executed exactly when no earlier copy of it is unacknowledged. */
  lemma NewIffUnseen(h: seq<Event>, xid: nat, rep: nat)
    requires WellFormed(h) && rep < xid
    ensures Check(Window(h), xid, rep).1 == New <==> !Seen(h, xid)
    ensures Seen(h, xid) ==> Check(Window(h), xid, rep).1.InProgress? || Check(Window(h), xid, rep).1.Done?
  {
    WindowContiguous(h);
    Checked(Window(h), xid, rep);
    PresentIffSeen(h, xid);
  }

  lemma StoredStep(h: seq<Event>, e: Event, x: nat, b: Bytes, j: nat)
    requires j < |h|
    ensures StoredAt(h + [e], x, b, j)
       <==> StoredAt(h, x, b, j) && (if e.Request? then e.rep < x else e.xid != x)
  {
    var g := h + [e];
    assert g[|h|] == e && g[j] == h[j];
    assert forall k :: 0 <= k < |h| ==> g[k] == h[k];
  }

  /** A buffer in the window is the reply last stored for its id. */
  lemma {:induction false} BufferIsStored(h: seq<Event>, x: nat, b: Bytes) returns (j: nat)
    requires WellFormed(h) && Entry(Window(h), x).buf == Buf(b)
    ensures StoredAt(h, x, b, j)
  {
    var g, e := h[..|h| - 1], h[|h| - 1];
    assert h == g + [e] && e in h;
    WindowContiguous(g);
    match e {
      case Request(xid, rep) => Checked(Window(g), xid, rep);
      case Stored(xid, bytes) => Replied(Window(g), xid, bytes);
    }
    if e == Stored(x, b) {
      j := |g|;
    } else {
      j := BufferIsStored(g, x, b);
      StoredStep(g, e, x, b, j);
    }
  }

  /** And the reply of an execution that is not acknowledged stays in the window. */
  lemma {:induction false} StoredIsBuffer(h: seq<Event>, x: nat, b: Bytes, j: nat)
    requires WellFormed(h) && StoredAt(h, x, b, j) && Seen(h[..j], x)
    ensures Entry(Window(h), x).buf == Buf(b)
  {
    var g, e := h[..|h| - 1], h[|h| - 1];
    assert h == g + [e] && e in h;
    WindowContiguous(g);
    if j == |g| {
      PresentIffSeen(g, x);
      Replied(Window(g), x, b);
    } else {
      StoredStep(g, e, x, b, j);
      assert g[..j] == h[..j];
      StoredIsBuffer(g, x, b, j);
      match e
      case Request(xid, rep) => Checked(Window(g), xid, rep);
      case Stored(xid, bytes) => Replied(Window(g), xid, bytes);
    }
  }

  /** DONE carries exactly the bytes stored last for the id. */
  lemma DoneIsStored(h: seq<Event>, xid: nat, rep: nat) returns (j: nat)
    requires WellFormed(h) && rep < xid && Check(Window(h), xid, rep).1.Done?
    ensures StoredAt(h, xid, Check(Window(h), xid, rep).1.bytes, j)
  {
    WindowContiguous(h);
    Checked(Window(h), xid, rep);
    j := BufferIsStored(h, xid, Check(Window(h), xid, rep).1.bytes);
  }

  /** The promise ends with the acknowledgement: a late copy of request 1 runs again after request 2
      acknowledged it, instead of being forgotten. */
  lemma AcknowledgedRunsAgain()
    ensures var h := [Request(1, 0), Request(2, 1)];
      && WellFormed(h) && Check([], 1, 0).1 == New && Check(Window(h), 1, 0).1 == New
  {
    var h := [Request(1, 0), Request(2, 1)];
    assert !Seen(h, 1) by {
      assert h[1].rep >= 1;
    }
    NewIffUnseen(h, 1, 0);
    NewIffUnseen([], 1, 0);
  }

  // ---------------------------------------------------------------- the server object

  class Rpcs {
    var windows: map<nat, seq<Reply>>

    constructor ()
      ensures windows == map[]
    {
      windows := map[];
    }

    function Of(nonce: nat): seq<Reply>
      reads this
    {
      if nonce in windows then windows[nonce] else []
    }

    method CheckDuplicateAndUpdate(nonce: nat, xid: nat, rep: nat) returns (c: State)
      modifies this
      ensures windows == old(windows)[nonce := Check(old(Of(nonce)), xid, rep).0]
      ensures c == Check(old(Of(nonce)), xid, rep).1
    {
      var l := Of(nonce);
      while l != [] && l[0].xid <= rep
        invariant Trim(l, rep) == Trim(Of(nonce), rep)
        decreases |l|
      {
        l := l[1..];
      }
      var first: int := if l == [] then xid else l[0].xid - 1;
      ghost var filled := FillFront(l, rep, first);
      while rep < first
        invariant FillFront(l, rep, first) == filled
        decreases first
      {
        l := [Dummy(first)] + l;
        first := first - 1;
      }
      if l == [] {
        windows := windows[nonce := l];
        return NoBack;
      }
      var last := l[|l| - 1].xid;
      filled := FillBack(l, last, xid);
      while xid > last
        invariant FillBack(l, last, xid) == filled && l != []
      {
        last := last + 1;
        l := l + [Dummy(last)];
      }
      assert l == Filled(Of(nonce), xid, rep);
      windows := windows[nonce := l];
      if l[0].xid > xid {
        return Forgotten;
      }
      var i := FindReply(l, xid);
      if i == |l| {
        return NotFound;
      }
      c := Judge(l[i]);
      windows := windows[nonce := l[i := l[i].(present := true)]];
    }

    method StoreReply(nonce: nat, xid: nat, b: Bytes)
      modifies this
      ensures windows == old(windows)[nonce := AddReply(old(Of(nonce)), xid, b)]
    {
      var l := Of(nonce);
      var i := FindReply(l, xid);
      if i < |l| {
        l := l[i := l[i].(buf := Buf(b))];
      }
      windows := windows[nonce := l];
    }
  }

  lemma {:induction false} FindAt(l: seq<Reply>, xid: nat, i: nat)
    requires i <= |l| && (forall j :: 0 <= j < i ==> l[j].xid != xid) && (i < |l| ==> l[i].xid == xid)
    ensures Find(l, xid) == i
  {
    if i > 0 {
      FindAt(l[1..], xid, i - 1);
    }
  }

  method FindReply(l: seq<Reply>, xid: nat) returns (i: nat)
    ensures i == Find(l, xid)
  {
    i := 0;
    while i < |l| && l[i].xid != xid
      invariant i <= |l| && forall j :: 0 <= j < i ==> l[j].xid != xid
    {
      i := i + 1;
    }
    FindAt(l, xid, i);
  }
}
