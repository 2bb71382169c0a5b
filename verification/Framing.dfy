/** PDU framing on a byte stream (rpc/connection.cc): whatever the sizes of the reads and writes, the
    PDUs delivered are an intact, in-order prefix of the PDUs sent. */
module Framing {
  import opened Sequences
  import opened Wire

  const MAX_PDU: nat := 10 * 0x10_0000

  /** The PDU as it goes out: the size is written over its first four bytes. */
  function Stamped(b: seq<Byte>): (r: seq<Byte>)
    requires |b| >= 4
    ensures |r| == |b|
  {
    Digits(4, |b|) + b[4..]
  }

  // ---------------------------------------------------------------- the two ends

  /** How write() ended: n bytes moved, would block, or failed. */
  datatype WriteResult = Wrote(n: nat) | Blocked | Failed

  /** The sender's wpdu_; after a failure the rest is never written. */
  datatype Writer = Idle | Writing(pdu: seq<Byte>, solong: nat) | Broken(pdu: seq<Byte>, solong: nat)

  predicate CanWrite(w: Writer, o: WriteResult) {
    w.Writing? && w.solong <= |w.pdu| && (o.Wrote? ==> w.solong + o.n <= |w.pdu|)
  }

  function WriteStep(w: Writer, o: WriteResult): Writer
    requires CanWrite(w, o)
  {
    match o
    case Wrote(n) => Writing(w.pdu, w.solong + n)
    case Blocked => w
    case Failed => Broken(w.pdu, w.solong)
  }

  function Unsent(w: Writer): seq<Byte> {
    if w.Idle? || w.solong > |w.pdu| then [] else w.pdu[w.solong..]
  }

  /** The receiver's rpdu_: the size, 0 when there is no buffer, and the bytes read so far. */
  datatype Reader = Reader(sz: nat, got: seq<Byte>)

  const NoPdu: Reader := Reader(0, [])

  /** What read() returned. */
  datatype ReadResult = Data(bytes: seq<Byte>) | NoData | ReadFailed

  /** What is left of readpdu and whether the connection lives. */
  datatype ReadPduResult = ReadPduResult(r: Reader, ok: bool)

  function ReadSize(head: ReadResult): ReadPduResult {
    if head.Data? && |head.bytes| == 4 && ReadNum(4, Input(head.bytes, true)).n <= MAX_PDU then
      ReadPduResult(Reader(ReadNum(4, Input(head.bytes, true)).n, head.bytes), true)
    else ReadPduResult(NoPdu, false)
  }

  function ReadBody(r: Reader, body: ReadResult): ReadPduResult {
    match body
    case Data(bytes) => ReadPduResult(r.(got := r.got + bytes), true)
    case NoData => ReadPduResult(r, true)
    case ReadFailed => ReadPduResult(NoPdu, false)
  }

  /** readpdu: the size first if it is not there yet, and then some of the body. */
  function ReadStep(r: Reader, head: ReadResult, body: ReadResult): ReadPduResult {
    var h := if r.sz == 0 then ReadSize(head) else ReadPduResult(r, true);
    if h.ok then ReadBody(h.r, body) else h
  }

  predicate Complete(r: Reader) {
    r.sz != 0 && |r.got| == r.sz
  }

  // ---------------------------------------------------------------- the connection

  /** stream is what has been written and not yet read. */
  datatype Link = Link(w: Writer, stream: seq<Byte>, r: Reader, dead: bool,
                       sent: seq<seq<Byte>>, delivered: seq<seq<Byte>>)

  /** The steps of send() and write_cb() at one end and of read_cb() at the other. */
  datatype Action =
    | Send(b: seq<Byte>)
    | Write(o: WriteResult)
    | Return
    | Head(head: ReadResult)
    | Body(body: ReadResult)
    | Offer(accept: bool)

  predicate Init(s: Link) {
    s == Link(Idle, [], NoPdu, false, [], [])
  }

  /** A read gets bytes from the front of the stream, any number of them up to what it asks for. */
  predicate CanGet(s: Link, o: ReadResult, most: int) {
    o.Data? ==> 0 < |o.bytes| <= most && o.bytes <= s.stream
  }

  predicate Enabled(s: Link, a: Action) {
    match a
    case Send(b) => s.w.Idle? && 4 < |b| <= MAX_PDU
    case Write(o) => CanWrite(s.w, o)
    case Return => s.w.Writing? && s.w.solong == |s.w.pdu|
    case Head(o) => !s.dead && s.r.sz == 0 && CanGet(s, o, 4)
    case Body(o) => !s.dead && s.r.sz != 0 && CanGet(s, o, s.r.sz - |s.r.got|)
    case Offer(_) => !s.dead && Complete(s.r)
  }

  function Drop(s: Link, o: ReadResult): seq<Byte> {
    if o.Data? && |o.bytes| <= |s.stream| then s.stream[|o.bytes|..] else s.stream
  }

  /** A PDU that got_pdu refuses stays for the next call. */
  function Apply(s: Link, a: Action): Link
    requires Enabled(s, a)
  {
    match a
    case Send(b) => s.(w := Writing(Stamped(b), 0), sent := s.sent + [Stamped(b)])
    case Write(o) =>
      s.(w := WriteStep(s.w, o),
         stream := if o.Wrote? then s.stream + s.w.pdu[s.w.solong..s.w.solong + o.n] else s.stream)
    case Return => s.(w := Idle)
    case Head(o) => s.(r := ReadSize(o).r, dead := !ReadSize(o).ok, stream := Drop(s, o))
    case Body(o) => s.(r := ReadBody(s.r, o).r, dead := !ReadBody(s.r, o).ok, stream := Drop(s, o))
    case Offer(accept) => if accept then s.(r := NoPdu, delivered := s.delivered + [s.r.got]) else s
  }

  // ---------------------------------------------------------------- the invariant

  function Flat(ps: seq<seq<Byte>>): seq<Byte> {
    if ps == [] then [] else ps[0] + Flat(ps[1..])
  }

  lemma {:induction false} FlatSnoc(ps: seq<seq<Byte>>, p: seq<Byte>)
    ensures Flat(ps + [p]) == Flat(ps) + p
  {
    if ps == [] {
      assert [p][1..] == [] && p + [] == p == [] + p;
    } else {
      FlatSnoc(ps[1..], p);
      assert (ps + [p])[1..] == ps[1..] + [p];
      Cat(ps[0], Flat(ps[1..]), p);
    }
  }

  /** A PDU that starts with its own size. */
  predicate Sized(p: seq<Byte>) {
    4 < |p| <= MAX_PDU && p[..4] == Digits(4, |p|)
  }

  function Undelivered(s: Link): seq<seq<Byte>> {
    if |s.delivered| <= |s.sent| then s.sent[|s.delivered|..] else []
  }

  /** No byte is lost, doubled or reordered between the two ends. */
  predicate Conserved(s: Link) {
    (s.r.got + s.stream) + Unsent(s.w) == Flat(Undelivered(s))
  }

  predicate ReaderOk(s: Link) {
    if s.r.sz == 0 then s.r.got == []
    else Undelivered(s) != [] && s.r.sz == |Undelivered(s)[0]| && |s.r.got| <= s.r.sz
  }

  predicate Inv(s: Link) {
    && s.delivered <= s.sent
    && (forall p :: p in s.sent ==> Sized(p))
    && (s.w.Writing? ==> s.w.solong <= |s.w.pdu|)
    && (!s.dead ==> Conserved(s) && ReaderOk(s))
  }

  lemma StampedIsSized(b: seq<Byte>)
    requires 4 < |b| <= MAX_PDU
    ensures Sized(Stamped(b))
  {
    assert Stamped(b)[..4] == Digits(4, |b|);
  }

  lemma SendInv(s: Link, b: seq<Byte>)
    requires Inv(s) && Enabled(s, Send(b))
    ensures Inv(Apply(s, Send(b)))
  {
    var t, p := Apply(s, Send(b)), Stamped(b);
    StampedIsSized(b);
    if !s.dead {
      assert Undelivered(t) == Undelivered(s) + [p];
      FlatSnoc(Undelivered(s), p);
      var behind := s.r.got + s.stream;
      assert behind + [] == behind;
      assert Unsent(t.w) == p[0..] == p;
    }
  }

  lemma Moved(got: seq<Byte>, stream: seq<Byte>, moved: seq<Byte>, rest: seq<Byte>)
    ensures (got + (stream + moved)) + rest == (got + stream) + (moved + rest)
  {
    Cat(got, stream, moved);
    Cat(got + stream, moved, rest);
  }

  lemma Cut(p: seq<Byte>, i: nat, j: nat)
    requires i <= j <= |p|
    ensures p[i..] == p[i..j] + p[j..]
  {
  }

  lemma WriteInv(s: Link, o: WriteResult)
    requires Inv(s) && Enabled(s, Write(o))
    ensures Inv(Apply(s, Write(o)))
  {
    if o.Wrote? {
      var i, j := s.w.solong, s.w.solong + o.n;
      Cut(s.w.pdu, i, j);
      Moved(s.r.got, s.stream, s.w.pdu[i..j], s.w.pdu[j..]);
    }
  }

  lemma ReturnInv(s: Link)
    requires Inv(s) && Enabled(s, Return)
    ensures Inv(Apply(s, Return))
  {
  }

  /** The four bytes at the front of the stream are the size of the first PDU not yet delivered. */
  lemma SizeIsNext(s: Link, h: seq<Byte>)
    requires Inv(s) && !s.dead && s.r.sz == 0 && |h| == 4 && h <= s.stream
    ensures Undelivered(s) != [] && Sized(Undelivered(s)[0]) && h == Digits(4, |Undelivered(s)[0]|)
    ensures ReadNum(4, Input(h, true)).n == |Undelivered(s)[0]|
  {
    var ps := Undelivered(s);
    var all := Flat(ps);
    assert all == (s.r.got + s.stream) + Unsent(s.w);
    assert all[..4] == h;
    assert ps != [];
    var p := ps[0];
    assert p in s.sent;
    assert all == p + Flat(ps[1..]) && all[..4] == p[..4];
    assert Bound(4) == LIMIT;
    NumReads(4, |p|, []);
    assert h + [] == h;
  }

  lemma HeadInv(s: Link, o: ReadResult)
    requires Inv(s) && Enabled(s, Head(o))
    ensures Inv(Apply(s, Head(o)))
  {
    var t := Apply(s, Head(o));
    if !t.dead {
      SizeIsNext(s, o.bytes);
      assert s.stream == o.bytes + t.stream && [] + s.stream == s.stream;
    }
  }

  lemma BodyInv(s: Link, o: ReadResult)
    requires Inv(s) && Enabled(s, Body(o))
    ensures Inv(Apply(s, Body(o)))
  {
    var t := Apply(s, Body(o));
    if o.Data? {
      assert s.stream == o.bytes + t.stream;
      Cat(s.r.got, o.bytes, t.stream);
    }
  }

  /** What has been read of a PDU is its beginning. */
  lemma GotIsPrefix(s: Link)
    requires Inv(s) && !s.dead && s.r.sz != 0
    ensures s.r.got <= Undelivered(s)[0]
  {
    var ps := Undelivered(s);
    var n := |s.r.got|;
    assert Flat(ps) == ps[0] + Flat(ps[1..]);
    assert Flat(ps)[..n] == s.r.got == ps[0][..n];
  }

  lemma OfferInv(s: Link, accept: bool)
    requires Inv(s) && Enabled(s, Offer(accept))
    ensures Inv(Apply(s, Offer(accept)))
  {
    if accept {
      var t := Apply(s, Offer(accept));
      GotIsPrefix(s);
      var ps := Undelivered(s);
      assert s.r.got == ps[0] && Undelivered(t) == ps[1..];
      var rest := Flat(ps[1..]);
      Cat(s.r.got, s.stream, Unsent(s.w));
      assert (ps[0] + rest)[|ps[0]|..] == rest;
      assert (s.r.got + (s.stream + Unsent(s.w)))[|ps[0]|..] == s.stream + Unsent(s.w);
      assert [] + s.stream == s.stream;
    }
  }

  lemma StepInv(s: Link, a: Action)
    requires Inv(s) && Enabled(s, a)
    ensures Inv(Apply(s, a))
  {
    match a
    case Send(b) => SendInv(s, b);
    case Write(o) => WriteInv(s, o);
    case Return => ReturnInv(s);
    case Head(o) => HeadInv(s, o);
    case Body(o) => BodyInv(s, o);
    case Offer(accept) => OfferInv(s, accept);
  }

  // ---------------------------------------------------------------- runs

  ghost predicate Run(trace: seq<Link>, acts: seq<Action>) {
    && |trace| == |acts| + 1 && Init(trace[0])
    && (forall i {:trigger acts[i]} ::
         0 <= i < |acts| ==> Enabled(trace[i], acts[i]) && trace[i + 1] == Apply(trace[i], acts[i]))
  }

  lemma {:induction false} RunInv(trace: seq<Link>, acts: seq<Action>, i: nat)
    requires Run(trace, acts) && i < |trace|
    ensures Inv(trace[i])
  {
    if i > 0 {
      RunInv(trace, acts, i - 1);
      StepInv(trace[i - 1], acts[i - 1]);
    }
  }

  /** In a run a connection dies exactly on a size that does not come in one piece and on a failed read:
      no size that the other end sends is refused. */
  lemma DiesOnlyOnFailure(trace: seq<Link>, acts: seq<Action>, i: nat)
    requires Run(trace, acts) && i < |acts| && !trace[i].dead
    ensures trace[i + 1].dead <==>
      acts[i] == Body(ReadFailed) || (acts[i].Head? && !(acts[i].head.Data? && |acts[i].head.bytes| == 4))
  {
    RunInv(trace, acts, i);
    if acts[i].Head? && acts[i].head.Data? && |acts[i].head.bytes| == 4 {
      SizeIsNext(trace[i], acts[i].head.bytes);
    }
  }

  /** What a write leaves: the next bytes of the PDU sent last are behind the others, or nothing has changed. */
  lemma WriteComesTo(trace: seq<Link>, acts: seq<Action>, i: nat)
    requires Run(trace, acts) && i < |acts| && acts[i].Write? && !acts[i].o.Failed?
    ensures var s, t := trace[i], trace[i + 1];
      && t.w.Writing? && t.w.pdu == s.w.pdu && t.r == s.r && t.sent == s.sent && t.delivered == s.delivered
      && (if acts[i].o.Blocked? then t == s
          else t.stream == s.stream + s.w.pdu[s.w.solong..t.w.solong] && t.w.solong == s.w.solong + acts[i].o.n)
  {
  }

  /** A sender that returns has written its PDU to the end and leaves the connection to the next one. */
  lemma ReturnComesTo(trace: seq<Link>, acts: seq<Action>, i: nat)
    requires Run(trace, acts) && i < |acts| && acts[i] == Return
    ensures Unsent(trace[i].w) == [] && trace[i + 1] == trace[i].(w := Idle)
  {
  }

  /** After a failed write nothing is written or sent any more, so no later PDU is appended to a torn one. */
  lemma {:induction false} NothingAfterFailure(trace: seq<Link>, acts: seq<Action>, i: nat, k: nat)
    requires Run(trace, acts) && i < k <= |acts| && acts[i] == Write(Failed)
    ensures trace[k].w.Broken? && trace[k].sent == trace[i].sent && |trace[k].stream| <= |trace[i].stream|
    decreases k
  {
    if k > i + 1 {
      NothingAfterFailure(trace, acts, i, k - 1);
    }
    assert trace[k] == Apply(trace[k - 1], acts[k - 1]);
  }

  /** One call of readpdu is the step that reads the size, if it is not there yet, and then the step that
      reads some of the body. */
  lemma ReadIsSteps(s: Link, head: ReadResult, body: ReadResult)
    requires !s.dead
    ensures s.r.sz != 0 && Enabled(s, Body(body)) ==>
      ReadStep(s.r, head, body) == ReadPduResult(Apply(s, Body(body)).r, !Apply(s, Body(body)).dead)
    ensures s.r.sz == 0 && Enabled(s, Head(head)) ==>
      var t := Apply(s, Head(head));
      if t.dead then ReadStep(s.r, head, body) == ReadPduResult(t.r, false)
      else Enabled(t, Body(body)) ==>
             ReadStep(s.r, head, body) == ReadPduResult(Apply(t, Body(body)).r, !Apply(t, Body(body)).dead)
  {
  }

  /** A complete PDU that is taken is the next one that was sent; one that is refused is offered again. */
  lemma OfferedIsNext(trace: seq<Link>, acts: seq<Action>, i: nat)
    requires Run(trace, acts) && i < |acts| && acts[i].Offer?
    ensures |trace[i].delivered| < |trace[i].sent| && trace[i + 1].sent == trace[i].sent
    ensures if acts[i].accept
            then trace[i + 1].delivered == trace[i].delivered + [trace[i].sent[|trace[i].delivered|]]
            else trace[i + 1] == trace[i]
  {
    var s := trace[i];
    RunInv(trace, acts, i);
    GotIsPrefix(s);
    assert s.r.got == Undelivered(s)[0] == s.sent[|s.delivered|];
  }

  /** In every run the PDUs delivered are an intact, in-order prefix of the PDUs sent. */
  lemma DeliveredArePrefix(trace: seq<Link>, acts: seq<Action>, i: nat)
    requires Run(trace, acts) && i < |trace|
    ensures trace[i].delivered <= trace[i].sent
  {
    RunInv(trace, acts, i);
  }

  /** In every run, as long as the receiving end lives, the bytes between the two ends are exactly the
      PDUs that are still to be delivered. */
  lemma NoByteLost(trace: seq<Link>, acts: seq<Action>, i: nat)
    requires Run(trace, acts) && i < |trace| && !trace[i].dead
    ensures Conserved(trace[i])
  {
    RunInv(trace, acts, i);
  }

  /** So when nothing is in transit everything sent has been delivered. */
  lemma AllDelivered(trace: seq<Link>, acts: seq<Action>, i: nat)
    requires Run(trace, acts) && i < |trace| && !trace[i].dead
    requires trace[i].w.Idle? && trace[i].stream == [] && trace[i].r == NoPdu
    ensures trace[i].delivered == trace[i].sent
  {
    RunInv(trace, acts, i);
    var s := trace[i];
    assert forall p :: p in Undelivered(s) ==> p in s.sent;
    FlatNotEmpty(Undelivered(s));
  }

  lemma FlatNotEmpty(ps: seq<seq<Byte>>)
    requires forall p :: p in ps ==> p != []
    ensures Flat(ps) == [] <==> ps == []
  {
    assert ps != [] ==> ps[0] in ps;
  }

  // ---------------------------------------------------------------- the object

  /** One end of a connection with its two buffers; a null buffer is no PDU. */
  class Connection {
    var dead: bool
    var wbuf: array?<Byte>
    var wsz: nat
    var wsolong: int
    var rbuf: array?<Byte>
    var rsz: nat
    var rsolong: nat

    predicate Sending()
      reads this, wbuf
    {
      && wbuf != null && 4 < wsz <= MAX_PDU && wsz <= wbuf.Length && 0 <= wsolong <= wsz
      && (wsolong > 0 ==> wbuf[..4] == Digits(4, wsz))
    }

    function Out(): Writer
      requires Sending()
      reads this, wbuf
    {
      Writing(Stamped(wbuf[..wsz]), wsolong)
    }

    predicate Receiving()
      reads this, rbuf
    {
      if rbuf == null then rsz == 0 else 4 <= rsolong <= rsz <= rbuf.Length
    }

    function In(): Reader
      requires Receiving()
      reads this, rbuf
    {
      if rbuf == null then NoPdu else Reader(rsz, rbuf[..rsolong])
    }

    constructor ()
      ensures Receiving() && In() == NoPdu && !dead && wbuf == null
    {
      dead, wbuf, wsz, wsolong, rbuf, rsz, rsolong := false, null, 0, 0, null, 0, 0;
    }

    /** One write() of what is left of the PDU; out are the bytes that went into the stream. */
    method WritePdu(o: WriteResult) returns (ok: bool, out: seq<Byte>)
      requires Sending() && CanWrite(Out(), o) && wbuf != rbuf
      modifies this`wsz, this`wsolong, wbuf
      ensures ok ==> Sending() && wsz == old(wsz)
      ensures ok ==> Out() == (if old(wsolong < wsz) then WriteStep(old(Out()), o) else old(Out()))
      ensures ok == !(o.Failed? && old(wsolong < wsz))
      ensures out == if o.Wrote? then old(Out().pdu)[old(wsolong)..old(wsolong) + o.n] else []
      ensures !ok ==> wsz == 0 && wsolong == -1
    {
      out := [];
      if wsolong == wsz {
        assert old(Out().pdu)[wsz..wsz] == [];
        return true, out;
      }
      if wsolong == 0 {
        PatchSize();
      }
      ghost var pdu := old(Out().pdu);
      assert wbuf[..wsz] == pdu;
      match o
      case Blocked => ok := true;
      case Failed =>
        wsolong, wsz := -1, 0;
        ok := false;
      case Wrote(n) =>
        out := wbuf[..wsz][wsolong..wsolong + n];
        wsolong := wsolong + n;
        ok := true;
    }

    method PatchSize()
      requires wbuf != null && 4 < wsz <= MAX_PDU && wsz <= wbuf.Length
      modifies wbuf
      ensures wbuf[..wsz] == Stamped(old(wbuf[..wsz])) && wbuf[..4] == Digits(4, wsz)
    {
      var d := Digits(4, wsz);
      forall i | 0 <= i < 4 {
        wbuf[i] := d[i];
      }
    }

    /** Sizes on the wire are those of PDUs longer than their size field. */
    method ReadPdu(head: ReadResult, body: ReadResult) returns (ok: bool)
      requires Receiving()
      requires rsz == 0 && ReadSize(head).ok ==> ReadSize(head).r.sz > 4
      requires var h := if rsz == 0 then ReadSize(head) else ReadPduResult(In(), true);
        h.ok && body.Data? ==> |h.r.got| + |body.bytes| <= h.r.sz
      modifies this`rbuf, this`rsz, this`rsolong, rbuf
      ensures Receiving() && (rbuf == old(rbuf) || rbuf == null || fresh(rbuf))
      ensures ReadPduResult(In(), ok) == ReadStep(old(In()), head, body)
    {
      if rsz == 0 {
        if !head.Data? || |head.bytes| != 4 {
          return false;
        }
        var sz := ReadNum(4, Input(head.bytes, true)).n;
        if sz > MAX_PDU {
          return false;
        }
        rsz := sz;
        rbuf := new Byte[sz + 4];
        forall i | 0 <= i < 4 {
          rbuf[i] := head.bytes[i];
        }
        rsolong := 4;
        assert rbuf[..4] == head.bytes;
      }
      match body
      case NoData => ok := true;
      case ReadFailed =>
        rbuf, rsz, rsolong := null, 0, 0;
        ok := false;
      case Data(bytes) =>
        CopyBody(bytes);
        ok := true;
    }

    method CopyBody(bytes: seq<Byte>)
      requires rbuf != null && rsolong + |bytes| <= rbuf.Length
      modifies this`rsolong, rbuf
      ensures rsolong == old(rsolong) + |bytes| && rbuf[..rsolong] == old(rbuf[..rsolong]) + bytes
    {
      forall i | 0 <= i < |bytes| {
        rbuf[rsolong + i] := bytes[i];
      }
      rsolong := rsolong + |bytes|;
    }

    /** The descriptor is readable: read on, and hand over the PDU when it is complete. */
    method ReadCb(head: ReadResult, body: ReadResult, accept: bool) returns (handed: seq<seq<Byte>>)
      requires Receiving()
      requires rsz == 0 && ReadSize(head).ok ==> ReadSize(head).r.sz > 4
      requires var h := if rsz == 0 then ReadSize(head) else ReadPduResult(In(), true);
        h.ok && body.Data? ==> |h.r.got| + |body.bytes| <= h.r.sz
      modifies this`dead, this`rbuf, this`rsz, this`rsolong, rbuf
      ensures Receiving()
      ensures old(dead) ==> In() == old(In()) && dead && handed == []
      ensures !old(dead) ==>
        var res := if Complete(old(In())) then ReadPduResult(old(In()), true) else ReadStep(old(In()), head, body);
        && dead == !res.ok
        && In() == (if Complete(res.r) && accept then NoPdu else res.r)
        && handed == (if Complete(res.r) && accept then [res.r.got] else [])
    {
      handed := [];
      if dead {
        return;
      }
      var succ := true;
      if rbuf == null || rsolong < rsz {
        succ := ReadPdu(head, body);
      }
      if !succ {
        dead := true;
      }
      if rbuf != null && rsz == rsolong {
        if accept {
          handed := [rbuf[..rsz]];
          rbuf := null;
          rsz, rsolong := 0, 0;
        }
      }
    }
  }
}
