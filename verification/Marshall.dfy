/** The wire format of arguments and results (rpc/marshall.h and the primitives in rpc/rpc.cc). */
module Wire {
  import opened Sequences

  type Byte = x: int | 0 <= x < 256

  /** Numbers of w bytes, strings, vectors, and maps, whose entries are pairs. */
  datatype Type = Num(w: nat) | Str | Vec(elem: Type) | Two(first: Type, second: Type) | Map(entry: Type)

  /** A map is the list of its entries in iteration order. */
  datatype Value = N(n: nat) | S(bytes: seq<Byte>) | V(items: seq<Value>) | P(k: Value, v: Value)

  const LIMIT: nat := 0x1_0000_0000

  function Bound(w: nat): nat {
    if w == 0 then 1 else 256 * Bound(w - 1)
  }

  predicate HasType(v: Value, ty: Type)
    decreases ty
  {
    match ty
    case Num(w) => v.N? && v.n < Bound(w)
    case Str => v.S? && |v.bytes| < LIMIT
    case Vec(t) => v.V? && |v.items| < LIMIT && forall i :: 0 <= i < |v.items| ==> HasType(v.items[i], t)
    case Two(a, b) => v.P? && HasType(v.k, a) && HasType(v.v, b)
    case Map(t) =>
      && v.V? && |v.items| < LIMIT && DistinctKeys(v.items)
      && (forall i :: 0 <= i < |v.items| ==> HasType(v.items[i], t))
  }

  predicate DistinctKeys(es: seq<Value>) {
    && (forall i :: 0 <= i < |es| ==> es[i].P?)
    && (forall i, j :: 0 <= i < j < |es| ==> es[i].k != es[j].k)
  }

  // ---------------------------------------------------------------- operator<<

  /** Network order is big-endian. */
  function Digits(w: nat, x: nat): (r: seq<Byte>)
    ensures |r| == w
  {
    if w == 0 then [] else Digits(w - 1, x / 256) + [x % 256]
  }

  /** A word goes out highest byte first. */
  lemma WordIsBigEndian(x: nat)
    requires x < 0x1_0000_0000
    ensures Digits(4, x) == [x / 0x100_0000, x / 0x1_0000 % 256, x / 256 % 256, x % 256]
  {
    var y, z, w := x / 256, x / 0x1_0000, x / 0x100_0000;
    assert y / 256 == z && z / 256 == w && w < 256;
    assert Digits(1, w) == Digits(0, w / 256) + [w] == [w];
    assert Digits(2, z) == [w] + [z % 256];
    assert Digits(3, y) == [w] + [z % 256] + [y % 256];
  }

  function Encode(v: Value, ty: Type): seq<Byte>
    requires HasType(v, ty)
    decreases ty, 0
  {
    match ty
    case Num(w) => Digits(w, v.n)
    case Str => Digits(4, |v.bytes|) + v.bytes
    case Vec(t) => Digits(4, |v.items|) + EncodeItems(v.items, t)
    case Two(a, b) => Encode(v.k, a) + Encode(v.v, b)
    case Map(t) => Digits(4, |v.items|) + EncodeItems(v.items, t)
  }

  function EncodeItems(vs: seq<Value>, t: Type): seq<Byte>
    requires forall i :: 0 <= i < |vs| ==> HasType(vs[i], t)
    decreases t, |vs|
  {
    if vs == [] then [] else Encode(vs[0], t) + EncodeItems(vs[1..], t)
  }

  // ---------------------------------------------------------------- operator>>

  /** The unread part of the buffer, and the ok flag. */
  datatype Input = Input(rest: seq<Byte>, ok: bool)

  /** What an extraction yields and the input it leaves. */
  datatype GotNum = GotNum(n: nat, u: Input)
  datatype GotBytes = GotBytes(bytes: seq<Byte>, u: Input)
  datatype Got = Got(v: Value, u: Input)
  datatype GotAll = GotAll(vs: seq<Value>, u: Input)

  /** At the end a zero is returned and the input is no longer ok. */
  function RawByte(u: Input): (r: GotNum)
    ensures r.n < 256 && (r.u.ok ==> u.ok)
  {
    if u.rest == [] then GotNum(0, u.(ok := false)) else GotNum(u.rest[0], u.(rest := u.rest[1..]))
  }

  function RawBytes(n: nat, u: Input): (r: GotBytes)
    ensures r.u.ok ==> u.ok
  {
    if n > |u.rest| then GotBytes([], u.(ok := false)) else GotBytes(u.rest[..n], u.(rest := u.rest[n..]))
  }

  function ReadNum(w: nat, u: Input): (r: GotNum)
    ensures r.u.ok ==> u.ok
  {
    if w == 0 then GotNum(0, u)
    else
      var hi := ReadNum(w - 1, u);
      var lo := RawByte(hi.u);
      GotNum(hi.n * 256 + lo.n, lo.u)
  }

  /** d[a] = b on a map. */
  function Assign(es: seq<Value>, e: Value): seq<Value> {
    if es == [] then [e]
    else if es[0].P? && e.P? && es[0].k == e.k then [e] + es[1..]
    else [es[0]] + Assign(es[1..], e)
  }

  function AssignAll(es: seq<Value>): seq<Value> {
    if es == [] then [] else Assign(AssignAll(es[..|es| - 1]), es[|es| - 1])
  }

  function Decode(ty: Type, u: Input): (r: Got)
    ensures r.u.ok ==> u.ok
    decreases ty, 0
  {
    match ty
    case Num(w) =>
      var x := ReadNum(w, u);
      Got(N(x.n), x.u)
    case Str =>
      var size := ReadNum(4, u);
      if size.u.ok then
        var s := RawBytes(size.n, size.u);
        Got(S(s.bytes), s.u)
      else Got(S([]), size.u)
    case Vec(t) =>
      var size := ReadNum(4, u);
      var r := DecodeItems(size.n, t, size.u);
      Got(V(r.vs), r.u)
    case Two(a, b) =>
      var k := Decode(a, u);
      var v := Decode(b, k.u);
      Got(P(k.v, v.v), v.u)
    case Map(t) =>
      var size := ReadNum(4, u);
      var r := DecodeItems(size.n, t, size.u);
      Got(V(AssignAll(r.vs)), r.u)
  }

  function DecodeItems(n: nat, t: Type, u: Input): (r: GotAll)
    ensures r.u.ok ==> u.ok
    decreases t, n
  {
    if n == 0 then GotAll([], u)
    else
      var head := Decode(t, u);
      var tail := DecodeItems(n - 1, t, head.u);
      GotAll([head.v] + tail.vs, tail.u)
  }

  predicate OkDone(u: Input) {
    u.ok && u.rest == []
  }

  // ---------------------------------------------------------------- round trip

  lemma {:induction false} NumReads(w: nat, x: nat, rest: seq<Byte>)
    requires x < Bound(w)
    ensures ReadNum(w, Input(Digits(w, x) + rest, true)) == GotNum(x, Input(rest, true))
  {
    if w == 0 {
      assert [] + rest == rest;
    } else {
      var d := [x % 256] + rest;
      Cat(Digits(w - 1, x / 256), [x % 256], rest);
      NumReads(w - 1, x / 256, d);
      assert d[1..] == rest;
    }
  }

  lemma SizeReads(n: nat, s: seq<Byte>, rest: seq<Byte>)
    requires n < LIMIT
    ensures ReadNum(4, Input((Digits(4, n) + s) + rest, true)) == GotNum(n, Input(s + rest, true))
  {
    assert Bound(4) == LIMIT;
    Cat(Digits(4, n), s, rest);
    NumReads(4, n, s + rest);
  }

  lemma {:induction false} Appended(es: seq<Value>, e: Value)
    requires DistinctKeys(es + [e])
    ensures Assign(es, e) == es + [e]
  {
    if es != [] {
      assert es[1..] + [e] == (es + [e])[1..];
      assert (es + [e])[0] == es[0] && (es + [e])[|es|] == e;
      Appended(es[1..], e);
    }
  }

  /** Entries with distinct keys are kept as they are. */
  lemma {:induction false} AllAssigned(es: seq<Value>)
    requires DistinctKeys(es)
    ensures AssignAll(es) == es
  {
    if es != [] {
      var n := |es| - 1;
      AllAssigned(es[..n]);
      assert es[..n] + [es[n]] == es;
      Appended(es[..n], es[n]);
    }
  }

  /** Any value followed by anything decodes to itself and leaves what follows. */
  lemma {:induction false} Decodes(v: Value, ty: Type, rest: seq<Byte>)
    requires HasType(v, ty)
    ensures Decode(ty, Input(Encode(v, ty) + rest, true)) == Got(v, Input(rest, true))
    decreases ty, 0
  {
    match ty
    case Num(w) => NumReads(w, v.n, rest);
    case Str =>
      SizeReads(|v.bytes|, v.bytes, rest);
      assert (v.bytes + rest)[..|v.bytes|] == v.bytes && (v.bytes + rest)[|v.bytes|..] == rest;
    case Vec(t) =>
      SizeReads(|v.items|, EncodeItems(v.items, t), rest);
      ItemsDecode(v.items, t, rest);
    case Two(a, b) =>
      Cat(Encode(v.k, a), Encode(v.v, b), rest);
      Decodes(v.k, a, Encode(v.v, b) + rest);
      Decodes(v.v, b, rest);
    case Map(t) =>
      SizeReads(|v.items|, EncodeItems(v.items, t), rest);
      ItemsDecode(v.items, t, rest);
      AllAssigned(v.items);
  }

  lemma {:induction false} ItemsDecode(vs: seq<Value>, t: Type, rest: seq<Byte>)
    requires forall j :: 0 <= j < |vs| ==> HasType(vs[j], t)
    ensures DecodeItems(|vs|, t, Input(EncodeItems(vs, t) + rest, true)) == GotAll(vs, Input(rest, true))
    decreases t, |vs|
  {
    if vs == [] {
      assert [] + rest == rest;
    } else {
      var tail := EncodeItems(vs[1..], t);
      Cat(Encode(vs[0], t), tail, rest);
      Decodes(vs[0], t, tail + rest);
      ItemsDecode(vs[1..], t, rest);
      assert [vs[0]] + vs[1..] == vs;
    }
  }

  // ---------------------------------------------------------------- truncated buffers

  /** A read that stays ok reads the same when more bytes follow. */
  lemma {:induction false} NumAgrees(w: nat, s: seq<Byte>, more: seq<Byte>)
    requires ReadNum(w, Input(s, true)).u.ok
    ensures var r := ReadNum(w, Input(s, true));
      ReadNum(w, Input(s + more, true)) == GotNum(r.n, Input(r.u.rest + more, true))
  {
    if w > 0 {
      NumAgrees(w - 1, s, more);
      var rest := ReadNum(w - 1, Input(s, true)).u.rest;
      assert (rest + more)[0] == rest[0] && (rest + more)[1..] == rest[1..] + more;
    }
  }

  lemma {:induction false} Agrees(ty: Type, s: seq<Byte>, more: seq<Byte>)
    requires Decode(ty, Input(s, true)).u.ok
    ensures var r := Decode(ty, Input(s, true));
      Decode(ty, Input(s + more, true)) == Got(r.v, Input(r.u.rest + more, true))
    decreases ty, 0
  {
    match ty
    case Num(w) => NumAgrees(w, s, more);
    case Str =>
      NumAgrees(4, s, more);
      var size := ReadNum(4, Input(s, true));
      var rest, n := size.u.rest, size.n;
      assert (rest + more)[..n] == rest[..n] && (rest + more)[n..] == rest[n..] + more;
    case Vec(t) => SizedAgree(t, s, more);
    case Two(f, g) =>
      Agrees(f, s, more);
      Agrees(g, Decode(f, Input(s, true)).u.rest, more);
    case Map(t) => SizedAgree(t, s, more);
  }

  lemma {:induction false} SizedAgree(t: Type, s: seq<Byte>, more: seq<Byte>)
    requires var size := ReadNum(4, Input(s, true)); DecodeItems(size.n, t, size.u).u.ok
    ensures var size, size' := ReadNum(4, Input(s, true)), ReadNum(4, Input(s + more, true));
      var r := DecodeItems(size.n, t, size.u);
      DecodeItems(size'.n, t, size'.u) == GotAll(r.vs, Input(r.u.rest + more, true))
    decreases t, ReadNum(4, Input(s, true)).n + 1
  {
    NumAgrees(4, s, more);
    var size := ReadNum(4, Input(s, true));
    ItemsAgree(size.n, t, size.u.rest, more);
  }

  lemma {:induction false} ItemsAgree(n: nat, t: Type, s: seq<Byte>, more: seq<Byte>)
    requires DecodeItems(n, t, Input(s, true)).u.ok
    ensures var r := DecodeItems(n, t, Input(s, true));
      DecodeItems(n, t, Input(s + more, true)) == GotAll(r.vs, Input(r.u.rest + more, true))
    decreases t, n
  {
    if n > 0 {
      Agrees(t, s, more);
      ItemsAgree(n - 1, t, Decode(t, Input(s, true)).u.rest, more);
    }
  }

  // ---------------------------------------------------------------- messages

  predicate AllTyped(vs: seq<Value>, tys: seq<Type>) {
    |vs| == |tys| && forall i :: 0 <= i < |vs| ==> HasType(vs[i], tys[i])
  }

  function EncodeAll(vs: seq<Value>, tys: seq<Type>): seq<Byte>
    requires AllTyped(vs, tys)
  {
    if vs == [] then [] else Encode(vs[0], tys[0]) + EncodeAll(vs[1..], tys[1..])
  }

  function DecodeAll(tys: seq<Type>, u: Input): (r: GotAll)
    ensures r.u.ok ==> u.ok
  {
    if tys == [] then GotAll([], u)
    else
      var head := Decode(tys[0], u);
      var tail := DecodeAll(tys[1..], head.u);
      GotAll([head.v] + tail.vs, tail.u)
  }

  lemma {:induction false} AllDecode(vs: seq<Value>, tys: seq<Type>, rest: seq<Byte>)
    requires AllTyped(vs, tys)
    ensures DecodeAll(tys, Input(EncodeAll(vs, tys) + rest, true)) == GotAll(vs, Input(rest, true))
  {
    if vs == [] {
      assert [] + rest == rest;
    } else {
      var tail := EncodeAll(vs[1..], tys[1..]);
      Cat(Encode(vs[0], tys[0]), tail, rest);
      Decodes(vs[0], tys[0], tail + rest);
      AllDecode(vs[1..], tys[1..], rest);
      assert [vs[0]] + vs[1..] == vs;
    }
  }

  lemma {:induction false} AllAgree(tys: seq<Type>, s: seq<Byte>, more: seq<Byte>)
    requires DecodeAll(tys, Input(s, true)).u.ok
    ensures DecodeAll(tys, Input(s + more, true)).u == Input(DecodeAll(tys, Input(s, true)).u.rest + more, true)
    decreases |tys|
  {
    if tys != [] {
      Agrees(tys[0], s, more);
      AllAgree(tys[1..], Decode(tys[0], Input(s, true)).u.rest, more);
    }
  }

  /** Marshalling is exact: a message decodes to the values it was made of with okdone true, and of the
      buffers that are prefixes or extensions of it, only the message itself is okdone. */
  lemma Exact(vs: seq<Value>, tys: seq<Type>, buf: seq<Byte>)
    requires AllTyped(vs, tys) && (buf <= EncodeAll(vs, tys) || EncodeAll(vs, tys) <= buf)
    ensures OkDone(DecodeAll(tys, Input(buf, true)).u) <==> buf == EncodeAll(vs, tys)
    ensures EncodeAll(vs, tys) <= buf ==> DecodeAll(tys, Input(buf, true)).vs == vs
    ensures buf < EncodeAll(vs, tys) ==> !DecodeAll(tys, Input(buf, true)).u.ok
  {
    var full := EncodeAll(vs, tys);
    if full <= buf {
      assert buf == full + buf[|full|..];
      AllDecode(vs, tys, buf[|full|..]);
    } else {
      var more := full[|buf|..];
      assert full == buf + more && full + [] == full;
      AllDecode(vs, tys, []);
      if DecodeAll(tys, Input(buf, true)).u.ok {
        AllAgree(tys, buf, more);
        assert false;
      }
    }
  }
}

/** The two buffer objects (rpc/marshall.h): marshall writes, unmarshall reads. */
module Marshalling {
  import opened Sequences
  import opened Wire

  const DEFAULT_RPC_SZ: nat := 1024

  /** Four bytes for the size of the PDU and five words of request header. */
  const RPC_HEADER_SZ: nat := 24

  type Word = x: int | 0 <= x < 0x1_0000_0000

  datatype ReqHeader = ReqHeader(xid: Word, proc: Word, cltNonce: Word, srvNonce: Word, xidRep: Word)

  datatype ReplyHeader = ReplyHeader(xid: Word, ret: Word)

  function ReqBytes(h: ReqHeader): (r: seq<Byte>)
    ensures |r| == 20
  {
    Digits(4, h.xid) + Digits(4, h.proc) + Digits(4, h.cltNonce) + Digits(4, h.srvNonce) + Digits(4, h.xidRep)
  }

  function ReplyBytes(h: ReplyHeader): (r: seq<Byte>)
    ensures |r| == 8
  {
    Digits(4, h.xid) + Digits(4, h.ret)
  }

  lemma WordDigits(x: Word)
    ensures Digits(4, x) == [x / 0x100_0000, x / 0x1_0000 % 256, x / 0x100 % 256, x % 256]
  {
    assert Digits(1, x / 0x100 / 0x100 / 0x100) == [x / 0x100_0000];
    assert Digits(2, x / 0x100 / 0x100) == [x / 0x100_0000, x / 0x1_0000 % 256];
    assert Digits(3, x / 0x100) == [x / 0x100_0000, x / 0x1_0000 % 256, x / 0x100 % 256];
  }

  class Marshall {
    var buf: array<Byte>
    var ind: nat

    /** The capacity is never zero and the head never past it. */
    predicate Valid()
      reads this
    {
      buf.Length >= DEFAULT_RPC_SZ && ind <= buf.Length
    }

    /** What has been written before the head. */
    function Written(): seq<Byte>
      reads this, buf
      requires Valid()
    {
      buf[..ind]
    }

    /** The rest of the buffer. */
    function Tail(): seq<Byte>
      reads this, buf
      requires Valid()
    {
      buf[ind..]
    }

    constructor ()
      ensures Valid() && fresh(buf) && buf.Length == DEFAULT_RPC_SZ && ind == RPC_HEADER_SZ
    {
      buf := new Byte[DEFAULT_RPC_SZ];
      ind := RPC_HEADER_SZ;
    }

    method Realloc(capa: nat)
      requires Valid() && capa >= buf.Length
      modifies this`buf
      ensures Valid() && fresh(buf) && buf.Length == capa && buf[..old(buf.Length)] == old(buf[..])
    {
      var bigger := new Byte[capa];
      forall i | 0 <= i < buf.Length {
        bigger[i] := buf[i];
      }
      buf := bigger;
    }

    method RawByte(x: Byte)
      requires Valid()
      modifies this, buf
      ensures Valid() && (buf == old(buf) || fresh(buf))
      ensures ind == old(ind) + 1 && Written() == old(Written()) + [x]
      ensures old(Tail()) != [] ==> buf == old(buf) && Tail() == old(Tail())[1..]
    {
      if ind >= buf.Length {
        Realloc(buf.Length * 2);
      }
      buf[ind] := x;
      ind := ind + 1;
    }

    method RawBytes(p: seq<Byte>)
      requires Valid()
      modifies this, buf
      ensures Valid() && (buf == old(buf) || fresh(buf))
      ensures ind == old(ind) + |p| && Written() == old(Written()) + p
    {
      if ind + |p| > buf.Length {
        Realloc(if buf.Length > |p| then 2 * buf.Length else buf.Length + |p|);
      }
      forall i | 0 <= i < |p| {
        buf[ind + i] := p[i];
      }
      ind := ind + |p|;
    }

    method PutWord(x: Word)
      requires Valid()
      modifies this, buf
      ensures Valid() && (buf == old(buf) || fresh(buf))
      ensures ind == old(ind) + 4 && Written() == old(Written()) + Digits(4, x)
      ensures |old(Tail())| >= 4 ==> buf == old(buf) && Tail() == old(Tail())[4..]
    {
      WordDigits(x);
      ghost var d, t := Digits(4, x), old(Tail());
      RawByte(x / 0x100_0000);
      RawByte(x / 0x1_0000 % 256);
      assert Written() == old(Written()) + d[..2];
      assert |t| >= 4 ==> Tail() == t[2..];
      RawByte(x / 0x100 % 256);
      assert Written() == old(Written()) + d[..3];
      RawByte(x % 256);
      assert d == d[..3] + [x % 256];
    }

    /** Fills the header in front of the payload, which stays as it is. */
    method PackReqHeader(h: ReqHeader)
      requires Valid() && ind >= RPC_HEADER_SZ
      modifies this, buf
      ensures Valid() && buf == old(buf) && ind == old(ind)
      ensures buf[..RPC_HEADER_SZ] == old(buf[..4]) + ReqBytes(h)
      ensures buf[RPC_HEADER_SZ..] == old(buf[RPC_HEADER_SZ..])
    {
      var saved := ind;
      ind := 4;
      ghost var t, first := Tail(), Written();
      Pack(h.xid, first, [], t);
      Pack(h.proc, first, Digits(4, h.xid), t);
      Pack(h.cltNonce, first, Digits(4, h.xid) + Digits(4, h.proc), t);
      Pack(h.srvNonce, first, Digits(4, h.xid) + Digits(4, h.proc) + Digits(4, h.cltNonce), t);
      Pack(h.xidRep, first, Digits(4, h.xid) + Digits(4, h.proc) + Digits(4, h.cltNonce) + Digits(4, h.srvNonce), t);
      ind := saved;
    }

    /** One more word of a header, of which s has been written behind first and in front of t. */
    method Pack(x: Word, ghost first: seq<Byte>, ghost s: seq<Byte>, ghost t: seq<Byte>)
      requires Valid() && |s| + 4 <= |t| && Written() == first + s && Tail() == t[|s|..]
      modifies this, buf
      ensures Valid() && buf == old(buf) && ind == old(ind) + 4
      ensures Written() == first + (if s == [] then Digits(4, x) else s + Digits(4, x))
      ensures Tail() == t[|s| + 4..]
    {
      PutWord(x);
      Cat(first, s, Digits(4, x));
      assert s == [] ==> s + Digits(4, x) == Digits(4, x);
      assert t[|s|..][4..] == t[|s| + 4..];
    }

    method PackReplyHeader(h: ReplyHeader)
      requires Valid() && ind >= RPC_HEADER_SZ
      modifies this, buf
      ensures Valid() && buf == old(buf) && ind == old(ind)
      ensures buf[..12] == old(buf[..4]) + ReplyBytes(h)
      ensures buf[12..] == old(buf[12..])
    {
      var saved := ind;
      ind := 4;
      ghost var t, first := Tail(), Written();
      Pack(h.xid, first, [], t);
      Pack(h.ret, first, Digits(4, h.xid), t);
      ind := saved;
    }

    method PutShort(x: nat)
      requires Valid() && x < 0x1_0000
      modifies this, buf
      ensures Valid() && (buf == old(buf) || fresh(buf))
      ensures Written() == old(Written()) + Digits(2, x)
    {
      assert Digits(2, x) == Digits(1, x / 256) + [x % 256] == [x / 256] + [x % 256];
      RawByte(x / 256);
      RawByte(x % 256);
    }

    method PutLong(x: nat)
      requires Valid() && x < Bound(8)
      modifies this, buf
      ensures Valid() && (buf == old(buf) || fresh(buf))
      ensures Written() == old(Written()) + Digits(8, x)
    {
      LongDigits(x);
      PutWord(x / LIMIT);
      PutWord(x % LIMIT);
      Cat(old(Written()), Digits(4, x / LIMIT), Digits(4, x % LIMIT));
    }

    /** The operators for char, short, int and long long. */
    method PutNum(w: nat, x: nat)
      requires Valid() && NumWidth(w) && x < Bound(w)
      modifies this, buf
      ensures Valid() && (buf == old(buf) || fresh(buf))
      ensures Written() == old(Written()) + Digits(w, x)
    {
      if w == 1 {
        assert Digits(1, x) == [x];
        RawByte(x);
      } else if w == 2 {
        PutShort(x);
      } else if w == 4 {
        PutWord(x);
      } else {
        PutLong(x);
      }
    }

    method PutString(s: seq<Byte>)
      requires Valid() && |s| < LIMIT
      modifies this, buf
      ensures Valid() && (buf == old(buf) || fresh(buf))
      ensures Written() == old(Written()) + (Digits(4, |s|) + s)
    {
      PutWord(|s|);
      RawBytes(s);
    }

    /** operator<< for any type that can be marshalled. */
    method Put(v: Value, ty: Type)
      requires Valid() && Marshallable(ty) && HasType(v, ty)
      modifies this, buf
      ensures Valid() && (buf == old(buf) || fresh(buf))
      ensures Written() == old(Written()) + Encode(v, ty)
      decreases ty, 0
    {
      match ty
      case Num(w) => PutNum(w, v.n);
      case Str => PutString(v.bytes);
      case Two(a, b) =>
        Put(v.k, a);
        Put(v.v, b);
      case Vec(t) => PutItems(v.items, t);
      case Map(t) => PutItems(v.items, t);
    }

    method PutItems(vs: seq<Value>, t: Type)
      requires Valid() && Marshallable(t) && |vs| < LIMIT && forall i :: 0 <= i < |vs| ==> HasType(vs[i], t)
      modifies this, buf
      ensures Valid() && (buf == old(buf) || fresh(buf))
      ensures Written() == old(Written()) + (Digits(4, |vs|) + EncodeItems(vs, t))
      decreases t, 2
    {
      PutWord(|vs|);
      Cat(old(Written()), Digits(4, |vs|), EncodeItems(vs, t));
      PutEach(vs, t);
    }

    method PutEach(vs: seq<Value>, t: Type)
      requires Valid() && Marshallable(t) && forall i :: 0 <= i < |vs| ==> HasType(vs[i], t)
      modifies this, buf
      ensures Valid() && (buf == old(buf) || fresh(buf))
      ensures Written() == old(Written()) + EncodeItems(vs, t)
      decreases t, 1
    {
      ghost var total := Written() + EncodeItems(vs, t);
      assert vs[0..] == vs;
      var i := 0;
      while i < |vs|
        invariant 0 <= i <= |vs| && Valid() && (buf == old(buf) || fresh(buf))
        invariant Written() + EncodeItems(vs[i..], t) == total
      {
        ghost var w := Written();
        Put(vs[i], t);
        NextItem(w, Written(), vs, i, t);
        i := i + 1;
      }
      assert Written() + [] == Written();
    }
  }

  lemma NextItem(w: seq<Byte>, w': seq<Byte>, vs: seq<Value>, i: nat, t: Type)
    requires i < |vs| && (forall j :: 0 <= j < |vs| ==> HasType(vs[j], t)) && w' == w + Encode(vs[i], t)
    ensures w' + EncodeItems(vs[i + 1..], t) == w + EncodeItems(vs[i..], t)
  {
    assert vs[i..][1..] == vs[i + 1..];
    Cat(w, Encode(vs[i], t), EncodeItems(vs[i + 1..], t));
  }

  predicate NumWidth(w: nat) {
    w == 1 || w == 2 || w == 4 || w == 8
  }

  predicate Marshallable(ty: Type) {
    match ty
    case Num(w) => NumWidth(w)
    case Str => true
    case Vec(t) => Marshallable(t)
    case Two(a, b) => Marshallable(a) && Marshallable(b)
    case Map(t) => t.Two? && Marshallable(t)
  }

  lemma {:induction false} JoinedDigits(w: nat, k: nat, hi: nat, lo: nat)
    requires lo < Bound(k)
    ensures Digits(w + k, hi * Bound(k) + lo) == Digits(w, hi) + Digits(k, lo)
  {
    if k == 0 {
      assert Digits(w, hi) + [] == Digits(w, hi);
    } else {
      var m := hi * Bound(k - 1);
      assert hi * Bound(k) == 256 * m;
      assert (256 * m + lo) / 256 == m + lo / 256 && (256 * m + lo) % 256 == lo % 256;
      JoinedDigits(w, k - 1, hi, lo / 256);
      Cat(Digits(w, hi), Digits(k - 1, lo / 256), [lo % 256]);
    }
  }

  /** A long long is its high word and then its low word. */
  lemma LongDigits(x: nat)
    requires x < Bound(8)
    ensures x / LIMIT < LIMIT && Digits(8, x) == Digits(4, x / LIMIT) + Digits(4, x % LIMIT)
  {
    assert Bound(4) == LIMIT;
    assert Bound(8) == 256 * 256 * 256 * 256 * Bound(4);
    JoinedDigits(4, 4, x / LIMIT, x % LIMIT);
  }

  // ---------------------------------------------------------------- reading

  /** A number read from enough bytes is the one whose digits they are. */
  lemma {:induction false} NumRead(w: nat, rest: seq<Byte>)
    ensures var r := ReadNum(w, Input(rest, true));
      && r.n < Bound(w)
      && (|rest| >= w ==> Digits(w, r.n) == rest[..w] && r.u == Input(rest[w..], true))
      && (|rest| < w ==> !r.u.ok && r.u.rest == [])
  {
    if w > 0 {
      NumRead(w - 1, rest);
      var hi := ReadNum(w - 1, Input(rest, true));
      var lo := Wire.RawByte(hi.u);
      assert (hi.n * 256 + lo.n) / 256 == hi.n && (hi.n * 256 + lo.n) % 256 == lo.n;
      if |rest| >= w {
        assert rest[..w] == rest[..w - 1] + [rest[w - 1]];
        assert rest[w - 1..][0] == rest[w - 1] && rest[w - 1..][1..] == rest[w..];
      }
    }
  }

  lemma Regroup(h: nat, b: nat, l: nat, c: nat)
    ensures (h * b + l) * 256 + c == h * (256 * b) + (l * 256 + c)
  {
  }

  lemma {:induction false} JoinedRead(w: nat, k: nat, u: Input)
    ensures var hi := ReadNum(w, u);
      var lo := ReadNum(k, hi.u);
      ReadNum(w + k, u) == GotNum(hi.n * Bound(k) + lo.n, lo.u)
  {
    if k > 0 {
      JoinedRead(w, k - 1, u);
      var hi := ReadNum(w, u);
      var lo := ReadNum(k - 1, hi.u);
      var last := Wire.RawByte(lo.u);
      assert w + k - 1 == w + (k - 1);
      assert ReadNum(w + k, u) == GotNum((hi.n * Bound(k - 1) + lo.n) * 256 + last.n, last.u);
      Regroup(hi.n, Bound(k - 1), lo.n, last.n);
    }
  }

  /** A word is four bytes, the first the highest. */
  lemma WordRead(u: Input)
    ensures var a := Wire.RawByte(u);
      var b := Wire.RawByte(a.u);
      var c := Wire.RawByte(b.u);
      var d := Wire.RawByte(c.u);
      ReadNum(4, u) == GotNum(((a.n * 256 + b.n) * 256 + c.n) * 256 + d.n, d.u)
  {
    var a := Wire.RawByte(u);
    var b := Wire.RawByte(a.u);
    assert ReadNum(1, u) == a;
    assert ReadNum(2, u) == GotNum(a.n * 256 + b.n, b.u);
  }

  /** What has been read and what the rest will read make up the whole. */
  ghost predicate Continues(vs: seq<Value>, rest: GotAll, whole: GotAll) {
    whole.u == rest.u && whole.vs == vs + rest.vs
  }

  lemma ReadNone(whole: GotAll)
    ensures Continues([], whole, whole)
  {
  }

  lemma ReadAll(vs: seq<Value>, t: Type, u: Input, whole: GotAll)
    requires Continues(vs, DecodeItems(0, t, u), whole)
    ensures whole == GotAll(vs, u)
  {
    assert vs + [] == vs;
  }

  lemma ReadOneMore(vs: seq<Value>, k: nat, t: Type, u: Input, g: Got, whole: GotAll)
    requires k > 0 && Continues(vs, DecodeItems(k, t, u), whole) && g == Decode(t, u)
    ensures Continues(vs + [g.v], DecodeItems(k - 1, t, g.u), whole)
  {
    var tail := DecodeItems(k - 1, t, g.u);
    assert (vs + [g.v]) + tail.vs == vs + ([g.v] + tail.vs);
  }

  /** The words of a header are read back from their digits, and a short buffer fails. */
  ghost predicate WordsRead(k: nat, u: Input, s: seq<Byte>, end: Input) {
    end.ok == (u.ok && |u.rest| >= 4 * k) && (end.ok ==> s == u.rest[..4 * k] && end.rest == u.rest[4 * k..])
  }

  lemma AssignNext(vs: seq<Value>, e: Value)
    ensures AssignAll(vs + [e]) == Assign(AssignAll(vs), e)
  {
    assert (vs + [e])[..|vs|] == vs;
  }

  /** What k words read from position 4 say about the buffer. */
  lemma HeaderRead(buf: seq<Byte>, k: nat, u: Input, s: seq<Byte>, end: Input)
    requires u.rest == (if 4 <= |buf| then buf[4..] else []) && WordsRead(k, u, s, end)
    requires k > 0
    ensures end.ok == (u.ok && |buf| >= 4 + 4 * k)
    ensures end.ok ==> s == buf[4..4 + 4 * k]
  {
    assert |buf| >= 4 + 4 * k ==> buf[4..][..4 * k] == buf[4..4 + 4 * k];
  }

  lemma OneMoreWord(k: nat, u: Input, s: seq<Byte>, mid: Input)
    requires WordsRead(k, u, s, mid)
    ensures WordsRead(k + 1, u, s + Digits(4, ReadNum(4, mid).n), ReadNum(4, mid).u)
  {
    if mid.ok {
      NumRead(4, mid.rest);
      if |mid.rest| >= 4 {
        assert u.rest[..4 * k + 4] == u.rest[..4 * k] + u.rest[4 * k..][..4];
        assert u.rest[4 * k + 4..] == u.rest[4 * k..][4..];
      }
    }
  }

  class Unmarshall {
    var buf: seq<Byte>
    var ind: nat
    var ok: bool

    predicate Valid()
      reads this
    {
      ok ==> ind <= |buf|
    }

    function View(): Input
      reads this
    {
      Input(if ind <= |buf| then buf[ind..] else [], ok)
    }

    constructor (b: seq<Byte>)
      ensures Valid() && buf == b && View() == Input(b, true)
    {
      buf, ind, ok := b, 0, true;
    }

    method TakeIn(another: seq<Byte>)
      modifies this
      ensures Valid() && buf == another && ok == (|buf| >= RPC_HEADER_SZ)
      ensures ok ==> View() == Input(buf[RPC_HEADER_SZ..], true)
    {
      buf, ind, ok := another, RPC_HEADER_SZ, |another| >= RPC_HEADER_SZ;
    }

    method RawByte() returns (c: nat)
      modifies this`ind, this`ok
      ensures Valid() && c < 256 && GotNum(c, View()) == Wire.RawByte(old(View()))
    {
      c := 0;
      if ind >= |buf| {
        ok := false;
      } else {
        c := buf[ind];
        ind := ind + 1;
      }
    }

    /** On failure the caller's string is left as it was. */
    method RawBytes(target: seq<Byte>, n: nat) returns (s: seq<Byte>)
      requires Valid()
      modifies this`ind, this`ok
      ensures Valid() && View() == Wire.RawBytes(n, old(View())).u
      ensures s == if old(ind + n <= |buf|) then Wire.RawBytes(n, old(View())).bytes else target
    {
      if ind + n > |buf| {
        ok := false;
        s := target;
      } else {
        s := buf[ind..ind + n];
        ind := ind + n;
      }
    }

    method GetWord() returns (x: Word)
      modifies this`ind, this`ok
      ensures Valid() && GotNum(x, View()) == ReadNum(4, old(View()))
    {
      WordRead(View());
      var a := RawByte();
      var b := RawByte();
      var c := RawByte();
      var d := RawByte();
      x := ((a * 256 + b) * 256 + c) * 256 + d;
    }

    method GetLong() returns (x: nat)
      modifies this`ind, this`ok
      ensures Valid() && GotNum(x, View()) == ReadNum(8, old(View()))
    {
      JoinedRead(4, 4, View());
      assert Bound(4) == LIMIT;
      var hi := GetWord();
      var lo := GetWord();
      x := hi * LIMIT + lo;
    }

    method GetNum(w: nat) returns (x: nat)
      requires NumWidth(w)
      modifies this`ind, this`ok
      ensures Valid() && GotNum(x, View()) == ReadNum(w, old(View()))
    {
      if w <= 2 {
        ghost var u := View();
        x := RawByte();
        assert GotNum(x, View()) == ReadNum(1, u);
        if w == 2 {
          var b := RawByte();
          x := x * 256 + b;
        }
      } else if w == 4 {
        x := GetWord();
      } else {
        x := GetLong();
      }
    }

    method GetString() returns (s: seq<Byte>)
      modifies this`ind, this`ok
      ensures Valid() && Got(S(s), View()) == Decode(Str, old(View()))
    {
      s := [];
      var n := GetWord();
      if ok {
        s := RawBytes(s, n);
      }
    }

    /** operator>> into an empty target of any type that can be marshalled. */
    method Get(ty: Type) returns (v: Value)
      requires Valid() && Marshallable(ty)
      modifies this`ind, this`ok
      ensures Valid() && Got(v, View()) == Decode(ty, old(View()))
      decreases ty, 0
    {
      match ty
      case Num(w) =>
        var x := GetNum(w);
        v := N(x);
      case Str =>
        var s := GetString();
        v := S(s);
      case Two(a, b) =>
        var x := Get(a);
        var y := Get(b);
        v := P(x, y);
      case Vec(t) =>
        var n := GetWord();
        var vs := GetItems(n, t);
        v := V(vs);
      case Map(t) =>
        var n := GetWord();
        var es := GetEntries(n, t);
        v := V(es);
    }

    method GetItems(n: nat, t: Type) returns (vs: seq<Value>)
      requires Valid() && Marshallable(t)
      modifies this`ind, this`ok
      ensures Valid() && GotAll(vs, View()) == DecodeItems(n, t, old(View()))
      decreases t, 1
    {
      ghost var whole := DecodeItems(n, t, View());
      vs := [];
      ReadNone(whole);
      var i := 0;
      while i < n
        invariant 0 <= i <= n && Valid()
        invariant Continues(vs, DecodeItems(n - i, t, View()), whole)
      {
        ghost var u := View();
        var v := Get(t);
        ReadOneMore(vs, n - i, t, u, Got(v, View()), whole);
        vs := vs + [v];
        i := i + 1;
      }
      ReadAll(vs, t, View(), whole);
    }

    method GetEntries(n: nat, t: Type) returns (es: seq<Value>)
      requires Valid() && Marshallable(t)
      modifies this`ind, this`ok
      ensures Valid()
      ensures var r := DecodeItems(n, t, old(View())); es == AssignAll(r.vs) && View() == r.u
      decreases t, 1
    {
      ghost var whole := DecodeItems(n, t, View());
      es := [];
      ghost var vs: seq<Value> := [];
      ReadNone(whole);
      var i := 0;
      while i < n
        invariant 0 <= i <= n && Valid() && es == AssignAll(vs)
        invariant Continues(vs, DecodeItems(n - i, t, View()), whole)
      {
        ghost var u := View();
        var e := Get(t);
        ReadOneMore(vs, n - i, t, u, Got(e, View()), whole);
        AssignNext(vs, e);
        es := Assign(es, e);
        vs := vs + [e];
        i := i + 1;
      }
      ReadAll(vs, t, View(), whole);
    }

    /** One more word of the header that starts at u, of which k words, digits s, have been read. */
    method Unpack(ghost k: nat, ghost u: Input, ghost s: seq<Byte>) returns (x: Word)
      requires WordsRead(k, u, s, View())
      modifies this`ind, this`ok
      ensures WordsRead(k + 1, u, s + Digits(4, x), View())
    {
      OneMoreWord(k, u, s, View());
      x := GetWord();
    }

    /** Reads back exactly the header that was packed, and fails on a buffer too short to hold one. */
    method UnpackReqHeader() returns (h: ReqHeader)
      requires Valid()
      modifies this`ind, this`ok
      ensures ok == (old(ok) && |buf| >= RPC_HEADER_SZ) && Valid()
      ensures ok ==> ReqBytes(h) == buf[4..RPC_HEADER_SZ] && View() == Input(buf[RPC_HEADER_SZ..], true)
    {
      ind := 4;
      ghost var u := View();
      var a := Unpack(0, u, []);
      assert [] + Digits(4, a) == Digits(4, a);
      var b := Unpack(1, u, Digits(4, a));
      var c := Unpack(2, u, Digits(4, a) + Digits(4, b));
      var d := Unpack(3, u, Digits(4, a) + Digits(4, b) + Digits(4, c));
      var e := Unpack(4, u, Digits(4, a) + Digits(4, b) + Digits(4, c) + Digits(4, d));
      h := ReqHeader(a, b, c, d, e);
      HeaderRead(buf, 5, u, ReqBytes(h), View());
      ind := RPC_HEADER_SZ;
    }

    method UnpackReplyHeader() returns (h: ReplyHeader)
      requires Valid()
      modifies this`ind, this`ok
      ensures ok == (old(ok) && |buf| >= 12)
      ensures ok ==> ReplyBytes(h) == buf[4..12]
      ensures ok && |buf| >= RPC_HEADER_SZ ==> View() == Input(buf[RPC_HEADER_SZ..], true)
    {
      ind := 4;
      ghost var u := View();
      var a := Unpack(0, u, []);
      assert [] + Digits(4, a) == Digits(4, a);
      var b := Unpack(1, u, Digits(4, a));
      h := ReplyHeader(a, b);
      HeaderRead(buf, 2, u, ReplyBytes(h), View());
      ind := RPC_HEADER_SZ;
    }
  }

  /** The digits of a header determine it, so unpacking inverts packing. */
  lemma HeadersDiffer(g: ReqHeader, h: ReqHeader)
    requires ReqBytes(g) == ReqBytes(h)
    ensures g == h
  {
    var b := ReqBytes(h);
    assert b[..4] == Digits(4, g.xid) == Digits(4, h.xid);
    assert b[4..8] == Digits(4, g.proc) == Digits(4, h.proc);
    assert b[8..12] == Digits(4, g.cltNonce) == Digits(4, h.cltNonce);
    assert b[12..16] == Digits(4, g.srvNonce) == Digits(4, h.srvNonce);
    assert b[16..] == Digits(4, g.xidRep) == Digits(4, h.xidRep);
    SameDigits(g.xid, h.xid);
    SameDigits(g.proc, h.proc);
    SameDigits(g.cltNonce, h.cltNonce);
    SameDigits(g.srvNonce, h.srvNonce);
    SameDigits(g.xidRep, h.xidRep);
  }

  lemma SameDigits(x: Word, y: Word)
    ensures Digits(4, x) == Digits(4, y) ==> x == y
  {
    assert Bound(4) == LIMIT;
    NumReads(4, x, []);
    NumReads(4, y, []);
  }
}
