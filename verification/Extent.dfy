/** File contents: the extent server's plain store (extent_server.cc) and the write-back cache in
    front of it (extent_client.cc).  Sizes are 32-bit unsigned and offsets 64-bit; requests and replies
    above the PDU limit of rpc/connection.cc are refused by the receiving end. */
module Extent {
  import Framing
  import Marshalling
  import Wire

  type ExtentId = nat

  /** The range of `size_t` and of `unsigned int`. */
  const UINT_RANGE: nat := 0x1_0000_0000

  /** THROWS is an exception that nobody catches, RPCFAIL a call that ended without an answer. */
  datatype Status = OK | NOENT | IOERR | THROWS | RPCFAIL

  datatype Option<+T> = None | Some(value: T)

  // ---------------------------------------------------------------- std::string

  function Substr(s: string, off: nat, n: nat): string
    requires off <= |s|
  {
    if off + n <= |s| then s[off..off + n] else s[off..]
  }

  /** These are the n bytes of s from off on, or as many as there are. */
  ghost predicate BytesFrom(buf: string, s: string, off: nat, n: nat) {
    && off <= |s| && |buf| == (if n <= |s| - off then n else |s| - off)
    && (forall i | 0 <= i < |buf| :: buf[i] == s[off + i])
  }

  /** `substr` returns these bytes, and they determine its result. */
  lemma SubstrMeans(s: string, off: nat, n: nat, buf: string)
    requires off <= |s|
    ensures BytesFrom(buf, s, off, n) <==> buf == Substr(s, off, n)
  {
    var sub := Substr(s, off, n);
    assert BytesFrom(sub, s, off, n);
    if BytesFrom(buf, s, off, n) {
      assert forall i | 0 <= i < |buf| :: buf[i] == sub[i];
    }
  }

  function Resize(s: string, n: nat): (r: string)
    ensures |r| == n
  {
    if n <= |s| then s[..n] else s + seq(n - |s|, _ => '\0')
  }

  lemma ResizeMeans(s: string, n: nat, i: nat)
    ensures i < n ==> Resize(s, n)[i] == if i < |s| then s[i] else '\0'
  {
  }

  /** `s.replace(off, n, buf, 0, n)`. */
  function Replace(s: string, off: nat, n: nat, buf: string): string
    requires off <= |s|
  {
    s[..off] + Substr(buf, 0, n) + (if off + n <= |s| then s[off + n..] else [])
  }

  /** The n bytes at off, or as many as there are, give way to the first n bytes of buf. */
  lemma ReplaceMeans(s: string, off: nat, n: nat, buf: string, i: nat)
    requires off <= |s|
    ensures var m, r := if n <= |buf| then n else |buf|, Replace(s, off, n, buf);
      && |r| == off + m + (if off + n <= |s| then |s| - off - n else 0)
      && (i < |r| ==> r[i] == if i < off then s[i] else if i < off + m then buf[i - off] else s[i - m + n])
  {
  }

  /** A write as it is meant. */
  function Written(content: string, off: nat, n: nat, buf: string): string {
    Replace(if off + n > |content| then Resize(content, off + n) else content, off, n, buf)
  }

  /** What a write means: the new bytes at their place, zeros in a gap before them, the rest as it was. */
  lemma WrittenMeans(content: string, off: nat, buf: string, i: nat)
    ensures |Written(content, off, |buf|, buf)| == if off + |buf| > |content| then off + |buf| else |content|
    ensures i < |Written(content, off, |buf|, buf)| ==>
      Written(content, off, |buf|, buf)[i] ==
        if off <= i < off + |buf| then buf[i - off] else if i < |content| then content[i] else '\0'
  {
  }

  /** A write as the server and the cache do it: `resize` and `replace` take the low 32 bits of length
      and position, and `replace` throws when the position is past the end. */
  function Edit(content: string, off: nat, n: nat, buf: string): Option<string> {
    var c := if off + n > |content| then Resize(content, (off + n) % UINT_RANGE) else content;
    var pos := off % UINT_RANGE;
    if pos > |c| then None else Some(Replace(c, pos, n, buf))
  }

  /** The two agree on every write that ends below 4 GiB. */
  lemma EditIsWritten(content: string, off: nat, buf: string)
    requires off + |buf| < UINT_RANGE
    ensures Edit(content, off, |buf|, buf) == Some(Written(content, off, |buf|, buf))
  {
  }

  // ---------------------------------------------------------------- requests and replies

  /** The write request with these bytes is within the PDU limit. */
  predicate WriteFits(buf: string) {
    48 + |buf| <= Framing.MAX_PDU
  }

  /** The reply to a get that carries these bytes is within the PDU limit. */
  predicate GetFits(buf: string) {
    28 + |buf| <= Framing.MAX_PDU
  }

  /** Where 48 and 28 come from: the header, the id, the offset, the size and the string of a write
      request, and the header and the string of a get reply. */
  lemma WireSizes(id: nat, off: nat, bytes: seq<Wire.Byte>)
    requires id < Wire.Bound(8) && off < Wire.Bound(8) && |bytes| < UINT_RANGE
    ensures Marshalling.RPC_HEADER_SZ + |Wire.Encode(Wire.S(bytes), Wire.Str)| == 28 + |bytes|
    ensures var vs := [Wire.N(id), Wire.N(off), Wire.N(|bytes|), Wire.S(bytes)];
      var tys := [Wire.Num(8), Wire.Num(8), Wire.Num(4), Wire.Str];
      && Wire.AllTyped(vs, tys)
      && Marshalling.RPC_HEADER_SZ + |Wire.EncodeAll(vs, tys)| == 48 + |bytes|
  {
    assert Wire.Bound(4) == UINT_RANGE;
    var vs := [Wire.N(id), Wire.N(off), Wire.N(|bytes|), Wire.S(bytes)];
    var tys := [Wire.Num(8), Wire.Num(8), Wire.Num(4), Wire.Str];
    assert vs[1..][1..][1..] == [Wire.S(bytes)] && tys[1..][1..][1..] == [Wire.Str];
    assert |Wire.EncodeAll([Wire.S(bytes)], [Wire.Str])| == 4 + |bytes|;
    assert |Wire.EncodeAll(vs[1..][1..], tys[1..][1..])| == 8 + |bytes|;
    assert |Wire.EncodeAll(vs[1..], tys[1..])| == 16 + |bytes|;
  }

  // ---------------------------------------------------------------- the server

  /** A file: its bytes and the size in its attributes. */
  datatype File = File(content: string, size: nat)

  /** `put` sets the size from the content, which is shorter than 4 GiB. */
  predicate FileOk(f: File) {
    f.size == |f.content| < UINT_RANGE
  }

  function Put(buf: string): File {
    File(buf, |buf|)
  }

  function ServerWrite(f: File, off: nat, n: nat, buf: string): File {
    Put(Written(f.content, off, n, buf))
  }

  function ServerSetAttr(f: File, size: nat): File {
    if |f.content| != size then Put(Resize(f.content, size)) else f
  }

  class ExtentServer {
    var files: map<ExtentId, File>

    constructor ()
      ensures files == map[]
    {
      files := map[];
    }

    method PutFile(id: ExtentId, buf: string)
      modifies this
      ensures files == old(files)[id := Put(buf)]
    {
      files := files[id := File(buf, |buf|)];
    }

    /** An offset past the end makes `substr` throw. */
    method Get(id: ExtentId, off: nat, n: nat) returns (ret: Status, buf: string)
      ensures ret == (if id !in files then NOENT else if off % UINT_RANGE > |files[id].content| then THROWS else OK)
      ensures ret == OK ==> BytesFrom(buf, files[id].content, off % UINT_RANGE, n)
    {
      if id !in files {
        return NOENT, "";
      }
      var content, pos := files[id].content, off % UINT_RANGE;
      if pos > |content| {
        return THROWS, "";
      }
      buf := if pos + n <= |content| then content[pos..pos + n] else content[pos..];
      return OK, buf;
    }

    method GetAttr(id: ExtentId) returns (ret: Status, size: nat)
      ensures ret == (if id in files then OK else IOERR)
      ensures ret == OK ==> size == files[id].size
    {
      if id !in files {
        return IOERR, 0;
      }
      return OK, files[id].size;
    }

    method Write(id: ExtentId, off: nat, n: nat, buf: string) returns (ret: Status)
      modifies this
      ensures ret == (if id !in old(files) then NOENT
                      else if Edit(old(files)[id].content, off, n, buf).None? then THROWS else OK)
      ensures files == if ret == OK then old(files)[id := Put(Edit(old(files)[id].content, off, n, buf).value)]
                       else old(files)
    {
      if id !in files {
        return NOENT;
      }
      var content, pos := files[id].content, off % UINT_RANGE;
      if off + n > |content| {
        content := Resize(content, (off + n) % UINT_RANGE);
      }
      if pos > |content| {
        return THROWS;
      }
      PutFile(id, Replace(content, pos, n, buf));
      return OK;
    }

    method SetAttr(id: ExtentId, size: nat) returns (ret: Status)
      modifies this
      ensures ret == (if id in old(files) then OK else NOENT)
      ensures files == if ret == OK then old(files)[id := ServerSetAttr(old(files)[id], size)] else old(files)
      ensures ret == OK ==>
        && |files[id].content| == size && (FileOk(old(files)[id]) ==> files[id].size == size)
        && forall i | 0 <= i < size ::
             files[id].content[i] == if i < |old(files)[id].content| then old(files)[id].content[i] else '\0'
    {
      if id !in files {
        return NOENT;
      }
      var content := files[id].content;
      if |content| != size {
        PutFile(id, Resize(content, size));
      } else {
        assert files == files[id := files[id]];
      }
      return OK;
    }
  }

  // ---------------------------------------------------------------- the client's cache

  datatype CacheStatus = CACHED | MODIFIED

  datatype Entry = Entry(content: string, size: nat, status: CacheStatus)

  /** What `read` puts into the cache when the file is not there, unless the reply is refused. */
  function Fetched(f: File): Option<Entry> {
    var data := Substr(f.content, 0, f.size);
    if GetFits(data) then Some(Entry(data, f.size, CACHED)) else None
  }

  function CacheWrite(e: Entry, off: nat, buf: string): Entry {
    var content := Written(e.content, off, |buf|, buf);
    Entry(content, |content|, MODIFIED)
  }

  /** The same as the code does it. */
  function CacheEdit(e: Entry, off: nat, buf: string): Option<Entry> {
    var r := Edit(e.content, off, |buf|, buf);
    if r.None? then None else Some(Entry(r.value, |r.value|, MODIFIED))
  }

  /** The file after the flush of its cache entry, unless the request is refused and the client aborts. */
  function Flushed(f: File, e: Entry): Option<File> {
    if e.status == CACHED then Some(f)
    else if !WriteFits(e.content) then None
    else Some(ServerSetAttr(ServerWrite(f, 0, e.size, e.content), e.size))
  }

  /** How a call of the client ends: with a result, in a failed assertion, or in an exception. */
  datatype ReadEnd = Bytes(buf: string) | Aborts | Throws

  class ExtentClient {
    var cache: map<ExtentId, Entry>
    const server: ExtentServer

    constructor (server: ExtentServer)
      ensures cache == map[] && this.server == server
    {
      cache := map[];
      this.server := server;
    }

    method Read(id: ExtentId, off: nat, n: nat) returns (r: ReadEnd)
      modifies this
      ensures id in old(cache) ==> cache == old(cache)
      ensures id !in old(cache) ==>
        cache == if id in server.files && Fetched(server.files[id]).Some?
                 then old(cache)[id := Fetched(server.files[id]).value] else old(cache)
      ensures id !in old(cache) && id in cache ==>
        && id in server.files && cache[id].size == server.files[id].size && cache[id].status == CACHED
        && BytesFrom(cache[id].content, server.files[id].content, 0, server.files[id].size)
      ensures r.Aborts? <==> id !in cache
      ensures r.Throws? <==> id in cache && off % UINT_RANGE > |cache[id].content|
      ensures r.Bytes? ==> BytesFrom(r.buf, cache[id].content, off % UINT_RANGE, n)
    {
      if id !in cache {
        var ret, size := server.GetAttr(id);
        if ret != OK {
          return Aborts;
        }
        var data;
        ret, data := server.Get(id, 0, size);
        SubstrMeans(server.files[id].content, 0, size, data);
        if !GetFits(data) {
          return Aborts;
        }
        ret, size := server.GetAttr(id);
        cache := cache[id := Entry(data, size, CACHED)];
      }
      var content, pos := cache[id].content, off % UINT_RANGE;
      if pos > |content| {
        return Throws;
      }
      SubstrMeans(content, pos, n, Substr(content, pos, n));
      return Bytes(Substr(content, pos, n));
    }

    method Write(id: ExtentId, off: nat, buf: string) returns (ret: Status)
      modifies this, server
      ensures id in old(cache) ==> server.files == old(server.files)
      ensures id in old(cache) ==>
        var e := CacheEdit(old(cache)[id], off, buf);
        && ret == (if e.Some? then OK else THROWS)
        && cache == if e.Some? then old(cache)[id := e.value] else old(cache)
      ensures id !in old(cache) ==> cache == old(cache)
      ensures id !in old(cache) && !WriteFits(buf) ==> ret == RPCFAIL && server.files == old(server.files)
      ensures id !in old(cache) && WriteFits(buf) ==>
        && ret == (if id !in old(server.files) then NOENT
                   else if Edit(old(server.files)[id].content, off, |buf|, buf).None? then THROWS else OK)
        && server.files == if ret != OK then old(server.files)
           else old(server.files)[id := Put(Edit(old(server.files)[id].content, off, |buf|, buf).value)]
    {
      if id !in cache {
        if !WriteFits(buf) {
          return RPCFAIL;
        }
        ret := server.Write(id, off, |buf|, buf);
      } else {
        var content, pos := cache[id].content, off % UINT_RANGE;
        if off + |buf| > |content| {
          content := Resize(content, (off + |buf|) % UINT_RANGE);
        }
        if pos > |content| {
          return THROWS;
        }
        content := Replace(content, pos, |buf|, buf);
        cache := cache[id := Entry(content, |content|, MODIFIED)];
        ret := OK;
      }
    }

    /** The result is false when an assertion fails and the client aborts. */
    method Flush(id: ExtentId) returns (ok: bool)
      modifies this, server
      ensures id !in old(cache) ==> ok && cache == old(cache) && server.files == old(server.files)
      ensures id in old(cache) ==>
        ok == (old(cache)[id].status == CACHED || (id in old(server.files) && WriteFits(old(cache)[id].content)))
      ensures ok ==> cache == old(cache) - {id}
      ensures ok && id in old(cache) && id in old(server.files) ==>
        && Flushed(old(server.files)[id], old(cache)[id]).Some?
        && server.files == old(server.files)[id := Flushed(old(server.files)[id], old(cache)[id]).value]
      ensures !ok || (id in old(cache) && id !in old(server.files)) ==> server.files == old(server.files)
    {
      if id !in cache {
        return true;
      }
      assert id in server.files ==> server.files[id := server.files[id]] == server.files;
      var e := cache[id];
      if e.status == MODIFIED {
        if !WriteFits(e.content) {
          return false;
        }
        var ret := server.Write(id, 0, e.size, e.content);
        if ret != OK {
          return false;
        }
        ret := server.SetAttr(id, e.size);
      }
      cache := cache - {id};
      return true;
    }
  }

  // ------------------------------------------- one flush against the writes it replaces

  datatype WriteOp = WriteOp(off: nat, buf: string)

  /** Every write sent straight to the server: a refused request or an exception leaves no result. */
  function Direct(f: File, ws: seq<WriteOp>): Option<File> {
    if ws == [] then Some(f)
    else
      var d, w := Direct(f, ws[..|ws| - 1]), ws[|ws| - 1];
      if d.None? || !WriteFits(w.buf) then None
      else
        var c := Edit(d.value.content, w.off, |w.buf|, w.buf);
        if c.None? then None else Some(Put(c.value))
  }

  /** Every write applied to the cache entry. */
  function Batched(e: Entry, ws: seq<WriteOp>): Option<Entry> {
    if ws == [] then Some(e)
    else
      var b, w := Batched(e, ws[..|ws| - 1]), ws[|ws| - 1];
      if b.None? then None else CacheEdit(b.value, w.off, w.buf)
  }

  /** The file is fetched, written in the cache and flushed. */
  function Cycle(f: File, ws: seq<WriteOp>): Option<File> {
    var e := Fetched(f);
    if e.None? then None
    else
      var b := Batched(e.value, ws);
      if b.None? then None else Flushed(f, b.value)
  }

  /** The length of a file of length n after one write, or nothing when the write throws. */
  function NextLength(n: nat, off: nat, k: nat): Option<nat> {
    var m := if off + k > n then (off + k) % UINT_RANGE else n;
    var pos := off % UINT_RANGE;
    if pos > m then None else Some(if pos + k > m then pos + k else m)
  }

  /** How long the file gets; a caller can tell from the offsets and sizes before the first write. */
  function Reach(n: nat, ws: seq<WriteOp>): Option<nat> {
    if ws == [] then Some(n)
    else
      var r, w := Reach(n, ws[..|ws| - 1]), ws[|ws| - 1];
      if r.None? then None else NextLength(r.value, w.off, |w.buf|)
  }

  lemma EditLength(content: string, off: nat, buf: string)
    requires |content| < UINT_RANGE && |buf| < UINT_RANGE
    ensures Edit(content, off, |buf|, buf).Some? <==> NextLength(|content|, off, |buf|).Some?
    ensures Edit(content, off, |buf|, buf).Some? ==>
      |Edit(content, off, |buf|, buf).value| == NextLength(|content|, off, |buf|).value < UINT_RANGE
  {
    assert Substr(buf, 0, |buf|) == buf;
  }

  /** Every single write fits a request. */
  predicate AllFit(ws: seq<WriteOp>) {
    forall i | 0 <= i < |ws| :: WriteFits(ws[i].buf)
  }

  lemma {:induction false} DirectReach(f: File, ws: seq<WriteOp>)
    requires FileOk(f)
    ensures Direct(f, ws).Some? <==> AllFit(ws) && Reach(|f.content|, ws).Some?
    ensures Direct(f, ws).Some? ==>
      FileOk(Direct(f, ws).value) && |Direct(f, ws).value.content| == Reach(|f.content|, ws).value
  {
    if ws != [] {
      var past, w := ws[..|ws| - 1], ws[|ws| - 1];
      DirectReach(f, past);
      assert ws == past + [w];
      assert AllFit(ws) <==> AllFit(past) && WriteFits(w.buf) by {
        assert AllFit(past) && WriteFits(w.buf) ==> forall i | 0 <= i < |ws| :: WriteFits(ws[i].buf);
        assert AllFit(ws) ==> forall i | 0 <= i < |past| :: past[i] == ws[i];
      }
      if Direct(f, past).Some? && WriteFits(w.buf) {
        EditLength(Direct(f, past).value.content, w.off, w.buf);
      }
    }
  }

  /** Cached writes leave the bytes and the size that the same writes leave at the server. */
  lemma {:induction false} BatchedSame(f: File, e: Entry, ws: seq<WriteOp>)
    requires AllFit(ws) && e.content == f.content
    ensures Batched(e, ws).Some? <==> Direct(f, ws).Some?
    ensures Direct(f, ws).Some? ==> Batched(e, ws).value.content == Direct(f, ws).value.content
    ensures Direct(f, ws).Some? && ws != [] ==>
      Batched(e, ws).value.status == MODIFIED && Batched(e, ws).value.size == Direct(f, ws).value.size
  {
    if ws != [] {
      assert WriteFits(ws[|ws| - 1].buf);
      BatchedSame(f, e, ws[..|ws| - 1]);
    }
  }

  lemma FlushGives(f: File, e: Entry, d: File)
    requires e.status == MODIFIED && e.content == d.content && e.size == d.size && FileOk(d) && WriteFits(e.content)
    ensures Flushed(f, e) == Some(d)
  {
    var c := ServerWrite(f, 0, e.size, e.content).content;
    assert Substr(e.content, 0, |e.content|) == e.content;
    assert c[..|e.content|] == e.content;
    assert |c| == e.size ==> c == c[..|c|];
    assert d == Put(e.content);
  }

  /** When the whole file fits one write request, which a caller can tell beforehand. */
  predicate FlushFits(f: File, ws: seq<WriteOp>) {
    && 28 + |f.content| <= Framing.MAX_PDU
    && AllFit(ws) && Reach(|f.content|, ws).Some?
    && (ws == [] || 48 + Reach(|f.content|, ws).value <= Framing.MAX_PDU)
  }

  /** Any sequence of offset writes, overwriting, extending or leaving gaps, applied in the cache and
      flushed once, completes and leaves the server exactly as if each write had gone straight to it if
      and only if the fetch and every single write fit a PDU, no write throws, and nothing was written
      or the file as a whole still fits one write request. */
  lemma FlushEqualsDirect(f: File, ws: seq<WriteOp>)
    requires FileOk(f)
    ensures Cycle(f, ws).Some? && Cycle(f, ws) == Direct(f, ws) <==> FlushFits(f, ws)
  {
    DirectReach(f, ws);
    assert Substr(f.content, 0, f.size) == f.content;
    if AllFit(ws) && Fetched(f).Some? && Direct(f, ws).Some? {
      var e := Fetched(f).value;
      BatchedSame(f, e, ws);
      if ws != [] && WriteFits(Direct(f, ws).value.content) {
        FlushGives(f, Batched(e, ws).value, Direct(f, ws).value);
      }
    }
  }

  /** An input that fails: two writes of 6 MiB into an empty file go through when they are sent one by
      one, and abort the client when they are flushed together. */
  lemma LargeFlushAborts()
    ensures var buf := seq(0x60_0000, _ => 'a');
      var f, ws := Put(""), [WriteOp(0, buf), WriteOp(0x60_0000, buf)];
      && Direct(f, ws).Some? && |Direct(f, ws).value.content| == 0xC0_0000
      && Cycle(f, ws) == None
  {
    var buf := seq(0x60_0000, _ => 'a');
    var f, ws := Put(""), [WriteOp(0, buf), WriteOp(0x60_0000, buf)];
    var one := [WriteOp(0, buf)];
    assert ws[..1] == one && one[..0] == [];
    assert Reach(0, one) == Some(0x60_0000);
    assert Reach(0, ws) == Some(0xC0_0000);
    DirectReach(f, ws);
    BatchedSame(f, Fetched(f).value, ws);
  }
}
