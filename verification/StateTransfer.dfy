/** Transfer of the lock server's state to another replica (lock_server_cache.cc). */
module StateTransfer {
  import opened Sequences
  import opened Wire
  import Marshalling
  import S = LockServer

  /** Numbers are the unsigned patterns that are sent: status, client ids and counts of 4 bytes, lock ids
      and sequence ids of 8. */
  datatype Revoke = Revoke(lid: nat, clid: nat, seqid: nat)

  datatype Locks = Locks(
    status: map<nat, nat>,
    hosts: map<nat, seq<Byte>>,
    clid: map<nat, nat>,
    retries: map<nat, seq<nat>>,
    revokes: seq<Revoke>,
    counts: map<nat, map<nat, nat>>,
    seqid: map<nat, nat>,
    rpcc: set<nat>)

  const Empty: Locks := Locks(map[], map[], map[], map[], [], map[], map[], {})

  // ---------------------------------------------------------------- maps as lists of entries

  lemma {:induction false} LeastExists(s: set<nat>, x: nat)
    requires x in s
    ensures exists k :: IsLeast(s, k)
  {
    if IsLeast(s, x) {
    } else {
      var j :| j in s && j < x;
      LeastExists(s, j);
    }
  }

  predicate IsLeast(s: set<nat>, k: nat) {
    k in s && forall j :: j in s ==> k <= j
  }

  function Least(s: set<nat>): (k: nat)
    requires s != {}
    ensures IsLeast(s, k)
  {
    LeastExists(s, var x :| x in s; x);
    var k :| k in s && IsLeast(s, k);
    k
  }

  /** A std::map is iterated from its least key. */
  function Entries<T>(m: map<nat, T>, f: T -> Value): (r: seq<Value>)
    ensures |r| == |m|
    decreases |m|
  {
    if m == map[] then []
    else
      var k := Least(m.Keys);
      [P(N(k), f(m[k]))] + Entries(m - {k}, f)
  }

  function KeyOf(e: Value): nat {
    if e.P? && e.k.N? then e.k.n else 0
  }

  function ValueOf(e: Value): Value {
    if e.P? then e.v else e
  }

  /** Assigning the entries one after another to a map. */
  function Overlay<T>(m: map<nat, T>, es: seq<Value>, g: Value -> T): map<nat, T>
    decreases |es|
  {
    if es == [] then m else Overlay(m[KeyOf(es[0]) := g(ValueOf(es[0]))], es[1..], g)
  }

  lemma OverlayCons<T>(m: map<nat, T>, k: nat, v: Value, es: seq<Value>, g: Value -> T)
    ensures Overlay(m, [P(N(k), v)] + es, g) == Overlay(m[k := g(v)], es, g)
  {
    assert ([P(N(k), v)] + es)[1..] == es;
  }

  lemma Moved<T>(m: map<nat, T>, d: map<nat, T>, k: nat)
    requires k in d
    ensures m[k := d[k]] + (d - {k}) == m + d
  {
  }

  /** Assigning all entries of d to m gives d over m. */
  lemma {:induction false} OverlayAll<T>(m: map<nat, T>, d: map<nat, T>, f: T -> Value, g: Value -> T)
    requires forall k :: k in d ==> g(f(d[k])) == d[k]
    ensures Overlay(m, Entries(d, f), g) == m + d
    decreases |d|
  {
    if d == map[] {
      assert m + d == m;
    } else {
      var k := Least(d.Keys);
      OverlayAll(m[k := d[k]], d - {k}, f, g);
      OverlayCons(m, k, f(d[k]), Entries(d - {k}, f), g);
      Moved(m, d, k);
    }
  }

  predicate KeyIn(e: Value, keys: set<nat>) {
    e.P? && e.k.N? && e.k.n in keys
  }

  lemma {:induction false} EntriesKeys<T>(d: map<nat, T>, f: T -> Value)
    ensures forall i :: 0 <= i < |d| ==> KeyIn(Entries(d, f)[i], d.Keys)
    ensures DistinctKeys(Entries(d, f))
    decreases |d|
  {
    if d != map[] {
      var k := Least(d.Keys);
      EntriesKeys(d - {k}, f);
      var es := Entries(d - {k}, f);
      assert forall i :: 0 <= i < |es| ==> KeyIn(es[i], d.Keys) && es[i].k != N(k);
      assert Entries(d, f) == [P(N(k), f(d[k]))] + es;
    }
  }

  lemma {:induction false} EntriesTyped<T>(d: map<nat, T>, f: T -> Value, w: nat, ty: Type)
    requires forall k :: k in d ==> k < Bound(w) && HasType(f(d[k]), ty)
    ensures forall i :: 0 <= i < |d| ==> HasType(Entries(d, f)[i], Two(Num(w), ty))
    decreases |d|
  {
    if d != map[] {
      var k := Least(d.Keys);
      EntriesTyped(d - {k}, f, w, ty);
      assert Entries(d, f) == [P(N(k), f(d[k]))] + Entries(d - {k}, f);
    }
  }

  /** A map of numbers of w bytes to values of type ty is marshalled as its entries. */
  lemma MapTyped<T>(d: map<nat, T>, f: T -> Value, w: nat, ty: Type)
    requires |d| < LIMIT && forall k :: k in d ==> k < Bound(w) && HasType(f(d[k]), ty)
    ensures HasType(V(Entries(d, f)), Map(Two(Num(w), ty)))
  {
    EntriesKeys(d, f);
    EntriesTyped(d, f, w, ty);
  }

  // ---------------------------------------------------------------- the fields on the wire

  function NumVal(x: nat): Value {
    N(x)
  }

  function NumOf(v: Value): nat {
    if v.N? then v.n else 0
  }

  function BytesVal(b: seq<Byte>): Value {
    S(b)
  }

  function BytesOf(v: Value): seq<Byte> {
    if v.S? then v.bytes else []
  }

  function Items(v: Value): seq<Value> {
    if v.V? then v.items else []
  }

  function ListVal(l: seq<nat>): Value {
    V(seq(|l|, i requires 0 <= i < |l| => N(l[i])))
  }

  function ListOf(v: Value): seq<nat> {
    seq(|Items(v)|, i requires 0 <= i < |Items(v)| => NumOf(Items(v)[i]))
  }

  function CountsVal(m: map<nat, nat>): Value {
    V(Entries(m, NumVal))
  }

  function CountsOf(v: Value): map<nat, nat> {
    Overlay(map[], Items(v), NumOf)
  }

  function RevokeVal(r: Revoke): Value {
    P(N(r.lid), P(N(r.clid), N(r.seqid)))
  }

  function RevokeOf(v: Value): Revoke {
    if v.P? && v.v.P? then Revoke(NumOf(v.k), NumOf(v.v.k), NumOf(v.v.v)) else Revoke(0, 0, 0)
  }

  function RevokesVal(l: seq<Revoke>): Value {
    V(seq(|l|, i requires 0 <= i < |l| => RevokeVal(l[i])))
  }

  function RevokesOf(v: Value): seq<Revoke> {
    seq(|Items(v)|, i requires 0 <= i < |Items(v)| => RevokeOf(Items(v)[i]))
  }

  const Int: Type := Num(4)
  const Long: Type := Num(8)

  /** The fields in the order in which they are sent; sizes that are sent apart are the sizes of these. */
  const Fields: seq<Type> :=
    [Map(Two(Long, Int)), Map(Two(Int, Str)), Map(Two(Long, Int)), Map(Two(Long, Vec(Int))),
     Vec(Two(Long, Two(Int, Long))), Map(Two(Long, Map(Two(Int, Int)))), Map(Two(Long, Long))]

  function Values(s: Locks): (r: seq<Value>)
    ensures |r| == 7
  {
    [V(Entries(s.status, NumVal)), V(Entries(s.hosts, BytesVal)), V(Entries(s.clid, NumVal)),
     V(Entries(s.retries, ListVal)), RevokesVal(s.revokes), V(Entries(s.counts, CountsVal)),
     V(Entries(s.seqid, NumVal))]
  }

  /** All numbers have the width of their C++ type and all sizes fit in 32 bits. */
  predicate Fits(s: Locks) {
    && FitsMap(s.status, 8, 4) && FitsMap(s.clid, 8, 4) && FitsMap(s.seqid, 8, 8)
    && |s.hosts| < LIMIT && (forall c :: c in s.hosts ==> c < Bound(4) && |s.hosts[c]| < LIMIT)
    && |s.retries| < LIMIT && (forall l :: l in s.retries ==> l < Bound(8) && FitsList(s.retries[l]))
    && |s.revokes| < LIMIT && (forall i :: 0 <= i < |s.revokes| ==> FitsRevoke(s.revokes[i]))
    && |s.counts| < LIMIT && (forall l :: l in s.counts ==> l < Bound(8) && FitsMap(s.counts[l], 4, 4))
  }

  predicate FitsMap(m: map<nat, nat>, w: nat, x: nat) {
    |m| < LIMIT && forall k :: k in m ==> k < Bound(w) && m[k] < Bound(x)
  }

  predicate FitsList(l: seq<nat>) {
    |l| < LIMIT && forall i :: 0 <= i < |l| ==> l[i] < Bound(4)
  }

  predicate FitsRevoke(r: Revoke) {
    r.lid < Bound(8) && r.clid < Bound(4) && r.seqid < Bound(8)
  }

  function Marshal(s: Locks): seq<Byte>
    requires AllTyped(Values(s), Fields)
  {
    EncodeAll(Values(s), Fields)
  }

  /** Maps that are extracted whole replace the old ones; the retry lists and the counts are assigned
      entry by entry, the revokes are appended, and a handle is made for every host. */
  function Install(old': Locks, vs: seq<Value>): Locks
    requires |vs| == 7
  {
    var hosts := Overlay(map[], Items(vs[1]), BytesOf);
    Locks(Overlay(map[], Items(vs[0]), NumOf), hosts, Overlay(map[], Items(vs[2]), NumOf),
          Overlay(old'.retries, Items(vs[3]), ListOf), old'.revokes + RevokesOf(vs[4]),
          Overlay(old'.counts, Items(vs[5]), CountsOf), Overlay(map[], Items(vs[6]), NumOf),
          old'.rpcc + hosts.Keys)
  }

  lemma {:induction false} DecodesThatMany(tys: seq<Type>, u: Input)
    ensures |DecodeAll(tys, u).vs| == |tys|
    decreases |tys|
  {
    if tys != [] {
      DecodesThatMany(tys[1..], Decode(tys[0], u).u);
    }
  }

  function Unmarshal(old': Locks, bytes: seq<Byte>): Locks {
    DecodesThatMany(Fields, Input(bytes, true));
    Install(old', DecodeAll(Fields, Input(bytes, true)).vs)
  }

  // ---------------------------------------------------------------- fidelity

  lemma NumsTyped(m: map<nat, nat>, w: nat, x: nat)
    requires FitsMap(m, w, x)
    ensures HasType(V(Entries(m, NumVal)), Map(Two(Num(w), Num(x))))
  {
    MapTyped(m, NumVal, w, Num(x));
  }

  lemma HostsTyped(s: Locks)
    requires Fits(s)
    ensures HasType(V(Entries(s.hosts, BytesVal)), Map(Two(Int, Str)))
  {
    MapTyped(s.hosts, BytesVal, 4, Str);
  }

  lemma RetriesTyped(s: Locks)
    requires Fits(s)
    ensures HasType(V(Entries(s.retries, ListVal)), Map(Two(Long, Vec(Int))))
  {
    MapTyped(s.retries, ListVal, 8, Vec(Int));
  }

  lemma CountsTyped(s: Locks)
    requires Fits(s)
    ensures HasType(V(Entries(s.counts, CountsVal)), Map(Two(Long, Map(Two(Int, Int)))))
  {
    forall l | l in s.counts
      ensures HasType(CountsVal(s.counts[l]), Map(Two(Int, Int)))
    {
      NumsTyped(s.counts[l], 4, 4);
    }
    MapTyped(s.counts, CountsVal, 8, Map(Two(Int, Int)));
  }

  lemma RevokesTyped(s: Locks)
    requires Fits(s)
    ensures HasType(RevokesVal(s.revokes), Vec(Two(Long, Two(Int, Long))))
  {
    var vs := RevokesVal(s.revokes).items;
    forall i | 0 <= i < |vs|
      ensures HasType(vs[i], Two(Long, Two(Int, Long)))
    {
      assert FitsRevoke(s.revokes[i]);
    }
  }

  /** Value i is sent as field i. */
  ghost predicate Sent(vs: seq<Value>, i: nat)
    requires |vs| == 7
  {
    i < 7 && HasType(vs[i], Fields[i])
  }

  lemma StatusSent(s: Locks)
    requires FitsMap(s.status, 8, 4)
    ensures Sent(Values(s), 0)
  {
    NumsTyped(s.status, 8, 4);
  }

  lemma HostsSent(s: Locks)
    requires Fits(s)
    ensures Sent(Values(s), 1)
  {
    HostsTyped(s);
  }

  lemma ClidSent(s: Locks)
    requires FitsMap(s.clid, 8, 4)
    ensures Sent(Values(s), 2)
  {
    NumsTyped(s.clid, 8, 4);
  }

  lemma RetriesSent(s: Locks)
    requires Fits(s)
    ensures Sent(Values(s), 3)
  {
    RetriesTyped(s);
  }

  lemma RevokesSent(s: Locks)
    requires Fits(s)
    ensures Sent(Values(s), 4)
  {
    RevokesTyped(s);
  }

  lemma CountsSent(s: Locks)
    requires Fits(s)
    ensures Sent(Values(s), 5)
  {
    CountsTyped(s);
  }

  lemma SeqidSent(s: Locks)
    requires FitsMap(s.seqid, 8, 8)
    ensures Sent(Values(s), 6)
  {
    NumsTyped(s.seqid, 8, 8);
  }

  lemma FieldsTyped(s: Locks)
    requires Fits(s)
    ensures AllTyped(Values(s), Fields)
  {
    StatusSent(s);
    HostsSent(s);
    ClidSent(s);
    RetriesSent(s);
    RevokesSent(s);
    CountsSent(s);
    SeqidSent(s);
    SevenTyped(Values(s));
  }

  lemma SevenTyped(vs: seq<Value>)
    requires |vs| == 7 && Sent(vs, 0) && Sent(vs, 1) && Sent(vs, 2) && Sent(vs, 3) && Sent(vs, 4) && Sent(vs, 5)
    requires Sent(vs, 6)
    ensures AllTyped(vs, Fields)
  {
    assert forall i :: 0 <= i < 7 ==> Sent(vs, i);
  }

  lemma CountsBack(m: map<nat, nat>)
    ensures CountsOf(CountsVal(m)) == m
  {
    OverlayAll(map[], m, NumVal, NumOf);
    assert map[] + m == m;
  }

  lemma ListBack(l: seq<nat>)
    ensures ListOf(ListVal(l)) == l
  {
  }

  lemma RevokesBack(l: seq<Revoke>)
    ensures RevokesOf(RevokesVal(l)) == l
  {
  }

  lemma Replaced<T>(d: map<nat, T>)
    ensures map[] + d == d
  {
  }

  /** What a replica in state old' makes of s. */
  function Merged(old': Locks, s: Locks): Locks {
    Locks(s.status, s.hosts, s.clid, old'.retries + s.retries, old'.revokes + s.revokes,
          old'.counts + s.counts, s.seqid, old'.rpcc + s.hosts.Keys)
  }

  lemma Installed(old': Locks, s: Locks)
    ensures Install(old', Values(s)) == Merged(old', s)
  {
    OverlayAll(map[], s.status, NumVal, NumOf);
    Replaced(s.status);
    OverlayAll(map[], s.hosts, BytesVal, BytesOf);
    Replaced(s.hosts);
    OverlayAll(map[], s.clid, NumVal, NumOf);
    Replaced(s.clid);
    forall l | l in s.retries
      ensures ListOf(ListVal(s.retries[l])) == s.retries[l]
    {
      ListBack(s.retries[l]);
    }
    OverlayAll(old'.retries, s.retries, ListVal, ListOf);
    RevokesBack(s.revokes);
    forall l | l in s.counts
      ensures CountsOf(CountsVal(s.counts[l])) == s.counts[l]
    {
      CountsBack(s.counts[l]);
    }
    OverlayAll(old'.counts, s.counts, CountsVal, CountsOf);
    OverlayAll(map[], s.seqid, NumVal, NumOf);
    Replaced(s.seqid);
  }

  lemma Transferred(old': Locks, s: Locks)
    requires Fits(s)
    ensures AllTyped(Values(s), Fields)
    ensures Unmarshal(old', Marshal(s)) == Merged(old', s)
  {
    FieldsTyped(s);
    Exact(Values(s), Fields, Marshal(s));
    Installed(old', s);
  }

  /** A new replica gets every map, list, queue and count exactly, and a handle for precisely the
      subscribed clients. */
  lemma NewReplica(s: Locks)
    requires Fits(s)
    ensures AllTyped(Values(s), Fields)
    ensures Unmarshal(Empty, Marshal(s)) == s.(rpcc := s.hosts.Keys)
  {
    Transferred(Empty, s);
    MergedIsSent(Empty, s);
  }

  /** A replica that was in use gets them exactly if and only if it has no revokes of its own and no retry
      list or count for a lock that the sender has none for. */
  lemma UsedReplica(old': Locks, s: Locks)
    requires Fits(s)
    ensures AllTyped(Values(s), Fields)
    ensures Unmarshal(old', Marshal(s)).(rpcc := s.rpcc) == s
       <==> old'.revokes == [] && old'.retries.Keys <= s.retries.Keys && old'.counts.Keys <= s.counts.Keys
  {
    Transferred(old', s);
    MergedIsSent(old', s);
  }

  lemma MergedIsSent(old': Locks, s: Locks)
    ensures Merged(old', s).(rpcc := s.rpcc) == s
       <==> old'.revokes == [] && old'.retries.Keys <= s.retries.Keys && old'.counts.Keys <= s.counts.Keys
  {
    Covered(old'.retries, s.retries);
    Covered(old'.counts, s.counts);
    assert |old'.revokes + s.revokes| == |old'.revokes| + |s.revokes|;
    assert [] + s.revokes == s.revokes;
  }

  lemma Covered<T>(m: map<nat, T>, d: map<nat, T>)
    ensures m + d == d <==> m.Keys <= d.Keys
  {
    assert (m + d).Keys == m.Keys + d.Keys;
  }

  // ---------------------------------------------------------------- the lock server's own state

  /** int and unsigned long long as they go over the wire; -1 is the largest pattern of each. */
  function Word(x: int): int {
    if x >= 0 then x else x + 0x1_0000_0000
  }

  function Unword(w: nat): int {
    if w < 0x8000_0000 then w else w - 0x1_0000_0000
  }

  function LongWord(x: int): int {
    if x >= 0 then x else x + Bound(8)
  }

  function UnlongWord(w: nat): int {
    if w == Bound(8) - 1 then S.NO_SEQ else w
  }

  predicate IsInt(x: int) {
    -0x8000_0000 <= x < 0x8000_0000
  }

  predicate IsSeqid(x: int) {
    S.NO_SEQ <= x < Bound(8) - 1
  }

  function Code(t: S.LockStatus): nat {
    match t
    case FREE => 0
    case LOCKED => 1
    case REVOKING => 2
  }

  function StatusOf(n: nat): S.LockStatus {
    if n == 0 then S.FREE else if n == 1 then S.LOCKED else S.REVOKING
  }

  predicate FitsEntry(e: S.Entry) {
    && IsInt(e.clid) && IsSeqid(e.seqid) && |e.retries| < LIMIT && |e.counts| < LIMIT
    && (forall i :: 0 <= i < |e.retries| ==> IsInt(e.retries[i]))
    && (forall c :: c in e.counts ==> 0 <= c < 0x8000_0000 && e.counts[c] < LIMIT)
  }

  predicate FitsInfo(r: S.RevokeInfo) {
    r.lid < Bound(8) && IsInt(r.clid) && IsSeqid(r.seqid)
  }

  /** The values are within their C++ types, and clients with counts have ids from 0 up. */
  predicate FitsLocks(locks: map<nat, S.Entry>) {
    |locks| < LIMIT && forall l :: l in locks ==> l < Bound(8) && FitsEntry(locks[l])
  }

  predicate FitsServer(s: S.Server) {
    && FitsLocks(s.locks)
    && |s.revokes| < LIMIT && (forall i :: 0 <= i < |s.revokes| ==> FitsInfo(s.revokes[i]))
  }

  predicate FitsHosts(hosts: map<nat, seq<Byte>>) {
    |hosts| < LIMIT && forall c :: c in hosts ==> c < Bound(4) && |hosts[c]| < LIMIT
  }

  function CountsOfEntry(e: S.Entry): map<nat, nat> {
    map c: nat | c in e.counts :: e.counts[c]
  }

  function RetriesOfEntry(e: S.Entry): seq<nat>
    requires FitsEntry(e)
  {
    seq(|e.retries|, i requires 0 <= i < |e.retries| => Word(e.retries[i]))
  }

  function InfoOf(r: S.RevokeInfo): Revoke
    requires FitsInfo(r)
  {
    Revoke(r.lid, Word(r.clid), LongWord(r.seqid))
  }

  /** The server's maps, one per field, as they are sent. */
  function StatusMap(locks: map<nat, S.Entry>): map<nat, nat> {
    map l | l in locks :: Code(locks[l].status)
  }

  function ClidMap(locks: map<nat, S.Entry>): map<nat, nat>
    requires FitsLocks(locks)
  {
    map l | l in locks :: Word(locks[l].clid)
  }

  function SeqidMap(locks: map<nat, S.Entry>): map<nat, nat>
    requires FitsLocks(locks)
  {
    map l | l in locks :: LongWord(locks[l].seqid)
  }

  function RetriesMap(locks: map<nat, S.Entry>): map<nat, seq<nat>>
    requires FitsLocks(locks)
  {
    map l | l in locks :: RetriesOfEntry(locks[l])
  }

  function CountsMap(locks: map<nat, S.Entry>): map<nat, map<nat, nat>> {
    map l | l in locks :: CountsOfEntry(locks[l])
  }

  function RevokeList(rs: seq<S.RevokeInfo>): seq<Revoke>
    requires forall i :: 0 <= i < |rs| ==> FitsInfo(rs[i])
  {
    seq(|rs|, i requires 0 <= i < |rs| => InfoOf(rs[i]))
  }

  function Sending(s: S.Server, hosts: map<nat, seq<Byte>>): Locks
    requires FitsServer(s)
  {
    Locks(StatusMap(s.locks), hosts, ClidMap(s.locks), RetriesMap(s.locks), RevokeList(s.revokes),
          CountsMap(s.locks), SeqidMap(s.locks), {})
  }

  /** What the five map entries of a lock say together. */
  function Rebuilt(status: nat, clid: nat, seqid: nat, retries: seq<nat>, counts: map<nat, nat>): S.Entry {
    S.Entry(StatusOf(status), Unword(clid), UnlongWord(seqid),
            seq(|retries|, i requires 0 <= i < |retries| => Unword(retries[i])),
            map c: int | c in counts :: counts[c])
  }

  predicate SameLocks(k: Locks) {
    k.status.Keys == k.clid.Keys == k.seqid.Keys == k.retries.Keys == k.counts.Keys
  }

  function LocksReceived(k: Locks): map<nat, S.Entry>
    requires SameLocks(k)
  {
    map l | l in k.status :: Rebuilt(k.status[l], k.clid[l], k.seqid[l], k.retries[l], k.counts[l])
  }

  function RevokesReceived(rs: seq<Revoke>): seq<S.RevokeInfo> {
    seq(|rs|, i requires 0 <= i < |rs| => S.RevokeInfo(rs[i].lid, Unword(rs[i].clid), UnlongWord(rs[i].seqid)))
  }

  lemma RebuiltIs(e: S.Entry)
    requires FitsEntry(e)
    ensures Rebuilt(Code(e.status), Word(e.clid), LongWord(e.seqid), RetriesOfEntry(e), CountsOfEntry(e)) == e
  {
    var d := Rebuilt(Code(e.status), Word(e.clid), LongWord(e.seqid), RetriesOfEntry(e), CountsOfEntry(e));
    assert d.retries == e.retries;
    assert d.counts == e.counts;
  }

  lemma CountsFit(e: S.Entry)
    requires FitsEntry(e)
    ensures FitsMap(CountsOfEntry(e), 4, 4)
  {
    assert Bound(4) == LIMIT;
    var keys: set<int> := CountsOfEntry(e).Keys;
    assert keys == e.counts.Keys;
  }

  lemma StatusFits(locks: map<nat, S.Entry>)
    requires FitsLocks(locks)
    ensures FitsMap(StatusMap(locks), 8, 4)
  {
    assert Bound(4) == LIMIT && StatusMap(locks).Keys == locks.Keys;
  }

  lemma ClidFits(locks: map<nat, S.Entry>)
    requires FitsLocks(locks)
    ensures FitsMap(ClidMap(locks), 8, 4)
  {
    assert Bound(4) == LIMIT && ClidMap(locks).Keys == locks.Keys;
    assert forall l :: l in locks ==> FitsEntry(locks[l]);
  }

  lemma SeqidFits(locks: map<nat, S.Entry>)
    requires FitsLocks(locks)
    ensures FitsMap(SeqidMap(locks), 8, 8)
  {
    assert SeqidMap(locks).Keys == locks.Keys;
    assert forall l :: l in locks ==> FitsEntry(locks[l]);
  }

  lemma RetriesFit(locks: map<nat, S.Entry>)
    requires FitsLocks(locks)
    ensures var m := RetriesMap(locks); |m| < LIMIT && forall l :: l in m ==> l < Bound(8) && FitsList(m[l])
  {
    assert Bound(4) == LIMIT && RetriesMap(locks).Keys == locks.Keys;
    assert forall l :: l in locks ==> FitsEntry(locks[l]);
  }

  lemma CountsMapFits(locks: map<nat, S.Entry>)
    requires FitsLocks(locks)
    ensures var m := CountsMap(locks); |m| < LIMIT && forall l :: l in m ==> l < Bound(8) && FitsMap(m[l], 4, 4)
  {
    assert CountsMap(locks).Keys == locks.Keys;
    forall l | l in locks ensures FitsMap(CountsMap(locks)[l], 4, 4) {
      CountsFit(locks[l]);
    }
  }

  lemma RevokeListFits(rs: seq<S.RevokeInfo>)
    requires |rs| < LIMIT && forall i :: 0 <= i < |rs| ==> FitsInfo(rs[i])
    ensures |RevokeList(rs)| < LIMIT && forall i :: 0 <= i < |rs| ==> FitsRevoke(RevokeList(rs)[i])
    ensures RevokesReceived(RevokeList(rs)) == rs
  {
    assert Bound(4) == LIMIT;
    forall i | 0 <= i < |rs|
      ensures FitsRevoke(RevokeList(rs)[i]) && RevokesReceived(RevokeList(rs))[i] == rs[i]
    {
      assert FitsInfo(rs[i]);
    }
  }

  lemma SendingFits(s: S.Server, hosts: map<nat, seq<Byte>>)
    requires FitsServer(s) && FitsHosts(hosts)
    ensures Fits(Sending(s, hosts))
  {
    StatusFits(s.locks);
    ClidFits(s.locks);
    SeqidFits(s.locks);
    RetriesFit(s.locks);
    CountsMapFits(s.locks);
    RevokeListFits(s.revokes);
  }

  /** The maps were made from these locks. */
  predicate MadeFrom(k: Locks, locks: map<nat, S.Entry>)
    requires FitsLocks(locks)
  {
    && k.status == StatusMap(locks) && k.clid == ClidMap(locks) && k.seqid == SeqidMap(locks)
    && k.retries == RetriesMap(locks) && k.counts == CountsMap(locks)
  }

  lemma KeysBack(locks: map<nat, S.Entry>, k: Locks)
    requires FitsLocks(locks) && MadeFrom(k, locks)
    ensures SameLocks(k) && k.status.Keys == locks.Keys
  {
    assert StatusMap(locks).Keys == locks.Keys && ClidMap(locks).Keys == locks.Keys;
    assert SeqidMap(locks).Keys == locks.Keys;
    assert RetriesMap(locks).Keys == locks.Keys && CountsMap(locks).Keys == locks.Keys;
  }

  lemma LockBack(locks: map<nat, S.Entry>, l: nat)
    requires FitsLocks(locks) && l in locks
    ensures Rebuilt(StatusMap(locks)[l], ClidMap(locks)[l], SeqidMap(locks)[l], RetriesMap(locks)[l],
                    CountsMap(locks)[l]) == locks[l]
  {
    RebuiltIs(locks[l]);
  }

  lemma LockReceived(locks: map<nat, S.Entry>, k: Locks, l: nat)
    requires FitsLocks(locks) && MadeFrom(k, locks) && SameLocks(k) && l in locks && l in k.status
    ensures LocksReceived(k)[l] == locks[l]
  {
    LockBack(locks, l);
  }

  lemma SameMap<T>(a: map<nat, T>, b: map<nat, T>)
    requires a.Keys == b.Keys && forall l :: l in b ==> a[l] == b[l]
    ensures a == b
  {
  }

  lemma LocksBack(locks: map<nat, S.Entry>, k: Locks)
    requires FitsLocks(locks) && MadeFrom(k, locks)
    ensures SameLocks(k) && LocksReceived(k) == locks
  {
    KeysBack(locks, k);
    var r := LocksReceived(k);
    assert r.Keys == k.status.Keys;
    forall l | l in locks ensures r[l] == locks[l] {
      LockReceived(locks, k, l);
    }
    SameMap(r, locks);
  }

  /** The state of the lock server itself goes over the wire unchanged: a new replica that unmarshals
      what another marshalled has the same locks and the same revoke queue, and a handle for precisely
      the subscribed clients. */
  lemma ServerTransferred(s: S.Server, hosts: map<nat, seq<Byte>>)
    requires FitsServer(s) && FitsHosts(hosts)
    ensures AllTyped(Values(Sending(s, hosts)), Fields)
    ensures var k := Unmarshal(Empty, Marshal(Sending(s, hosts)));
      && SameLocks(k) && LocksReceived(k) == s.locks && RevokesReceived(k.revokes) == s.revokes
      && k.rpcc == hosts.Keys
  {
    SendingFits(s, hosts);
    NewReplica(Sending(s, hosts));
    RevokeListFits(s.revokes);
    LocksBack(s.locks, Sending(s, hosts).(rpcc := hosts.Keys));
  }

  // ---------------------------------------------------------------- the server object

  /** Iterate over a std::map. */
  method EntryList<T>(m: map<nat, T>, f: T -> Value) returns (r: seq<Value>)
    ensures r == Entries(m, f)
  {
    r := [];
    var rest := m;
    while rest != map[]
      invariant r + Entries(rest, f) == Entries(m, f)
      decreases |rest|
    {
      var k := Least(rest.Keys);
      ghost var tail := Entries(rest - {k}, f);
      assert Entries(rest, f) == [P(N(k), f(rest[k]))] + tail;
      assert r + ([P(N(k), f(rest[k]))] + tail) == (r + [P(N(k), f(rest[k]))]) + tail;
      r := r + [P(N(k), f(rest[k]))];
      rest := rest - {k};
    }
  }

  method AssignEntries<T>(m: map<nat, T>, es: seq<Value>, g: Value -> T) returns (r: map<nat, T>)
    ensures r == Overlay(m, es, g)
  {
    r := m;
    var i := 0;
    assert es[0..] == es;
    while i < |es|
      invariant 0 <= i <= |es| && Overlay(r, es[i..], g) == Overlay(m, es, g)
    {
      assert es[i..][1..] == es[i + 1..];
      r := r[KeyOf(es[i]) := g(ValueOf(es[i]))];
      i := i + 1;
    }
  }

  /** `rep << v0; rep << v1; ...` */
  method PutAll(rep: Marshalling.Marshall, vs: seq<Value>, tys: seq<Type>)
    requires rep.Valid() && AllTyped(vs, tys) && forall i :: 0 <= i < |tys| ==> Marshalling.Marshallable(tys[i])
    modifies rep, rep.buf
    ensures rep.Valid() && (rep.buf == old(rep.buf) || fresh(rep.buf))
    ensures rep.Written() == old(rep.Written()) + EncodeAll(vs, tys)
    decreases |vs|
  {
    if vs == [] {
      assert rep.Written() + [] == rep.Written();
    } else {
      Cat(rep.Written(), Encode(vs[0], tys[0]), EncodeAll(vs[1..], tys[1..]));
      rep.Put(vs[0], tys[0]);
      PutAll(rep, vs[1..], tys[1..]);
    }
  }

  /** `rep >> v0; rep >> v1; ...` */
  method GetAll(rep: Marshalling.Unmarshall, tys: seq<Type>) returns (vs: seq<Value>)
    requires rep.Valid() && forall i :: 0 <= i < |tys| ==> Marshalling.Marshallable(tys[i])
    modifies rep`ind, rep`ok
    ensures rep.Valid() && GotAll(vs, rep.View()) == DecodeAll(tys, old(rep.View()))
    decreases |tys|
  {
    vs := [];
    if tys != [] {
      var v := rep.Get(tys[0]);
      var tail := GetAll(rep, tys[1..]);
      vs := [v] + tail;
    }
  }

  lemma FieldsMarshallable()
    ensures forall i :: 0 <= i < |Fields| ==> Marshalling.Marshallable(Fields[i])
  {
  }

  method Extract(state: seq<Byte>) returns (vs: seq<Value>)
    ensures |vs| == 7 && vs == DecodeAll(Fields, Input(state, true)).vs
  {
    FieldsMarshallable();
    DecodesThatMany(Fields, Input(state, true));
    var rep := new Marshalling.Unmarshall(state);
    vs := GetAll(rep, Fields);
  }

  class LockServerState {
    var status: map<nat, nat>
    var hosts: map<nat, seq<Byte>>
    var clid: map<nat, nat>
    var retries: map<nat, seq<nat>>
    var revokes: seq<Revoke>
    var counts: map<nat, map<nat, nat>>
    var seqid: map<nat, nat>
    var rpcc: set<nat>

    function View(): Locks
      reads this
    {
      Locks(status, hosts, clid, retries, revokes, counts, seqid, rpcc)
    }

    constructor ()
      ensures View() == Empty
    {
      status, hosts, clid, retries := map[], map[], map[], map[];
      revokes, counts, seqid, rpcc := [], map[], map[], {};
    }

    method MarshalState() returns (state: seq<Byte>)
      requires Fits(View())
      ensures AllTyped(Values(View()), Fields) && state == Marshal(View())
    {
      var a := EntryList(status, NumVal);
      var b := EntryList(hosts, BytesVal);
      var c := EntryList(clid, NumVal);
      var d := EntryList(retries, ListVal);
      var e := EntryList(counts, CountsVal);
      var f := EntryList(seqid, NumVal);
      FieldsTyped(View());
      FieldsMarshallable();
      var rep := new Marshalling.Marshall();
      ghost var header := rep.Written();
      PutAll(rep, [V(a), V(b), V(c), V(d), RevokesVal(revokes), V(e), V(f)], Fields);
      assert rep.Written()[|header|..] == Marshal(View());
      state := rep.buf[Marshalling.RPC_HEADER_SZ..rep.ind];
    }

    method UnmarshalState(state: seq<Byte>)
      modifies this
      ensures View() == Unmarshal(old(View()), state)
    {
      var vs := Extract(state);
      InstallAll(vs);
    }

    method InstallAll(vs: seq<Value>)
      requires |vs| == 7
      modifies this
      ensures View() == Install(old(View()), vs)
    {
      status := AssignEntries(map[], Items(vs[0]), NumOf);
      hosts := AssignEntries(map[], Items(vs[1]), BytesOf);
      rpcc := rpcc + hosts.Keys;
      clid := AssignEntries(map[], Items(vs[2]), NumOf);
      retries := AssignEntries(retries, Items(vs[3]), ListOf);
      revokes := revokes + RevokesOf(vs[4]);
      counts := AssignEntries(counts, Items(vs[5]), CountsOf);
      seqid := AssignEntries(map[], Items(vs[6]), NumOf);
    }
  }
}
