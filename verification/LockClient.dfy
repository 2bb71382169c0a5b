/** The caching lock client (lock_client_cache.cc).

    `Client` is the value of the object's fields; the six maps of the source that are keyed by a lock
    and get their entries together are one map of records.  Every function below is the code between
    two releases of `map_lock`; class `LockClientCache` runs the same code on the fields in place and
    is proved to compute exactly these functions. */
module LockClient {

  type LockId = nat
  type ThreadId = int
  type Cond = nat

  datatype LockStatus = NONE | FREE | LOCKED | RETRYING | ACQUIRING | RELEASING

  const NO_THREAD: ThreadId := -1
  /** `(seqid_t) -1`, the largest unsigned value. */
  const NO_SEQ: int := -1

  /** `<` on seqid_t, where NO_SEQ is above every number that is ever issued. */
  predicate SeqBelow(a: int, b: int) {
    a != NO_SEQ && (b == NO_SEQ || a < b)
  }

  datatype Entry = Entry(status: LockStatus, thread: ThreadId, waitlist: seq<Cond>, seqid: int,
                         waitingRevoke: int, retryFlag: bool)

  /** What the source's `m[lid]` reads for a lock it never saw: the default value of each type. */
  const Unknown: Entry := Entry(NONE, 0, [], 0, 0, false)
  /** What `acquire` creates for a lock it never saw. */
  const NewEntry: Entry := Entry(NONE, NO_THREAD, [], NO_SEQ, NO_SEQ, false)

  datatype Client = Client(seqid: nat, locks: map<LockId, Entry>, revokes: seq<LockId>, released: seq<LockId>)
  {
    function At(l: LockId): Entry {
      if l in locks then locks[l] else Unknown
    }
  }

  /** The state the constructor leaves. */
  const FreshClient: Client := Client(1, map[], [], [])

  function Without(s: seq<LockId>, x: LockId): (r: seq<LockId>)
    ensures forall y :: y in r <==> y in s && y != x
  {
    if s == [] then []
    else if s[0] == x then Without(s[1..], x)
    else [s[0]] + Without(s[1..], x)
  }

  /** What an acquiring thread does after one pass over the code at label `acqu`. */
  datatype AcquireNext = CallServer | Return | Block

  function Introduce(c: Client, l: LockId): Client {
    if l in c.locks then c else c.(locks := c.locks[l := NewEntry])
  }

  function AtAcqu(c: Client, t: ThreadId, l: LockId, cond: Cond): (Client, AcquireNext) {
    var e := c.At(l);
    if e.status == NONE then
      (Client(c.seqid + 1, c.locks[l := e.(status := ACQUIRING)], c.revokes, c.released), CallServer)
    else if e.thread == t then
      (c, Return)
    else if e.status == FREE then
      (c.(locks := c.locks[l := e.(status := LOCKED, thread := t)]), Return)
    else
      (c.(locks := c.locks[l := e.(waitlist := e.waitlist + [cond])]), Block)
  }

  function Acquire(c: Client, t: ThreadId, l: LockId, cond: Cond): (Client, AcquireNext) {
    AtAcqu(Introduce(c, l), t, l, cond)
  }

  /** The server answered OK. */
  function TakeGrant(c: Client, t: ThreadId, l: LockId): Client {
    var e := c.At(l);
    var e1 := e.(status := LOCKED, thread := t, seqid := c.seqid);
    if e.waitingRevoke == c.seqid then
      Client(c.seqid, c.locks[l := e1.(waitingRevoke := NO_SEQ)], c.revokes + [l], c.released)
    else
      c.(locks := c.locks[l := e1])
  }

  /** The server answered RETRY: the thread either calls again at once or waits on `cond`. */
  function TakeRefusal(c: Client, l: LockId, cond: Cond): (Client, AcquireNext) {
    var e := c.At(l);
    if e.retryFlag then
      (c.(locks := c.locks[l := e.(retryFlag := false, status := ACQUIRING)]), CallServer)
    else
      (c.(locks := c.locks[l := e.(waitlist := [cond] + e.waitlist, status := RETRYING)]), Block)
  }

  function WakeRetrying(c: Client, l: LockId): Client {
    c.(locks := c.locks[l := c.At(l).(status := ACQUIRING)])
  }

  function Release(c: Client, t: ThreadId, l: LockId): Client {
    var e := c.At(l);
    if e.thread != t then c
    else if l in c.revokes then
      Client(c.seqid, c.locks[l := Entry(RELEASING, NO_THREAD, e.waitlist, NO_SEQ, NO_SEQ, false)],
             Without(c.revokes, l), c.released + [l])
    else
      c.(locks := c.locks[l := e.(status := FREE, thread := NO_THREAD, retryFlag := false,
                                  waitlist := if e.waitlist == [] then [] else e.waitlist[1..])])
  }

  /** How a revoke RPC ends once the lock is not ACQUIRING: normally, by returning with `map_lock`
      still held, or in `assert(false)`. */
  datatype RevokeEnd = Done(c: Client) | KeepsMutex | AssertFails

  datatype RevokeReturn = RETURNS | STUCK | ABORTS

  function Revoke(c: Client, l: LockId, seqid: int): RevokeEnd {
    var e := c.At(l);
    if e.status == NONE || e.status == RELEASING then KeepsMutex
    else if SeqBelow(e.seqid, seqid) then AssertFails
    else if e.seqid != seqid then Done(c)
    else if e.status == FREE then
      Done(Client(c.seqid, c.locks[l := e.(status := RELEASING)], c.revokes, c.released + [l]))
    else
      Done(c.(revokes := c.revokes + [l]))
  }

  /** A retry RPC; for a lock never seen the source would follow a null wait list. */
  function Retry(c: Client, l: LockId): Client {
    var e := c.At(l);
    if e.waitlist == [] || e.status == ACQUIRING then
      c.(locks := c.locks[l := e.(retryFlag := true)])
    else
      c.(locks := c.locks[l := e.(waitlist := e.waitlist[1..])])
  }

  /** One round of the releaser up to the unlock before `dorelease`; the flag asks the server for a
      retry call. */
  function TakeReleased(c: Client): (r: (Client, LockId, bool))
    requires c.released != []
  {
    var l := c.released[0];
    var e := c.At(l);
    (Client(c.seqid, c.locks[l := e.(status := NONE)], c.revokes, c.released[1..]), l, e.waitlist != [])
  }

  class LockClientCache {
    var seqid: nat
    var locks: map<LockId, Entry>
    var revokes: seq<LockId>
    var released: seq<LockId>

    function View(): Client
      reads this
    {
      Client(seqid, locks, revokes, released)
    }

    constructor ()
      ensures View() == FreshClient
    {
      seqid, locks, revokes, released := 1, map[], [], [];
    }

    method AcquireStep(t: ThreadId, l: LockId, cond: Cond) returns (next: AcquireNext)
      modifies this
      ensures (View(), next) == Acquire(old(View()), t, l, cond)
      ensures l in locks && (next == Return ==> locks[l].thread == t)
    {
      if l !in locks {
        locks := locks[l := NewEntry];
      }
      next := AcquStep(t, l, cond);
    }

    method AcquStep(t: ThreadId, l: LockId, cond: Cond) returns (next: AcquireNext)
      modifies this
      ensures (View(), next) == AtAcqu(old(View()), t, l, cond)
      ensures l in old(locks) ==> l in locks && (next == Return ==> locks[l].thread == t)
    {
      var e := View().At(l);
      if e.status == NONE {
        seqid := seqid + 1;
        locks := locks[l := e.(status := ACQUIRING)];
        return CallServer;
      }
      if e.thread == t {
        return Return;
      }
      if e.status == FREE {
        locks := locks[l := e.(status := LOCKED, thread := t)];
        return Return;
      }
      locks := locks[l := e.(waitlist := e.waitlist + [cond])];
      return Block;
    }

    method GrantStep(t: ThreadId, l: LockId)
      modifies this
      ensures View() == TakeGrant(old(View()), t, l)
      ensures l in locks && locks[l].thread == t && locks[l].seqid == old(seqid)
    {
      var e := View().At(l);
      e := e.(status := LOCKED, thread := t, seqid := seqid);
      if e.waitingRevoke == seqid {
        revokes := revokes + [l];
        e := e.(waitingRevoke := NO_SEQ);
      }
      locks := locks[l := e];
    }

    method RefusalStep(l: LockId, cond: Cond) returns (next: AcquireNext)
      modifies this
      ensures (View(), next) == TakeRefusal(old(View()), l, cond)
    {
      var e := View().At(l);
      if e.retryFlag {
        locks := locks[l := e.(retryFlag := false, status := ACQUIRING)];
        return CallServer;
      }
      locks := locks[l := e.(waitlist := [cond] + e.waitlist, status := RETRYING)];
      return Block;
    }

    method WakeRetryingStep(l: LockId)
      modifies this
      ensures View() == WakeRetrying(old(View()), l)
    {
      locks := locks[l := View().At(l).(status := ACQUIRING)];
    }

    method ReleaseStep(t: ThreadId, l: LockId)
      modifies this
      ensures View() == Release(old(View()), t, l)
      ensures l in locks && t != NO_THREAD ==> locks[l].thread != t
    {
      var e := View().At(l);
      if e.thread != t {
        return;
      }
      e := e.(thread := NO_THREAD, retryFlag := false);
      var listed := ListContains(revokes, l);
      if listed {
        locks := locks[l := e.(status := RELEASING, waitingRevoke := NO_SEQ, seqid := NO_SEQ)];
        released := released + [l];
        revokes := Without(revokes, l);
      } else {
        e := e.(status := FREE);
        if e.waitlist != [] {
          e := e.(waitlist := e.waitlist[1..]);
        }
        locks := locks[l := e];
      }
    }

    /** `revoke` after its wait loop, with both ways in which it does not return normally. */
    method RevokeStep(l: LockId, sid: int) returns (end: RevokeReturn)
      modifies this
      ensures end == (match Revoke(old(View()), l, sid)
                      case Done(_) => RETURNS
                      case KeepsMutex => STUCK
                      case AssertFails => ABORTS)
      ensures end == RETURNS ==> Done(View()) == Revoke(old(View()), l, sid)
      ensures end != RETURNS ==> View() == old(View())
    {
      var e := View().At(l);
      if e.status == NONE || e.status == RELEASING {
        return STUCK;
      }
      if SeqBelow(e.seqid, sid) {
        return ABORTS;
      }
      if e.seqid == sid {
        if e.status == FREE {
          locks := locks[l := e.(status := RELEASING)];
          released := released + [l];
        } else {
          revokes := revokes + [l];
        }
      }
      return RETURNS;
    }

    method RetryStep(l: LockId)
      modifies this
      ensures View() == Retry(old(View()), l)
    {
      var e := View().At(l);
      if e.waitlist == [] || e.status == ACQUIRING {
        locks := locks[l := e.(retryFlag := true)];
      } else {
        locks := locks[l := e.(waitlist := e.waitlist[1..])];
      }
    }

    /** The result ok is false when the assertion on the lock's status fails. */
    method ReleaserStep() returns (l: LockId, retry: bool, ok: bool)
      requires released != []
      modifies this
      ensures l == old(released)[0] && ok == (old(View()).At(l).status == RELEASING)
      ensures ok ==> (View(), l, retry) == TakeReleased(old(View()))
    {
      l := released[0];
      released := released[1..];
      var e := View().At(l);
      retry, ok := e.waitlist != [], e.status == RELEASING;
      if ok {
        locks := locks[l := e.(status := NONE)];
      }
    }
  }

  method ListContains<T(==)>(s: seq<T>, v: T) returns (found: bool)
    ensures found <==> v in s
  {
    var i := 0;
    while i < |s|
      invariant 0 <= i <= |s|
      invariant v !in s[..i]
    {
      if s[i] == v {
        return true;
      }
      i := i + 1;
    }
    return false;
  }
}
