/**
 Where pool_acquire sends a request, in terms of conns[] and the records alone, and
 how the idle clock runs.
 */
module PoolChoice {
  import opened Options
  import opened PoolState
  import opened PoolBooks
  import opened Pool

  // ---- the connections of an origin

  /** How many requests a connection may carry at once: one on H1, the peer's limit on H2, 16 on H3. */
  function Slots(k: Conn): nat {
    match k.proto
    case H1 => 1
    case H2 => if k.goaway then 0 else k.maxStreams
    case H3 => 16
  }

  /** An open connection of the origin and protocol, neither broken nor closing. */
  predicate Serves(k: Conn, p: Proto, o: string) {
    k.proto == p && k.origin == o && !k.broken && k.phase != Closing
  }

  predicate Shaking(k: Conn, p: Proto, o: string) {
    Serves(k, p, o) && k.phase == Handshaking
  }

  predicate Open(k: Conn, p: Proto, o: string) {
    Serves(k, p, o) && k.phase == Ready
  }

  /** Open, with a slot to spare. */
  predicate Spare(k: Conn, p: Proto, o: string) {
    Open(k, p, o) && k.inflight < Slots(k)
  }

  predicate Fulfils(k: Conn, p: Proto, o: string, role: Role) {
    match role
    case CanServe => Spare(k, p, o)
    case IsReady => Open(k, p, o)
    case IsShaking => Shaking(k, p, o)
  }

  lemma PlaysIff(k: Conn, p: Proto, o: string, role: Role)
    ensures Plays(k, p, o, role) <==> Fulfils(k, p, o, role)
  {
  }

  /** conns[i] is the first in its order to fulfil the role. */
  predicate FirstAt(b: Books, p: Proto, o: string, role: Role, i: nat)
    requires Listed(b)
  {
    && i < |b.conns| && Fulfils(b.conn[b.conns[i]], p, o, role)
    && forall j :: 0 <= j < i ==> !Fulfils(b.conn[b.conns[j]], p, o, role)
  }

  predicate NoneOf(b: Books, p: Proto, o: string, role: Role)
    requires Listed(b)
  {
    forall i :: 0 <= i < |b.conns| ==> !Fulfils(b.conn[b.conns[i]], p, o, role)
  }

  /** conns[] lists records that are there, each once. */
  predicate Listed(b: Books) {
    NoDup(b.conns) && forall i :: 0 <= i < |b.conns| ==> b.conns[i] in b.conn
  }

  /** No further connection may be opened for the origin. */
  ghost predicate AtLimit(b: Books, p: Proto, o: string, max: nat) {
    |set c | c in b.conn && Serves(b.conn[c], p, o)| >= max || |b.conns| >= 256
  }

  lemma LimitIff(b: Books, p: Proto, o: string, max: nat)
    ensures AtLimit(b, p, o, max) <==> !(|Usables(b.conn, p, o)| < max && |b.conns| < MAX_CONNS)
  {
    assert Usables(b.conn, p, o) == set c | c in b.conn && Serves(b.conn[c], p, o);
  }

  // ---- what a scan finds

  lemma FirstIff(b: Books, p: Proto, o: string, role: Role, i: nat)
    requires Listed(b) && i < |b.conns|
    ensures IsFirst(Some(b.conns[i]), b.conns, b.conn, p, o, role) <==> FirstAt(b, p, o, role, i)
  {
    forall j | 0 <= j < |b.conns|
      ensures Plays(b.conn[b.conns[j]], p, o, role) <==> Fulfils(b.conn[b.conns[j]], p, o, role)
    {
      PlaysIff(b.conn[b.conns[j]], p, o, role);
    }
  }

  lemma NoneIff(b: Books, p: Proto, o: string, role: Role)
    requires Listed(b)
    ensures IsFirst(None, b.conns, b.conn, p, o, role) <==> NoneOf(b, p, o, role)
  {
    forall j | 0 <= j < |b.conns|
      ensures Plays(b.conn[b.conns[j]], p, o, role) <==> Fulfils(b.conn[b.conns[j]], p, o, role)
    {
      PlaysIff(b.conn[b.conns[j]], p, o, role);
    }
  }

  /** The index of a scan's result; the length if there is none. */
  lemma Found(x: Option<ConnId>, b: Books, p: Proto, o: string, role: Role) returns (i: nat)
    requires Listed(b) && IsFirst(x, b.conns, b.conn, p, o, role)
    ensures if x.None? then i == |b.conns| && NoneOf(b, p, o, role)
            else i < |b.conns| && x.value == b.conns[i] && FirstAt(b, p, o, role, i)
  {
    if x.None? {
      NoneIff(b, p, o, role);
      i := |b.conns|;
    } else {
      i :| 0 <= i < |b.conns| && b.conns[i] == x.value;
      FirstIff(b, p, o, role, i);
    }
  }

  /** And every state has one. */
  lemma {:induction false} SomeFirst(b: Books, p: Proto, o: string, role: Role, n: nat) returns (i: nat)
    requires Listed(b) && n <= |b.conns|
    ensures i <= n && (forall j :: 0 <= j < i ==> !Fulfils(b.conn[b.conns[j]], p, o, role))
    ensures i < n ==> FirstAt(b, p, o, role, i)
    decreases n
  {
    if n == 0 {
      i := 0;
    } else {
      i := SomeFirst(b, p, o, role, n - 1);
      if i == n - 1 && !Fulfils(b.conn[b.conns[n - 1]], p, o, role) { i := n; }
    }
  }

  lemma Scans(b: Books, p: Proto, o: string, role: Role) returns (x: Option<ConnId>, i: nat)
    requires Listed(b)
    ensures IsFirst(x, b.conns, b.conn, p, o, role)
    ensures if x.None? then NoneOf(b, p, o, role) else FirstAt(b, p, o, role, i) && x.value == b.conns[i]
  {
    i := SomeFirst(b, p, o, role, |b.conns|);
    if i < |b.conns| {
      x := Some(b.conns[i]);
      FirstIff(b, p, o, role, i);
    } else {
      x := None;
      NoneIff(b, p, o, role);
    }
  }

  lemma OneFirst(b: Books, p: Proto, o: string, role: Role, i: nat, j: nat)
    requires Listed(b) && FirstAt(b, p, o, role, i) && FirstAt(b, p, o, role, j)
    ensures i == j
  {
  }

  // ---- the six outcomes

  /** `c` is the first connection to fulfil a role. */
  ghost predicate TheFirst(b: Books, p: Proto, o: string, role: Role, c: ConnId)
    requires Listed(b)
  {
    exists i: nat :: FirstAt(b, p, o, role, i) && b.conns[i] == c
  }

  /** When pool_acquire takes each of its ways. */
  ghost predicate Due(b: Books, p: Proto, o: string, max: nat, how: Choice)
    requires Listed(b)
  {
    match how
    case Reuse(c) => TheFirst(b, p, o, CanServe, c)
    case Coalesce(c) => NoneOf(b, p, o, CanServe) && p != H1 && TheFirst(b, p, o, IsShaking, c)
    case OpenNew =>
      NoneOf(b, p, o, CanServe) && (p == H1 || NoneOf(b, p, o, IsShaking)) && !AtLimit(b, p, o, max)
    case Overload(c) =>
      && NoneOf(b, p, o, CanServe) && p != H1 && NoneOf(b, p, o, IsShaking)
      && AtLimit(b, p, o, max) && TheFirst(b, p, o, IsReady, c)
    case QueueOn(c) =>
      && NoneOf(b, p, o, CanServe) && p == H1 && AtLimit(b, p, o, max)
      && (TheFirst(b, p, o, IsShaking, c) || (NoneOf(b, p, o, IsShaking) && TheFirst(b, p, o, IsReady, c)))
    case Refuse =>
      && NoneOf(b, p, o, CanServe) && NoneOf(b, p, o, IsShaking) && NoneOf(b, p, o, IsReady)
      && AtLimit(b, p, o, max)
  }

  lemma TheFirstIs(b: Books, p: Proto, o: string, role: Role, i: nat, c: ConnId)
    requires Listed(b) && FirstAt(b, p, o, role, i)
    ensures TheFirst(b, p, o, role, c) <==> c == b.conns[i]
    ensures !NoneOf(b, p, o, role)
  {
    if TheFirst(b, p, o, role, c) {
      var j: nat :| FirstAt(b, p, o, role, j) && b.conns[j] == c;
      OneFirst(b, p, o, role, i, j);
    }
  }

  lemma NoneMeans(b: Books, p: Proto, o: string, role: Role, c: ConnId)
    requires Listed(b) && NoneOf(b, p, o, role)
    ensures !TheFirst(b, p, o, role, c)
  {
  }

  /** What a scan result says about `TheFirst` and `NoneOf`. */
  lemma ScanSays(x: Option<ConnId>, b: Books, p: Proto, o: string, role: Role)
    requires Listed(b) && IsFirst(x, b.conns, b.conn, p, o, role)
    ensures x.None? <==> NoneOf(b, p, o, role)
    ensures forall c: ConnId :: TheFirst(b, p, o, role, c) <==> x == Some(c)
  {
    var i := Found(x, b, p, o, role);
    forall c: ConnId ensures TheFirst(b, p, o, role, c) <==> x == Some(c) {
      if x.None? { NoneMeans(b, p, o, role, c); } else { TheFirstIs(b, p, o, role, i, c); }
    }
    if x.Some? { TheFirstIs(b, p, o, role, i, x.value); }
  }

  lemma PickIsDue(b: Books, p: Proto, o: string, max: nat, how: Choice,
                  reusable: Option<ConnId>, any: Option<ConnId>, shaking: Option<ConnId>)
    requires Listed(b)
    requires (reusable.None? <==> NoneOf(b, p, o, CanServe))
          && forall c: ConnId :: TheFirst(b, p, o, CanServe, c) <==> reusable == Some(c)
    requires (any.None? <==> NoneOf(b, p, o, IsReady))
          && forall c: ConnId :: TheFirst(b, p, o, IsReady, c) <==> any == Some(c)
    requires (shaking.None? <==> NoneOf(b, p, o, IsShaking))
          && forall c: ConnId :: TheFirst(b, p, o, IsShaking, c) <==> shaking == Some(c)
    ensures how == Choose(p, reusable, any, shaking, |Usables(b.conn, p, o)|, |b.conns|, max) <==> Due(b, p, o, max, how)
  {
    LimitIff(b, p, o, max);
  }

  lemma ScanIsDue(b: Books, p: Proto, o: string, max: nat, how: Choice,
                  reusable: Option<ConnId>, any: Option<ConnId>, shaking: Option<ConnId>)
    requires Listed(b) && IsFirst(reusable, b.conns, b.conn, p, o, CanServe)
    requires IsFirst(any, b.conns, b.conn, p, o, IsReady) && IsFirst(shaking, b.conns, b.conn, p, o, IsShaking)
    ensures how == Choose(p, reusable, any, shaking, |Usables(b.conn, p, o)|, |b.conns|, max) <==> Due(b, p, o, max, how)
  {
    ScanSays(reusable, b, p, o, CanServe);
    ScanSays(any, b, p, o, IsReady);
    ScanSays(shaking, b, p, o, IsShaking);
    PickIsDue(b, p, o, max, how, reusable, any, shaking);
  }

  /** The choice of pool_acquire is the one that is due, for every state of the pool. */
  lemma ChosenIff(b: Books, p: Proto, o: string, max: nat, how: Choice)
    requires Listed(b)
    ensures Chosen(b, p, o, max, how) <==> Due(b, p, o, max, how)
  {
    if Chosen(b, p, o, max, how) {
      var x, y, z :|
        && IsFirst(x, b.conns, b.conn, p, o, CanServe)
        && IsFirst(y, b.conns, b.conn, p, o, IsReady)
        && IsFirst(z, b.conns, b.conn, p, o, IsShaking)
        && how == Choose(p, x, y, z, |Usables(b.conn, p, o)|, |b.conns|, max);
      ScanIsDue(b, p, o, max, how, x, y, z);
    }
    if Due(b, p, o, max, how) {
      var reusable, _ := Scans(b, p, o, CanServe);
      var any, _ := Scans(b, p, o, IsReady);
      var shaking, _ := Scans(b, p, o, IsShaking);
      ScanIsDue(b, p, o, max, how, reusable, any, shaking);
    }
  }

  // ---- what a dispatch that finds a spare slot does

  /** Placing a request opens a connection only as its choice or after a retry; a request that is called back opened none. */
  lemma {:induction false} AcquireConns(b: Books, max: nat, r: ReqId, how: Choice, fired: bool, b': Books, mayFail: bool)
    requires Acquired(b, max, r, how, fired, b', mayFail)
    ensures if fired then b'.conns == b.conns
            else r in b'.req && b'.req[r].retriesLeft <= b.req[r].retriesLeft
                 && (b'.conns == b.conns || how.OpenNew? || b'.req[r].retriesLeft < b.req[r].retriesLeft)
    decreases Budget(b, r), 3
  {
    if how.Reuse? || how.Overload? { SubmitConns(b, max, how.c, r, fired, b', mayFail); }
  }

  lemma {:induction false} SubmitConns(b: Books, max: nat, c: ConnId, r: ReqId, fired: bool, b': Books, mayFail: bool)
    requires SubmitEnds(b, max, c, r, fired, b', mayFail)
    ensures if fired then b'.conns == b.conns
            else r in b'.req && b'.req[r].retriesLeft <= b.req[r].retriesLeft
                 && (b'.conns == b.conns || b'.req[r].retriesLeft < b.req[r].retriesLeft)
    decreases Budget(b, r), 2
  {
    if !Defers(b.conn[c]) && b.conn[c].proto.H3? && (fired || b' != Submitted(b, c, r)) {
      if how :| RetryEnds(Counted(b, c, r), max, r, how, fired, b', mayFail) {
        RetryConns(Counted(b, c, r), max, r, how, fired, b', mayFail);
      } else {
        var how :| RetryEnds(StreamOpened(Counted(b, c, r), c, r), max, r, how, fired, b', mayFail);
        RetryConns(StreamOpened(Counted(b, c, r), c, r), max, r, how, fired, b', mayFail);
      }
    }
  }

  lemma {:induction false} RetryConns(b: Books, max: nat, r: ReqId, how: Choice, fired: bool, b': Books, mayFail: bool)
    requires RetryEnds(b, max, r, how, fired, b', mayFail)
    ensures if fired then b'.conns == b.conns
            else r in b'.req && b'.req[r].retriesLeft < b.req[r].retriesLeft
    decreases Budget(b, r), 1
  {
    if b.req[r].retriesLeft > 0 && !b.req[r].responded { AcquireConns(Charged(b, r), max, r, how, fired, b', mayFail); }
  }

  /**
   A dispatch to an origin with a spare slot goes to the first connection that has one, and
   opens no other, unless on H3 a stream fails and the request is retried. On H1 and H2 it ends
   up called back, deferred to the end of the queue, or one more stream within the slots.
   */
  lemma DispatchReuses(b: Books, max: nat, p: Proto, o: string, i: nat, how: Choice, fired: bool, b': Books, mayFail: bool)
    requires Listed(b) && FirstAt(b, p, o, CanServe, i)
    requires Acquired(Accepted(b, NewReq(p, o)), max, b.nextReq, how, fired, b', mayFail)
    ensures how == Reuse(b.conns[i])
    ensures b'.conns == b.conns || (p == H3 && !fired && b.nextReq in b'.req && b'.req[b.nextReq].retriesLeft < 2)
    ensures p != H3 && !fired ==>
      var k := b.conn[b.conns[i]];
      && b.conns[i] in b'.conn && b'.conn == b.conn[b.conns[i] := b'.conn[b.conns[i]]]
      && (if k.inRecv then b'.conn[b.conns[i]] == k.(waiting := k.waiting + [b.nextReq])
          else b'.conn[b.conns[i]] == k.(active := [b.nextReq] + k.active, inflight := k.inflight + 1,
                                         idle := k.idle && k.inflight > 0, idleSince := 0))
      && k.inflight + 1 <= Slots(k)
      && b.nextReq in b'.req && b'.req[b.nextReq].retriesLeft == 2
  {
    var mid := Accepted(b, NewReq(p, o));
    assert FirstAt(mid, p, o, CanServe, i);
    ChosenIff(mid, p, o, max, how);
    assert Due(mid, p, o, max, how);
    DueWithSpare(mid, p, o, max, how, i);
    AcquireConns(mid, max, b.nextReq, how, fired, b', mayFail);
  }

  lemma DueWithSpare(b: Books, p: Proto, o: string, max: nat, how: Choice, i: nat)
    requires Listed(b) && FirstAt(b, p, o, CanServe, i) && Due(b, p, o, max, how)
    ensures how == Reuse(b.conns[i])
  {
    if how.Reuse? { TheFirstIs(b, p, o, CanServe, i, how.c); }
  }

  /** A retry is another acquire, one retry poorer and bound to no connection; without any left it is the callback. */
  lemma RetryIff(b: Books, max: nat, r: ReqId, how: Choice, fired: bool, b': Books, mayFail: bool)
    requires r in b.req
    ensures var q := b.req[r];
      RetryEnds(b, max, r, how, fired, b', mayFail) <==>
      if q.retriesLeft > 0 && !q.responded
      then Acquired(b.(req := b.req[r := q.(retriesLeft := q.retriesLeft - 1, pc := None)]), max, r, how, fired, b', mayFail)
      else fired && b' == b.(delivered := b.delivered + [r], req := b.req - {r})
  {
  }

  /** A stream takes the next id of its connection, and the one after is four higher: they are all of one kind. */
  lemma StreamIds(b: Books, c: ConnId, r: ReqId)
    requires r in b.req && c in b.conn
    ensures var b' := StreamOpened(b, c, r);
      b'.req[r].streamId == b.conn[c].nextStream && b'.conn[c].nextStream == b.conn[c].nextStream + 4
    ensures forall p, o, failed, streams :: NewConn(p, o, failed, streams).nextStream == 0
  {
  }

  // ---- the idle clock

  /**
   A healthy connection that comes to rest at `t` is closed by a sweep exactly `idleTo` after
   that or later; coming to rest again does not restart the clock, a new stream stops it, and
   one still handshaking is never swept. A broken one goes as soon as nothing is in flight.
   */
  lemma IdleClock(k: Conn, t: nat, later: nat, now: nat, idleTo: nat, r: ReqId)
    requires k.phase == Ready && !k.broken && k.inflight == 0 && !k.idle
    ensures SweepTakes(Rested(k, t), now, idleTo) <==> now - t >= idleTo
    ensures SweepTakes(Rested(Rested(k, t), later), now, idleTo) <==> now - t >= idleTo
    ensures !SweepTakes(Started(Rested(k, t), r), now, idleTo)
    ensures !SweepTakes(k.(phase := Handshaking), now, idleTo) && !SweepTakes(k.(phase := Closing), now, idleTo)
    ensures SweepTakes(k.(broken := true), now, idleTo) && !SweepTakes(k.(broken := true, inflight := 1), now, idleTo)
  {
  }
}
