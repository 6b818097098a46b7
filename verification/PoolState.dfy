/**
 The connection pool's records and the consistency of its books. A PoolConn or
 PoolReq pointer is a key into a map of records; the intrusive lists are
 sequences of keys.
 */
module PoolState {
  import opened Options

  type ConnId = nat
  type ReqId = nat

  datatype Proto = H1 | H2 | H3
  datatype Phase = Handshaking | Ready | Closing

  const H3_MAX_CONCURRENT: nat := 16
  const MAX_CONNS: nat := 256
  const MAX_RETRIES: nat := 2
  const ORIGIN_MAX: nat := 255

  datatype Conn = Conn(
    proto: Proto, origin: string, phase: Phase, broken: bool, inRecv: bool, idle: bool,
    inflight: nat, idleSince: nat,
    waiting: seq<ReqId>, active: seq<ReqId>,
    maxStreams: nat, goaway: bool,               // what the H2 peer last said
    streams: seq<ReqId>, nextStream: nat)        // the H3 routing table

  datatype Req = Req(
    proto: Proto, origin: string, pc: Option<ConnId>, retriesLeft: nat, responded: bool,
    streamId: nat, fin: bool, submits: nat)

  type Conns = map<ConnId, Conn>
  type Reqs = map<ReqId, Req>

  // ---- predicates of one connection

  predicate HasCapacity(k: Conn) {
    && k.phase.Ready? && !k.broken
    && match k.proto
       case H1 => k.inflight < 1
       case H2 => !k.goaway && k.inflight < k.maxStreams
       case H3 => k.inflight < H3_MAX_CONCURRENT
  }

  predicate Usable(k: Conn) {
    !k.broken && !k.phase.Closing?
  }

  predicate UsableFor(k: Conn, p: Proto, o: string) {
    Usable(k) && k.proto == p && k.origin == o
  }

  predicate NoDup(s: seq<ReqId>) {
    forall i, j :: 0 <= i < j < |s| ==> s[i] != s[j]
  }

  predicate Holds(k: Conn, r: ReqId) {
    r in k.waiting || r in k.active
  }

  /** Books of a connection that is not closing. */
  ghost predicate ConnOk(k: Conn) {
    && k.inflight == |k.active|
    && NoDup(k.waiting) && NoDup(k.active) && (forall r :: r in k.waiting ==> r !in k.active)
    && (k.phase.Handshaking? ==> k.active == [] && !k.broken && (k.inRecv ==> k.proto.H3?))
    && (k.goaway ==> k.proto.H2? && k.phase.Ready?)
    && (k.idle ==> k.inflight == 0)
    && (k.proto.H1? ==> |k.active| <= 1)
    && (if k.proto.H3? then
          |k.active| <= H3_MAX_CONCURRENT && |k.streams| == |k.active| && NoDup(k.streams)
          && (forall r :: r in k.streams <==> r in k.active)
        else k.streams == [])
  }

  /** Outside its receive loop a connection keeps nobody waiting that it could serve or should re-home. */
  predicate Quiet(k: Conn) {
    || k.inRecv
    || (&& (k.waiting != [] ==> !HasCapacity(k) && !k.broken)
        && (k.goaway ==> k.broken))
  }

  // ---- predicates of the whole pool

  predicate Live(conn: Conns, c: ConnId) {
    c in conn && !conn[c].phase.Closing?
  }

  /** The request half of the bond: `r` names connection `c`, and is within its submit budget. */
  predicate Bound(k: Conn, c: ConnId, q: Req, r: ReqId) {
    && q.pc == Some(c) && q.proto == k.proto
    && q.submits + q.retriesLeft <= MAX_RETRIES + (if r in k.active then 1 else 0)
    && (r in k.streams ==> q.streamId < k.nextStream)
  }

  /** Stream ids route back to one request. */
  ghost predicate Routed(k: Conn, req: Reqs) {
    forall r, q :: r in k.streams && q in k.streams && r in req && q in req ==>
      r == q || req[r].streamId != req[q].streamId
  }

  /** Everything on a live connection's lists is a request of the books that names this connection. */
  ghost predicate ConnFine(k: Conn, c: ConnId, req: Reqs, off: set<ReqId>) {
    && ConnOk(k) && Routed(k, req)
    && (forall r :: Holds(k, r) ==> r in req && r !in off && Bound(k, c, req[r], r))
  }

  /** The connection half of the bond. */
  predicate Placed(conn: Conns, q: Req, r: ReqId) {
    q.pc.Some? && Live(conn, q.pc.value) && Holds(conn[q.pc.value], r)
  }

  /**
   The books balance: requests in `hand` are being moved, requests in `lost`
   were left on a closing connection, every other one is on exactly one list of
   exactly the live connection it names. Connections in `busy` are mid-event.
   */
  ghost predicate Consistent(conn: Conns, req: Reqs, hand: set<ReqId>, lost: set<ReqId>, busy: set<ConnId>) {
    && hand <= req.Keys && lost <= req.Keys && hand !! lost
    && (forall c :: Live(conn, c) ==> ConnFine(conn[c], c, req, hand + lost))
    && (forall c :: Live(conn, c) ==> c in busy || Quiet(conn[c]))
    && (forall r :: r in req ==> r in hand || r in lost || Placed(conn, req[r], r))
  }

  // ---- list surgery

  function Without(s: seq<ReqId>, r: ReqId): seq<ReqId> {
    if s == [] then [] else if s[0] == r then s[1..] else [s[0]] + Without(s[1..], r)
  }

  lemma {:induction false} WithoutFacts(s: seq<ReqId>, r: ReqId)
    requires NoDup(s)
    ensures NoDup(Without(s, r)) && (forall q :: q in Without(s, r) <==> q in s && q != r)
    ensures |Without(s, r)| == |s| - (if r in s then 1 else 0)
  {
    if s != [] {
      assert s == [s[0]] + s[1..];
      if s[0] != r {
        WithoutFacts(s[1..], r);
        assert s[0] !in Without(s[1..], r);
      }
    }
  }

  /** Unlinking from an intrusive list: walk to the node and splice it out. */
  method Unlink(s: seq<ReqId>, r: ReqId) returns (t: seq<ReqId>)
    ensures t == Without(s, r)
  {
    var i := 0;
    while i < |s| && s[i] != r
      invariant 0 <= i <= |s|
      invariant r !in s[..i]
    {
      i := i + 1;
    }
    WithoutAt(s, r, i);
    t := if i < |s| then s[..i] + s[i + 1..] else s;
  }

  lemma {:induction false} WithoutAt(s: seq<ReqId>, r: ReqId, i: nat)
    requires i <= |s| && r !in s[..i] && (i < |s| ==> s[i] == r)
    ensures Without(s, r) == if i < |s| then s[..i] + s[i + 1..] else s
  {
    if s != [] && i > 0 {
      assert s[..i][0] == s[0] && s[1..][..i - 1] == s[..i][1..];
      WithoutAt(s[1..], r, i - 1);
    }
  }

  // ---- what the primitive moves keep

  /** A connection none of whose requests changed is as fine as before. */
  lemma Untouched(k: Conn, c: ConnId, req: Reqs, off: set<ReqId>, req': Reqs, off': set<ReqId>)
    requires ConnFine(k, c, req, off)
    requires forall r :: Holds(k, r) ==> r in req' && req'[r] == req[r] && r !in off'
    ensures ConnFine(k, c, req', off')
  {
    forall r | r in k.streams ensures Holds(k, r) {}
  }

  /** The general move: connection `c` and request `r` change, everyone else keeps their place. */
  lemma MoveKeeps(conn: Conns, req: Reqs, hand: set<ReqId>, lost: set<ReqId>, busy: set<ConnId>,
                  c: ConnId, k': Conn, moved: set<ReqId>, req': Reqs, hand': set<ReqId>, lost': set<ReqId>)
    requires Consistent(conn, req, hand, lost, busy) && Live(conn, c)
    requires hand' <= req'.Keys && lost' <= req'.Keys && hand' !! lost'
    // only requests in `moved` change, and none of them belongs to another connection
    requires forall r :: r in moved ==> r in hand || Holds(conn[c], r)
    requires forall r :: r !in moved ==>
               && (r in req <==> r in req') && (r in req ==> req'[r] == req[r])
               && (r in hand <==> r in hand') && (r in lost <==> r in lost')
               && (Holds(conn[c], r) ==> k'.phase.Closing? || Holds(k', r))
    requires !k'.phase.Closing? ==> ConnFine(k', c, req', hand' + lost') && (c in busy || Quiet(k'))
    requires k'.phase.Closing? ==> forall r :: Holds(conn[c], r) ==> r in moved
    requires forall r :: r in moved && r in req' ==> r in hand' || r in lost' || Placed(conn[c := k'], req'[r], r)
    ensures Consistent(conn[c := k'], req', hand', lost', busy)
  {
    var conn' := conn[c := k'];
    assert ConnFine(conn[c], c, req, hand + lost);
    forall d | Live(conn', d) ensures ConnFine(conn'[d], d, req', hand' + lost') && (d in busy || Quiet(conn'[d])) {
      if d != c {
        assert Live(conn, d);
        forall r | Holds(conn[d], r) ensures r in req' && req'[r] == req[r] && r !in hand' + lost' {
          assert Bound(conn[d], d, req[r], r);
        }
        Untouched(conn[d], d, req, hand + lost, req', hand' + lost');
      }
    }
    forall r | r in req' ensures r in hand' || r in lost' || Placed(conn', req'[r], r) {
      if r !in moved && r !in hand' && r !in lost' {
        assert Placed(conn, req[r], r);
      }
    }
  }

  /** A request in hand is parked on a live connection's waiting list. */
  function Parked(k: Conn, r: ReqId): Conn {
    k.(waiting := k.waiting + [r])
  }

  lemma ParkKeeps(conn: Conns, req: Reqs, hand: set<ReqId>, lost: set<ReqId>, busy: set<ConnId>, c: ConnId, r: ReqId)
    requires Consistent(conn, req, hand, lost, busy)
    requires Live(conn, c) && r in hand && req[r].proto == conn[c].proto
    requires req[r].submits + req[r].retriesLeft <= MAX_RETRIES
    requires c in busy || Quiet(Parked(conn[c], r))
    ensures Consistent(conn[c := Parked(conn[c], r)], req[r := req[r].(pc := Some(c))], hand - {r}, lost, busy)
  {
    var k, k', req' := conn[c], Parked(conn[c], r), req[r := req[r].(pc := Some(c))];
    assert ConnFine(k, c, req, hand + lost);
    assert !Holds(k, r);
    assert forall p :: Holds(k', p) <==> Holds(k, p) || p == r;
    assert ConnOk(k');
    forall p | Holds(k', p) ensures p in req' && p !in (hand - {r}) + lost && Bound(k', c, req'[p], p) {
      if p != r { assert Bound(k, c, req[p], p); }
    }
    assert Routed(k', req') by {
      forall p | p in k.streams ensures Holds(k, p) {}
    }
    MoveKeeps(conn, req, hand, lost, busy, c, k', {r}, req', hand - {r}, lost);
  }

  /** A request in hand becomes a stream of a Ready connection. */
  function Started(k: Conn, r: ReqId): Conn {
    k.(idle := if k.inflight == 0 then false else k.idle,
       inflight := k.inflight + 1, idleSince := 0, active := [r] + k.active,
       streams := if k.proto.H3? && |k.streams| < H3_MAX_CONCURRENT then k.streams + [r] else k.streams)
  }

  lemma StartedFine(k: Conn, c: ConnId, req: Reqs, off: set<ReqId>, r: ReqId, q': Req, off': set<ReqId>)
    requires ConnFine(k, c, req, off) && r in off && off' == off - {r}
    requires k.phase.Ready? && (k.proto.H2? || HasCapacity(k))
    requires q'.pc == Some(c) && q'.proto == k.proto && q'.submits + q'.retriesLeft <= MAX_RETRIES + 1
    requires k.proto.H3? ==> q'.streamId < k.nextStream
    requires forall p :: p in k.streams && p in req ==> req[p].streamId != q'.streamId
    ensures ConnFine(Started(k, r), c, req[r := q'], off')
    ensures forall p :: Holds(Started(k, r), p) <==> Holds(k, p) || p == r
    ensures Quiet(k) ==> Quiet(Started(k, r))
  {
    var k', req' := Started(k, r), req[r := q'];
    assert forall p :: Holds(k', p) <==> Holds(k, p) || p == r;
    assert !Holds(k, r);
    assert ConnOk(k');
    forall p | Holds(k', p) ensures p in req' && p !in off' && Bound(k', c, req'[p], p) {
      if p != r { assert Bound(k, c, req[p], p); }
    }
  }

  lemma StartKeeps(conn: Conns, req: Reqs, hand: set<ReqId>, lost: set<ReqId>, busy: set<ConnId>,
                   c: ConnId, r: ReqId, q': Req)
    requires Consistent(conn, req, hand, lost, busy)
    requires Live(conn, c) && conn[c].phase.Ready? && r in hand && (conn[c].proto.H2? || HasCapacity(conn[c]))
    requires q'.pc == Some(c) && q'.proto == conn[c].proto && q'.submits + q'.retriesLeft <= MAX_RETRIES + 1
    requires conn[c].proto.H3? ==> q'.streamId < conn[c].nextStream
    requires forall p :: p in conn[c].streams && p in req ==> req[p].streamId != q'.streamId
    ensures Consistent(conn[c := Started(conn[c], r)], req[r := q'], hand - {r}, lost, busy)
  {
    StartedFine(conn[c], c, req, hand + lost, r, q', (hand - {r}) + lost);
    MoveKeeps(conn, req, hand, lost, busy, c, Started(conn[c], r), {r}, req[r := q'], hand - {r}, lost);
  }

  /** A stream ends: its request is in hand again. */
  function Ended(k: Conn, r: ReqId, streams: seq<ReqId>): Conn {
    k.(active := Without(k.active, r), inflight := if k.inflight > 0 then k.inflight - 1 else 0, streams := streams)
  }

  /** `streams` is the routing table of `k` with `r` taken out. */
  ghost predicate Unrouted(k: Conn, r: ReqId, streams: seq<ReqId>) {
    if k.proto.H3? then
      NoDup(streams) && |streams| == |k.streams| - 1 && (forall p :: p in streams <==> p in k.streams && p != r)
    else streams == k.streams
  }

  lemma EndedFine(k: Conn, c: ConnId, req: Reqs, off: set<ReqId>, r: ReqId, streams: seq<ReqId>)
    requires ConnFine(k, c, req, off) && r in k.active && Unrouted(k, r, streams)
    ensures ConnFine(Ended(k, r, streams), c, req, off + {r})
    ensures forall p :: Holds(Ended(k, r, streams), p) <==> Holds(k, p) && p != r
  {
    var k' := Ended(k, r, streams);
    WithoutFacts(k.active, r);
    assert Holds(k, r);
    assert forall p :: Holds(k', p) <==> Holds(k, p) && p != r;
    assert ConnOk(k');
    forall p | Holds(k', p) ensures p in req && p !in off + {r} && Bound(k', c, req[p], p) {
      assert Bound(k, c, req[p], p);
    }
  }

  lemma EndKeeps(conn: Conns, req: Reqs, hand: set<ReqId>, lost: set<ReqId>, busy: set<ConnId>,
                 c: ConnId, r: ReqId, streams: seq<ReqId>)
    requires Consistent(conn, req, hand, lost, busy)
    requires Live(conn, c) && r in conn[c].active && (c in busy || conn[c].inRecv)
    requires Unrouted(conn[c], r, streams)
    ensures Consistent(conn[c := Ended(conn[c], r, streams)], req, hand + {r}, lost, busy)
  {
    EndedFine(conn[c], c, req, hand + lost, r, streams);
    assert Holds(conn[c], r);
    assert hand + {r} + lost == hand + lost + {r};
    MoveKeeps(conn, req, hand, lost, busy, c, Ended(conn[c], r, streams), {r}, req, hand + {r}, lost);
  }

  function Items(s: seq<ReqId>): set<ReqId> {
    set r | r in s
  }

  /** Some of the waiting list is taken off: one request, or all of them. */
  lemma UnparkKeeps(conn: Conns, req: Reqs, hand: set<ReqId>, lost: set<ReqId>, busy: set<ConnId>,
                    c: ConnId, rest: seq<ReqId>, out: set<ReqId>)
    requires Consistent(conn, req, hand, lost, busy) && Live(conn, c)
    requires NoDup(rest) && out == Items(conn[c].waiting) - Items(rest) && Items(rest) <= Items(conn[c].waiting)
    ensures Consistent(conn[c := conn[c].(waiting := rest)], req, hand + out, lost, busy)
  {
    var k, k' := conn[c], conn[c].(waiting := rest);
    assert ConnFine(k, c, req, hand + lost);
    assert forall p :: p in rest ==> p in Items(rest);
    assert forall p :: Holds(k', p) <==> Holds(k, p) && p !in out;
    assert ConnOk(k');
    forall p | Holds(k', p) ensures p in req && p !in (hand + out) + lost && Bound(k', c, req[p], p) {
      assert Bound(k, c, req[p], p);
    }
    if rest != [] { assert rest[0] in Items(rest); }
    assert Quiet(k) ==> Quiet(k');
    MoveKeeps(conn, req, hand, lost, busy, c, k', out, req, hand + out, lost);
  }

  /** A connection starts closing: whoever is still on its lists comes off the books, into hand or lost. */
  lemma CloseKeeps(conn: Conns, req: Reqs, hand: set<ReqId>, lost: set<ReqId>, busy: set<ConnId>,
                   c: ConnId, k': Conn, off: set<ReqId>, toHand: bool)
    requires Consistent(conn, req, hand, lost, busy) && Live(conn, c) && k'.phase.Closing?
    requires off == Items(conn[c].active) + Items(conn[c].waiting)
    ensures Consistent(conn[c := k'], req, if toHand then hand + off else hand, if toHand then lost else lost + off, busy)
  {
    assert ConnFine(conn[c], c, req, hand + lost);
    assert forall p :: p in off <==> Holds(conn[c], p);
    MoveKeeps(conn, req, hand, lost, busy, c, k', off, req,
              if toHand then hand + off else hand, if toHand then lost else lost + off);
  }

  /** A change that leaves the lists alone. */
  lemma RetouchKeeps(conn: Conns, req: Reqs, hand: set<ReqId>, lost: set<ReqId>, busy: set<ConnId>, c: ConnId, k': Conn)
    requires Consistent(conn, req, hand, lost, busy) && Live(conn, c)
    requires !k'.phase.Closing? && k'.proto == conn[c].proto
    requires k'.waiting == conn[c].waiting && k'.active == conn[c].active && k'.streams == conn[c].streams
    requires k'.nextStream >= conn[c].nextStream
    requires ConnOk(k') && (c in busy || Quiet(k'))
    ensures Consistent(conn[c := k'], req, hand, lost, busy)
  {
    var k := conn[c];
    assert ConnFine(k, c, req, hand + lost);
    assert forall p :: Holds(k', p) <==> Holds(k, p);
    forall p | Holds(k', p) ensures p in req && p !in hand + lost && Bound(k', c, req[p], p) {
      assert Bound(k, c, req[p], p);
    }
    MoveKeeps(conn, req, hand, lost, busy, c, k', {}, req, hand, lost);
  }

  /** A connection that has gone quiet need not be excused any longer. */
  lemma SettleKeeps(conn: Conns, req: Reqs, hand: set<ReqId>, lost: set<ReqId>, busy: set<ConnId>, c: ConnId)
    requires Consistent(conn, req, hand, lost, busy) && (Live(conn, c) ==> Quiet(conn[c]))
    ensures Consistent(conn, req, hand, lost, busy - {c})
  {
  }

  /** Requests in hand may be finished with, rewritten or created. */
  lemma HandKeeps(conn: Conns, req: Reqs, hand: set<ReqId>, lost: set<ReqId>, busy: set<ConnId>,
                  req': Reqs, hand': set<ReqId>)
    requires Consistent(conn, req, hand, lost, busy)
    requires hand' <= req'.Keys && hand' !! lost
    requires forall r :: r !in hand && r !in hand' ==> (r in req <==> r in req') && (r in req ==> req'[r] == req[r])
    requires forall r :: r in hand && r in req' ==> r in hand'
    requires forall r :: r in hand' ==> r in hand || r !in req
    ensures Consistent(conn, req', hand', lost, busy)
  {
    forall c | Live(conn, c) ensures ConnFine(conn[c], c, req', hand' + lost) {
      Untouched(conn[c], c, req, hand + lost, req', hand' + lost);
    }
    forall r | r in req' ensures r in hand' || r in lost || Placed(conn, req'[r], r) {
      assert r in req ==> r in hand || r in lost || Placed(conn, req[r], r);
    }
  }

  lemma NewConnKeeps(conn: Conns, req: Reqs, hand: set<ReqId>, lost: set<ReqId>, busy: set<ConnId>, c: ConnId, k: Conn)
    requires Consistent(conn, req, hand, lost, busy) && c !in conn
    requires k.waiting == [] && k.active == [] && k.streams == [] && (k.phase.Closing? || (ConnOk(k) && Quiet(k)))
    ensures Consistent(conn[c := k], req, hand, lost, busy)
  {
    var conn' := conn[c := k];
    forall d | Live(conn', d) ensures ConnFine(conn'[d], d, req, hand + lost) && (d in busy || Quiet(conn'[d])) {
      if d != c { assert Live(conn, d); }
    }
    forall r | r in req ensures r in hand || r in lost || Placed(conn', req[r], r) {
      assert r in hand || r in lost || Placed(conn, req[r], r);
    }
  }

  lemma RemoveConnKeeps(conn: Conns, req: Reqs, hand: set<ReqId>, lost: set<ReqId>, busy: set<ConnId>, c: ConnId)
    requires Consistent(conn, req, hand, lost, busy) && c in conn && conn[c].phase.Closing?
    ensures Consistent(conn - {c}, req, hand, lost, busy)
  {
    var conn' := conn - {c};
    forall d | Live(conn', d) ensures ConnFine(conn'[d], d, req, hand + lost) && (d in busy || Quiet(conn'[d])) {
      assert Live(conn, d);
    }
    forall r | r in req ensures r in hand || r in lost || Placed(conn', req[r], r) {
      assert r in hand || r in lost || Placed(conn, req[r], r);
    }
  }

  /** A request put on a connection that is already closing is lost. */
  lemma LoseKeeps(conn: Conns, req: Reqs, hand: set<ReqId>, lost: set<ReqId>, busy: set<ConnId>, c: ConnId, r: ReqId, q': Req)
    requires Consistent(conn, req, hand, lost, busy) && c in conn && conn[c].phase.Closing? && r in hand
    ensures Consistent(conn[c := Parked(conn[c], r)], req[r := q'], hand - {r}, lost + {r}, busy)
  {
    var conn', req' := conn[c := Parked(conn[c], r)], req[r := q'];
    assert hand - {r} + (lost + {r}) == hand + lost;
    forall d | Live(conn', d) ensures ConnFine(conn'[d], d, req', hand + lost) && (d in busy || Quiet(conn'[d])) {
      assert Live(conn, d);
      Untouched(conn[d], d, req, hand + lost, req', hand + lost);
    }
    forall p | p in req' ensures p in hand - {r} || p in lost + {r} || Placed(conn', req'[p], p) {
      assert p != r ==> p in hand || p in lost || Placed(conn, req[p], p);
    }
  }

  /** A lost request leaves the books. */
  lemma LostFreedKeeps(conn: Conns, req: Reqs, hand: set<ReqId>, lost: set<ReqId>, busy: set<ConnId>, r: ReqId)
    requires Consistent(conn, req, hand, lost, busy) && r in lost
    ensures Consistent(conn, req - {r}, hand, lost - {r}, busy)
  {
    var req' := req - {r};
    forall c | Live(conn, c) ensures ConnFine(conn[c], c, req', hand + (lost - {r})) {
      Untouched(conn[c], c, req, hand + lost, req', hand + (lost - {r}));
    }
    forall p | p in req' ensures p in hand || p in lost - {r} || Placed(conn, req'[p], p) {
      assert p in hand || p in lost || Placed(conn, req[p], p);
    }
  }

  // ---- the ledger: every request ever accepted is live, delivered once, or handed on once

  ghost predicate Ledger(delivered: seq<ReqId>, legacy: seq<ReqId>, req: Reqs, answered: set<ReqId>, next: nat) {
    && NoDup(delivered) && NoDup(legacy)
    && (forall r: ReqId :: r < next <==> r in req || r in delivered || r in legacy)
    && (forall r: ReqId :: r in legacy ==> r !in delivered && r !in req)
    && (forall r: ReqId :: r in req && r in delivered <==> r in answered)
    && (forall r: ReqId :: r in req ==> (req[r].responded <==> r in answered))
  }

  // ---- the roster: conns[] against the records

  ghost predicate Roster(conns: seq<ConnId>, conn: Conns, next: nat) {
    && NoDup(conns) && |conns| <= MAX_CONNS
    && (forall c :: c in conns <==> c in conn)
    && (forall c :: c in conn ==> c < next)
  }

  /** conns[i] = conns[--count]. */
  function SwapOut(s: seq<ConnId>, i: nat): seq<ConnId>
    requires i < |s|
  {
    s[i := s[|s| - 1]][..|s| - 1]
  }

  lemma SwapOutFacts(s: seq<ConnId>, i: nat)
    requires i < |s| && NoDup(s)
    ensures NoDup(SwapOut(s, i)) && |SwapOut(s, i)| == |s| - 1
    ensures forall c :: c in SwapOut(s, i) <==> c in s && c != s[i]
  {
    var t, n := SwapOut(s, i), |s| - 1;
    forall c | c in s && c != s[i] ensures c in t {
      var j :| 0 <= j < |s| && s[j] == c;
      assert if j == n then t[i] == c else t[j] == c;
    }
    forall c | c in t ensures c in s && c != s[i] {
      var j :| 0 <= j < |t| && t[j] == c;
      assert c == if j == i then s[n] else s[j];
    }
  }

  // ---- the cap per (origin, protocol)

  ghost function Usables(conn: Conns, p: Proto, o: string): set<ConnId> {
    set c | c in conn && UsableFor(conn[c], p, o)
  }

  /** An origin and the protocol it is asked for. */
  type Target = (Proto, string)

  /** The 255 bytes a connection keeps of each longer origin in a dispatch. */
  function Cuts(cut: set<Target>, p: Proto, o: string): set<Target> {
    if |o| > ORIGIN_MAX then cut + {(p, o[..ORIGIN_MAX])} else cut
  }

  /** The cap holds for every origin but those that are the cut of a longer one. */
  ghost predicate Capped(conn: Conns, max: nat, cut: set<Target>) {
    forall p, o :: (p, o) !in cut ==> |Usables(conn, p, o)| <= max
  }

  /** `cut` covers every long origin on the books, and nothing shorter than a cut. */
  ghost predicate CutCovers(req: Reqs, cut: set<Target>) {
    && (forall r :: r in req && |req[r].origin| > ORIGIN_MAX ==> (req[r].proto, req[r].origin[..ORIGIN_MAX]) in cut)
    && (forall t :: t in cut ==> |t.1| == ORIGIN_MAX)
  }

  lemma {:induction false} SubsetSize(a: set<ConnId>, b: set<ConnId>)
    requires a <= b
    ensures |a| <= |b|
  {
    if a != {} {
      var x :| x in a;
      SubsetSize(a - {x}, b - {x});
    }
  }

  /** Connections that only lose usability cannot break the cap. */
  lemma CapShrinks(conn: Conns, conn': Conns, max: nat, cut: set<Target>)
    requires Capped(conn, max, cut)
    requires forall c :: c in conn' && Usable(conn'[c]) ==>
               c in conn && Usable(conn[c]) && conn[c].proto == conn'[c].proto && conn[c].origin == conn'[c].origin
    ensures Capped(conn', max, cut)
  {
    forall p, o | (p, o) !in cut ensures |Usables(conn', p, o)| <= max {
      SubsetSize(Usables(conn', p, o), Usables(conn, p, o));
    }
  }

  lemma CapOpens(conn: Conns, c: ConnId, k: Conn, max: nat, cut: set<Target>)
    requires Capped(conn, max, cut) && c !in conn
    requires (k.proto, k.origin) in cut || |Usables(conn, k.proto, k.origin)| < max
    ensures Capped(conn[c := k], max, cut)
  {
    var conn' := conn[c := k];
    forall p, o | (p, o) !in cut ensures |Usables(conn', p, o)| <= max {
      if p == k.proto && o == k.origin {
        SubsetSize(Usables(conn', p, o), Usables(conn, p, o) + {c});
      } else {
        SubsetSize(Usables(conn', p, o), Usables(conn, p, o));
      }
    }
  }
}
