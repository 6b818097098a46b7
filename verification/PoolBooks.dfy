/**
 The pool invariant as one predicate of the pool's books, and what each move on
 the books does to it.
 */
module PoolBooks {
  import opened Options
  import opened PoolState

  datatype Books = Books(
    conns: seq<ConnId>, conn: Conns, req: Reqs, lost: set<ReqId>, closed: seq<Conn>,
    delivered: seq<ReqId>, legacy: seq<ReqId>, nextReq: nat, nextConn: nat, cut: set<Target>)

  /** Work in progress: requests being moved, connections mid-event, requests answered but not yet freed. */
  datatype Work = Work(hand: set<ReqId>, busy: set<ConnId>, answered: set<ReqId>)

  const Rest := Work({}, {}, {})

  // ---- who is left behind, and by what

  function OnLists(k: Conn): set<ReqId> {
    Items(k.active) + Items(k.waiting)
  }

  /** Connecting failed before the call returned; the request it was opened for was queued all the same. */
  predicate FailedOpen(k: Conn) {
    k.phase.Closing? && k.broken && k.active == [] && |k.waiting| == 1
  }

  /** Closed out of its handshake with a queue: requests that came while its queue went to the legacy path. */
  predicate OverrunHandOver(k: Conn) {
    k.phase.Handshaking? && k.proto.H2? && k.active == [] && k.waiting != []
  }

  /** Closed when idle with a queue: the H2 peer allows no stream at all. */
  predicate BlockedAtSweep(k: Conn) {
    k.phase.Ready? && k.proto.H2? && k.maxStreams == 0 && k.active == [] && k.waiting != []
  }

  predicate Fatal(k: Conn) {
    FailedOpen(k) || OverrunHandOver(k) || BlockedAtSweep(k)
  }

  /** Some connection began to close with `r` on its lists; `closed` has the records as they were then. */
  ghost predicate Fallen(closed: seq<Conn>, r: ReqId) {
    exists i :: 0 <= i < |closed| && r in OnLists(closed[i])
  }

  /** The lost are exactly the fallen still on the books, and only a fatal closing has anybody fall. */
  ghost predicate Accounted(lost: set<ReqId>, closed: seq<Conn>, req: set<ReqId>, legacy: seq<ReqId>, next: nat) {
    && (forall r: ReqId :: r in lost <==> r in req && Fallen(closed, r))
    && (forall r: ReqId :: Fallen(closed, r) ==> r < next && r !in legacy)
    && (forall i :: 0 <= i < |closed| ==> OnLists(closed[i]) == {} || Fatal(closed[i]))
  }

  lemma FallenSnoc(closed: seq<Conn>, k: Conn, r: ReqId)
    ensures Fallen(closed + [k], r) <==> Fallen(closed, r) || r in OnLists(k)
  {
    var closed' := closed + [k];
    if Fallen(closed, r) {
      var i :| 0 <= i < |closed| && r in OnLists(closed[i]);
      assert closed'[i] == closed[i];
    }
    assert closed'[|closed|] == k;
  }

  /** One more closing: whoever was on the lists is lost. */
  lemma ClosingAccounted(lost: set<ReqId>, closed: seq<Conn>, k: Conn, req: set<ReqId>, legacy: seq<ReqId>, next: nat)
    requires Accounted(lost, closed, req, legacy, next)
    requires OnLists(k) <= req && (OnLists(k) == {} || Fatal(k))
    requires forall r :: r in OnLists(k) ==> r < next && r !in legacy
    ensures Accounted(lost + OnLists(k), closed + [k], req, legacy, next)
  {
    forall r: ReqId ensures Fallen(closed + [k], r) <==> Fallen(closed, r) || r in OnLists(k) {
      FallenSnoc(closed, k, r);
    }
  }

  /**
   What every event handler keeps. The cap per (origin, protocol) holds for every
   origin, short of those that are the first 255 bytes of a longer one in a dispatch.
   */
  ghost predicate Balanced(b: Books, max: nat, w: Work) {
    && max >= 1
    && Consistent(b.conn, b.req, w.hand, b.lost, w.busy)
    && Ledger(b.delivered, b.legacy, b.req, w.answered, b.nextReq)
    && Accounted(b.lost, b.closed, b.req.Keys, b.legacy, b.nextReq)
    && Roster(b.conns, b.conn, b.nextConn)
    && Capped(b.conn, max, b.cut) && CutCovers(b.req, b.cut)
  }

  /** `Balanced`, kept `max` calls deep so that the handlers reason about it only through the lemmas below. */
  ghost predicate Inv(b: Books, max: nat, w: Work) {
    InvFrom(b, max, w, max)
  }

  ghost predicate InvFrom(b: Books, max: nat, w: Work, depth: nat)
    decreases depth
  {
    if depth == 0 then Balanced(b, max, w) else InvFrom(b, max, w, depth - 1)
  }

  lemma {:induction false} InvUnfolds(b: Books, max: nat, w: Work, depth: nat)
    ensures InvFrom(b, max, w, depth) <==> Balanced(b, max, w)
    decreases depth
  {
    if depth > 0 { InvUnfolds(b, max, w, depth - 1); }
  }

  lemma InvMeans(b: Books, max: nat, w: Work)
    ensures Inv(b, max, w) <==> Balanced(b, max, w)
  {
    InvUnfolds(b, max, w, max);
  }

  lemma EmptyInv(b: Books, max: nat)
    requires b == Books([], map[], map[], {}, [], [], [], 0, 0, {}) && max >= 1
    ensures Inv(b, max, Rest)
  {
    forall p, o ensures |Usables(b.conn, p, o)| <= max {
      assert Usables(b.conn, p, o) == {};
    }
    InvMeans(b, max, Rest);
  }

  // ---- what a step leaves alone

  predicate SameRole(k: Conn, k': Conn) {
    && k'.proto == k.proto && k'.origin == k.origin && k'.phase == k.phase && k'.broken == k.broken
    && k'.inRecv == k.inRecv && k'.goaway == k.goaway && k'.maxStreams == k.maxStreams
  }

  /** Roles stay, unusable connections stay untouched, nobody is lost; new connections start out generous. */
  ghost predicate Calm(b: Books, b': Books, mayLose: bool) {
    && (forall c :: c in b.conn ==> c in b'.conn && SameRole(b.conn[c], b'.conn[c]))
    && (forall c :: c in b.conn && !Usable(b.conn[c]) ==> c in b'.conn && b'.conn[c] == b.conn[c])
    && (forall c :: c in b'.conn && c !in b.conn ==> b'.conn[c].maxStreams >= 1 && !b'.conn[c].inRecv)
    && b.lost <= b'.lost && (!mayLose ==> b'.lost == b.lost) && b.closed <= b'.closed
    && b.nextReq <= b'.nextReq && b.delivered <= b'.delivered && b.legacy <= b'.legacy
  }

  /** Nobody is queued on a connection that can serve them: what still has capacity has its old queue. */
  ghost predicate Unpushed(b: Books, b': Books) {
    forall c :: c in b.conn && c in b'.conn && !b.conn[c].inRecv && HasCapacity(b'.conn[c]) ==>
      HasCapacity(b.conn[c]) && b'.conn[c].waiting == b.conn[c].waiting
  }

  /** Queues grow at the end only. */
  ghost predicate Queueing(b: Books, b': Books) {
    forall c :: c in b.conn && c in b'.conn ==> b.conn[c].waiting <= b'.conn[c].waiting
  }

  /** What placing a request does to everybody else. */
  ghost predicate Steady(b: Books, b': Books, keep: set<ReqId>, mayLose: bool) {
    && Calm(b, b', mayLose) && Unpushed(b, b') && Queueing(b, b')
    && (forall q :: q in keep ==> q in b.req && q in b'.req && b'.req[q] == b.req[q] && (q in b'.lost ==> q in b.lost))
  }

  lemma CalmTrans(b: Books, b': Books, b'': Books, mayLose: bool)
    requires Calm(b, b', mayLose) && Calm(b', b'', mayLose)
    ensures Calm(b, b'', mayLose)
  {
    forall c | c in b.conn && !Usable(b.conn[c]) ensures c in b''.conn && b''.conn[c] == b.conn[c] {
      assert !Usable(b'.conn[c]);
    }
  }

  lemma SteadyTrans(b: Books, b': Books, b'': Books, keep: set<ReqId>, keep': set<ReqId>, mayLose: bool)
    requires Steady(b, b', keep, mayLose) && Steady(b', b'', keep', mayLose) && keep <= keep'
    ensures Steady(b, b'', keep, mayLose)
  {
    CalmTrans(b, b', b'', mayLose);
  }

  /** Everything but connection `c` keeps its role. */
  ghost predicate CalmBut(b: Books, b': Books, c: ConnId, mayLose: bool) {
    && (forall d :: d in b.conn && d != c ==> d in b'.conn && SameRole(b.conn[d], b'.conn[d]))
    && (forall d :: d in b'.conn && d !in b.conn ==> b'.conn[d].maxStreams >= 1 && !b'.conn[d].inRecv)
    && c in b.conn && c in b'.conn && b'.conn[c].maxStreams == b.conn[c].maxStreams
    && b.lost <= b'.lost && (!mayLose ==> b'.lost == b.lost) && b.closed <= b'.closed
    && b.delivered <= b'.delivered && b.legacy <= b'.legacy
  }

  lemma CalmButAfter(b: Books, mid: Books, b': Books, c: ConnId, mayLose: bool)
    requires c in b.conn && c in mid.conn && mid.conn == b.conn[c := mid.conn[c]] && mid.lost == b.lost
    requires b.delivered <= mid.delivered && b.legacy <= mid.legacy && b.closed <= mid.closed
    requires mid.conn[c].maxStreams == b.conn[c].maxStreams && Calm(mid, b', mayLose)
    ensures CalmBut(b, b', c, mayLose)
  {
  }

  lemma CalmButTrans(b: Books, b': Books, b'': Books, c: ConnId, mayLose: bool)
    requires CalmBut(b, b', c, mayLose) && CalmBut(b', b'', c, mayLose)
    ensures CalmBut(b, b'', c, mayLose)
  {
  }

  lemma SteadyRefl(b: Books, keep: set<ReqId>, mayLose: bool)
    requires keep <= b.req.Keys
    ensures Steady(b, b, keep, mayLose)
  {
  }

  /** A change to one usable connection and one request that keeps the role and queues nobody past capacity. */
  lemma LocalSteady(b: Books, b': Books, c: ConnId, r: ReqId)
    requires c in b.conn && Usable(b.conn[c]) && r in b.req && c in b'.conn && r in b'.req
    requires b' == b.(conn := b.conn[c := b'.conn[c]], req := b.req[r := b'.req[r]])
    requires SameRole(b.conn[c], b'.conn[c]) && b.conn[c].inflight <= b'.conn[c].inflight
    requires b'.conn[c].waiting == b.conn[c].waiting || b.conn[c].inRecv || !HasCapacity(b.conn[c])
    requires b.conn[c].waiting <= b'.conn[c].waiting
    ensures Steady(b, b', b.req.Keys - {r}, false)
  {
  }

  lemma RewriteSteady(b: Books, b': Books, r: ReqId, q': Req, mayLose: bool)
    requires r in b.req && b' == b.(req := b.req[r := q'])
    ensures Steady(b, b', b.req.Keys - {r}, mayLose)
  {
  }

  // ---- general moves

  /** The same requests, with the fields the ledger looks at unchanged. */
  predicate SameClaims(req: Reqs, req': Reqs) {
    && req.Keys == req'.Keys
    && forall r :: r in req ==>
         req'[r].responded == req[r].responded && req'[r].origin == req[r].origin && req'[r].proto == req[r].proto
  }

  /** The same connections, none of them newly usable. */
  predicate NoNewUse(conn: Conns, conn': Conns) {
    && conn.Keys == conn'.Keys
    && forall c :: c in conn ==>
         conn'[c].proto == conn[c].proto && conn'[c].origin == conn[c].origin && (Usable(conn'[c]) ==> Usable(conn[c]))
  }

  /** Moving requests between lists and changing connection state touches only `Consistent`. */
  lemma MovedInv(b: Books, b': Books, max: nat, w: Work, w': Work)
    requires Inv(b, max, w) && w'.answered == w.answered
    requires b' == b.(conn := b'.conn, req := b'.req, lost := b'.lost, closed := b'.closed)
    requires (b'.lost == b.lost && b'.closed == b.closed)
             || Accounted(b'.lost, b'.closed, b'.req.Keys, b'.legacy, b'.nextReq)
    requires SameClaims(b.req, b'.req) && NoNewUse(b.conn, b'.conn)
    requires Consistent(b'.conn, b'.req, w'.hand, b'.lost, w'.busy)
    ensures Inv(b', max, w')
  {
    InvMeans(b, max, w);
    ClaimsKept(b, b', w);
    CapShrinks(b.conn, b'.conn, max, b.cut);
    InvMeans(b', max, w');
  }

  lemma ClaimsKept(b: Books, b': Books, w: Work)
    requires SameClaims(b.req, b'.req) && Ledger(b.delivered, b.legacy, b.req, w.answered, b.nextReq)
    requires CutCovers(b.req, b.cut) && b' == b.(conn := b'.conn, req := b'.req, lost := b'.lost, closed := b'.closed)
    ensures Ledger(b'.delivered, b'.legacy, b'.req, w.answered, b'.nextReq) && CutCovers(b'.req, b'.cut)
  {
  }

  // ---- the moves of the source

  /** pool_waiting_push: on a live connection the request is parked, on a closing one it is lost. */
  function ParkedOn(b: Books, c: ConnId, r: ReqId): Books
    requires c in b.conn && r in b.req
  {
    b.(conn := b.conn[c := Parked(b.conn[c], r)], req := b.req[r := b.req[r].(pc := Some(c))],
       lost := if Live(b.conn, c) then b.lost else b.lost + {r},
       closed := if Live(b.conn, c) then b.closed else b.closed + [Parked(b.conn[c], r)])
  }

  lemma ParkedQuiet(k: Conn, r: ReqId)
    requires Quiet(k) && Usable(k) && (HasCapacity(k) ==> k.inRecv)
    ensures Quiet(Parked(k, r))
  {
  }

  lemma ParkedInv(b: Books, max: nat, w: Work, c: ConnId, r: ReqId)
    requires Inv(b, max, w) && r in w.hand && r in b.req && c in b.conn && Usable(b.conn[c])
    requires b.req[r].proto == b.conn[c].proto && b.req[r].submits + b.req[r].retriesLeft <= MAX_RETRIES
    requires HasCapacity(b.conn[c]) ==> b.conn[c].inRecv
    ensures Inv(ParkedOn(b, c, r), max, w.(hand := w.hand - {r}))
  {
    InvMeans(b, max, w);
    if c !in w.busy { ParkedQuiet(b.conn[c], r); }
    ParkKeeps(b.conn, b.req, w.hand, b.lost, w.busy, c, r);
    ParkedIsMove(b, c, r);
    MovedInv(b, ParkedOn(b, c, r), max, w, w.(hand := w.hand - {r}));
  }

  lemma LostInv(b: Books, max: nat, w: Work, c: ConnId, r: ReqId)
    requires Inv(b, max, w) && r in w.hand && r in b.req && r !in w.answered && c in b.conn && b.conn[c].phase.Closing?
    requires b.conn[c].broken && b.conn[c].waiting == [] && b.conn[c].active == []
    ensures Inv(ParkedOn(b, c, r), max, w.(hand := w.hand - {r}))
  {
    InvMeans(b, max, w);
    var k := Parked(b.conn[c], r);
    assert OnLists(k) == {r};
    ClosingAccounted(b.lost, b.closed, k, b.req.Keys, b.legacy, b.nextReq);
    LoseKeeps(b.conn, b.req, w.hand, b.lost, w.busy, c, r, b.req[r].(pc := Some(c)));
    ParkedIsMove(b, c, r);
    MovedInv(b, ParkedOn(b, c, r), max, w, w.(hand := w.hand - {r}));
  }

  lemma ParkedIsMove(b: Books, c: ConnId, r: ReqId)
    requires c in b.conn && r in b.req
    ensures SameClaims(b.req, ParkedOn(b, c, r).req) && NoNewUse(b.conn, ParkedOn(b, c, r).conn)
  {
  }

  /** A request in hand is delivered, or handed to the per-request path, and freed. */
  function Finished(b: Books, r: ReqId, toCaller: bool): Books {
    if toCaller then b.(delivered := b.delivered + [r], req := b.req - {r})
    else b.(legacy := b.legacy + [r], req := b.req - {r})
  }

  lemma FinishedInv(b: Books, max: nat, w: Work, r: ReqId, toCaller: bool)
    requires Inv(b, max, w) && r in w.hand && r !in w.answered
    ensures Inv(Finished(b, r, toCaller), max, w.(hand := w.hand - {r}))
  {
    var b', w' := Finished(b, r, toCaller), w.(hand := w.hand - {r});
    InvMeans(b, max, w);
    HandKeeps(b.conn, b.req, w.hand, b.lost, w.busy, b.req - {r}, w'.hand);
    LedgerFinishes(b, w, r, toCaller);
    assert Accounted(b'.lost, b'.closed, b'.req.Keys, b'.legacy, b'.nextReq);
    InvMeans(b', max, w');
  }

  lemma LedgerFinishes(b: Books, w: Work, r: ReqId, toCaller: bool)
    requires Ledger(b.delivered, b.legacy, b.req, w.answered, b.nextReq) && r in b.req && r !in w.answered
    ensures var b' := Finished(b, r, toCaller); Ledger(b'.delivered, b'.legacy, b'.req, w.answered, b'.nextReq)
  {
  }

  /** Fields of a request in hand that neither the ledger nor the cap looks at may change. */
  lemma RewrittenInv(b: Books, max: nat, w: Work, r: ReqId, q': Req)
    requires Inv(b, max, w) && r in w.hand && r in b.req
    requires q'.responded == b.req[r].responded && q'.origin == b.req[r].origin && q'.proto == b.req[r].proto
    ensures Inv(b.(req := b.req[r := q']), max, w)
  {
    InvMeans(b, max, w);
    HandKeeps(b.conn, b.req, w.hand, b.lost, w.busy, b.req[r := q'], w.hand);
    MovedInv(b, b.(req := b.req[r := q']), max, w, w);
  }

  /** A fresh stream id is below nextStream and above every id in use. */
  predicate FreshId(b: Books, c: ConnId, sid: nat)
    requires c in b.conn
  {
    && sid < b.conn[c].nextStream
    && forall p :: p in b.conn[c].streams && p in b.req ==> b.req[p].streamId != sid
  }

  lemma StartedInv(b: Books, max: nat, w: Work, c: ConnId, r: ReqId)
    requires Inv(b, max, w) && r in w.hand && r in b.req && c in b.conn
    requires b.conn[c].phase.Ready? && (b.conn[c].proto.H2? || HasCapacity(b.conn[c]))
    requires b.req[r].pc == Some(c) && b.req[r].proto == b.conn[c].proto
    requires b.req[r].submits + b.req[r].retriesLeft <= MAX_RETRIES + 1
    requires b.conn[c].proto.H3? ==> FreshId(b, c, b.req[r].streamId)
    ensures Inv(b.(conn := b.conn[c := Started(b.conn[c], r)]), max, w.(hand := w.hand - {r}))
  {
    InvMeans(b, max, w);
    assert ConnFine(b.conn[c], c, b.req, w.hand + b.lost);
    StartKeeps(b.conn, b.req, w.hand, b.lost, w.busy, c, r, b.req[r]);
    assert b.req[r := b.req[r]] == b.req;
    MovedInv(b, b.(conn := b.conn[c := Started(b.conn[c], r)]), max, w, w.(hand := w.hand - {r}));
  }

  /** Opening a stream hands out the next id of the connection. */
  lemma StreamOpenedInv(b: Books, max: nat, w: Work, c: ConnId, r: ReqId, b': Books)
    requires Inv(b, max, w) && r in w.hand && r in b.req && Live(b.conn, c)
    requires b' == b.(conn := b.conn[c := b.conn[c].(nextStream := b.conn[c].nextStream + 4)],
                      req := b.req[r := b.req[r].(streamId := b.conn[c].nextStream)])
    ensures Inv(b', max, w) && FreshId(b', c, b'.req[r].streamId)
  {
    var sid := b.conn[c].nextStream;
    var mid := b.(req := b.req[r := b.req[r].(streamId := sid)]);
    InvMeans(b, max, w);
    assert ConnFine(b.conn[c], c, b.req, w.hand + b.lost);
    forall p | p in b.conn[c].streams ensures p in b.req && p != r && b.req[p].streamId < sid {
      assert Holds(b.conn[c], p);
    }
    RewrittenInv(b, max, w, r, mid.req[r]);
    InvMeans(mid, max, w);
    RetouchedInv(mid, max, w, c, b'.conn[c]);
  }

  lemma RetouchedInv(b: Books, max: nat, w: Work, c: ConnId, k': Conn)
    requires Inv(b, max, w) && Live(b.conn, c)
    requires !k'.phase.Closing? && k'.proto == b.conn[c].proto && k'.origin == b.conn[c].origin
    requires k'.waiting == b.conn[c].waiting && k'.active == b.conn[c].active && k'.streams == b.conn[c].streams
    requires k'.nextStream >= b.conn[c].nextStream && (Usable(k') ==> Usable(b.conn[c]))
    requires ConnOk(b.conn[c]) ==> ConnOk(k')
    requires c in w.busy || (Quiet(b.conn[c]) ==> Quiet(k'))
    ensures Inv(b.(conn := b.conn[c := k']), max, w)
  {
    InvMeans(b, max, w);
    assert ConnFine(b.conn[c], c, b.req, w.hand + b.lost);
    RetouchKeeps(b.conn, b.req, w.hand, b.lost, w.busy, c, k');
    MovedInv(b, b.(conn := b.conn[c := k']), max, w, w);
  }

  /** A fresh connection, counted against the cap unless its origin did not fit. */
  function OpenedConn(b: Books, k: Conn): Books {
    b.(conns := b.conns + [b.nextConn], conn := b.conn[b.nextConn := k], nextConn := b.nextConn + 1)
  }

  lemma OpenedInv(b: Books, max: nat, w: Work, k: Conn)
    requires Inv(b, max, w) && |b.conns| < MAX_CONNS
    requires k.waiting == [] && k.active == [] && k.streams == [] && (k.phase.Closing? || (ConnOk(k) && Quiet(k)))
    requires (k.proto, k.origin) in b.cut || |Usables(b.conn, k.proto, k.origin)| < max
    ensures Inv(OpenedConn(b, k), max, w)
    ensures b.nextConn !in b.conn
  {
    InvMeans(b, max, w);
    InvMeans(OpenedConn(b, k), max, w);
    NewConnKeeps(b.conn, b.req, w.hand, b.lost, w.busy, b.nextConn, k);
    CapOpens(b.conn, b.nextConn, k, max, b.cut);
  }

  /** Opening a connection for a request and queueing it there touches nobody else. */
  lemma OpenedSteady(b: Books, k: Conn, r: ReqId, mayLose: bool)
    requires r in b.req && b.nextConn !in b.conn && k.maxStreams >= 1 && !k.inRecv && (k.phase.Closing? ==> mayLose)
    ensures Steady(b, ParkedOn(OpenedConn(b, k), b.nextConn, r), b.req.Keys - {r}, mayLose)
  {
  }

  /** A new request is accepted, into hand. */
  function Accepted(b: Books, q: Req): Books {
    b.(req := b.req[b.nextReq := q], nextReq := b.nextReq + 1, cut := Cuts(b.cut, q.proto, q.origin))
  }

  lemma AcceptedInv(b: Books, max: nat, w: Work, q: Req)
    requires Inv(b, max, w) && !q.responded
    ensures Inv(Accepted(b, q), max, w.(hand := w.hand + {b.nextReq}))
    ensures b.nextReq !in b.req && b.nextReq !in w.hand && b.nextReq !in w.answered
  {
    var b', w' := Accepted(b, q), w.(hand := w.hand + {b.nextReq});
    InvMeans(b, max, w);
    assert b.nextReq !in b.req && b.nextReq !in b.delivered && b.nextReq !in b.legacy;
    HandKeeps(b.conn, b.req, w.hand, b.lost, w.busy, b.req[b.nextReq := q], w'.hand);
    assert Ledger(b'.delivered, b'.legacy, b'.req, w.answered, b'.nextReq);
    assert Accounted(b'.lost, b'.closed, b'.req.Keys, b'.legacy, b'.nextReq);
    InvMeans(b', max, w');
  }

  lemma HeadOff(s: seq<ReqId>)
    requires NoDup(s) && s != []
    ensures NoDup(s[1..]) && Items(s[1..]) <= Items(s) && Items(s) - Items(s[1..]) == {s[0]}
  {
    assert s == [s[0]] + s[1..];
  }

  /** The head of the waiting list comes into hand; it is a request of this connection, within budget. */
  lemma PoppedInv(b: Books, max: nat, w: Work, c: ConnId, b': Books)
    requires Inv(b, max, w) && Live(b.conn, c) && b.conn[c].waiting != []
    requires b' == b.(conn := b.conn[c := b.conn[c].(waiting := b.conn[c].waiting[1..])])
    ensures var r := b.conn[c].waiting[0];
      && Inv(b', max, w.(hand := w.hand + {r}))
      && r in b.req && r !in w.hand && b.req[r].proto == b.conn[c].proto
      && b.req[r].submits + b.req[r].retriesLeft <= MAX_RETRIES
  {
    var k, r := b.conn[c], b.conn[c].waiting[0];
    InvMeans(b, max, w);
    assert ConnFine(k, c, b.req, w.hand + b.lost) && Holds(k, r);
    HeadOff(k.waiting);
    UnparkKeeps(b.conn, b.req, w.hand, b.lost, w.busy, c, k.waiting[1..], {r});
    MovedInv(b, b', max, w, w.(hand := w.hand + {r}));
  }

  /** Requests about to be placed again: distinct, on the books, each within its budget. */
  ghost predicate Placeable(b: Books, todo: seq<ReqId>, budget: nat) {
    && NoDup(todo)
    && forall r :: r in todo ==> r in b.req && b.req[r].submits + b.req[r].retriesLeft <= budget
  }

  /** The whole waiting list comes into hand. */
  lemma UnparkedInv(b: Books, max: nat, w: Work, c: ConnId, b': Books)
    requires Inv(b, max, w) && Live(b.conn, c) && b' == b.(conn := b.conn[c := b.conn[c].(waiting := [])])
    ensures Inv(b', max, w.(hand := w.hand + Items(b.conn[c].waiting)))
    ensures Items(b.conn[c].waiting) !! w.hand && Placeable(b, b.conn[c].waiting, MAX_RETRIES)
  {
    var k := b.conn[c];
    InvMeans(b, max, w);
    assert ConnFine(k, c, b.req, w.hand + b.lost);
    forall r | r in k.waiting ensures Holds(k, r) && Bound(k, c, b.req[r], r) && r !in k.active {}
    UnparkKeeps(b.conn, b.req, w.hand, b.lost, w.busy, c, [], Items(k.waiting));
    MovedInv(b, b', max, w, w.(hand := w.hand + Items(k.waiting)));
  }

  /** pool_close_conn: whoever is still on the lists is lost. */
  function ClosedBooks(b: Books, c: ConnId): Books
    requires c in b.conn
  {
    b.(conn := b.conn[c := b.conn[c].(phase := Closing)], lost := b.lost + OnLists(b.conn[c]),
       closed := b.closed + [b.conn[c]])
  }

  /** Closed and marked broken, with nobody on its lists unless somebody may be lost. */
  lemma DroppedCalm(b: Books, b': Books, c: ConnId, mayLose: bool)
    requires c in b.conn && (OnLists(b.conn[c]) == {} || mayLose)
    requires b' == ClosedBooks(b, c).(conn := b.conn[c := b.conn[c].(phase := Closing, broken := true)])
    ensures CalmBut(b, b', c, mayLose)
  {
  }

  lemma ListsOnBooks(b: Books, w: Work, c: ConnId)
    requires Consistent(b.conn, b.req, w.hand, b.lost, w.busy) && Live(b.conn, c)
    requires Ledger(b.delivered, b.legacy, b.req, w.answered, b.nextReq)
    ensures OnLists(b.conn[c]) <= b.req.Keys
    ensures forall r :: r in OnLists(b.conn[c]) ==> r < b.nextReq && r !in b.legacy
  {
    forall r | r in OnLists(b.conn[c]) ensures r in b.req {
      assert Holds(b.conn[c], r) && ConnFine(b.conn[c], c, b.req, w.hand + b.lost);
    }
  }

  lemma ClosedInv(b: Books, max: nat, w: Work, c: ConnId)
    requires Inv(b, max, w) && Live(b.conn, c) && (OnLists(b.conn[c]) == {} || Fatal(b.conn[c]))
    ensures Inv(ClosedBooks(b, c), max, w)
  {
    InvMeans(b, max, w);
    ListsOnBooks(b, w, c);
    ClosingAccounted(b.lost, b.closed, b.conn[c], b.req.Keys, b.legacy, b.nextReq);
    CloseKeeps(b.conn, b.req, w.hand, b.lost, w.busy, c, b.conn[c].(phase := Closing), OnLists(b.conn[c]), false);
    MovedInv(b, ClosedBooks(b, c), max, w, w);
  }

  /** pool_conn_fail_all empties the lists before it closes: everyone comes into hand. */
  function Emptied(k: Conn): Conn {
    k.(broken := true, inflight := 0, active := [], waiting := [], phase := Closing)
  }

  function EmptiedBooks(b: Books, c: ConnId): Books
    requires c in b.conn
  {
    b.(conn := b.conn[c := Emptied(b.conn[c])], closed := b.closed + [Detached(b.conn[c])])
  }

  /** The record pool_conn_fail_all closes: nobody on it. */
  function Detached(k: Conn): Conn {
    k.(broken := true, inflight := 0, active := [], waiting := [])
  }

  lemma EmptiedInv(b: Books, max: nat, w: Work, c: ConnId, b': Books)
    requires Inv(b, max, w) && Live(b.conn, c)
    requires b' == b.(conn := b.conn[c := Emptied(b.conn[c])], closed := b.closed + [Detached(b.conn[c])])
    ensures Inv(b', max, w.(hand := w.hand + OnLists(b.conn[c])))
    ensures Placeable(b, b.conn[c].active, MAX_RETRIES + 1) && Placeable(b, b.conn[c].waiting, MAX_RETRIES + 1)
    ensures OnLists(b.conn[c]) !! w.hand && Items(b.conn[c].active) !! Items(b.conn[c].waiting)
  {
    var k := b.conn[c];
    InvMeans(b, max, w);
    assert ConnFine(k, c, b.req, w.hand + b.lost);
    forall r | r in k.waiting || r in k.active ensures Holds(k, r) && Bound(k, c, b.req[r], r) {}
    CloseKeeps(b.conn, b.req, w.hand, b.lost, w.busy, c, Emptied(k), OnLists(k), true);
    assert OnLists(Detached(k)) == {} && b.lost + {} == b.lost;
    ClosingAccounted(b.lost, b.closed, Detached(k), b.req.Keys, b.legacy, b.nextReq);
    MovedInv(b, b', max, w, w.(hand := w.hand + OnLists(k)));
  }

  /** A stream ends and its request comes into hand. */
  lemma EndedInv(b: Books, max: nat, w: Work, c: ConnId, r: ReqId, streams: seq<ReqId>, b': Books)
    requires Inv(b, max, w) && Live(b.conn, c) && r in b.conn[c].active && (c in w.busy || b.conn[c].inRecv)
    requires Unrouted(b.conn[c], r, streams) && b' == b.(conn := b.conn[c := Ended(b.conn[c], r, streams)])
    ensures Inv(b', max, w.(hand := w.hand + {r}))
    ensures r in b.req && r !in w.hand && b.req[r].submits + b.req[r].retriesLeft <= MAX_RETRIES + 1
  {
    InvMeans(b, max, w);
    assert ConnFine(b.conn[c], c, b.req, w.hand + b.lost) && Holds(b.conn[c], r);
    EndKeeps(b.conn, b.req, w.hand, b.lost, w.busy, c, r, streams);
    MovedInv(b, b', max, w, w.(hand := w.hand + {r}));
  }

  /** A queued request is unlinked and comes into hand. */
  lemma UnlinkedInv(b: Books, max: nat, w: Work, c: ConnId, r: ReqId, b': Books)
    requires Inv(b, max, w) && Live(b.conn, c) && r in b.conn[c].waiting
    requires b' == b.(conn := b.conn[c := b.conn[c].(waiting := Without(b.conn[c].waiting, r))])
    ensures Inv(b', max, w.(hand := w.hand + {r}))
  {
    var k := b.conn[c];
    InvMeans(b, max, w);
    assert ConnFine(k, c, b.req, w.hand + b.lost);
    WithoutFacts(k.waiting, r);
    assert Items(k.waiting) - Items(Without(k.waiting, r)) == {r};
    UnparkKeeps(b.conn, b.req, w.hand, b.lost, w.busy, c, Without(k.waiting, r), {r});
    MovedInv(b, b', max, w, w.(hand := w.hand + {r}));
  }

  /** A connection that is excused, or no longer needs to be. */
  lemma BusyInv(b: Books, max: nat, w: Work, c: ConnId)
    requires Inv(b, max, w)
    ensures Inv(b, max, w.(busy := w.busy + {c}))
  {
    InvMeans(b, max, w);
    InvMeans(b, max, w.(busy := w.busy + {c}));
  }

  lemma SettledInv(b: Books, max: nat, w: Work, c: ConnId)
    requires Inv(b, max, w) && (Live(b.conn, c) ==> Quiet(b.conn[c]))
    ensures Inv(b, max, w.(busy := w.busy - {c}))
  {
    InvMeans(b, max, w);
    InvMeans(b, max, w.(busy := w.busy - {c}));
    SettleKeeps(b.conn, b.req, w.hand, b.lost, w.busy, c);
  }

  /** The connection record of a live connection is in order; outside its receive loop it is quiet. */
  lemma ConnFacts(b: Books, max: nat, w: Work, c: ConnId)
    requires Inv(b, max, w) && Live(b.conn, c)
    ensures ConnFine(b.conn[c], c, b.req, w.hand + b.lost) && ConnOk(b.conn[c])
    ensures c in w.busy || Quiet(b.conn[c])
  {
    InvMeans(b, max, w);
  }

  /** A request on the books is in hand, lost, or on a list of the live connection it names. */
  lemma ReqFacts(b: Books, max: nat, w: Work, r: ReqId)
    requires Inv(b, max, w) && r in b.req
    ensures r in w.hand || r in b.lost || Placed(b.conn, b.req[r], r)
    ensures b.req[r].responded <==> r in w.answered
  {
    InvMeans(b, max, w);
  }

  /** pool_req_deliver_error before the request is unlinked: answered, still on its list. */
  function AnsweredBooks(b: Books, r: ReqId): Books
    requires r in b.req
  {
    b.(delivered := b.delivered + [r], req := b.req[r := b.req[r].(responded := true)])
  }

  lemma AnsweredInv(b: Books, max: nat, w: Work, r: ReqId)
    requires Inv(b, max, w) && r in b.req && r !in w.hand && r !in w.answered
    ensures Inv(AnsweredBooks(b, r), max, w.(answered := w.answered + {r}))
  {
    var b', w' := AnsweredBooks(b, r), w.(answered := w.answered + {r});
    InvMeans(b, max, w);
    TouchedKeeps(b.conn, b.req, w, b.lost, r, b'.req[r]);
    LedgerAnswers(b, w, r);
    InvMeans(b', max, w');
  }

  lemma LedgerAnswers(b: Books, w: Work, r: ReqId)
    requires Ledger(b.delivered, b.legacy, b.req, w.answered, b.nextReq) && r in b.req && r !in w.answered
    ensures var b' := AnsweredBooks(b, r);
      Ledger(b'.delivered, b'.legacy, b'.req, w.answered + {r}, b'.nextReq) && b'.req.Keys == b.req.Keys
  {
  }

  /** Fields of a placed request that no bond looks at may change. */
  lemma TouchedKeeps(conn: Conns, req: Reqs, w: Work, lost: set<ReqId>, r: ReqId, q': Req)
    requires Consistent(conn, req, w.hand, lost, w.busy) && r in req
    requires q' == req[r].(responded := q'.responded, fin := q'.fin)
    ensures Consistent(conn, req[r := q'], w.hand, lost, w.busy)
  {
    var req' := req[r := q'];
    forall c | Live(conn, c) ensures ConnFine(conn[c], c, req', w.hand + lost) {
      var k := conn[c];
      assert ConnFine(k, c, req, w.hand + lost);
      forall p | Holds(k, p) ensures p in req' && p !in w.hand + lost && Bound(k, c, req'[p], p) {
        assert Bound(k, c, req[p], p);
      }
    }
    forall p | p in req' ensures p in w.hand || p in lost || Placed(conn, req'[p], p) {
      assert p in w.hand || p in lost || Placed(conn, req[p], p);
    }
  }

  /** An answered request, unlinked, is freed. */
  lemma FreedInv(b: Books, max: nat, w: Work, r: ReqId)
    requires Inv(b, max, w) && r in w.hand && r in w.answered
    ensures Inv(b.(req := b.req - {r}), max, w.(hand := w.hand - {r}, answered := w.answered - {r}))
  {
    var b', w' := b.(req := b.req - {r}), w.(hand := w.hand - {r}, answered := w.answered - {r});
    InvMeans(b, max, w);
    HandKeeps(b.conn, b.req, w.hand, b.lost, w.busy, b'.req, w'.hand);
    LedgerFrees(b, w, r);
    assert Accounted(b'.lost, b'.closed, b'.req.Keys, b'.legacy, b'.nextReq);
    InvMeans(b', max, w');
  }

  lemma LedgerFrees(b: Books, w: Work, r: ReqId)
    requires Ledger(b.delivered, b.legacy, b.req, w.answered, b.nextReq) && r in b.req && r in w.answered
    ensures Ledger(b.delivered, b.legacy, b.req - {r}, w.answered - {r}, b.nextReq)
  {
  }

  /** A lost request that was answered after all is freed. */
  lemma FreedLostInv(b: Books, max: nat, w: Work, r: ReqId)
    requires Inv(b, max, w) && r in b.lost && r in w.answered
    ensures Inv(b.(req := b.req - {r}, lost := b.lost - {r}), max, w.(answered := w.answered - {r}))
  {
    var b', w' := b.(req := b.req - {r}, lost := b.lost - {r}), w.(answered := w.answered - {r});
    InvMeans(b, max, w);
    LostFreedKeeps(b.conn, b.req, w.hand, b.lost, w.busy, r);
    assert Ledger(b'.delivered, b'.legacy, b'.req, w'.answered, b'.nextReq);
    assert Accounted(b'.lost, b'.closed, b'.req.Keys, b'.legacy, b'.nextReq);
    InvMeans(b', max, w');
  }

  /** A fully closed connection leaves conns[] and its record is freed. */
  lemma RemovedInv(b: Books, max: nat, w: Work, i: nat, b': Books)
    requires Inv(b, max, w) && i < |b.conns| && b.conns[i] in b.conn && b.conn[b.conns[i]].phase.Closing?
    requires b' == b.(conns := SwapOut(b.conns, i), conn := b.conn - {b.conns[i]})
    ensures Inv(b', max, w)
  {
    InvMeans(b, max, w);
    InvMeans(b', max, w);
    SwapOutFacts(b.conns, i);
    RemoveConnKeeps(b.conn, b.req, w.hand, b.lost, w.busy, b.conns[i]);
    CapShrinks(b.conn, b'.conn, max, b.cut);
  }

  /** A connection that is already closing may be rewritten freely, short of reopening it. */
  lemma ClosingInv(b: Books, max: nat, w: Work, c: ConnId, k': Conn)
    requires Inv(b, max, w) && c in b.conn && b.conn[c].phase.Closing? && k'.phase.Closing?
    requires k'.proto == b.conn[c].proto && k'.origin == b.conn[c].origin
    ensures Inv(b.(conn := b.conn[c := k']), max, w)
  {
    var conn' := b.conn[c := k'];
    InvMeans(b, max, w);
    assert forall d :: Live(conn', d) <==> Live(b.conn, d) && d != c;
    forall d | Live(conn', d) ensures ConnFine(conn'[d], d, b.req, w.hand + b.lost) && (d in w.busy || Quiet(conn'[d])) {
      assert Live(b.conn, d);
    }
    forall r | r in b.req ensures r in w.hand || r in b.lost || Placed(conn', b.req[r], r) {
      assert r in w.hand || r in b.lost || Placed(b.conn, b.req[r], r);
    }
    MovedInv(b, b.(conn := conn'), max, w, w);
  }

  lemma HeldIsRouted(b: Books, max: nat, w: Work, c: ConnId, r: ReqId)
    requires Inv(b, max, w) && Live(b.conn, c) && b.conn[c].proto.H3? && r in b.conn[c].active
    ensures r in b.conn[c].streams
  {
    ConnFacts(b, max, w, c);
  }

  /** Whoever is queued on `c` once its queue has been handed over came in between. */
  lemma RidersAreNew(b: Books, b': Books, max: nat, c: ConnId, r: ReqId)
    requires Inv(b, max, Rest) && Inv(b', max, Rest) && Live(b.conn, c) && Live(b'.conn, c) && b.conn[c].active == []
    requires b.lost <= b'.lost && (forall q :: q in b.conn[c].waiting ==> q in b'.legacy)
    requires forall q :: q in b.req && q !in b.conn[c].waiting ==> q in b'.req && b'.req[q] == b.req[q]
    requires r in b'.conn[c].waiting
    ensures r !in b.req
  {
    InvMeans(b, max, Rest);
    InvMeans(b', max, Rest);
    ConnFacts(b', max, Rest, c);
    assert Holds(b'.conn[c], r) && Bound(b'.conn[c], c, b'.req[r], r);
    if r in b.req { ReqFacts(b, max, Rest, r); }
  }

  /** Between events a delivered request is off the books. */
  lemma Delivered(b: Books, max: nat, r: ReqId)
    requires Inv(b, max, Rest) && r in b.delivered
    ensures r !in b.req
  {
    InvMeans(b, max, Rest);
  }

  /** h3_fin is set on a request wherever it is. */
  lemma FinInv(b: Books, max: nat, w: Work, r: ReqId)
    requires Inv(b, max, w) && r in b.req
    ensures Inv(b.(req := b.req[r := b.req[r].(fin := true)]), max, w)
  {
    InvMeans(b, max, w);
    TouchedKeeps(b.conn, b.req, w, b.lost, r, b.req[r].(fin := true));
    MovedInv(b, b.(req := b.req[r := b.req[r].(fin := true)]), max, w, w);
  }

  // ---- the idle sweep

  /** The two conditions under which pool_sweep_cb closes a connection. */
  predicate SweepTakes(k: Conn, now: nat, idleTo: nat) {
    && !k.phase.Closing? && k.inflight == 0
    && (k.broken || (k.phase.Ready? && now - k.idleSince >= idleTo))
  }

  /** Who is still on the lists of the connections a sweep over `cs` closes. */
  function Stranded(b: Books, cs: seq<ConnId>, now: nat, idleTo: nat): set<ReqId> {
    if cs == [] then {}
    else
      var c := cs[|cs| - 1];
      Stranded(b, cs[..|cs| - 1], now, idleTo)
      + (if c in b.conn && SweepTakes(b.conn[c], now, idleTo) then OnLists(b.conn[c]) else {})
  }

  /** What a sweep makes of a connection. */
  function Swept(k: Conn, now: nat, idleTo: nat): Conn {
    if SweepTakes(k, now, idleTo) then k.(phase := Closing) else k
  }

  /** The records a sweep over `cs` closes, in order. */
  function Taken(b: Books, cs: seq<ConnId>, now: nat, idleTo: nat): seq<Conn> {
    if cs == [] then []
    else
      var c := cs[|cs| - 1];
      Taken(b, cs[..|cs| - 1], now, idleTo)
      + (if c in b.conn && SweepTakes(b.conn[c], now, idleTo) then [b.conn[c]] else [])
  }

  ghost predicate Outside(b: Books) {
    forall c :: c in b.conn ==> !b.conn[c].inRecv
  }

  /** A live connection a sweep would take between events. */
  ghost predicate Sweepable(b: Books, max: nat, c: ConnId, now: nat, idleTo: nat) {
    Inv(b, max, Rest) && c in b.conn && !b.conn[c].inRecv && SweepTakes(b.conn[c], now, idleTo)
  }

  /** A connection a sweep takes has nobody on its lists, or a queue its H2 peer allows no stream for. */
  lemma SweptIsEmptyOrBlocked(b: Books, max: nat, c: ConnId, now: nat, idleTo: nat)
    requires Sweepable(b, max, c, now, idleTo)
    ensures OnLists(b.conn[c]) == {} || BlockedAtSweep(b.conn[c])
  {
    var k := b.conn[c];
    ConnFacts(b, max, Rest, c);
    if k.waiting != [] { assert k.waiting[0] in OnLists(k); }
  }

  /** One request queued on a Ready H2 connection whose peer allows no stream. */
  function BlockedBooks(): Books {
    Books([0], map[0 := Conn(H2, "o", Ready, false, false, true, 0, 0, [0], [], 0, false, [], 0)],
          map[0 := Req(H2, "o", Some(0), MAX_RETRIES, false, 0, false, 0)], {}, [], [], [], 1, 1, {})
  }

  lemma BlockedBooksInv()
    ensures Inv(BlockedBooks(), 1, Rest)
  {
    var b := BlockedBooks();
    var k, q := b.conn[0], b.req[0];
    assert ConnFine(k, 0, b.req, {}) && Quiet(k) && Placed(b.conn, q, 0);
    forall p, o ensures |Usables(b.conn, p, o)| <= 1 { SubsetSize(Usables(b.conn, p, o), {0}); }
    InvMeans(b, 1, Rest);
  }

  /** The sweep leaves nobody behind on connections of protocol `p` and peer limit `m` exactly unless both say H2 and 0. */
  lemma SweepStrandsIff(p: Proto, m: nat)
    ensures (forall b, max, c, now, idleTo ::
              Sweepable(b, max, c, now, idleTo) && b.conn[c].proto == p && b.conn[c].maxStreams == m
              ==> OnLists(b.conn[c]) == {})
            <==> !(p.H2? && m == 0)
  {
    forall b, max, c, now, idleTo |
      Sweepable(b, max, c, now, idleTo) && b.conn[c].proto == p && b.conn[c].maxStreams == m && !(p.H2? && m == 0)
      ensures OnLists(b.conn[c]) == {}
    {
      SweptIsEmptyOrBlocked(b, max, c, now, idleTo);
    }
    var b := BlockedBooks();
    BlockedBooksInv();
    assert Sweepable(b, 1, 0, 0, 0) && 0 in OnLists(b.conn[0]);
  }

  lemma {:induction false} GenerousSweepStrandsNobody(b: Books, max: nat, cs: seq<ConnId>, now: nat, idleTo: nat)
    requires Inv(b, max, Rest) && Outside(b) && Generous(b)
    ensures Stranded(b, cs, now, idleTo) == {}
  {
    if cs != [] {
      var c := cs[|cs| - 1];
      GenerousSweepStrandsNobody(b, max, cs[..|cs| - 1], now, idleTo);
      if c in b.conn && SweepTakes(b.conn[c], now, idleTo) { SweptIsEmptyOrBlocked(b, max, c, now, idleTo); }
    }
  }

  // ---- what every event promises about the whole run

  /** Every H2 peer lets at least one stream be opened. */
  ghost predicate Generous(b: Books) {
    forall c :: c in b.conn ==> b.conn[c].maxStreams >= 1
  }

  /** An event loses nobody, whoever was lost stays so until answered, and generous peers stay generous. */
  ghost predicate Safe(b: Books, b': Books, mayLose: bool) {
    && (!mayLose ==> b'.lost <= b.lost) && b.lost <= b'.lost + Items(b'.delivered) && b.closed <= b'.closed
    && b.delivered <= b'.delivered && b.legacy <= b'.legacy
    && (Generous(b) ==> Generous(b'))
  }

  lemma SafeTrans(b: Books, b': Books, b'': Books, mayLose: bool)
    requires Safe(b, b', mayLose) && Safe(b', b'', mayLose)
    ensures Safe(b, b'', mayLose)
  {
    forall r | r in b.lost ensures r in b''.lost + Items(b''.delivered) {
      assert r in b'.lost || r in b'.delivered;
    }
  }

  /** A lost request is answered, and after its callback leaves the books. */
  lemma LostSafe(b: Books, mid: Books, b': Books, r: ReqId, mayLose: bool)
    requires r in b.req && Calm(AnsweredBooks(b, r), mid, mayLose) && r in mid.delivered
    requires b' == mid.(conn := b'.conn, req := b'.req, lost := mid.lost - {r}) && b'.conn.Keys == mid.conn.Keys
    requires forall c :: c in mid.conn ==> b'.conn[c].maxStreams == mid.conn[c].maxStreams
    ensures Safe(b, b', mayLose)
  {
    SteadyIsSafe(AnsweredBooks(b, r), mid, mayLose);
  }

  /** A closing connection's record without a request that timed out. */
  function Delisted(k: Conn, r: ReqId): Conn {
    if r in k.active then Ended(k, r, k.streams) else k.(waiting := Without(k.waiting, r))
  }

  lemma CalmButIsSafe(b: Books, b': Books, c: ConnId, mayLose: bool)
    requires CalmBut(b, b', c, mayLose)
    ensures Safe(b, b', mayLose)
  {
    if Generous(b) {
      forall d | d in b'.conn ensures b'.conn[d].maxStreams >= 1 {
        assert d in b.conn && d != c ==> SameRole(b.conn[d], b'.conn[d]);
      }
    }
  }

  lemma SteadyIsSafe(b: Books, b': Books, mayLose: bool)
    requires Calm(b, b', mayLose)
    ensures Safe(b, b', mayLose)
  {
    if Generous(b) {
      forall d | d in b'.conn ensures b'.conn[d].maxStreams >= 1 {
        assert d in b.conn ==> SameRole(b.conn[d], b'.conn[d]);
      }
    }
  }

  lemma SweepIsSafe(b: Books, b': Books, mayLose: bool)
    requires Generous(b) ==> Safe(b, b', false)
    ensures Generous(b) ==> Safe(b, b', mayLose)
  {
  }

  // ---- what the invariant says in plain words

  /** Bookkeeping between events, for every connection that is not closing. */
  lemma Bookkeeping(b: Books, max: nat, c: ConnId)
    requires Inv(b, max, Rest) && Live(b.conn, c)
    ensures var k := b.conn[c];
      && k.inflight == |k.active| && (k.idle ==> k.inflight == 0)
      && (k.proto.H1? ==> |k.active| <= 1)
      && (k.proto.H3? ==> |k.active| <= 16 && |k.streams| == |k.active| && Items(k.streams) == Items(k.active))
      && (k.phase.Ready? && !k.broken && !k.inRecv && k.inflight == 0 && k.maxStreams >= 1 ==> k.waiting == [])
      && (k.broken && !k.inRecv ==> k.waiting == [])
    ensures |b.conns| <= 256 && NoDup(b.conns) && c in b.conns
    ensures forall p, o :: (p, o) !in b.cut ==> |Usables(b.conn, p, o)| <= max
    ensures forall t :: t in b.cut ==> |t.1| == 255
  {
    InvMeans(b, max, Rest);
    ConnFacts(b, max, Rest, c);
  }

  /** A request on the books and not lost is on one list, once, of one live connection: the one it names. */
  lemma HeldExactlyOnce(b: Books, max: nat, r: ReqId)
    requires Inv(b, max, Rest) && r in b.req && r !in b.lost
    ensures b.req[r].pc.Some?
    ensures var c := b.req[r].pc.value;
      && Live(b.conn, c) && (r in b.conn[c].waiting <==> r !in b.conn[c].active)
      && NoDup(b.conn[c].waiting) && NoDup(b.conn[c].active)
      && (forall d :: Live(b.conn, d) && Holds(b.conn[d], r) ==> d == c)
    ensures b.req[r].submits <= 3 && !b.req[r].responded
  {
    InvMeans(b, max, Rest);
    ReqFacts(b, max, Rest, r);
    var c := b.req[r].pc.value;
    ConnFacts(b, max, Rest, c);
    assert Bound(b.conn[c], c, b.req[r], r);
    forall d | Live(b.conn, d) && Holds(b.conn[d], r) ensures d == c {
      ConnFacts(b, max, Rest, d);
      assert Bound(b.conn[d], d, b.req[r], r);
    }
  }

  /**
   Who is lost, over every run: exactly the requests still on the books that were on a
   connection whose connect failed at once, on an H2 connection closed by its own legacy
   hand-over, or on an H2 connection swept while its peer allowed no stream.
   */
  lemma LossesExactly(b: Books, max: nat, r: ReqId)
    requires Inv(b, max, Rest)
    ensures r in b.lost <==> r in b.req && exists i :: 0 <= i < |b.closed| && Fatal(b.closed[i]) && r in OnLists(b.closed[i])
    ensures Fallen(b.closed, r) ==> r in b.lost || r in b.delivered
  {
    InvMeans(b, max, Rest);
    if Fallen(b.closed, r) {
      var i :| 0 <= i < |b.closed| && r in OnLists(b.closed[i]);
      assert Fatal(b.closed[i]);
    }
  }

  /** Nobody was ever left behind exactly when no connection closed in one of those three ways. */
  lemma NobodyLeftIff(b: Books, max: nat)
    requires Inv(b, max, Rest)
    ensures (forall r: ReqId :: !Fallen(b.closed, r)) <==> (forall i :: 0 <= i < |b.closed| ==> !Fatal(b.closed[i]))
    ensures b.lost == {} <==> forall r: ReqId :: Fallen(b.closed, r) ==> r !in b.req
  {
    InvMeans(b, max, Rest);
    forall i | 0 <= i < |b.closed| && Fatal(b.closed[i]) ensures Fallen(b.closed, b.closed[i].waiting[0]) {
      assert b.closed[i].waiting[0] in OnLists(b.closed[i]);
    }
    if b.lost != {} {
      var r :| r in b.lost;
      assert Fallen(b.closed, r);
    }
  }

  /** Conservation: every request ever accepted is on the books, delivered once, or handed on once; never two of these. */
  lemma Conservation(b: Books, max: nat, r: ReqId)
    requires Inv(b, max, Rest)
    ensures r < b.nextReq <==> r in b.req || r in b.delivered || r in b.legacy
    ensures !(r in b.req && r in b.delivered) && !(r in b.req && r in b.legacy) && !(r in b.delivered && r in b.legacy)
    ensures multiset(b.delivered)[r] <= 1 && multiset(b.legacy)[r] <= 1
  {
    InvMeans(b, max, Rest);
    AtMostOnce(b.delivered, r);
    AtMostOnce(b.legacy, r);
  }

  lemma {:induction false} AtMostOnce(s: seq<ReqId>, r: ReqId)
    requires NoDup(s)
    ensures multiset(s)[r] <= 1
  {
    if s != [] {
      assert s == [s[0]] + s[1..];
      AtMostOnce(s[1..], r);
      if s[0] == r { assert r !in s[1..]; }
    }
  }

  /** What a handler may look up. */
  lemma InvFacts(b: Books, max: nat, w: Work)
    requires Inv(b, max, w)
    ensures Roster(b.conns, b.conn, b.nextConn) && max >= 1
    ensures w.hand <= b.req.Keys
    ensures CutCovers(b.req, b.cut)
  {
    InvMeans(b, max, w);
  }
}
