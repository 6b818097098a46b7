/**
 The connection pool (src/core/pool.c): its event handlers, updating the pool's
 fields in place. What the transport decides (a connect or stream open that
 fails, the peer's SETTINGS and GOAWAY, a response's outcome) is an arbitrary
 choice; what a response callback dispatches is an arbitrary list of requests.
 */
module Pool {
  import opened Options
  import opened PoolState
  import opened PoolBooks

  /** The three things pool_acquire's scan looks for. */
  datatype Role = CanServe | IsReady | IsShaking

  predicate Plays(k: Conn, p: Proto, o: string, role: Role) {
    UsableFor(k, p, o) && match role
      case CanServe => HasCapacity(k)
      case IsReady => k.phase.Ready?
      case IsShaking => k.phase.Handshaking?
  }

  /** `x` is the first connection in conns[] order that `want` accepts. */
  ghost predicate IsFirst(x: Option<ConnId>, cs: seq<ConnId>, conn: Conns, p: Proto, o: string, role: Role) {
    match x
    case None => forall i :: 0 <= i < |cs| ==> cs[i] in conn && !Plays(conn[cs[i]], p, o, role)
    case Some(c) => exists i :: 0 <= i < |cs| && cs[i] == c && c in conn && Plays(conn[c], p, o, role)
                      && forall j :: 0 <= j < i ==> cs[j] in conn && !Plays(conn[cs[j]], p, o, role)
  }

  lemma FirstMeans(x: Option<ConnId>, cs: seq<ConnId>, conn: Conns, p: Proto, o: string, role: Role)
    requires IsFirst(x, cs, conn, p, o, role)
    ensures x.Some? ==> x.value in cs && x.value in conn && Plays(conn[x.value], p, o, role)
    ensures x.None? ==> forall c :: c in cs ==> c in conn && !Plays(conn[c], p, o, role)
  {
  }

  lemma ScanMeans(reusable: Option<ConnId>, any: Option<ConnId>, shaking: Option<ConnId>,
                  conns: seq<ConnId>, conn: Conns, p: Proto, o: string)
    requires IsFirst(reusable, conns, conn, p, o, CanServe)
    requires IsFirst(any, conns, conn, p, o, IsReady)
    requires IsFirst(shaking, conns, conn, p, o, IsShaking)
    ensures reusable.Some? ==> reusable.value in conn && UsableFor(conn[reusable.value], p, o)
                               && HasCapacity(conn[reusable.value])
    ensures any.Some? ==> any.value in conn && UsableFor(conn[any.value], p, o) && conn[any.value].phase.Ready?
                          && (reusable.None? ==> !HasCapacity(conn[any.value]))
    ensures shaking.Some? ==> shaking.value in conn && UsableFor(conn[shaking.value], p, o)
                              && conn[shaking.value].phase.Handshaking?
  {
    FirstMeans(reusable, conns, conn, p, o, CanServe);
    FirstMeans(any, conns, conn, p, o, IsReady);
    FirstMeans(shaking, conns, conn, p, o, IsShaking);
  }

  lemma FirstExtends(x: Option<ConnId>, cs: seq<ConnId>, conn: Conns, p: Proto, o: string, role: Role, c: ConnId)
    requires IsFirst(x, cs, conn, p, o, role) && c in conn
    ensures IsFirst(if x.None? && Plays(conn[c], p, o, role) then Some(c) else x, cs + [c], conn, p, o, role)
  {
    var t := cs + [c];
    if x.None? && Plays(conn[c], p, o, role) {
      assert t[|cs|] == c;
    } else if x.Some? {
      var i :| 0 <= i < |cs| && cs[i] == x.value && x.value in conn && Plays(conn[x.value], p, o, role)
               && forall j :: 0 <= j < i ==> cs[j] in conn && !Plays(conn[cs[j]], p, o, role);
      assert t[i] == x.value;
    }
  }

  ghost function SeenFor(cs: seq<ConnId>, conn: Conns, p: Proto, o: string): set<ConnId> {
    set c | c in cs && c in conn && UsableFor(conn[c], p, o)
  }

  lemma SeenExtends(cs: seq<ConnId>, conn: Conns, p: Proto, o: string, c: ConnId)
    requires c in conn && c !in cs
    ensures |SeenFor(cs + [c], conn, p, o)| == |SeenFor(cs, conn, p, o)| + if UsableFor(conn[c], p, o) then 1 else 0
  {
    var a, b := SeenFor(cs, conn, p, o), SeenFor(cs + [c], conn, p, o);
    assert b == if UsableFor(conn[c], p, o) then a + {c} else a;
  }

  /**
   A connection as pool_conn_open makes it: the origin is cut to 255 bytes; `streams` is
   what nghttp2 says the peer allows before its SETTINGS have come.
   */
  function NewConn(p: Proto, o: string, failed: bool, streams: nat): Conn {
    var n := if |o| <= ORIGIN_MAX then |o| else ORIGIN_MAX;
    Conn(p, o[..n], if failed then Closing else Handshaking, failed, false, false, 0, 0, [], [], streams, false, [], 0)
  }

  /** The books once a connection was opened for `r` and `r` queued on it. */
  function OpenedFor(b: Books, r: ReqId, failed: bool, streams: nat): Books
    requires r in b.req
  {
    ParkedOn(OpenedConn(b, NewConn(b.req[r].proto, b.req[r].origin, failed, streams)), b.nextConn, r)
  }

  /** How PATH 3 of pool_acquire may end: connecting fails at once only if `mayFail`. */
  ghost predicate OpenEnds(b: Books, r: ReqId, b': Books, mayFail: bool) {
    r in b.req && exists failed, streams :: (failed ==> mayFail) && streams >= 1 && b' == OpenedFor(b, r, failed, streams)
  }

  /** A connection answers to the origin it was opened for exactly when that origin fits its 255 bytes. */
  lemma OriginMatchesIff(p: Proto, o: string, streams: nat)
    ensures UsableFor(NewConn(p, o, false, streams), p, o) <==> |o| <= 255
  {
    if |o| <= ORIGIN_MAX { assert o[..|o|] == o; }
  }

  /** So a connection opened for a longer origin is never counted: for those origins the cap does not bite. */
  lemma OpenCountsIff(b: Books, p: Proto, o: string, streams: nat)
    requires b.nextConn !in b.conn
    ensures |Usables(OpenedConn(b, NewConn(p, o, false, streams)).conn, p, o)|
         == |Usables(b.conn, p, o)| + if |o| <= ORIGIN_MAX then 1 else 0
  {
    OriginMatchesIff(p, o, streams);
    var before, after := Usables(b.conn, p, o), Usables(OpenedConn(b, NewConn(p, o, false, streams)).conn, p, o);
    assert after == if |o| <= ORIGIN_MAX then before + {b.nextConn} else before;
  }

  // ---- where pool_acquire sends a request

  datatype Choice =
    | Reuse(c: ConnId)      // PATH 1: a Ready connection with capacity
    | Coalesce(c: ConnId)   // PATH 2: ride a handshaking multiplexed connection
    | OpenNew               // PATH 3: under the cap
    | Overload(c: ConnId)   // PATH 4, multiplexed: past the peer's window
    | QueueOn(c: ConnId)    // PATH 4, H1: wait for the connection's turn
    | Refuse

  function Choose(p: Proto, reusable: Option<ConnId>, any: Option<ConnId>, shaking: Option<ConnId>,
                  count: nat, total: nat, max: nat): Choice {
    if reusable.Some? then Reuse(reusable.value)
    else if !p.H1? && shaking.Some? then Coalesce(shaking.value)
    else if count < max && total < MAX_CONNS then OpenNew
    else if !p.H1? then (if any.Some? then Overload(any.value) else Refuse)
    else if shaking.Some? then QueueOn(shaking.value)
    else if any.Some? then QueueOn(any.value)
    else Refuse
  }

  /** `how` is the choice the scan over conns[] leads to. */
  ghost predicate Chosen(b: Books, p: Proto, o: string, max: nat, how: Choice) {
    exists reusable, any, shaking ::
      && IsFirst(reusable, b.conns, b.conn, p, o, CanServe)
      && IsFirst(any, b.conns, b.conn, p, o, IsReady)
      && IsFirst(shaking, b.conns, b.conn, p, o, IsShaking)
      && how == Choose(p, reusable, any, shaking, |Usables(b.conn, p, o)|, |b.conns|, max)
  }

  /** What each choice says about the connection it names. */
  predicate Fits(b: Books, p: Proto, o: string, how: Choice) {
    match how
    case Reuse(c) => c in b.conn && UsableFor(b.conn[c], p, o) && HasCapacity(b.conn[c])
    case Coalesce(c) => c in b.conn && UsableFor(b.conn[c], p, o) && b.conn[c].phase.Handshaking?
    case OpenNew => |b.conns| < MAX_CONNS
    case Overload(c) => c in b.conn && UsableFor(b.conn[c], p, o) && b.conn[c].phase.Ready? && !p.H1?
    case QueueOn(c) => c in b.conn && UsableFor(b.conn[c], p, o) && !HasCapacity(b.conn[c])
    case Refuse => true
  }

  lemma ChosenFits(b: Books, p: Proto, o: string, max: nat, how: Choice)
    requires Chosen(b, p, o, max, how)
    ensures Fits(b, p, o, how) && (how.OpenNew? ==> |Usables(b.conn, p, o)| < max)
  {
    var reusable, any, shaking :|
      && IsFirst(reusable, b.conns, b.conn, p, o, CanServe)
      && IsFirst(any, b.conns, b.conn, p, o, IsReady)
      && IsFirst(shaking, b.conns, b.conn, p, o, IsShaking)
      && how == Choose(p, reusable, any, shaking, |Usables(b.conn, p, o)|, |b.conns|, max);
    ScanMeans(reusable, any, shaking, b.conns, b.conn, p, o);
  }

  /** pool_submit puts the request on the queue instead: inside the receive loop, or past H3's capacity. */
  predicate Defers(k: Conn) {
    k.inRecv || (k.proto.H3? && !HasCapacity(k))
  }

  /** The books once a submit to `c` has been counted. */
  function Counted(b: Books, c: ConnId, r: ReqId): Books
    requires r in b.req
  {
    b.(req := b.req[r := b.req[r].(pc := Some(c), submits := b.req[r].submits + 1)])
  }

  /** The books once `r` is a stream of `c`: counted, on the active list, routed under a fresh id on H3. */
  function Submitted(b: Books, c: ConnId, r: ReqId): Books
    requires r in b.req && c in b.conn
  {
    var b' := Counted(b, c, r);
    if b.conn[c].proto.H3? then Streamed(b', c, r) else b'.(conn := b.conn[c := Started(b.conn[c], r)])
  }

  /** The books once a stream of `c` has been opened for `r`: the next id of the connection is used up. */
  function StreamOpened(b: Books, c: ConnId, r: ReqId): Books
    requires r in b.req && c in b.conn
  {
    b.(req := b.req[r := b.req[r].(streamId := b.conn[c].nextStream)],
       conn := b.conn[c := b.conn[c].(nextStream := b.conn[c].nextStream + 4)])
  }

  /** And once the request is its stream. */
  function Streamed(b: Books, c: ConnId, r: ReqId): Books
    requires r in b.req && c in b.conn
  {
    var b' := StreamOpened(b, c, r);
    b'.(conn := b'.conn[c := Started(b'.conn[c], r)])
  }

  /** How a submit to `c` may end: parked, a stream, the error at once, or on H3 a retry before or after the stream is open. */
  ghost predicate SubmitEnds(b: Books, max: nat, c: ConnId, r: ReqId, fired: bool, b': Books, mayFail: bool)
    decreases Budget(b, r), 2
  {
    && r in b.req && c in b.conn
    && if Defers(b.conn[c]) then !fired && b' == ParkedOn(b, c, r)
       else if b.conn[c].proto.H3? then
         || (!fired && b' == Submitted(b, c, r))
         || (exists how :: RetryEnds(Counted(b, c, r), max, r, how, fired, b', mayFail))
         || (exists how :: RetryEnds(StreamOpened(Counted(b, c, r), c, r), max, r, how, fired, b', mayFail))
       else b' == if fired then Finished(Counted(b, c, r), r, true) else Submitted(b, c, r)
  }

  /** Where pool_req_retry_or_fail may leave a request. */
  ghost predicate RetryEnds(b: Books, max: nat, r: ReqId, how: Choice, fired: bool, b': Books, mayFail: bool)
    decreases Budget(b, r), 1
  {
    && r in b.req
    && if b.req[r].retriesLeft > 0 && !b.req[r].responded
       then Acquired(Charged(b, r), max, r, how, fired, b', mayFail)
       else fired && b' == Finished(b, r, true)
  }

  /** Where pool_acquire may leave a request. */
  ghost predicate Acquired(b: Books, max: nat, r: ReqId, how: Choice, fired: bool, b': Books, mayFail: bool)
    decreases Budget(b, r), 3
  {
    && r in b.req && Chosen(b, b.req[r].proto, b.req[r].origin, max, how)
    && match how
       case Reuse(c) => SubmitEnds(b, max, c, r, fired, b', mayFail)
       case Overload(c) => SubmitEnds(b, max, c, r, fired, b', mayFail)
       case Coalesce(c) => !fired && c in b.conn && b' == ParkedOn(b, c, r)
       case QueueOn(c) => !fired && c in b.conn && b' == ParkedOn(b, c, r)
       case OpenNew => !fired && OpenEnds(b, r, b', mayFail)
       case Refuse => fired && b' == Finished(b, r, true)
  }

  function Budget(b: Books, r: ReqId): nat {
    if r in b.req then b.req[r].retriesLeft else 0
  }

  /** The request record of a dispatch. */
  function NewReq(p: Proto, o: string): Req {
    Req(p, o, None, MAX_RETRIES, false, 0, false, 0)
  }

  /** Where one dispatch of a callback's choosing may leave the books; kept `max` calls deep, as `Inv` is. */
  ghost predicate DispatchEnds(b: Books, max: nat, b': Books, mayFail: bool) {
    DispatchFrom(b, max, b', mayFail, max)
  }

  ghost predicate OneDispatch(b: Books, max: nat, b': Books, mayFail: bool) {
    exists p, o, how, fired :: Acquired(Accepted(b, NewReq(p, o)), max, b.nextReq, how, fired, b', mayFail)
  }

  ghost predicate DispatchFrom(b: Books, max: nat, b': Books, mayFail: bool, depth: nat)
    decreases depth
  {
    if depth > 0 then DispatchFrom(b, max, b', mayFail, depth - 1) else OneDispatch(b, max, b', mayFail)
  }

  lemma {:induction false} DispatchUnfolds(b: Books, max: nat, b': Books, mayFail: bool, depth: nat)
    ensures DispatchFrom(b, max, b', mayFail, depth) <==> OneDispatch(b, max, b', mayFail)
    decreases depth
  {
    if depth > 0 { DispatchUnfolds(b, max, b', mayFail, depth - 1); }
  }

  lemma DispatchMeans(b: Books, max: nat, p: Proto, o: string, how: Choice, fired: bool, b': Books, mayFail: bool)
    requires Acquired(Accepted(b, NewReq(p, o)), max, b.nextReq, how, fired, b', mayFail)
    ensures DispatchEnds(b, max, b', mayFail)
  {
    assert OneDispatch(b, max, b', mayFail);
    DispatchUnfolds(b, max, b', mayFail, max);
  }

  /** Where a callback that dispatches `n` times may leave them. */
  ghost predicate CallbackEnds(b: Books, max: nat, n: nat, b': Books, mayFail: bool)
    decreases n
  {
    if n == 0 then b' == b
    else exists mid :: CallbackEnds(b, max, n - 1, mid, mayFail) && DispatchEnds(mid, max, b', mayFail)
  }

  lemma CallbackStep(b: Books, max: nat, n: nat, mid: Books, b': Books, mayFail: bool)
    requires CallbackEnds(b, max, n, mid, mayFail) && DispatchEnds(mid, max, b', mayFail)
    ensures CallbackEnds(b, max, n + 1, b', mayFail)
  {
  }

  /** One request of the loop of pool_conn_fallback_legacy: a start that fails at once runs a callback. */
  ghost predicate HandOneEnds(b: Books, max: nat, r: ReqId, b': Books, mayFail: bool) {
    exists n :: (n > 0 ==> mayFail) && CallbackEnds(Finished(b, r, false), max, n, b', mayFail)
  }

  /** The loop over `todo`. */
  ghost predicate HandOverEnds(b: Books, max: nat, todo: seq<ReqId>, b': Books, mayFail: bool)
    decreases |todo|
  {
    if todo == [] then b' == b
    else exists mid :: HandOneEnds(b, max, todo[0], mid, mayFail) && HandOverEnds(mid, max, todo[1..], b', mayFail)
  }

  lemma {:induction false} HandOverStep(b: Books, max: nat, todo: seq<ReqId>, mid: Books, r: ReqId, b': Books, mayFail: bool)
    requires HandOverEnds(b, max, todo, mid, mayFail) && HandOneEnds(mid, max, r, b', mayFail)
    ensures HandOverEnds(b, max, todo + [r], b', mayFail)
    decreases |todo|
  {
    var all := todo + [r];
    if todo == [] {
      assert all[0] == r && all[1..] == [];
      assert HandOverEnds(b', max, [], b', mayFail);
    } else {
      var b1 :| HandOneEnds(b, max, todo[0], b1, mayFail) && HandOverEnds(b1, max, todo[1..], mid, mayFail);
      HandOverStep(b1, max, todo[1..], mid, r, b', mayFail);
      assert all[0] == todo[0] && all[1..] == todo[1..] + [r];
    }
  }

  /** While no start fails at once, the hand-over is just that. */
  lemma {:induction false} HandOverKeeps(b: Books, max: nat, todo: seq<ReqId>, b': Books)
    requires HandOverEnds(b, max, todo, b', false)
    ensures b'.conn == b.conn && b'.legacy == b.legacy + todo
    decreases |todo|
  {
    if todo != [] {
      var mid :| HandOneEnds(b, max, todo[0], mid, false) && HandOverEnds(mid, max, todo[1..], b', false);
      HandOverKeeps(mid, max, todo[1..], b');
      assert todo == [todo[0]] + todo[1..];
    }
  }

  /** A request in hand is placed again: on one of its retries, or (`!charge`) for free. */
  ghost predicate PlacedAs(b: Books, max: nat, r: ReqId, charge: bool, how: Choice, fired: bool, b': Books, mayFail: bool) {
    && r in b.req
    && if charge then RetryEnds(b, max, r, how, fired, b', mayFail)
       else Acquired(b.(req := b.req[r := b.req[r].(pc := None)]), max, r, how, fired, b', mayFail)
  }

  /** And if that called it back, its callback ran. */
  ghost predicate OnePlaced(b: Books, max: nat, r: ReqId, charge: bool, b': Books, mayFail: bool) {
    exists how, fired, mid, n: nat ::
      PlacedAs(b, max, r, charge, how, fired, mid, mayFail) && (n > 0 ==> fired) && CallbackEnds(mid, max, n, b', mayFail)
  }

  /** `OnePlaced`, kept `max` calls deep, as `Inv` is. */
  ghost predicate PlaceEnds(b: Books, max: nat, r: ReqId, charge: bool, b': Books, mayFail: bool) {
    PlaceFrom(b, max, r, charge, b', mayFail, max)
  }

  ghost predicate PlaceFrom(b: Books, max: nat, r: ReqId, charge: bool, b': Books, mayFail: bool, depth: nat)
    decreases depth
  {
    if depth > 0 then PlaceFrom(b, max, r, charge, b', mayFail, depth - 1)
    else OnePlaced(b, max, r, charge, b', mayFail)
  }

  lemma {:induction false} PlaceUnfolds(b: Books, max: nat, r: ReqId, charge: bool, b': Books, mayFail: bool, depth: nat)
    ensures PlaceFrom(b, max, r, charge, b', mayFail, depth) <==> OnePlaced(b, max, r, charge, b', mayFail)
    decreases depth
  {
    if depth > 0 { PlaceUnfolds(b, max, r, charge, b', mayFail, depth - 1); }
  }

  lemma PlaceMeans(b: Books, max: nat, r: ReqId, charge: bool, how: Choice, fired: bool, mid: Books, n: nat,
                   b': Books, mayFail: bool)
    requires PlacedAs(b, max, r, charge, how, fired, mid, mayFail) && (n > 0 ==> fired)
    requires CallbackEnds(mid, max, n, b', mayFail)
    ensures PlaceEnds(b, max, r, charge, b', mayFail)
  {
    assert OnePlaced(b, max, r, charge, b', mayFail);
    PlaceUnfolds(b, max, r, charge, b', mayFail, max);
  }

  /** The loops of pool_conn_fail_all and pool_update_idle: every request of a list, in its order. */
  ghost predicate AllPlaced(b: Books, max: nat, todo: seq<ReqId>, charge: bool, b': Books, mayFail: bool)
    decreases |todo|
  {
    if todo == [] then b' == b
    else exists mid :: PlaceEnds(b, max, todo[0], charge, mid, mayFail) && AllPlaced(mid, max, todo[1..], charge, b', mayFail)
  }

  lemma {:induction false} AllPlacedStep(b: Books, max: nat, todo: seq<ReqId>, charge: bool, mid: Books,
                                         r: ReqId, b': Books, mayFail: bool)
    requires AllPlaced(b, max, todo, charge, mid, mayFail) && PlaceEnds(mid, max, r, charge, b', mayFail)
    ensures AllPlaced(b, max, todo + [r], charge, b', mayFail)
    decreases |todo|
  {
    var all := todo + [r];
    if todo == [] {
      assert all[0] == r && all[1..] == [];
      assert AllPlaced(b', max, [], charge, b', mayFail);
    } else {
      var b1 :| PlaceEnds(b, max, todo[0], charge, b1, mayFail) && AllPlaced(b1, max, todo[1..], charge, mid, mayFail);
      AllPlacedStep(b1, max, todo[1..], charge, mid, r, b', mayFail);
      assert all[0] == todo[0] && all[1..] == todo[1..] + [r];
    }
  }

  /** pool_conn_fail_all on a live connection: emptied and closed, then the active and the queued retried in turn. */
  ghost predicate FailEnds(b: Books, max: nat, c: ConnId, b': Books, mayFail: bool) {
    && c in b.conn
    && exists mid ::
         && AllPlaced(EmptiedBooks(b, c), max, b.conn[c].active, true, mid, mayFail)
         && AllPlaced(mid, max, b.conn[c].waiting, true, b', mayFail)
  }

  /** pool_update_idle on a broken connection: the queue re-homed in turn, and closed if nothing is in flight. */
  ghost predicate RehomeEnds(b: Books, max: nat, c: ConnId, b': Books, mayFail: bool) {
    && c in b.conn
    && exists mid ::
         && AllPlaced(Unqueued(b, c), max, b.conn[c].waiting, false, mid, mayFail)
         && c in mid.conn && b' == if b.conn[c].inflight == 0 then ClosedBooks(mid, c) else mid
  }

  /** How an exchange ends for its request: retried if nothing came back, else delivered. */
  ghost predicate ConcludeEnds(b: Books, max: nat, r: ReqId, nothing: bool, b': Books, mayFail: bool) {
    if nothing then PlaceEnds(b, max, r, true, b', mayFail)
    else r in b.req && exists n: nat :: CallbackEnds(Finished(b, r, true), max, n, b', mayFail)
  }

  /** The books with the exchange of `r` on `c` over and `r` in hand. */
  function EndedBooks(b: Books, c: ConnId, r: ReqId, streams: seq<ReqId>): Books
    requires c in b.conn
  {
    b.(conn := b.conn[c := Ended(b.conn[c], r, streams)])
  }

  /** A response on H1 or H2: the exchange ends, and a spent connection is marked broken. */
  ghost predicate ResponseEnds(b: Books, max: nat, c: ConnId, r: ReqId, nothing: bool, spent: bool, b': Books,
                               mayFail: bool)
  {
    && c in b.conn
    && exists mid ::
         && ConcludeEnds(EndedBooks(b, c, r, b.conn[c].streams), max, r, nothing, mid, mayFail)
         && c in mid.conn && b' == if spent then mid.(conn := mid.conn[c := mid.conn[c].(broken := true)]) else mid
  }

  /** The end of a stream on H3. */
  ghost predicate StreamEnds(b: Books, max: nat, c: ConnId, r: ReqId, nothing: bool, b': Books, mayFail: bool) {
    && c in b.conn
    && exists streams ::
         Unrouted(b.conn[c], r, streams) && ConcludeEnds(EndedBooks(b, c, r, streams), max, r, nothing, b', mayFail)
  }

  /** h3_fin set on a request. */
  function FinBooks(b: Books, r: ReqId): Books
    requires r in b.req
  {
    b.(req := b.req[r := b.req[r].(fin := true)])
  }

  /** The receive loop of `c` has unwound; a GOAWAY seen in it marks the connection broken. */
  function LeftRecv(b: Books, c: ConnId): Books
    requires c in b.conn
  {
    var k := b.conn[c];
    b.(conn := b.conn[c := k.(inRecv := false, broken := k.broken || (k.goaway && Live(b.conn, c)))])
  }

  /** The books with the queue of `c` detached. */
  function Unqueued(b: Books, c: ConnId): Books
    requires c in b.conn
  {
    b.(conn := b.conn[c := b.conn[c].(waiting := [])])
  }

  /** The books once a retry has been charged. */
  function Charged(b: Books, r: ReqId): Books
    requires r in b.req && b.req[r].retriesLeft > 0
  {
    b.(req := b.req[r := b.req[r].(retriesLeft := b.req[r].retriesLeft - 1, pc := None)])
  }

  /** pool_update_idle on a broken connection: nobody waits on it any more, and it is closed once nothing is in flight. */
  predicate Drained(k: Conn, k': Conn) {
    k' == k.(waiting := [], phase := if k.inflight == 0 then Closing else k.phase)
  }

  /** Flushed and settled: closed if broken and drained, else nobody waits in vain, and idle if nothing is in flight. */
  predicate AtRest(k: Conn) {
    || k.phase.Closing?
    || (if k.broken then k.waiting == [] && k.inflight > 0
        else (k.waiting != [] ==> !HasCapacity(k)) && (k.phase.Ready? && k.inflight == 0 ==> k.idle))
  }

  /** pool_update_idle on a healthy connection. */
  function Rested(k: Conn, now: nat): Conn {
    if k.inflight == 0 && k.phase.Ready? && !k.idle then k.(idle := true, idleSince := now) else k
  }

  /** A flushed connection comes to rest by pool_update_idle. */
  lemma ComesToRest(k: Conn, k': Conn, now: nat)
    requires k.waiting != [] ==> !HasCapacity(k)
    requires if k.phase.Closing? then k' == k else if k.broken then Drained(k, k') else k' == Rested(k, now)
    ensures AtRest(k')
  {
  }

  /** Of a queue, those at the front have gone; the others wait as before, ahead of whoever came since. */
  ghost predicate InTurn(queue: seq<ReqId>, queue': seq<ReqId>) {
    exists n :: 0 <= n <= |queue| && queue[n..] <= queue'
  }

  lemma StillWaiting(queue: seq<ReqId>, n: nat, now: seq<ReqId>, next: seq<ReqId>) returns (n': nat)
    requires n <= |queue| && queue[n..] <= now && now != [] && now[1..] <= next
    ensures n' <= |queue| && queue[n'..] <= next
  {
    if n < |queue| {
      n' := n + 1;
      assert queue[n'..] == queue[n..][1..];
    } else {
      n' := n;
    }
  }

  // ---- a burst of dispatches to one fresh origin

  ghost predicate AllShaking(b: Books, p: Proto, o: string) {
    forall c :: c in b.conn ==> UsableFor(b.conn[c], p, o) && b.conn[c].phase.Handshaking?
  }

  /** How many connections there are after one more dispatch, all of them still handshaking. */
  function Grown(p: Proto, n: nat, max: nat): nat {
    if (p.H1? || n == 0) && n < max && n < MAX_CONNS then n + 1 else n
  }

  lemma {:induction false} RosterSize(conns: seq<ConnId>)
    requires NoDup(conns)
    ensures |Items(conns)| == |conns|
  {
    if conns != [] {
      var n := |conns| - 1;
      RosterSize(conns[..n]);
      assert conns == conns[..n] + [conns[n]];
      assert Items(conns) == Items(conns[..n]) + {conns[n]};
    }
  }

  lemma ShakingCount(b: Books, p: Proto, o: string)
    requires Roster(b.conns, b.conn, b.nextConn) && AllShaking(b, p, o)
    ensures |Usables(b.conn, p, o)| == |b.conns|
  {
    RosterSize(b.conns);
    assert Items(b.conns) == Usables(b.conn, p, o);
  }

  /** While every connection is handshaking, H2 and H3 coalesce on one and H1 fans out to the cap. */
  lemma BurstChoice(b: Books, p: Proto, o: string, max: nat, how: Choice)
    requires Roster(b.conns, b.conn, b.nextConn) && AllShaking(b, p, o) && max >= 1 && Chosen(b, p, o, max, how)
    ensures if Grown(p, |b.conns|, max) > |b.conns| then how.OpenNew? else how.Coalesce? || how.QueueOn?
  {
    var reusable, any, shaking :|
      && IsFirst(reusable, b.conns, b.conn, p, o, CanServe)
      && IsFirst(any, b.conns, b.conn, p, o, IsReady)
      && IsFirst(shaking, b.conns, b.conn, p, o, IsShaking)
      && how == Choose(p, reusable, any, shaking, |Usables(b.conn, p, o)|, |b.conns|, max);
    ShakingCount(b, p, o);
    ScanMeans(reusable, any, shaking, b.conns, b.conn, p, o);
    FirstMeans(shaking, b.conns, b.conn, p, o, IsShaking);
    if b.conns != [] { assert b.conns[0] in b.conn; }
  }

  /** Every connection was opened for `o`, and keeps its first 255 bytes. */
  ghost predicate AllCut(b: Books, p: Proto, o: string)
    requires |o| > ORIGIN_MAX
  {
    forall c :: c in b.conn ==> UsableFor(b.conn[c], p, o[..ORIGIN_MAX])
  }

  /** Then none of them matches `o`, and pool_acquire opens another until conns[] is full. */
  lemma LongChoice(b: Books, p: Proto, o: string, max: nat, how: Choice)
    requires |o| > ORIGIN_MAX && Roster(b.conns, b.conn, b.nextConn) && AllCut(b, p, o) && max >= 1
    requires Chosen(b, p, o, max, how)
    ensures how == if |b.conns| < MAX_CONNS then OpenNew else Refuse
  {
    var reusable, any, shaking :|
      && IsFirst(reusable, b.conns, b.conn, p, o, CanServe)
      && IsFirst(any, b.conns, b.conn, p, o, IsReady)
      && IsFirst(shaking, b.conns, b.conn, p, o, IsShaking)
      && how == Choose(p, reusable, any, shaking, |Usables(b.conn, p, o)|, |b.conns|, max);
    ScanMeans(reusable, any, shaking, b.conns, b.conn, p, o);
    forall c | c in b.conn ensures !UsableFor(b.conn[c], p, o) {
      assert |b.conn[c].origin| == ORIGIN_MAX;
    }
    assert Usables(b.conn, p, o) == {};
  }

  lemma ShakingKept(b: Books, c: ConnId, r: ReqId, p: Proto, o: string)
    requires AllShaking(b, p, o) && c in b.conn && r in b.req
    ensures AllShaking(ParkedOn(b, c, r), p, o)
  {
  }

  lemma ShakingGrown(b: Books, r: ReqId, b': Books)
    requires r in b.req && AllShaking(b, b.req[r].proto, b.req[r].origin) && |b.req[r].origin| <= ORIGIN_MAX
    requires OpenEnds(b, r, b', false)
    ensures AllShaking(b', b.req[r].proto, b.req[r].origin) && |b'.conns| == |b.conns| + 1
  {
    var failed, streams :| !failed && streams >= 1 && b' == OpenedFor(b, r, failed, streams);
    OriginMatchesIff(b.req[r].proto, b.req[r].origin, streams);
  }

  /** One more dispatch of a burst. */
  lemma BurstStep(b: Books, max: nat, w: Work, r: ReqId, how: Choice, b': Books)
    requires Inv(b, max, w) && r in b.req && |b.req[r].origin| <= ORIGIN_MAX
    requires AllShaking(b, b.req[r].proto, b.req[r].origin) && Chosen(b, b.req[r].proto, b.req[r].origin, max, how)
    requires how.Coalesce? || how.QueueOn? ==> how.c in b.conn && b' == ParkedOn(b, how.c, r)
    requires how.OpenNew? ==> OpenEnds(b, r, b', false)
    ensures AllShaking(b', b.req[r].proto, b.req[r].origin)
    ensures |b'.conns| == Grown(b.req[r].proto, |b.conns|, max)
    ensures how.Coalesce? || how.QueueOn? || how.OpenNew?
  {
    InvFacts(b, max, w);
    BurstChoice(b, b.req[r].proto, b.req[r].origin, max, how);
    if how.OpenNew? { ShakingGrown(b, r, b'); } else { ShakingKept(b, how.c, r, b.req[r].proto, b.req[r].origin); }
  }

  class ConnPool {
    const maxPerOrigin: nat
    /** Environment switch: connecting may report failure before the call returns. */
    const connectFailsNow: bool

    var conns: seq<ConnId>          // conns[0..count]
    var conn: Conns                 // the PoolConn records
    var req: Reqs                   // the PoolReq records not yet freed
    var lost: set<ReqId>            // accounting: left on a closing connection
    var closed: seq<Conn>           // accounting: each connection's record as it began to close
    var delivered: seq<ReqId>       // accounting: callbacks fired, in order
    var legacy: seq<ReqId>          // accounting: handed to the per-request path
    var nextReq: nat
    var nextConn: nat
    var cut: set<Target>            // accounting: what a connection keeps of the longer origins dispatched

    ghost function View(): Books
      reads this
    {
      Books(conns, conn, req, lost, closed, delivered, legacy, nextReq, nextConn, cut)
    }

    ghost predicate Ok(w: Work)
      reads this
    {
      Inv(View(), maxPerOrigin, w)
    }

    /** A request in hand, not yet answered, that may be placed. */
    ghost predicate InHand(r: ReqId, w: Work, budget: nat)
      reads this
    {
      Ok(w) && r in w.hand && r !in w.answered && r in req && req[r].submits + req[r].retriesLeft <= budget
    }

    constructor (max: nat, connectFailsNow: bool)
      requires max >= 1
      ensures Ok(Rest) && maxPerOrigin == max && this.connectFailsNow == connectFailsNow
      ensures View() == Books([], map[], map[], {}, [], [], [], 0, 0, {})
    {
      maxPerOrigin, this.connectFailsNow := max, connectFailsNow;
      conns, conn, req, lost, closed := [], map[], map[], {}, [];
      delivered, legacy, nextReq, nextConn, cut := [], [], 0, 0, {};
      new;
      EmptyInv(View(), max);
    }

    // ---- placing one request

    /** pool_waiting_push, with the request's pc set to the connection. */
    method Park(c: ConnId, r: ReqId, ghost w: Work)
      requires InHand(r, w, MAX_RETRIES) && c in conn
      requires if conn[c].phase.Closing?
               then connectFailsNow && conn[c].broken && conn[c].waiting == [] && conn[c].active == []
               else Usable(conn[c]) && req[r].proto == conn[c].proto
                    && (HasCapacity(conn[c]) ==> conn[c].inRecv)
      modifies this
      ensures Ok(w.(hand := w.hand - {r})) && View() == ParkedOn(old(View()), c, r)
      ensures Usable(old(conn)[c]) ==> Steady(old(View()), View(), old(req.Keys) - {r}, connectFailsNow)
    {
      if conn[c].phase.Closing? {
        LostInv(View(), maxPerOrigin, w, c, r);
        lost := lost + {r};
        closed := closed + [Parked(conn[c], r)];
      } else {
        ParkedInv(View(), maxPerOrigin, w, c, r);
        LocalSteady(View(), ParkedOn(View(), c, r), c, r);
      }
      conn := conn[c := Parked(conn[c], r)];
      req := req[r := req[r].(pc := Some(c))];
    }

    /** pool_req_fail and the tail of every delivery: the callback fires, the request is freed. */
    method Finish(r: ReqId, ghost w: Work)
      requires Ok(w) && r in w.hand && r !in w.answered
      modifies this
      ensures Ok(w.(hand := w.hand - {r})) && View() == Finished(old(View()), r, true)
      ensures Steady(old(View()), View(), old(req.Keys) - {r}, connectFailsNow)
    {
      FinishedInv(View(), maxPerOrigin, w, r, true);
      delivered := delivered + [r];
      req := req - {r};
    }

    /** One round of the scan of pool_acquire. */
    method Look(c: ConnId, ghost cs: seq<ConnId>, p: Proto, o: string,
                reusable: Option<ConnId>, any: Option<ConnId>, shaking: Option<ConnId>)
      returns (reusable': Option<ConnId>, any': Option<ConnId>, shaking': Option<ConnId>, hit: bool)
      requires c in conn
      requires IsFirst(reusable, cs, conn, p, o, CanServe)
      requires IsFirst(any, cs, conn, p, o, IsReady)
      requires IsFirst(shaking, cs, conn, p, o, IsShaking)
      ensures IsFirst(reusable', cs + [c], conn, p, o, CanServe)
      ensures IsFirst(any', cs + [c], conn, p, o, IsReady)
      ensures IsFirst(shaking', cs + [c], conn, p, o, IsShaking)
      ensures hit <==> UsableFor(conn[c], p, o)
    {
      var k := conn[c];
      reusable', any', shaking', hit := reusable, any, shaking, UsableFor(k, p, o);
      FirstExtends(reusable, cs, conn, p, o, CanServe, c);
      FirstExtends(any, cs, conn, p, o, IsReady, c);
      FirstExtends(shaking, cs, conn, p, o, IsShaking, c);
      if hit {
        if k.phase.Handshaking? {
          if shaking.None? { shaking' := Some(c); }
        } else if k.phase.Ready? {
          if any.None? { any' := Some(c); }
          if reusable.None? && HasCapacity(k) { reusable' := Some(c); }
        }
      }
    }

    /** The scan of pool_acquire over conns[]. */
    method Scan(p: Proto, o: string)
      returns (reusable: Option<ConnId>, any: Option<ConnId>, shaking: Option<ConnId>, count: nat)
      requires Roster(conns, conn, nextConn)
      ensures IsFirst(reusable, conns, conn, p, o, CanServe)
      ensures IsFirst(any, conns, conn, p, o, IsReady)
      ensures IsFirst(shaking, conns, conn, p, o, IsShaking)
      ensures count == |Usables(conn, p, o)|
    {
      reusable, any, shaking, count := None, None, None, 0;
      for i := 0 to |conns|
        invariant IsFirst(reusable, conns[..i], conn, p, o, CanServe)
        invariant IsFirst(any, conns[..i], conn, p, o, IsReady)
        invariant IsFirst(shaking, conns[..i], conn, p, o, IsShaking)
        invariant count == |SeenFor(conns[..i], conn, p, o)|
      {
        var c := conns[i];
        assert c !in conns[..i];
        SeenExtends(conns[..i], conn, p, o, c);
        var hit;
        reusable, any, shaking, hit := Look(c, conns[..i], p, o, reusable, any, shaking);
        if hit { count := count + 1; }
        assert conns[..i + 1] == conns[..i] + [c];
      }
      assert conns[..|conns|] == conns;
      assert SeenFor(conns, conn, p, o) == Usables(conn, p, o);
    }

    /** pool_conn_open: a handshaking connection, or an already closing one if connecting failed at once. */
    method Open(p: Proto, o: string, ghost w: Work) returns (c: ConnId)
      requires Ok(w) && |conns| < MAX_CONNS
      requires |Usables(conn, p, o)| < maxPerOrigin && (|o| > ORIGIN_MAX ==> (p, o[..ORIGIN_MAX]) in cut)
      modifies this
      ensures Ok(w) && c == old(nextConn) && c in conn && c !in old(conn)
      ensures conn[c] == NewConn(p, o, conn[c].phase.Closing?, conn[c].maxStreams) && conn[c].maxStreams >= 1
      ensures conn[c].phase.Closing? ==> connectFailsNow
      ensures View() == OpenedConn(old(View()), conn[c])
    {
      var failed: bool := *;
      var streams: nat :| streams >= 1;
      failed := failed && connectFailsNow;
      var k := NewConn(p, o, failed, streams);
      assert |o| <= ORIGIN_MAX ==> k.origin == o;
      OpenedInv(View(), maxPerOrigin, w, k);
      c := nextConn;
      conns := conns + [c];
      conn := conn[c := k];
      nextConn := nextConn + 1;
    }

    /** PATH 3 of pool_acquire: the request waits on a connection opened for it. */
    method OpenFor(r: ReqId, ghost w: Work)
      requires InHand(r, w, MAX_RETRIES) && |conns| < MAX_CONNS
      requires |Usables(conn, req[r].proto, req[r].origin)| < maxPerOrigin
      modifies this
      ensures Ok(w.(hand := w.hand - {r}))
      ensures Steady(old(View()), View(), old(req.Keys) - {r}, connectFailsNow)
      ensures OpenEnds(old(View()), r, View(), connectFailsNow)
    {
      ghost var was := View();
      InvFacts(was, maxPerOrigin, w);
      var c := Open(req[r].proto, req[r].origin, w);
      OpenedSteady(was, conn[c], r, connectFailsNow);
      ghost var failed, streams := conn[c].phase.Closing?, conn[c].maxStreams;
      Park(c, r, w);
      assert View() == OpenedFor(was, r, failed, streams);
    }

    /** The scan and the choice of pool_acquire. */
    method Pick(p: Proto, o: string) returns (how: Choice)
      requires Roster(conns, conn, nextConn)
      ensures Chosen(View(), p, o, maxPerOrigin, how)
    {
      var reusable, any, shaking, count := Scan(p, o);
      how := Choose(p, reusable, any, shaking, count, |conns|, maxPerOrigin);
    }

    /** pool_acquire: find or open a connection for a request in hand. `fired` says its callback ran. */
    method Acquire(r: ReqId, ghost w: Work) returns (fired: bool, ghost how: Choice)
      requires InHand(r, w, MAX_RETRIES)
      modifies this
      ensures Ok(w.(hand := w.hand - {r}))
      ensures Steady(old(View()), View(), old(req.Keys) - {r}, connectFailsNow)
      ensures nextReq == old(nextReq) && cut == old(cut)
      ensures Acquired(old(View()), maxPerOrigin, r, how, fired, View(), connectFailsNow)
      ensures if fired then r in delivered else r in req && req[r].retriesLeft <= old(req[r]).retriesLeft
      decreases req[r].retriesLeft, 3
    {
      InvFacts(View(), maxPerOrigin, w);
      var p, o := req[r].proto, req[r].origin;
      var choice := Pick(p, o);
      ChosenFits(View(), p, o, maxPerOrigin, choice);
      how := choice;
      fired := false;
      match choice {
        case Reuse(c) => fired := Submit(c, r, w);
        case Coalesce(c) => Park(c, r, w);
        case OpenNew => OpenFor(r, w);
        case Overload(c) => fired := Submit(c, r, w);
        case QueueOn(c) => Park(c, r, w);
        case Refuse =>
          Finish(r, w);
          fired := true;
      }
    }

    /** pool_submit: defer inside the receive loop, park past H3's capacity, else open a stream. */
    method Submit(c: ConnId, r: ReqId, ghost w: Work) returns (fired: bool)
      requires InHand(r, w, MAX_RETRIES)
      requires c in conn && conn[c].phase.Ready? && !conn[c].broken && conn[c].proto == req[r].proto
      requires conn[c].proto.H1? ==> HasCapacity(conn[c])
      modifies this
      ensures Ok(w.(hand := w.hand - {r}))
      ensures Steady(old(View()), View(), old(req.Keys) - {r}, connectFailsNow)
      ensures nextReq == old(nextReq) && cut == old(cut)
      ensures SubmitEnds(old(View()), maxPerOrigin, c, r, fired, View(), connectFailsNow)
      ensures if fired then r in delivered else r in req && req[r].retriesLeft <= old(req[r]).retriesLeft
      decreases req[r].retriesLeft, 2
    {
      fired := false;
      if conn[c].inRecv || (conn[c].proto.H3? && !HasCapacity(conn[c])) {
        Park(c, r, w);
      } else if conn[c].proto.H3? {
        fired := SubmitStream(c, r, w);
      } else {
        fired := SubmitPlain(c, r, w);
      }
    }

    /** Every submit counts against the request's bound of 1 + POOL_MAX_RETRIES. */
    method CountSubmit(c: ConnId, r: ReqId, ghost w: Work)
      requires InHand(r, w, MAX_RETRIES) && c in conn && Usable(conn[c])
      modifies this
      ensures View() == Counted(old(View()), c, r) && InHand(r, w, MAX_RETRIES + 1)
      ensures Steady(old(View()), View(), old(req.Keys) - {r}, connectFailsNow)
    {
      ghost var was := View();
      var q := req[r].(pc := Some(c), submits := req[r].submits + 1);
      RewrittenInv(was, maxPerOrigin, w, r, q);
      req := req[r := q];
      RewriteSteady(was, View(), r, q, connectFailsNow);
    }

    /** pool_h1_submit and pool_h2_submit, never while `c` is in its receive loop: a stream, or the error at once. */
    method SubmitPlain(c: ConnId, r: ReqId, ghost w: Work) returns (fired: bool)
      requires InHand(r, w, MAX_RETRIES)
      requires c in conn && conn[c].phase.Ready? && !conn[c].broken && conn[c].proto == req[r].proto
      requires !conn[c].inRecv && !conn[c].proto.H3? && (conn[c].proto.H2? || HasCapacity(conn[c]))
      modifies this
      ensures Ok(w.(hand := w.hand - {r}))
      ensures Steady(old(View()), View(), old(req.Keys) - {r}, connectFailsNow)
      ensures View() == if fired then Finished(Counted(old(View()), c, r), r, true) else Submitted(old(View()), c, r)
    {
      var opens: bool := *;
      ghost var was := View();
      CountSubmit(c, r, w);
      ghost var mid := View();
      fired := !opens;
      if opens {
        Start(c, r, w);
      } else {
        Finish(r, w);
      }
      SteadyTrans(was, mid, View(), was.req.Keys - {r}, mid.req.Keys - {r}, connectFailsNow);
    }

    /** pool_h3_submit, never while `c` is in its receive loop: a stream, or a retry. */
    method SubmitStream(c: ConnId, r: ReqId, ghost w: Work) returns (fired: bool)
      requires InHand(r, w, MAX_RETRIES)
      requires c in conn && conn[c].phase.Ready? && !conn[c].broken && conn[c].proto == req[r].proto
      requires !conn[c].inRecv && conn[c].proto.H3? && HasCapacity(conn[c])
      modifies this
      ensures Ok(w.(hand := w.hand - {r}))
      ensures Steady(old(View()), View(), old(req.Keys) - {r}, connectFailsNow)
      ensures nextReq == old(nextReq) && cut == old(cut)
      ensures SubmitEnds(old(View()), maxPerOrigin, c, r, fired, View(), connectFailsNow)
      ensures if fired then r in delivered else r in req && req[r].retriesLeft <= old(req[r]).retriesLeft
      decreases req[r].retriesLeft, 1
    {
      var opens: bool := *;
      ghost var was := View();
      CountSubmit(c, r, w);
      ghost var mid := View();
      if opens {
        ghost var how;
        fired, how := FillStream(c, r, w);
      } else {
        ghost var how;
        fired, how := RetryOrFail(r, w);
      }
      SteadyTrans(was, mid, View(), was.req.Keys - {r}, mid.req.Keys - {r}, connectFailsNow);
    }

    /** pool_after_submit, with the H3 routing table kept in step. */
    method Start(c: ConnId, r: ReqId, ghost w: Work)
      requires InHand(r, w, MAX_RETRIES + 1) && req[r].pc == Some(c)
      requires c in conn && conn[c].phase.Ready? && !conn[c].broken && conn[c].proto == req[r].proto
      requires conn[c].proto.H2? || HasCapacity(conn[c])
      requires conn[c].proto.H3? ==> FreshId(View(), c, req[r].streamId)
      modifies this
      ensures Ok(w.(hand := w.hand - {r}))
      ensures View() == old(View()).(conn := old(conn)[c := Started(old(conn)[c], r)])
      ensures Steady(old(View()), View(), old(req.Keys) - {r}, false)
    {
      ghost var was := View();
      StartedInv(was, maxPerOrigin, w, c, r);
      conn := conn[c := Started(conn[c], r)];
      LocalSteady(was, View(), c, r);
    }

    /** The request stream of pool_h3_submit: the connection's next id, never used before. */
    method OpenStream(c: ConnId, r: ReqId, ghost w: Work)
      requires InHand(r, w, MAX_RETRIES + 1) && req[r].pc == Some(c)
      requires c in conn && conn[c].proto.H3? && HasCapacity(conn[c])
      modifies this
      ensures View() == StreamOpened(old(View()), c, r)
      ensures InHand(r, w, MAX_RETRIES + 1) && FreshId(View(), c, req[r].streamId)
      ensures Steady(old(View()), View(), old(req.Keys) - {r}, connectFailsNow)
    {
      ghost var was := View();
      req := req[r := req[r].(streamId := conn[c].nextStream)];
      conn := conn[c := conn[c].(nextStream := conn[c].nextStream + 4)];
      StreamOpenedInv(was, maxPerOrigin, w, c, r, View());
      LocalSteady(was, View(), c, r);
    }

    /** The rest of pool_h3_submit once the request stream is open: its id is fresh on the connection. */
    method FillStream(c: ConnId, r: ReqId, ghost w: Work) returns (fired: bool, ghost how: Choice)
      requires InHand(r, w, MAX_RETRIES + 1) && req[r].pc == Some(c)
      requires c in conn && conn[c].proto.H3? && HasCapacity(conn[c]) && req[r].proto.H3?
      modifies this
      ensures Ok(w.(hand := w.hand - {r}))
      ensures Steady(old(View()), View(), old(req.Keys) - {r}, connectFailsNow)
      ensures nextReq == old(nextReq) && cut == old(cut)
      ensures || (!fired && View() == Streamed(old(View()), c, r))
              || RetryEnds(StreamOpened(old(View()), c, r), maxPerOrigin, r, how, fired, View(), connectFailsNow)
      ensures if fired then r in delivered else r in req && req[r].retriesLeft <= old(req[r]).retriesLeft
      decreases req[r].retriesLeft, 0, 1
    {
      var encodes: bool := *;
      ghost var was := View();
      OpenStream(c, r, w);
      ghost var mid := View();
      fired, how := false, Refuse;
      if !encodes {
        fired, how := RetryOrFail(r, w);
      } else {
        Start(c, r, w);
      }
      SteadyTrans(was, mid, View(), was.req.Keys - {r}, mid.req.Keys - {r}, connectFailsNow);
    }

    /** One retry off the budget, and no connection named. */
    method Charge(r: ReqId, ghost w: Work)
      requires InHand(r, w, MAX_RETRIES + 1) && req[r].retriesLeft > 0
      modifies this
      ensures View() == Charged(old(View()), r) && InHand(r, w, MAX_RETRIES)
      ensures Steady(old(View()), View(), old(req.Keys) - {r}, connectFailsNow)
    {
      ghost var was := View();
      var q := req[r].(retriesLeft := req[r].retriesLeft - 1, pc := None);
      RewrittenInv(was, maxPerOrigin, w, r, q);
      req := req[r := q];
      RewriteSteady(was, View(), r, q, connectFailsNow);
    }

    /** pool_req_retry_or_fail: another connection while the budget lasts, else the error. */
    method RetryOrFail(r: ReqId, ghost w: Work) returns (fired: bool, ghost how: Choice)
      requires InHand(r, w, MAX_RETRIES + 1)
      modifies this
      ensures RetryEnds(old(View()), maxPerOrigin, r, how, fired, View(), connectFailsNow)
      ensures if fired then r in delivered else r in req && req[r].retriesLeft < old(req[r]).retriesLeft
      ensures Ok(w.(hand := w.hand - {r}))
      ensures Steady(old(View()), View(), old(req.Keys) - {r}, connectFailsNow)
      ensures nextReq == old(nextReq) && cut == old(cut)
      decreases req[r].retriesLeft, 0, 0
    {
      if req[r].retriesLeft > 0 && !req[r].responded {
        ghost var was := View();
        Charge(r, w);
        ghost var mid := View();
        fired, how := Acquire(r, w);
        SteadyTrans(was, mid, View(), was.req.Keys - {r}, mid.req.Keys - {r}, connectFailsNow);
      } else {
        Finish(r, w);
        fired, how := true, Refuse;
      }
    }

    /** The request record of pool_dispatch. */
    method Accept(p: Proto, o: string, ghost w: Work) returns (r: ReqId)
      requires Ok(w)
      modifies this
      ensures r == old(nextReq) && r !in old(req) && InHand(r, w.(hand := w.hand + {r}), MAX_RETRIES)
      ensures View() == Accepted(old(View()), NewReq(p, o))
      ensures Steady(old(View()), View(), old(req.Keys), connectFailsNow)
      ensures w.hand + {r} - {r} == w.hand
    {
      ghost var was := View();
      var q := NewReq(p, o);
      AcceptedInv(was, maxPerOrigin, w, q);
      InvFacts(was, maxPerOrigin, w);
      r := nextReq;
      req := req[r := q];
      nextReq := nextReq + 1;
      cut := Cuts(cut, p, o);
      assert r !in w.hand;
    }

    /** pool_dispatch of a well-formed https request. */
    method Dispatch(p: Proto, o: string, ghost w: Work) returns (fired: bool, ghost how: Choice)
      requires Ok(w)
      modifies this
      ensures Ok(w) && Steady(old(View()), View(), old(req.Keys), connectFailsNow)
      ensures nextReq == old(nextReq) + 1 && cut == Cuts(old(cut), p, o)
      ensures Acquired(Accepted(old(View()), NewReq(p, o)), maxPerOrigin,
                       old(nextReq), how, fired, View(), connectFailsNow)
      ensures !connectFailsNow && |o| <= ORIGIN_MAX && old(AllShaking(View(), p, o)) ==>
                AllShaking(View(), p, o) && !fired && |conns| == Grown(p, |old(conns)|, maxPerOrigin)
    {
      ghost var was := View();
      var r := Accept(p, o, w);
      ghost var mid := View();
      fired, how := Acquire(r, w.(hand := w.hand + {r}));
      SteadyTrans(was, mid, View(), was.req.Keys, mid.req.Keys - {r}, connectFailsNow);
      if !connectFailsNow && |o| <= ORIGIN_MAX && AllShaking(was, p, o) {
        BurstStep(mid, maxPerOrigin, w.(hand := w.hand + {r}), r, how, View());
      }
    }

    /** A response callback: any number of dispatches, and whatever their own failing callbacks dispatch. */
    method Callback(ghost w: Work) returns (ghost count: nat)
      requires Ok(w)
      modifies this
      ensures Ok(w) && Steady(old(View()), View(), old(req.Keys), connectFailsNow)
      ensures CallbackEnds(old(View()), maxPerOrigin, count, View(), connectFailsNow)
    {
      var n: nat :| true;
      count := n;
      DispatchMany(n, w);
    }

    method DispatchMany(n: nat, ghost w: Work)
      requires Ok(w)
      modifies this
      ensures Ok(w) && Steady(old(View()), View(), old(req.Keys), connectFailsNow)
      ensures CallbackEnds(old(View()), maxPerOrigin, n, View(), connectFailsNow)
    {
      ghost var was := View();
      if n == 0 {
        SteadyRefl(was, was.req.Keys, connectFailsNow);
      } else {
        DispatchMany(n - 1, w);
        ghost var mid := View();
        DispatchAny(w);
        SteadyTrans(was, mid, View(), was.req.Keys, mid.req.Keys, connectFailsNow);
        CallbackStep(was, maxPerOrigin, n - 1, mid, View(), connectFailsNow);
      }
    }

    method DispatchAny(ghost w: Work)
      requires Ok(w)
      modifies this
      ensures Ok(w) && Steady(old(View()), View(), old(req.Keys), connectFailsNow)
      ensures DispatchEnds(old(View()), maxPerOrigin, View(), connectFailsNow)
    {
      var p: Proto, o: string := *, *;
      ghost var was := View();
      var fired, how := Dispatch(p, o, w);
      DispatchMeans(was, maxPerOrigin, p, o, how, fired, View(), connectFailsNow);
    }

    /**
     The loops of pool_conn_fail_all and pool_update_idle over a detached list:
     place every request again, charging a retry or not, callbacks running in between.
     */
    method PlaceEach(todo: seq<ReqId>, charge: bool, ghost w: Work)
      requires Ok(w) && w.answered == {} && Items(todo) <= w.hand
      requires Placeable(View(), todo, MAX_RETRIES + if charge then 1 else 0)
      modifies this
      ensures Ok(w.(hand := w.hand - Items(todo)))
      ensures Steady(old(View()), View(), old(req.Keys) - Items(todo), connectFailsNow)
      ensures AllPlaced(old(View()), maxPerOrigin, todo, charge, View(), connectFailsNow)
    {
      ghost var was := View();
      ghost var keep := was.req.Keys - Items(todo);
      ghost var v := w;
      SteadyRefl(was, keep, connectFailsNow);
      for i := 0 to |todo|
        invariant v == w.(hand := w.hand - Items(todo[..i])) && Ok(v)
        invariant Steady(was, View(), keep, connectFailsNow)
        invariant forall j :: i <= j < |todo| ==> todo[j] in req && req[todo[j]] == was.req[todo[j]]
        invariant AllPlaced(was, maxPerOrigin, todo[..i], charge, View(), connectFailsNow)
      {
        ghost var r, mid := todo[i], View();
        NextInHand(todo, i, w.hand);
        PlaceNext(todo[i], charge, v);
        v := v.(hand := v.hand - {r});
        SteadyTrans(was, mid, View(), keep, mid.req.Keys - {r}, connectFailsNow);
        AllPlacedStep(was, maxPerOrigin, todo[..i], charge, mid, r, View(), connectFailsNow);
        forall j | i + 1 <= j < |todo| ensures todo[j] in req && req[todo[j]] == was.req[todo[j]] {
          assert todo[j] in mid.req.Keys - {r};
        }
      }
      assert todo[..|todo|] == todo;
    }

    /** One of them, with the callback it may have run. */
    method PlaceNext(r: ReqId, charge: bool, ghost w: Work)
      requires InHand(r, w, MAX_RETRIES + if charge then 1 else 0) && w.answered == {}
      modifies this
      ensures Ok(w.(hand := w.hand - {r}))
      ensures Steady(old(View()), View(), old(req.Keys) - {r}, connectFailsNow)
      ensures PlaceEnds(old(View()), maxPerOrigin, r, charge, View(), connectFailsNow)
    {
      ghost var was, n := View(), 0;
      var fired, how := PlaceOne(r, charge, w);
      ghost var mid := View();
      if fired {
        n := Callback(w.(hand := w.hand - {r}));
        SteadyTrans(was, mid, View(), was.req.Keys - {r}, mid.req.Keys, connectFailsNow);
      }
      PlaceMeans(was, maxPerOrigin, r, charge, how, fired, mid, n, View(), connectFailsNow);
    }

    method PlaceOne(r: ReqId, charge: bool, ghost w: Work) returns (fired: bool, ghost how: Choice)
      requires InHand(r, w, MAX_RETRIES + if charge then 1 else 0)
      modifies this
      ensures Ok(w.(hand := w.hand - {r}))
      ensures Steady(old(View()), View(), old(req.Keys) - {r}, connectFailsNow)
      ensures PlacedAs(old(View()), maxPerOrigin, r, charge, how, fired, View(), connectFailsNow)
    {
      if charge {
        fired, how := RetryOrFail(r, w);
      } else {
        var q := req[r].(pc := None);
        ghost var was := View();
        RewrittenInv(was, maxPerOrigin, w, r, q);
        req := req[r := q];
        ghost var mid := View();
        RewriteSteady(was, mid, r, q, connectFailsNow);
        fired, how := Acquire(r, w);
        SteadyTrans(was, mid, View(), was.req.Keys - {r}, mid.req.Keys - {r}, connectFailsNow);
      }
    }

    // ---- what runs after an event

    /** pool_flush_waiting: submit queued requests while the connection has capacity. */
    method Flush(c: ConnId, ghost w: Work)
      requires Ok(w) && c in w.busy && w.answered == {} && w.hand == {} && c in conn && !conn[c].inRecv
      modifies this
      ensures Ok(w) && Calm(old(View()), View(), connectFailsNow)
      ensures c in conn && (conn[c].waiting != [] ==> !HasCapacity(conn[c]))
      ensures InTurn(old(conn)[c].waiting, conn[c].waiting)
    {
      ghost var was := View();
      ghost var n: nat := 0;
      while conn[c].waiting != [] && HasCapacity(conn[c])
        invariant Ok(w) && c in conn && SameRole(was.conn[c], conn[c]) && Calm(was, View(), connectFailsNow)
        invariant n <= |was.conn[c].waiting| && was.conn[c].waiting[n..] <= conn[c].waiting
        decreases if HasCapacity(conn[c]) then |conn[c].waiting| else 0
      {
        ghost var top := View();
        FlushOne(c, w);
        CalmTrans(was, top, View(), connectFailsNow);
        n := StillWaiting(was.conn[c].waiting, n, top.conn[c].waiting, conn[c].waiting);
      }
    }

    method FlushOne(c: ConnId, ghost w: Work)
      requires Ok(w) && c in w.busy && w.answered == {} && w.hand == {} && c in conn && !conn[c].inRecv
      requires conn[c].waiting != [] && HasCapacity(conn[c])
      modifies this
      ensures Ok(w) && Calm(old(View()), View(), connectFailsNow)
      ensures c in conn && (HasCapacity(conn[c]) ==> |conn[c].waiting| < |old(conn[c].waiting)|)
      ensures old(conn)[c].waiting[1..] <= conn[c].waiting
    {
      ghost var was := View();
      var r := conn[c].waiting[0];
      conn := conn[c := conn[c].(waiting := conn[c].waiting[1..])];
      ghost var mid := View();
      PoppedInv(was, maxPerOrigin, w, c, mid);
      assert Calm(was, mid, connectFailsNow);
      var fired := Submit(c, r, w.(hand := w.hand + {r}));
      CalmTrans(was, mid, View(), connectFailsNow);
      assert w.hand + {r} - {r} == w.hand;
      ghost var late := View();
      assert HasCapacity(conn[c]) ==> conn[c].waiting == mid.conn[c].waiting;
      if fired {
        var _ := Callback(w);
        CalmTrans(was, late, View(), connectFailsNow);
      }
    }

    /** pool_close_conn. */
    method Close(c: ConnId, ghost w: Work)
      requires Ok(w) && c in conn && (Live(conn, c) ==> OnLists(conn[c]) == {} || Fatal(conn[c]))
      modifies this
      ensures Ok(w.(busy := w.busy - {c}))
      ensures View() == if old(conn[c]).phase.Closing? then old(View()) else ClosedBooks(old(View()), c)
    {
      if !conn[c].phase.Closing? {
        ClosedInv(View(), maxPerOrigin, w, c);
        lost := lost + OnLists(conn[c]);
        closed := closed + [conn[c]];
        conn := conn[c := conn[c].(phase := Closing)];
      }
      SettledInv(View(), maxPerOrigin, w, c);
    }

    /**
     pool_conn_fail_all: every request of a dead connection is retried elsewhere or failed. None
     is lost, unless connecting may fail at once: a retry may then be queued on such a connection.
     */
    method FailAll(c: ConnId, ghost w: Work)
      requires Ok(w) && w.hand == {} && w.answered == {} && c in conn
      modifies this
      ensures Ok(w.(busy := w.busy - {c})) && CalmBut(old(View()), View(), c, connectFailsNow)
      ensures conn[c] == if old(conn)[c].phase.Closing? then old(conn)[c] else Emptied(old(conn)[c])
      ensures if old(conn)[c].phase.Closing? then View() == old(View())
              else FailEnds(old(View()), maxPerOrigin, c, View(), connectFailsNow)
    {
      if conn[c].phase.Closing? {
        SettledInv(View(), maxPerOrigin, w, c);
        return;
      }
      ghost var was := View();
      var active, waiting := conn[c].active, conn[c].waiting;
      closed := closed + [Detached(conn[c])];
      conn := conn[c := Emptied(conn[c])];
      ghost var mid := View();
      EmptiedInv(was, maxPerOrigin, w, c, mid);
      ghost var v := w.(hand := w.hand + OnLists(was.conn[c]));
      assert Items(active) <= v.hand && Items(waiting) <= v.hand;
      PlaceEach(active, true, v);
      v := v.(hand := v.hand - Items(active));
      ghost var late := View();
      forall r | r in waiting ensures r in req && req[r] == mid.req[r] {
        assert r in Items(waiting) && r in mid.req.Keys - Items(active);
      }
      PlaceEach(waiting, true, v);
      assert v.hand - Items(waiting) == {};
      CalmTrans(mid, late, View(), connectFailsNow);
      CalmButAfter(was, mid, View(), c, connectFailsNow);
      SettledInv(View(), maxPerOrigin, w, c);
    }

    /** pool_update_idle: re-home the queue of a broken connection and close it once drained, else mark it idle. */
    method UpdateIdle(c: ConnId, now: nat, ghost w: Work)
      requires Ok(w) && w.hand == {} && w.answered == {} && c in w.busy && c in conn && !conn[c].inRecv
      requires Usable(conn[c]) ==> (conn[c].waiting != [] ==> !HasCapacity(conn[c])) && !conn[c].goaway
      modifies this
      ensures Ok(w.(busy := w.busy - {c})) && CalmBut(old(View()), View(), c, connectFailsNow)
      ensures var k := old(conn)[c];
        if k.phase.Closing? then View() == old(View())
        else if k.broken then
          Drained(k, conn[c]) && RehomeEnds(old(View()), maxPerOrigin, c, View(), connectFailsNow)
        else View() == old(View()).(conn := old(conn)[c := Rested(k, now)])
      ensures !conn[c].inRecv
    {
      if conn[c].phase.Closing? {
        SettledInv(View(), maxPerOrigin, w, c);
        return;
      }
      if conn[c].broken {
        Rehome(c, w);
      } else {
        if conn[c].inflight == 0 && conn[c].phase.Ready? && !conn[c].idle {
          var k := conn[c].(idle := true, idleSince := now);
          RetouchedInv(View(), maxPerOrigin, w, c, k);
          conn := conn[c := k];
        }
        SettledInv(View(), maxPerOrigin, w, c);
      }
    }

    method Rehome(c: ConnId, ghost w: Work)
      requires Ok(w) && w.hand == {} && w.answered == {} && c in w.busy && Live(conn, c)
      requires conn[c].broken && !conn[c].inRecv
      modifies this
      ensures Ok(w.(busy := w.busy - {c})) && CalmBut(old(View()), View(), c, connectFailsNow)
      ensures Drained(old(conn)[c], conn[c])
      ensures RehomeEnds(old(View()), maxPerOrigin, c, View(), connectFailsNow)
    {
      ghost var was := View();
      var todo := conn[c].waiting;
      conn := conn[c := conn[c].(waiting := [])];
      ghost var mid := View();
      UnparkedInv(was, maxPerOrigin, w, c, mid);
      ghost var v := w.(hand := w.hand + Items(todo));
      PlaceEach(todo, false, v);
      assert v.hand - Items(todo) == {};
      assert conn[c] == mid.conn[c];
      ghost var late := View();
      CalmButAfter(was, mid, late, c, connectFailsNow);
      CloseIfDrained(c, w);
      CalmButTrans(was, late, View(), c, connectFailsNow);
    }

    method CloseIfDrained(c: ConnId, ghost w: Work)
      requires Ok(w) && Live(conn, c) && conn[c].broken && conn[c].waiting == []
      modifies this
      ensures Ok(w.(busy := w.busy - {c})) && CalmBut(old(View()), View(), c, connectFailsNow)
      ensures Drained(old(conn)[c], conn[c])
      ensures View() == if old(conn)[c].inflight == 0 then ClosedBooks(old(View()), c) else old(View())
    {
      ConnFacts(View(), maxPerOrigin, w, c);
      if conn[c].inflight == 0 {
        assert OnLists(conn[c]) == {};
        Close(c, w);
      } else {
        SettledInv(View(), maxPerOrigin, w, c);
      }
    }

    // ---- events: handshake

    /** pool_h{1,2,3}_on_ready. `agreed`: the ALPN fits; `started`: the session could be set up. */
    method OnReady(c: ConnId, ok: bool, agreed: bool, started: bool)
      requires Ok(Rest) && c in conn && (ok ==> conn[c].phase.Handshaking?)
      modifies this
      ensures Ok(Rest) && Safe(old(View()), View(), connectFailsNow)
      ensures c in conn
      ensures conn[c].phase == if ok && agreed && (started || old(conn)[c].proto.H1?) then Ready else Closing
      ensures conn[c].phase.Ready? && !conn[c].inRecv && conn[c].waiting != [] ==> !HasCapacity(conn[c])
      ensures ok && !agreed && old(conn)[c].proto.H2? && !connectFailsNow ==> legacy == old(legacy) + old(conn)[c].waiting
      ensures Live(old(conn), c) && conn[c].phase.Closing? && !(ok && !agreed && old(conn)[c].proto.H2?) ==>
                FailEnds(old(View()), maxPerOrigin, c, View(), connectFailsNow)
    {
      ghost var was := View();
      if ok && !agreed && conn[c].proto.H2? {
        FallbackLegacy(c);
      } else if !ok || !agreed || (!started && !conn[c].proto.H1?) {
        FailAll(c, Rest);
        assert Rest.(busy := Rest.busy - {c}) == Rest;
        CalmButIsSafe(was, View(), c, connectFailsNow);
      } else {
        GoReady(c);
      }
    }

    method GoReady(c: ConnId)
      requires Ok(Rest) && c in conn && conn[c].phase.Handshaking?
      modifies this
      ensures Ok(Rest) && Safe(old(View()), View(), connectFailsNow)
      ensures c in conn && conn[c].phase.Ready?
      ensures !conn[c].inRecv && conn[c].waiting != [] ==> !HasCapacity(conn[c])
    {
      ghost var was := View();
      ghost var w := Rest.(busy := {c});
      ConnFacts(was, maxPerOrigin, Rest, c);
      BusyInv(was, maxPerOrigin, Rest, c);
      assert Rest.(busy := Rest.busy + {c}) == w;
      RetouchedInv(was, maxPerOrigin, w, c, conn[c].(phase := Ready));
      conn := conn[c := conn[c].(phase := Ready)];
      ghost var mid := View();
      assert Calm(mid, mid, connectFailsNow);
      if !conn[c].inRecv {
        Flush(c, w);
      }
      CalmButAfter(was, mid, View(), c, connectFailsNow);
      CalmButIsSafe(was, View(), c, connectFailsNow);
      SettledInv(View(), maxPerOrigin, w, c);
      assert w.(busy := w.busy - {c}) == Rest;
    }

    /** pool_conn_fallback_legacy: the queue goes to the per-request path, the connection is dropped. */
    method FallbackLegacy(c: ConnId)
      requires Ok(Rest) && c in conn && conn[c].phase.Handshaking? && conn[c].proto.H2?
      modifies this
      ensures Ok(Rest) && Safe(old(View()), View(), connectFailsNow)
      ensures c in conn && closed != [] && closed[|closed| - 1].phase.Handshaking?
      ensures conn[c] == closed[|closed| - 1].(phase := Closing, broken := true)
      ensures forall r :: r in conn[c].waiting ==> r !in old(req)
      ensures forall r :: r in old(conn)[c].waiting ==> r in legacy
      ensures !connectFailsNow ==> legacy == old(legacy) + old(conn)[c].waiting
    {
      ghost var was := View();
      HandOverQueue(c);
      ghost var late := View();
      DropBroken(c);
      CalmButTrans(was, late, View(), c, connectFailsNow);
      CalmButIsSafe(was, View(), c, connectFailsNow);
    }

    /** The queue is detached and handed over; whoever is queued afterwards came in between. */
    method HandOverQueue(c: ConnId)
      requires Ok(Rest) && c in conn && conn[c].phase.Handshaking? && conn[c].proto.H2?
      modifies this
      ensures Ok(Rest) && CalmBut(old(View()), View(), c, connectFailsNow)
      ensures c in conn && conn[c].phase.Handshaking? && conn[c].proto.H2?
      ensures forall r :: r in conn[c].waiting ==> r !in old(req)
      ensures forall r :: r in old(conn)[c].waiting ==> r in legacy
      ensures !connectFailsNow ==> conn[c].waiting == [] && legacy == old(legacy) + old(conn)[c].waiting
      ensures HandOverEnds(Unqueued(old(View()), c), maxPerOrigin, old(conn)[c].waiting, View(), connectFailsNow)
    {
      ghost var was := View();
      ConnFacts(was, maxPerOrigin, Rest, c);
      var todo := conn[c].waiting;
      conn := conn[c := conn[c].(waiting := [])];
      ghost var mid := View();
      UnparkedInv(was, maxPerOrigin, Rest, c, mid);
      ghost var v := Rest.(hand := Items(todo));
      assert Rest.hand + Items(todo) == Items(todo);
      HandOver(todo, v);
      assert v.(hand := {}) == Rest;
      ghost var late := View();
      CalmButAfter(was, mid, late, c, connectFailsNow);
      forall r | r in conn[c].waiting ensures r !in was.req {
        RidersAreNew(was, late, maxPerOrigin, c, r);
      }
    }

    /** Marks the connection broken and closes it, with whoever was queued on it during the hand-over. */
    method DropBroken(c: ConnId)
      requires Ok(Rest) && c in conn && conn[c].phase.Handshaking? && conn[c].proto.H2?
      requires !connectFailsNow ==> conn[c].waiting == []
      modifies this
      ensures Ok(Rest) && CalmBut(old(View()), View(), c, connectFailsNow)
      ensures var k := old(conn)[c];
        View() == ClosedBooks(old(View()), c).(conn := old(conn)[c := k.(phase := Closing, broken := true)])
      ensures closed != [] && closed[|closed| - 1] == old(conn)[c] && legacy == old(legacy)
      ensures conn[c] == old(conn)[c].(phase := Closing, broken := true)
    {
      ghost var was := View();
      ConnFacts(was, maxPerOrigin, Rest, c);
      assert Rest.(busy := Rest.busy - {c}) == Rest;
      Close(c, Rest);
      ClosingInv(View(), maxPerOrigin, Rest, c, conn[c].(broken := true));
      conn := conn[c := conn[c].(broken := true)];
      DroppedCalm(was, View(), c, connectFailsNow);
    }

    /** The loop of pool_conn_fallback_legacy. */
    method HandOver(todo: seq<ReqId>, ghost w: Work)
      requires Ok(w) && NoDup(todo) && w.hand == Items(todo) && w.answered == {}
      modifies this
      ensures Ok(w.(hand := {})) && Steady(old(View()), View(), old(req.Keys) - Items(todo), connectFailsNow)
      ensures forall r :: r in todo ==> r in legacy
      ensures !connectFailsNow ==> conn == old(conn) && legacy == old(legacy) + todo
      ensures HandOverEnds(old(View()), maxPerOrigin, todo, View(), connectFailsNow)
    {
      ghost var was := View();
      ghost var v, keep := w, was.req.Keys - Items(todo);
      SteadyRefl(was, keep, connectFailsNow);
      for i := 0 to |todo|
        invariant v == w.(hand := w.hand - Items(todo[..i])) && Ok(v) && Steady(was, View(), keep, connectFailsNow)
        invariant forall r :: r in todo[..i] ==> r in legacy
        invariant HandOverEnds(was, maxPerOrigin, todo[..i], View(), connectFailsNow)
      {
        ghost var r, top := todo[i], View();
        NextInHand(todo, i, w.hand);
        HandOne(todo[i], v);
        HandOverStep(was, maxPerOrigin, todo[..i], top, r, View(), connectFailsNow);
        v := v.(hand := v.hand - {r});
        SteadyTrans(was, top, View(), keep, top.req.Keys - {r}, connectFailsNow);
        PrefixKeeps(top.legacy + [r], legacy);
      }
      assert todo[..|todo|] == todo && w.hand - Items(todo) == {};
      if !connectFailsNow { HandOverKeeps(was, maxPerOrigin, todo, View()); }
    }

    /** One request starts over on the per-request path; a start that fails at once runs the callback at once. */
    method HandOne(r: ReqId, ghost w: Work)
      requires Ok(w) && r in w.hand && w.answered == {}
      modifies this
      ensures Ok(w.(hand := w.hand - {r})) && Steady(old(View()), View(), old(req.Keys) - {r}, connectFailsNow)
      ensures old(legacy) + [r] <= legacy
      ensures HandOneEnds(old(View()), maxPerOrigin, r, View(), connectFailsNow)
    {
      ghost var was, n := View(), 0;
      FinishedInv(was, maxPerOrigin, w, r, false);
      legacy := legacy + [r];
      req := req - {r};
      ghost var mid := View();
      if connectFailsNow {
        n := Callback(w.(hand := w.hand - {r}));
        SteadyTrans(was, mid, View(), was.req.Keys - {r}, mid.req.Keys, connectFailsNow);
      }
      assert CallbackEnds(mid, maxPerOrigin, n, View(), connectFailsNow);
    }

    // ---- events: receive loop

    /** A receive loop starts: from here submits on this connection are deferred. */
    method RecvBegin(c: ConnId)
      requires Ok(Rest) && c in conn && (conn[c].phase.Handshaking? ==> conn[c].proto.H3?)
      modifies this
      ensures Ok(Rest) && Safe(old(View()), View(), connectFailsNow)
      ensures View() == if Live(old(conn), c) then old(View()).(conn := old(conn)[c := old(conn)[c].(inRecv := true)])
                        else old(View())
    {
      ghost var was := View();
      if Live(conn, c) {
        RetouchedInv(was, maxPerOrigin, Rest, c, conn[c].(inRecv := true));
        conn := conn[c := conn[c].(inRecv := true)];
      }
      CalmButIsSafe(was, View(), c, connectFailsNow);
    }

    /** SETTINGS and GOAWAY arrive inside the receive loop. */
    method PeerSays(c: ConnId, maxStreams: nat, goaway: bool)
      requires Ok(Rest) && Live(conn, c) && conn[c].inRecv && conn[c].proto.H2?
      modifies this
      ensures Ok(Rest) && (maxStreams >= 1 ==> Safe(old(View()), View(), connectFailsNow))
      ensures var k := old(conn)[c];
        View() == old(View()).(conn := old(conn)[c := k.(maxStreams := maxStreams, goaway := k.goaway || goaway)])
    {
      var k := conn[c].(maxStreams := maxStreams, goaway := conn[c].goaway || goaway);
      RetouchedInv(View(), maxPerOrigin, Rest, c, k);
      conn := conn[c := k];
    }

    /** pool_h1_on_response and pool_h2_on_response. */
    method OnResponse(c: ConnId, r: ReqId, ok: bool, gotStatus: bool, keepAlive: bool, ghost w: Work)
      requires Ok(w) && w.hand == {} && w.answered == {} && Live(conn, c) && r in conn[c].active
      requires !conn[c].proto.H3? && (conn[c].inRecv || c in w.busy) && r in req
      modifies this
      ensures Ok(w) && CalmBut(old(View()), View(), c, connectFailsNow)
      ensures c in conn && conn[c].phase == old(conn[c].phase) && conn[c].inRecv == old(conn[c].inRecv)
      ensures var retrying := !ok && !gotStatus && old(req[r]).retriesLeft > 0;
        && (r in delivered || (retrying && r in req && req[r].retriesLeft < old(req[r]).retriesLeft))
        && conn[c].broken == (old(conn)[c].broken || (old(conn)[c].proto.H1? && !retrying && !(keepAlive && ok)))
      ensures var k, q := old(conn)[c], old(req)[r];
        var spent := k.proto.H1? && (ok || gotStatus || q.retriesLeft == 0) && !(keepAlive && ok && !k.broken);
        ResponseEnds(old(View()), maxPerOrigin, c, r, !ok && !gotStatus, spent, View(), connectFailsNow)
    {
      ghost var was := View();
      var retrying := !ok && !gotStatus && req[r].retriesLeft > 0;
      Exchange(c, r, !ok && !gotStatus, w);
      ghost var mid := View();
      var spent := conn[c].proto.H1? && !retrying && !(keepAlive && ok && !conn[c].broken);
      if spent {
        MarkBroken(c, w);
        CalmButTrans(was, mid, View(), c, connectFailsNow);
      }
      assert ResponseEnds(was, maxPerOrigin, c, r, !ok && !gotStatus, spent, View(), connectFailsNow);
    }

    /** The exchange ends and its request is delivered, or retried if nothing came back. */
    method Exchange(c: ConnId, r: ReqId, nothing: bool, ghost w: Work)
      requires Ok(w) && w.hand == {} && w.answered == {} && Live(conn, c) && r in conn[c].active
      requires !conn[c].proto.H3? && (conn[c].inRecv || c in w.busy) && r in req
      modifies this
      ensures Ok(w) && CalmBut(old(View()), View(), c, connectFailsNow)
      ensures c in conn && SameRole(old(conn)[c], conn[c]) && conn[c].phase.Ready?
      ensures r in delivered || (nothing && r in req && req[r].retriesLeft < old(req)[r].retriesLeft)
      ensures ConcludeEnds(EndedBooks(old(View()), c, r, old(conn)[c].streams), maxPerOrigin, r, nothing, View(),
                           connectFailsNow)
    {
      ghost var was := View();
      EndExchange(c, r, w);
      ghost var mid := View();
      Conclude(r, nothing, w);
      CalmButAfter(was, mid, View(), c, connectFailsNow);
    }

    /** The exchange is over: off the active list, the slot free, the request in hand. */
    method EndExchange(c: ConnId, r: ReqId, ghost w: Work)
      requires Ok(w) && w.hand == {} && w.answered == {} && Live(conn, c) && r in conn[c].active
      requires !conn[c].proto.H3? && (conn[c].inRecv || c in w.busy) && r in req
      modifies this
      ensures InHand(r, w.(hand := {r}), MAX_RETRIES + 1) && old(conn)[c].phase.Ready?
      ensures View() == old(View()).(conn := old(conn)[c := Ended(old(conn)[c], r, old(conn)[c].streams)])
    {
      ghost var was := View();
      var active := Unlink(conn[c].active, r);
      conn := conn[c := conn[c].(active := active, inflight := if conn[c].inflight > 0 then conn[c].inflight - 1 else 0)];
      ConnFacts(was, maxPerOrigin, w, c);
      EndedInv(was, maxPerOrigin, w, c, r, was.conn[c].streams, View());
      assert w.hand + {r} == {r};
    }

    method MarkBroken(c: ConnId, ghost w: Work)
      requires Ok(w) && c in conn && conn[c].phase.Ready? && (conn[c].inRecv || c in w.busy)
      modifies this
      ensures Ok(w) && CalmBut(old(View()), View(), c, false)
      ensures View() == old(View()).(conn := old(conn)[c := old(conn)[c].(broken := true)])
    {
      RetouchedInv(View(), maxPerOrigin, w, c, conn[c].(broken := true));
      conn := conn[c := conn[c].(broken := true)];
    }

    /** A finished exchange: retry if nothing came back and the budget allows, else deliver and free. */
    method Conclude(r: ReqId, nothing: bool, ghost w: Work)
      requires w.hand == {} && w.answered == {} && InHand(r, w.(hand := {r}), MAX_RETRIES + 1)
      modifies this
      ensures Ok(w) && Calm(old(View()), View(), connectFailsNow)
      ensures r in delivered || (nothing && r in req && req[r].retriesLeft < old(req[r]).retriesLeft)
      ensures ConcludeEnds(old(View()), maxPerOrigin, r, nothing, View(), connectFailsNow)
    {
      ghost var was, how, n := View(), Refuse, 0;
      ghost var v := w.(hand := {r});
      assert v.(hand := v.hand - {r}) == w;
      var fired := true;
      if nothing && req[r].retriesLeft > 0 {
        fired, how := RetryOrFail(r, v);
      } else {
        Finish(r, v);
      }
      ghost var mid := View();
      if fired {
        n := Callback(w);
        CalmTrans(was, mid, View(), connectFailsNow);
        PrefixKeeps(mid.delivered, delivered);
      }
      assert CallbackEnds(mid, maxPerOrigin, n, View(), connectFailsNow);
      if nothing { PlaceMeans(was, maxPerOrigin, r, true, how, fired, mid, n, View(), connectFailsNow); }
    }

    /** pool_h3_on_stream_data with fin, and pool_h3_on_stream_close, which acts only before fin was seen. */
    method OnStreamEnd(c: ConnId, sid: nat, byClose: bool, gotStatus: bool)
      requires Ok(Rest) && Live(conn, c) && conn[c].inRecv && conn[c].proto.H3?
      modifies this
      ensures Ok(Rest) && Safe(old(View()), View(), connectFailsNow)
      ensures forall r ::
        (r in old(conn)[c].streams && r in old(req) && old(req)[r].streamId == sid && !(byClose && old(req)[r].fin)
         ==> && (r in delivered || (!gotStatus && r in req && req[r].retriesLeft < old(req)[r].retriesLeft))
             && StreamEnds(FinBooks(old(View()), r), maxPerOrigin, c, r, !gotStatus, View(), connectFailsNow))
    {
      ghost var was := View();
      ConnFacts(was, maxPerOrigin, Rest, c);
      var i := FindStream(c, sid);
      forall r | r in conn[c].streams && r in req && req[r].streamId == sid
        ensures i < |conn[c].streams| && conn[c].streams[i] == r
      {
        FoundIsUnique(conn[c], req, r, i);
      }
      if i < |conn[c].streams| && !(byClose && req[conn[c].streams[i]].fin) {
        var r := conn[c].streams[i];
        FinInv(was, maxPerOrigin, Rest, r);
        req := req[r := req[r].(fin := true)];
        FinishStream(c, r, gotStatus);
      }
      CalmButIsSafe(was, View(), c, connectFailsNow);
    }

    /** pool_h3_find_stream: the index of the stream, or the table's length. */
    method FindStream(c: ConnId, sid: nat) returns (i: nat)
      requires c in conn && forall r :: r in conn[c].streams ==> r in req
      ensures i <= |conn[c].streams|
      ensures i < |conn[c].streams| ==> req[conn[c].streams[i]].streamId == sid
      ensures forall j :: 0 <= j < i ==> req[conn[c].streams[j]].streamId != sid
    {
      i := 0;
      while i < |conn[c].streams| && req[conn[c].streams[i]].streamId != sid
        invariant i <= |conn[c].streams|
        invariant forall j :: 0 <= j < i ==> req[conn[c].streams[j]].streamId != sid
      {
        i := i + 1;
      }
    }

    /** pool_h3_remove_stream: the table without this request's stream, the last entry moved into the gap. */
    method Unroute(c: ConnId, r: ReqId, ghost w: Work) returns (streams: seq<ReqId>)
      requires Ok(w) && Live(conn, c) && conn[c].proto.H3? && r in conn[c].streams
      ensures Unrouted(conn[c], r, streams)
    {
      ConnFacts(View(), maxPerOrigin, w, c);
      forall q | q in conn[c].streams ensures q in req { assert Holds(conn[c], q); }
      var i := FindStream(c, req[r].streamId);
      FoundIsUnique(conn[c], req, r, i);
      SwapOutFacts(conn[c].streams, i);
      streams := SwapOut(conn[c].streams, i);
    }

    /** pool_h3_finish: out of the routing table and the active list, then retry or deliver. */
    method FinishStream(c: ConnId, r: ReqId, gotStatus: bool)
      requires Ok(Rest) && Live(conn, c) && conn[c].inRecv && conn[c].proto.H3? && r in conn[c].streams
      requires r in req
      modifies this
      ensures Ok(Rest) && CalmBut(old(View()), View(), c, connectFailsNow)
      ensures r in delivered || (!gotStatus && r in req && req[r].retriesLeft < old(req[r]).retriesLeft)
      ensures StreamEnds(old(View()), maxPerOrigin, c, r, !gotStatus, View(), connectFailsNow)
    {
      ghost var was := View();
      var streams := Unroute(c, r, Rest);
      var active := Unlink(conn[c].active, r);
      conn := conn[c := conn[c].(active := active, streams := streams,
                                 inflight := if conn[c].inflight > 0 then conn[c].inflight - 1 else 0)];
      ghost var mid := View();
      ConnFacts(was, maxPerOrigin, Rest, c);
      EndedInv(was, maxPerOrigin, Rest, c, r, streams, mid);
      assert Rest.hand + {r} == {r};
      Conclude(r, !gotStatus, Rest);
      CalmButAfter(was, mid, View(), c, connectFailsNow);
    }

    /** The receive loop unwinds (pool_h1_drain, pool_h2_drain, pool_h3_recv_done). */
    method RecvEnd(c: ConnId, now: nat)
      requires Ok(Rest) && c in conn
      modifies this
      ensures Ok(Rest) && Safe(old(View()), View(), connectFailsNow)
      ensures c in conn && !conn[c].inRecv && AtRest(conn[c])
    {
      ghost var was := View();
      ghost var w := Rest.(busy := {c});
      BusyInv(was, maxPerOrigin, Rest, c);
      assert Rest.(busy := Rest.busy + {c}) == w && w.(busy := w.busy - {c}) == Rest;
      LeaveRecv(c, w);
      ghost var mid := View();
      Flush(c, w);
      ghost var late := View();
      CalmButAfter(was, mid, late, c, connectFailsNow);
      UpdateIdle(c, now, w);
      ComesToRest(late.conn[c], conn[c], now);
      CalmButTrans(was, late, View(), c, connectFailsNow);
      CalmButIsSafe(was, View(), c, connectFailsNow);
    }

    method LeaveRecv(c: ConnId, ghost w: Work)
      requires Ok(w) && c in conn && c in w.busy
      modifies this
      ensures Ok(w)
      ensures View() == LeftRecv(old(View()), c)
      ensures Usable(conn[c]) ==> !conn[c].goaway
    {
      var k := conn[c].(inRecv := false, broken := conn[c].broken || (conn[c].goaway && Live(conn, c)));
      if Live(conn, c) {
        ConnFacts(View(), maxPerOrigin, w, c);
        RetouchedInv(View(), maxPerOrigin, w, c, k);
      } else {
        ClosingInv(View(), maxPerOrigin, w, c, k);
      }
      conn := conn[c := k];
    }

    /** A protocol or parse error inside the receive loop. */
    method RecvError(c: ConnId)
      requires Ok(Rest) && c in conn
      modifies this
      ensures Ok(Rest) && Safe(old(View()), View(), connectFailsNow)
      ensures var k := old(conn)[c].(inRecv := false); c in conn && conn[c] == if k.phase.Closing? then k else Emptied(k)
      ensures Live(old(conn), c) ==> FailEnds(LeftRecv(old(View()), c), maxPerOrigin, c, View(), connectFailsNow)
    {
      ghost var was := View();
      ghost var w := Rest.(busy := {c});
      BusyInv(was, maxPerOrigin, Rest, c);
      assert Rest.(busy := Rest.busy + {c}) == w && w.(busy := w.busy - {c}) == Rest;
      LeaveRecv(c, w);
      ghost var mid := View();
      assert Calm(mid, mid, connectFailsNow);
      CalmButAfter(was, mid, mid, c, connectFailsNow);
      FailAll(c, w);
      CalmButTrans(was, mid, View(), c, connectFailsNow);
      CalmButIsSafe(was, View(), c, connectFailsNow);
    }

    // ---- events: close, timeout, sweep

    /** pool_h{1,2,3}_on_closed; an EOF may first complete an H1 body (`eof`). */
    method OnClosed(c: ConnId, eof: bool, ok: bool, gotStatus: bool, keepAlive: bool)
      requires Ok(Rest) && c in conn
      modifies this
      ensures Ok(Rest) && Safe(old(View()), View(), connectFailsNow)
      ensures c in conn && conn[c].phase.Closing? && (Live(old(conn), c) ==> conn[c].broken && OnLists(conn[c]) == {})
      ensures Live(old(conn), c) && !(eof && old(conn)[c].proto.H1? && old(conn)[c].active != []) ==>
                FailEnds(old(View()), maxPerOrigin, c, View(), connectFailsNow)
    {
      ghost var was := View();
      ghost var w := Rest.(busy := {c});
      BusyInv(was, maxPerOrigin, Rest, c);
      assert Rest.(busy := Rest.busy + {c}) == w && w.(busy := w.busy - {c}) == Rest;
      assert CalmBut(was, was, c, connectFailsNow);
      if Live(conn, c) && conn[c].proto.H1? && conn[c].active != [] && eof {
        ConnFacts(was, maxPerOrigin, w, c);
        assert Holds(conn[c], conn[c].active[0]);
        OnResponse(c, conn[c].active[0], ok, gotStatus, keepAlive, w);
      }
      ghost var mid := View();
      FailAll(c, w);
      CalmButTrans(was, mid, View(), c, connectFailsNow);
      CalmButIsSafe(was, View(), c, connectFailsNow);
    }

    /**
     pool_req_timeout: the callback first, then the request is unlinked and its slot passed
     on. A lost request times out too, as long as the record of its connection is there.
     */
    method Timeout(r: ReqId, now: nat)
      requires Ok(Rest) && Outside(View()) && r in req
      requires r in lost ==> req[r].pc.Some? && req[r].pc.value in conn
      modifies this
      ensures Ok(Rest) && Safe(old(View()), View(), connectFailsNow)
      ensures r in delivered && r !in req
    {
      ghost var was := View();
      ReqFacts(was, maxPerOrigin, Rest, r);
      var c := req[r].pc.value;
      if r in lost {
        ExpireLost(c, r);
      } else {
        ConnFacts(was, maxPerOrigin, Rest, c);
        Expire(c, r);
        CalmButIsSafe(was, View(), c, connectFailsNow);
      }
      ghost var late := View();
      PassOn(c, now);
      SafeTrans(was, late, View(), connectFailsNow);
      PrefixKeeps(late.delivered, delivered);
      Delivered(View(), maxPerOrigin, r);
    }

    /** The slot that came free is passed on. */
    method PassOn(c: ConnId, now: nat)
      requires Ok(Rest.(busy := {c})) && c in conn && !conn[c].inRecv && (Usable(conn[c]) ==> !conn[c].goaway)
      modifies this
      ensures Ok(Rest) && Safe(old(View()), View(), connectFailsNow) && old(delivered) <= delivered
    {
      ghost var was := View();
      ghost var v := Rest.(busy := {c});
      Flush(c, v);
      ghost var mid := View();
      CalmButAfter(was, was, mid, c, connectFailsNow);
      UpdateIdle(c, now, v);
      assert v.(busy := v.busy - {c}) == Rest;
      CalmButTrans(was, mid, View(), c, connectFailsNow);
      CalmButIsSafe(was, View(), c, connectFailsNow);
    }

    /** The same for a request on the lists of a closing connection. */
    method ExpireLost(c: ConnId, r: ReqId)
      requires Ok(Rest) && Outside(View()) && r in req && r in lost && c in conn
      modifies this
      ensures Ok(Rest.(busy := {c})) && Safe(old(View()), View(), connectFailsNow)
      ensures c in conn && !conn[c].inRecv && r in delivered
      ensures Usable(conn[c]) ==> !conn[c].goaway
    {
      ghost var was := View();
      Tell(r);
      ghost var mid := View();
      ForgetLost(c, r);
      LostSafe(was, mid, View(), r, connectFailsNow);
    }

    /** Its second half. */
    method ForgetLost(c: ConnId, r: ReqId)
      requires Ok(Rest.(answered := {r})) && c in conn && r in lost && !conn[c].inRecv
      modifies this
      ensures Ok(Rest.(busy := {c}))
      ensures View() == old(View()).(conn := conn, req := old(req) - {r}, lost := old(lost) - {r})
      ensures conn.Keys == old(conn).Keys && forall d :: d in conn ==> conn[d].maxStreams == old(conn)[d].maxStreams
      ensures !conn[c].inRecv && (Usable(conn[c]) ==> !conn[c].goaway)
    {
      ghost var w := Rest.(answered := {r});
      Unlist(c, r, w);
      FreeLost(c, r, w);
    }

    method FreeLost(c: ConnId, r: ReqId, ghost w: Work)
      requires Ok(w) && w == Rest.(answered := {r}) && r in lost
      modifies this
      ensures View() == old(View()).(req := old(req) - {r}, lost := old(lost) - {r})
      ensures Ok(Rest.(busy := {c}))
    {
      FreedLostInv(View(), maxPerOrigin, w, r);
      req := req - {r};
      lost := lost - {r};
      assert w.(answered := w.answered - {r}) == Rest;
      BusyInv(View(), maxPerOrigin, Rest, c);
      assert Rest.(busy := Rest.busy + {c}) == Rest.(busy := {c});
    }

    /** The callback of a request that has expired; it is still where it was. */
    method Tell(r: ReqId)
      requires Ok(Rest) && r in req
      modifies this
      ensures Ok(Rest.(answered := {r})) && Steady(AnsweredBooks(old(View()), r), View(), old(req.Keys), connectFailsNow)
      ensures r in delivered
    {
      ghost var was := View();
      ReqFacts(was, maxPerOrigin, Rest, r);
      AnsweredInv(was, maxPerOrigin, Rest, r);
      ghost var w := Rest.(answered := {r});
      assert Rest.(answered := Rest.answered + {r}) == w;
      delivered := delivered + [r];
      req := req[r := req[r].(responded := true)];
      ghost var told := View();
      var _ := Callback(w);
      PrefixKeeps(told.delivered, delivered);
    }

    /** Off the lists of a closing connection; a live one has no lost request on its lists. */
    method Unlist(c: ConnId, r: ReqId, ghost w: Work)
      requires Ok(w) && c in conn && r in lost && !conn[c].inRecv && c !in w.busy
      modifies this
      ensures Ok(w)
      ensures var k := old(conn)[c];
        View() == if k.phase.Closing?
                  then old(View()).(conn := old(conn)[c := Delisted(k, r)])
                  else old(View())
      ensures Usable(conn[c]) ==> !conn[c].goaway
    {
      if conn[c].phase.Closing? {
        var k := conn[c];
        if r in k.active {
          var active := Unlink(k.active, r);
          k := k.(active := active, inflight := if k.inflight > 0 then k.inflight - 1 else 0);
        } else {
          var waiting := Unlink(k.waiting, r);
          k := k.(waiting := waiting);
        }
        ClosingInv(View(), maxPerOrigin, w, c, k);
        conn := conn[c := k];
      } else {
        ConnFacts(View(), maxPerOrigin, w, c);
      }
    }

    /** Answer an expired request, then take it off its connection and free it. */
    method Expire(c: ConnId, r: ReqId)
      requires Ok(Rest) && Outside(View()) && r in req && r !in lost && req[r].pc == Some(c)
      requires Live(conn, c) && Holds(conn[c], r)
      modifies this
      ensures Ok(Rest.(busy := {c})) && CalmBut(old(View()), View(), c, connectFailsNow)
      ensures c in conn && SameRole(old(conn)[c], conn[c]) && r in delivered
    {
      ghost var was := View();
      ghost var w := Rest.(answered := {r});
      Tell(r);
      ghost var mid := View();
      CalmButAfter(was, AnsweredBooks(was, r), mid, c, connectFailsNow);
      ReqFacts(mid, maxPerOrigin, w, r);
      Forget(c, r, w);
      CalmButTrans(was, mid, View(), c, connectFailsNow);
    }

    /** The second half of pool_req_timeout: cancel the stream or unlink the queued request, then free it. */
    method Forget(c: ConnId, r: ReqId, ghost w: Work)
      requires Ok(w) && w == Work({}, {}, {r}) && Live(conn, c) && Holds(conn[c], r) && !conn[c].inRecv
      modifies this
      ensures Ok(Rest.(busy := {c})) && CalmBut(old(View()), View(), c, false)
      ensures c in conn && SameRole(old(conn)[c], conn[c]) && delivered == old(delivered) && r !in req
    {
      ghost var v := w.(busy := {c});
      BusyInv(View(), maxPerOrigin, w, c);
      assert w.(busy := w.busy + {c}) == v;
      if r in conn[c].active {
        CancelStream(c, r, v);
      } else {
        ghost var was := View();
        var waiting := Unlink(conn[c].waiting, r);
        conn := conn[c := conn[c].(waiting := waiting)];
        UnlinkedInv(was, maxPerOrigin, v, c, r, View());
        assert v.hand + {r} == {r};
      }
      FreedInv(View(), maxPerOrigin, v.(hand := {r}), r);
      req := req - {r};
      assert {r} - {r} == {};
    }

    method CancelStream(c: ConnId, r: ReqId, ghost w: Work)
      requires Ok(w) && w.hand == {} && Live(conn, c) && c in w.busy && r in conn[c].active
      modifies this
      ensures Ok(w.(hand := {r}))
      ensures c in conn && SameRole(old(conn)[c], conn[c])
      ensures View() == old(View()).(conn := old(conn)[c := conn[c]])
    {
      ghost var was := View();
      var streams := conn[c].streams;
      if conn[c].proto.H3? {
        HeldIsRouted(was, maxPerOrigin, w, c, r);
        streams := Unroute(c, r, w);
      }
      var active := Unlink(conn[c].active, r);
      conn := conn[c := conn[c].(active := active, streams := streams,
                                 inflight := if conn[c].inflight > 0 then conn[c].inflight - 1 else 0)];
      EndedInv(was, maxPerOrigin, w, c, r, streams, View());
      assert w.hand + {r} == {r};
    }

    /** pool_sweep_cb: closes exactly the idle and drained connections; exactly `Stranded` is lost by it. */
    method Sweep(now: nat, idleTo: nat)
      requires Ok(Rest) && Outside(View())
      modifies this
      ensures Ok(Rest)
      ensures View() == old(View()).(conn := conn, lost := old(lost) + Stranded(old(View()), conns, now, idleTo),
                                     closed := old(closed) + Taken(old(View()), conns, now, idleTo))
      ensures conn.Keys == old(conn.Keys) && forall c :: c in conn ==> conn[c] == Swept(old(conn)[c], now, idleTo)
      ensures old(Generous(View())) ==> Safe(old(View()), View(), false)
    {
      ghost var was := View();
      InvFacts(was, maxPerOrigin, Rest);
      for i := 0 to |conns|
        invariant Ok(Rest) && SweptTo(was, View(), i, now, idleTo)
      {
        ghost var top := View();
        SweepOne(conns[i], now, idleTo);
        SweptStep(was, top, i, now, idleTo, View());
      }
      assert conns[..|conns|] == conns;
      forall c | c in conn ensures conn[c] == Swept(was.conn[c], now, idleTo) {
        assert c in conns;
        var j :| 0 <= j < |conns| && conns[j] == c;
      }
      if Generous(was) { GenerousSweepStrandsNobody(was, maxPerOrigin, conns, now, idleTo); }
    }

    method SweepOne(c: ConnId, now: nat, idleTo: nat)
      requires Ok(Rest) && c in conn && !conn[c].inRecv
      modifies this
      ensures Ok(Rest)
      ensures View() == if SweepTakes(old(conn)[c], now, idleTo) then ClosedBooks(old(View()), c) else old(View())
    {
      assert Rest.(busy := Rest.busy - {c}) == Rest;
      if SweepTakes(conn[c], now, idleTo) {
        SweptIsEmptyOrBlocked(View(), maxPerOrigin, c, now, idleTo);
        Close(c, Rest);
      }
    }

    /** pool_h{1,2,3}_on_fully_closed with pool_remove_conn: the record leaves conns[]. */
    method FullyClosed(c: ConnId)
      requires Ok(Rest) && c in conn && conn[c].phase.Closing?
      modifies this
      ensures Ok(Rest) && Safe(old(View()), View(), false)
      ensures conn == old(conn) - {c} && Items(conns) == Items(old(conns)) - {c}
    {
      InvFacts(View(), maxPerOrigin, Rest);
      var i := 0;
      while conns[i] != c
        invariant 0 <= i < |conns| && forall j :: 0 <= j < i ==> conns[j] != c
        decreases |conns| - i
      {
        i := i + 1;
      }
      SwapOutFacts(conns, i);
      RemovedInv(View(), maxPerOrigin, Rest, i, View().(conns := SwapOut(conns, i), conn := conn - {c}));
      conns := SwapOut(conns, i);
      conn := conn - {c};
    }

    // ---- whole runs

    /** `n` dispatches in a row to one origin, in an empty pool: one connection for H2 and H3, a fan-out for H1. */
    method Burst(p: Proto, o: string, n: nat)
      requires Ok(Rest) && conns == [] && conn == map[] && !connectFailsNow && |o| <= ORIGIN_MAX && n >= 1
      modifies this
      ensures Ok(Rest) && AllShaking(View(), p, o)
      ensures |conns| == if p.H1? then Min(n, Min(maxPerOrigin, MAX_CONNS)) else 1
    {
      InvFacts(View(), maxPerOrigin, Rest);
      for i := 0 to n
        invariant Ok(Rest) && AllShaking(View(), p, o)
        invariant |conns| == if p.H1? then Min(i, Min(maxPerOrigin, MAX_CONNS)) else Min(i, 1)
      {
        var fired, how := Dispatch(p, o, Rest);
      }
    }

    /**
     For an origin over 255 bytes no connection ever matches: `n` dispatches in a row open
     `n` connections, all kept under the same first 255 bytes, whatever the cap.
     */
    method LongBurst(p: Proto, o: string, n: nat)
      requires Ok(Rest) && conns == [] && conn == map[] && !connectFailsNow && |o| > ORIGIN_MAX
      modifies this
      ensures Ok(Rest) && |conns| == Min(n, MAX_CONNS)
      ensures |Usables(conn, p, o[..ORIGIN_MAX])| == Min(n, MAX_CONNS)
    {
      for i := 0 to n
        invariant Ok(Rest) && AllCut(View(), p, o) && |conns| == Min(i, MAX_CONNS)
      {
        DispatchLong(p, o);
      }
      InvFacts(View(), maxPerOrigin, Rest);
      RosterSize(conns);
      assert Items(conns) == Usables(conn, p, o[..ORIGIN_MAX]);
    }

    method DispatchLong(p: Proto, o: string)
      requires Ok(Rest) && !connectFailsNow && |o| > ORIGIN_MAX && AllCut(View(), p, o)
      modifies this
      ensures Ok(Rest) && AllCut(View(), p, o) && |conns| == Min(|old(conns)| + 1, MAX_CONNS)
    {
      InvFacts(View(), maxPerOrigin, Rest);
      ghost var mid := Accepted(View(), NewReq(p, o));
      var fired, how := Dispatch(p, o, Rest);
      LongChoice(mid, p, o, maxPerOrigin, how);
    }

    /** One event of the environment's choosing, with arbitrary arguments. */
    method AnyEvent()
      requires Ok(Rest)
      modifies this
      ensures Ok(Rest)
      ensures old(Generous(View())) && Generous(View()) ==> Safe(old(View()), View(), connectFailsNow)
    {
      var e: int, c: ConnId, r: ReqId, now: nat, m: nat :| true;
      var x: bool, y: bool, z: bool, u: bool := *, *, *, *;
      var p: Proto, o: string := *, *;
      ghost var was := View();
      if e == 0 {
        var fired, how := Dispatch(p, o, Rest);
        SteadyIsSafe(was, View(), connectFailsNow);
        ghost var mid := View();
        if fired {
          var _ := Callback(Rest);
          SteadyIsSafe(mid, View(), connectFailsNow);
          SafeTrans(was, mid, View(), connectFailsNow);
        }
      } else if c in conn && e <= 8 {
        if e == 1 && conn[c].phase.Handshaking? { OnReady(c, true, x, y); }
        else if e == 2 { OnReady(c, false, x, y); }
        else if e == 3 && (conn[c].phase.Handshaking? ==> conn[c].proto.H3?) { RecvBegin(c); }
        else if e == 4 { RecvEnd(c, now); }
        else if e == 5 { RecvError(c); }
        else if e == 6 { OnClosed(c, x, y, z, u); }
        else if e == 7 && conn[c].phase.Closing? { FullyClosed(c); }
        else if e == 8 && Live(conn, c) && conn[c].inRecv { InRecv(c, r, m, x, y, z); }
      } else if e == 9 && (forall d :: d in conn ==> !conn[d].inRecv) {
        if r in req && (r in lost ==> req[r].pc.Some? && req[r].pc.value in conn) { Timeout(r, now); }
      } else if e == 10 && (forall d :: d in conn ==> !conn[d].inRecv) {
        Sweep(now, m);
        SweepIsSafe(was, View(), connectFailsNow);
      }
    }

    /** What may happen inside the receive loop of `c`. */
    method InRecv(c: ConnId, r: ReqId, m: nat, x: bool, y: bool, z: bool)
      requires Ok(Rest) && Live(conn, c) && conn[c].inRecv
      modifies this
      ensures Ok(Rest) && (Generous(View()) ==> Safe(old(View()), View(), connectFailsNow))
    {
      ghost var was := View();
      if conn[c].proto.H3? {
        OnStreamEnd(c, r, x, y);
      } else if r in conn[c].active {
        ConnFacts(was, maxPerOrigin, Rest, c);
        assert Holds(conn[c], r);
        OnResponse(c, r, x, y, z, Rest);
        CalmButIsSafe(was, View(), c, connectFailsNow);
      } else if conn[c].proto.H2? {
        PeerSays(c, m, x);
        assert conn[c].maxStreams == m;
      }
    }

    /**
     Any run of events: the books balance throughout, so whoever is lost is so for one of
     the three reasons of `LossesExactly`. While connecting fails only through the event
     loop and every H2 peer allows a stream, nobody is left on a closing connection.
     */
    method Run(n: nat) returns (ghost history: seq<Books>)
      requires Ok(Rest)
      modifies this
      ensures |history| == n + 1 && history[0] == old(View()) && history[n] == View()
      ensures forall i :: 0 <= i <= n ==> Inv(history[i], maxPerOrigin, Rest)
      ensures forall r: ReqId :: r in lost <==> r in req && Fallen(closed, r)
      ensures forall i :: 0 <= i < |closed| ==> OnLists(closed[i]) == {} || Fatal(closed[i])
      ensures !connectFailsNow && (forall i :: 0 <= i <= n ==> Generous(history[i])) ==> lost <= old(lost)
    {
      history := [View()];
      for i := 0 to n
        invariant |history| == i + 1 && history[0] == old(View()) && history[i] == View()
        invariant forall j :: 0 <= j <= i ==> Inv(history[j], maxPerOrigin, Rest)
        invariant !connectFailsNow && (forall j :: 0 <= j <= i ==> Generous(history[j])) ==> lost <= old(lost)
      {
        ghost var past := history;
        AnyEvent();
        history := history + [View()];
        assert forall j :: 0 <= j <= i ==> history[j] == past[j];
      }
      InvMeans(View(), maxPerOrigin, Rest);
    }
  }

  /** The loops over a detached list: who is next, and who is in hand after. */
  lemma NextInHand(todo: seq<ReqId>, i: nat, hand: set<ReqId>)
    requires NoDup(todo) && i < |todo| && Items(todo) <= hand
    ensures todo[i] in Items(todo) && todo[i] in hand - Items(todo[..i]) && todo[..i + 1] == todo[..i] + [todo[i]]
    ensures hand - Items(todo[..i]) - {todo[i]} == hand - Items(todo[..i + 1])
  {
    assert todo[..i + 1] == todo[..i] + [todo[i]];
    assert Items(todo[..i + 1]) == Items(todo[..i]) + {todo[i]};
  }

  lemma PrefixKeeps(a: seq<ReqId>, b: seq<ReqId>)
    requires a <= b
    ensures forall r :: r in a ==> r in b
  {
  }

  function Min(a: nat, b: nat): nat {
    if a < b then a else b
  }

  /** After `i` steps of a sweep the first `i` connections are swept, and the others as they were. */
  ghost predicate SweptTo(was: Books, b: Books, i: nat, now: nat, idleTo: nat) {
    && NoDup(was.conns) && i <= |was.conns| && b.conn.Keys == was.conn.Keys
    && (forall c :: c in was.conns <==> c in was.conn)
    && b == was.(conn := b.conn, lost := was.lost + Stranded(was, was.conns[..i], now, idleTo),
                 closed := was.closed + Taken(was, was.conns[..i], now, idleTo))
    && (forall j :: 0 <= j < i ==> b.conn[was.conns[j]] == Swept(was.conn[was.conns[j]], now, idleTo))
    && (forall j :: i <= j < |was.conns| ==> b.conn[was.conns[j]] == was.conn[was.conns[j]])
  }

  lemma SweptStep(was: Books, b: Books, i: nat, now: nat, idleTo: nat, b': Books)
    requires SweptTo(was, b, i, now, idleTo) && i < |was.conns|
    requires b' == if SweepTakes(b.conn[was.conns[i]], now, idleTo) then ClosedBooks(b, was.conns[i]) else b
    ensures SweptTo(was, b', i + 1, now, idleTo)
  {
    var c := was.conns[i];
    assert b.conn[c] == was.conn[c] && c in was.conns;
    TakenSnoc(was, i, now, idleTo);
    SweptConn(was.conns, was.conn, b.conn, b'.conn, i, now, idleTo);
    if SweepTakes(was.conn[c], now, idleTo) {
      Associate(was.lost, Stranded(was, was.conns[..i], now, idleTo), OnLists(was.conn[c]));
      assert was.closed + (Taken(was, was.conns[..i], now, idleTo) + [was.conn[c]])
        == was.closed + Taken(was, was.conns[..i], now, idleTo) + [was.conn[c]];
    }
  }

  lemma Associate(a: set<ReqId>, b: set<ReqId>, c: set<ReqId>)
    ensures a + (b + c) == a + b + c
  {
  }

  lemma SweptConn(cs: seq<ConnId>, was: Conns, conn: Conns, conn': Conns, i: nat, now: nat, idleTo: nat)
    requires NoDup(cs) && i < |cs| && (forall c :: c in cs <==> c in was) && conn.Keys == was.Keys
    requires forall j :: 0 <= j < i ==> conn[cs[j]] == Swept(was[cs[j]], now, idleTo)
    requires forall j :: i <= j < |cs| ==> conn[cs[j]] == was[cs[j]]
    requires conn' == if SweepTakes(conn[cs[i]], now, idleTo) then conn[cs[i] := conn[cs[i]].(phase := Closing)] else conn
    ensures conn'.Keys == was.Keys
    ensures forall j :: 0 <= j < i + 1 ==> conn'[cs[j]] == Swept(was[cs[j]], now, idleTo)
    ensures forall j :: i + 1 <= j < |cs| ==> conn'[cs[j]] == was[cs[j]]
  {
    assert forall j :: 0 <= j < |cs| ==> cs[j] in cs;
  }

  lemma TakenSnoc(b: Books, i: nat, now: nat, idleTo: nat)
    requires i < |b.conns| && b.conns[i] in b.conn
    ensures var k := b.conn[b.conns[i]];
      if SweepTakes(k, now, idleTo)
      then Stranded(b, b.conns[..i + 1], now, idleTo) == Stranded(b, b.conns[..i], now, idleTo) + OnLists(k)
           && Taken(b, b.conns[..i + 1], now, idleTo) == Taken(b, b.conns[..i], now, idleTo) + [k]
      else Stranded(b, b.conns[..i + 1], now, idleTo) == Stranded(b, b.conns[..i], now, idleTo)
           && Taken(b, b.conns[..i + 1], now, idleTo) == Taken(b, b.conns[..i], now, idleTo)
  {
    assert b.conns[..i + 1][..i] == b.conns[..i];
  }

  /** With distinct stream ids the first match is the request itself. */
  lemma FoundIsUnique(k: Conn, req: Reqs, r: ReqId, i: nat)
    requires Routed(k, req) && r in k.streams && forall q :: q in k.streams ==> q in req
    requires i <= |k.streams| && forall j :: 0 <= j < i ==> req[k.streams[j]].streamId != req[r].streamId
    requires i < |k.streams| ==> req[k.streams[i]].streamId == req[r].streamId
    ensures i < |k.streams| && k.streams[i] == r
  {
    var m :| 0 <= m < |k.streams| && k.streams[m] == r;
    assert i <= m;
    assert k.streams[i] in k.streams;
  }
}
