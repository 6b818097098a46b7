/**
 The ways a request is left on a closing connection: when each can happen, and
 that it does.
 */
module PoolLosses {
  import opened Options
  import opened PoolState
  import opened PoolBooks
  import opened Pool

  /** An empty pool. */
  function NoBooks(): Books {
    Books([], map[], map[], {}, [], [], [], 0, 0, {})
  }

  // ---- a connect that fails before the call returns

  /** Placing a request loses nobody while no connect fails at once. */
  lemma {:induction false} AcquireKeeps(b: Books, max: nat, r: ReqId, how: Choice, fired: bool, b': Books)
    requires Acquired(b, max, r, how, fired, b', false)
    ensures b'.lost == b.lost
    decreases Budget(b, r), 3
  {
    ChosenFits(b, b.req[r].proto, b.req[r].origin, max, how);
    if how.Reuse? || how.Overload? { SubmitKeeps(b, max, how.c, r, fired, b'); }
  }

  lemma {:induction false} SubmitKeeps(b: Books, max: nat, c: ConnId, r: ReqId, fired: bool, b': Books)
    requires SubmitEnds(b, max, c, r, fired, b', false) && Live(b.conn, c)
    ensures b'.lost == b.lost
    decreases Budget(b, r), 2
  {
    if !Defers(b.conn[c]) && b.conn[c].proto.H3? && b' != Submitted(b, c, r) {
      if how :| RetryEnds(Counted(b, c, r), max, r, how, fired, b', false) {
        RetryKeeps(Counted(b, c, r), max, r, how, fired, b');
      } else {
        var how :| RetryEnds(StreamOpened(Counted(b, c, r), c, r), max, r, how, fired, b', false);
        RetryKeeps(StreamOpened(Counted(b, c, r), c, r), max, r, how, fired, b');
      }
    }
  }

  lemma {:induction false} RetryKeeps(b: Books, max: nat, r: ReqId, how: Choice, fired: bool, b': Books)
    requires RetryEnds(b, max, r, how, fired, b', false)
    ensures b'.lost == b.lost
    decreases Budget(b, r), 1
  {
    if b.req[r].retriesLeft > 0 && !b.req[r].responded { AcquireKeeps(Charged(b, r), max, r, how, fired, b'); }
  }

  /** In an empty pool pool_acquire opens a connection. */
  lemma FirstOpens(b: Books, max: nat, r: ReqId)
    requires max >= 1 && r in b.req && b.conns == [] && b.conn == map[]
    ensures Chosen(b, b.req[r].proto, b.req[r].origin, max, OpenNew)
  {
    var p, o := b.req[r].proto, b.req[r].origin;
    assert Usables(b.conn, p, o) == {};
    var none: Option<ConnId> := None;
    assert IsFirst(none, b.conns, b.conn, p, o, CanServe);
    assert IsFirst(none, b.conns, b.conn, p, o, IsReady);
    assert IsFirst(none, b.conns, b.conn, p, o, IsShaking);
  }

  /** The very first dispatch, to origin "o" over protocol `p`, with the connect failing at once or not. */
  lemma FirstDispatch(max: nat, p: Proto, failed: bool, b: Books, b': Books)
    requires max >= 1 && b == Accepted(NoBooks(), NewReq(p, "o")) && b' == OpenedFor(b, 0, failed, 1)
    ensures Acquired(b, max, 0, OpenNew, false, b', failed)
    ensures Inv(b', max, Rest) && b'.lost == if failed then {0} else {}
  {
    var w := Rest.(hand := {0});
    var k := NewConn(p, "o", failed, 1);
    var mid := OpenedConn(b, k);
    EmptyInv(NoBooks(), max);
    AcceptedInv(NoBooks(), max, Rest, NewReq(p, "o"));
    assert Rest.(hand := Rest.hand + {NoBooks().nextReq}) == w;
    FirstOpens(b, max, 0);
    assert Usables(b.conn, p, "o") == {};
    OpenedInv(b, max, w, k);
    if failed { LostInv(mid, max, w, 0, 0); } else { ParkedInv(mid, max, w, 0, 0); }
    assert w.(hand := w.hand - {0}) == Rest;
  }

  /** Some request was placed. */
  ghost predicate Placing(b: Books, b': Books, mayFail: bool) {
    exists max, r, how, fired :: Acquired(b, max, r, how, fired, b', mayFail)
  }

  /** Placing a request leaves nobody behind, in any books, exactly when no connect can fail at once. */
  lemma ConnectStrandsIff(mayFail: bool)
    ensures (forall b, b' :: Placing(b, b', mayFail) ==> b'.lost == b.lost) <==> !mayFail
  {
    if mayFail {
      var b := Accepted(NoBooks(), NewReq(H2, "o"));
      var b' := OpenedFor(b, 0, true, 1);
      FirstDispatch(1, H2, true, b, b');
      assert Placing(b, b', mayFail);
    } else {
      forall b, b' | Placing(b, b', mayFail) ensures b'.lost == b.lost {
        var max, r, how, fired :| Acquired(b, max, r, how, fired, b', mayFail);
        AcquireKeeps(b, max, r, how, fired, b');
      }
    }
  }

  // ---- the legacy hand-over of an H2 connection

  /** `c` handed its queue over: what pool_conn_fallback_legacy closes is `b'.conn[c]`. */
  ghost predicate HandedOver(b: Books, max: nat, c: ConnId, b': Books, mayFail: bool) {
    && Inv(b, max, Rest) && c in b.conn && b.conn[c].phase.Handshaking? && b.conn[c].proto.H2?
    && c in b'.conn && HandOverEnds(Unqueued(b, c), max, b.conn[c].waiting, b', mayFail)
  }

  /** An H2 request coalesces on the one handshaking connection of its origin. */
  lemma Coalesces(b: Books, max: nat, c: ConnId, o: string)
    requires b.conns == [c] && c in b.conn && UsableFor(b.conn[c], H2, o) && b.conn[c].phase.Handshaking?
    ensures Chosen(b, H2, o, max, Coalesce(c))
  {
    var none: Option<ConnId> := None;
    assert IsFirst(none, b.conns, b.conn, H2, o, CanServe);
    assert IsFirst(none, b.conns, b.conn, H2, o, IsReady);
    assert b.conns[0] == c;
    assert IsFirst(Some(c), b.conns, b.conn, H2, o, IsShaking);
  }

  /** One request is handed over; its callback dispatches another, which coalesces on `c`. */
  lemma RideEnds(b: Books, max: nat, c: ConnId, r: ReqId, o: string, b': Books)
    requires var mid := Accepted(Finished(b, r, false), NewReq(H2, o));
      Chosen(mid, H2, o, max, Coalesce(c)) && c in mid.conn && b' == ParkedOn(mid, c, b.nextReq)
    ensures HandOverEnds(b, max, [r], b', true)
  {
    var done := Finished(b, r, false);
    assert Acquired(Accepted(done, NewReq(H2, o)), max, done.nextReq, Coalesce(c), false, b', true);
    DispatchMeans(done, max, H2, o, Coalesce(c), false, b', true);
    CallbackStep(done, max, 0, done, b', true);
    assert HandOverEnds(b, max, [], b, true);
    HandOverStep(b, max, [], b, r, b', true);
    assert [] + [r] == [r];
  }

  /**
   A handshaking H2 connection with one request waiting turns out not to speak H2. The
   request starts over elsewhere and fails at once; its callback dispatches to the same
   origin, and that request goes down with the connection.
   */
  lemma RiderStranded(b: Books, max: nat, c: ConnId, r: ReqId, o: string, b': Books)
    requires Inv(b, max, Rest) && b.conns == [c] && c in b.conn && b.conn[c].waiting == [r]
    requires UsableFor(b.conn[c], H2, o) && b.conn[c].phase.Handshaking?
    requires b' == ParkedOn(Accepted(Finished(Unqueued(b, c), r, false), NewReq(H2, o)), c, b.nextReq)
    ensures HandedOver(b, max, c, b', true) && OverrunHandOver(b'.conn[c])
    ensures ClosedBooks(b', c).lost == b.lost + {b.nextReq}
  {
    assert b.conn[c].active == [] by { ConnFacts(b, max, Rest, c); }
    RiderQueued(b, c, r, o, b');
    var mid := Accepted(Finished(Unqueued(b, c), r, false), NewReq(H2, o));
    Coalesces(mid, max, c, o);
    RideEnds(Unqueued(b, c), max, c, r, o, b');
  }

  lemma RiderQueued(b: Books, c: ConnId, r: ReqId, o: string, b': Books)
    requires c in b.conn && Usable(b.conn[c]) && b.conn[c].active == []
    requires b' == ParkedOn(Accepted(Finished(Unqueued(b, c), r, false), NewReq(H2, o)), c, b.nextReq)
    ensures b'.conn[c] == b.conn[c].(waiting := [b.nextReq]) && b'.lost == b.lost
    ensures OnLists(b'.conn[c]) == {b.nextReq}
  {
  }

  /** It happens to the very first connection of a pool. */
  lemma FirstRider(max: nat) returns (b: Books, b': Books)
    requires max >= 1
    ensures HandedOver(b, max, 0, b', true) && OnLists(b'.conn[0]) != {}
  {
    b := OpenedFor(Accepted(NoBooks(), NewReq(H2, "o")), 0, false, 1);
    FirstDispatch(max, H2, false, Accepted(NoBooks(), NewReq(H2, "o")), b);
    b' := ParkedOn(Accepted(Finished(Unqueued(b, 0), 0, false), NewReq(H2, "o")), 0, b.nextReq);
    RiderStranded(b, max, 0, 0, "o", b');
    assert b'.conn[0].waiting[0] in OnLists(b'.conn[0]);
  }

  lemma NobodyRides(b: Books, max: nat, c: ConnId, b': Books)
    requires HandedOver(b, max, c, b', false)
    ensures OnLists(b'.conn[c]) == {}
  {
    ConnFacts(b, max, Rest, c);
    HandOverKeeps(Unqueued(b, c), max, b.conn[c].waiting, b');
  }

  /** A hand-over leaves nobody on the connection it then closes, exactly when no start can fail at once. */
  lemma HandOverStrandsIff(mayFail: bool)
    ensures (forall b, max, c, b' :: HandedOver(b, max, c, b', mayFail) ==> OnLists(b'.conn[c]) == {}) <==> !mayFail
  {
    if mayFail {
      var b, b' := FirstRider(1);
      assert HandedOver(b, 1, 0, b', mayFail);
    } else {
      forall b, max, c, b' | HandedOver(b, max, c, b', mayFail) ensures OnLists(b'.conn[c]) == {} {
        NobodyRides(b, max, c, b');
      }
    }
  }
}
