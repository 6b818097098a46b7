/** The cookie jar (sections 5.3 and 5.4 of RFC 6265): storage, eviction and the Cookie header. */
module CookieJar {
  import opened CookieParse
  import opened HostNames
  import opened Options
  import opened Psl
  import opened Text

  datatype Cookie = Cookie(name: Text, value: Text, domain: Text, path: Text, expires: nat,
                           hostOnly: bool, secure: bool, httpOnly: bool, sameSite: nat)

  // ---- keys

  /** Name and path byte for byte, domain ignoring case. */
  predicate HasKey(c: Cookie, name: Text, domain: Text, path: Text) {
    c.name == name && MatchCi(c.domain, domain) && c.path == path
  }

  predicate SameKey(a: Cookie, b: Cookie) {
    HasKey(a, b.name, b.domain, b.path)
  }

  /** Two cookies are the same one exactly if name, path and, label by label, domain agree. */
  lemma SameKeyIff(a: Cookie, b: Cookie)
    ensures SameKey(a, b) <==> a.name == b.name && a.path == b.path && Labels(a.domain) == Labels(b.domain)
  {
    SameLabels(a.domain, b.domain);
  }

  predicate UniqueKeys(v: seq<Cookie>) {
    forall i, j :: 0 <= i < j < |v| ==> !SameKey(v[i], v[j])
  }

  lemma KeyTrans(c: Cookie, a: Cookie, name: Text, domain: Text, path: Text)
    requires SameKey(c, a)
    ensures HasKey(c, name, domain, path) <==> HasKey(a, name, domain, path)
  {
    if HasKey(c, name, domain, path) { MatchCiTrans(a.domain, c.domain, domain); }
    if HasKey(a, name, domain, path) { MatchCiTrans(c.domain, a.domain, domain); }
  }

  /** The first cookie with a key, or the length. */
  function Find(v: seq<Cookie>, name: Text, domain: Text, path: Text): (i: nat)
    ensures i <= |v| && (i < |v| ==> HasKey(v[i], name, domain, path))
    ensures forall k :: 0 <= k < i ==> !HasKey(v[k], name, domain, path)
  {
    if v == [] || HasKey(v[0], name, domain, path) then 0 else 1 + Find(v[1..], name, domain, path)
  }

  /** The jar as a map from keys to cookies. */
  function Lookup(v: seq<Cookie>, name: Text, domain: Text, path: Text): Option<Cookie> {
    var i := Find(v, name, domain, path);
    if i < |v| then Some(v[i]) else None
  }

  lemma LookupIs(v: seq<Cookie>, i: nat, name: Text, domain: Text, path: Text)
    requires UniqueKeys(v) && i < |v| && HasKey(v[i], name, domain, path)
    ensures Lookup(v, name, domain, path) == Some(v[i])
  {
    var k := Find(v, name, domain, path);
    if k < i {
      MatchCiTrans(v[k].domain, domain, v[i].domain);
      assert SameKey(v[k], v[i]);
    }
  }

  lemma LookupNone(v: seq<Cookie>, name: Text, domain: Text, path: Text)
    requires forall i :: 0 <= i < |v| ==> !HasKey(v[i], name, domain, path)
    ensures Lookup(v, name, domain, path) == None
  {
  }

  // ---- put and remove

  function Removed<T>(s: seq<T>, i: nat): seq<T>
    requires i < |s|
  {
    s[..i] + s[i + 1..]
  }

  /** The array after cookie_jar_put. */
  function Put(v: seq<Cookie>, max: nat, c: Cookie): seq<Cookie> {
    var i := Find(v, c.name, c.domain, c.path);
    if i < |v| then v[i := c] else if |v| >= max then v else v + [c]
  }

  lemma SharedKey(a: Cookie, b: Cookie, name: Text, domain: Text, path: Text)
    requires HasKey(a, name, domain, path) && HasKey(b, name, domain, path)
    ensures SameKey(a, b) && SameKey(b, a)
  {
    MatchCiTrans(a.domain, domain, b.domain);
  }

  lemma OnlyOne(v: seq<Cookie>, i: nat, k: nat, name: Text, domain: Text, path: Text)
    requires UniqueKeys(v) && i < |v| && k < |v| && i != k && HasKey(v[i], name, domain, path)
    ensures !HasKey(v[k], name, domain, path)
  {
    if HasKey(v[k], name, domain, path) { SharedKey(v[i], v[k], name, domain, path); }
  }

  lemma RemovedUnique(v: seq<Cookie>, i: nat)
    requires UniqueKeys(v) && i < |v|
    ensures UniqueKeys(Removed(v, i))
  {
  }

  lemma PutUnique(v: seq<Cookie>, max: nat, c: Cookie)
    requires UniqueKeys(v)
    ensures UniqueKeys(Put(v, max, c))
  {
    var i := Find(v, c.name, c.domain, c.path);
    forall k | 0 <= k < |v| && k != i
      ensures !SameKey(v[k], c) && !SameKey(c, v[k])
    {
      if i < |v| { OnlyOne(v, i, k, c.name, c.domain, c.path); }
    }
  }

  /** Put is a map update, refused only for a new key in a full jar. */
  lemma PutIsUpdate(v: seq<Cookie>, max: nat, c: Cookie, name: Text, domain: Text, path: Text)
    requires UniqueKeys(v)
    ensures var stored := Lookup(v, c.name, c.domain, c.path).Some? || |v| < max;
      Lookup(Put(v, max, c), name, domain, path) ==
      if stored && HasKey(c, name, domain, path) then Some(c) else Lookup(v, name, domain, path)
  {
    var i := Find(v, c.name, c.domain, c.path);
    var v' := Put(v, max, c);
    PutUnique(v, max, c);
    if HasKey(c, name, domain, path) {
      if i < |v| || |v| < max { LookupIs(v', i, name, domain, path); }
    } else {
      OthersKept(v, v', i, c, name, domain, path);
    }
  }

  lemma OthersKept(v: seq<Cookie>, v': seq<Cookie>, i: nat, c: Cookie, name: Text, domain: Text, path: Text)
    requires UniqueKeys(v) && UniqueKeys(v') && !HasKey(c, name, domain, path)
    requires i < |v| ==> SameKey(v[i], c) && v' == v[i := c]
    requires i == |v| ==> v' == v || v' == v + [c]
    requires i <= |v|
    ensures Lookup(v', name, domain, path) == Lookup(v, name, domain, path)
  {
    var k := Find(v, name, domain, path);
    if i < |v| { KeyTrans(v[i], c, name, domain, path); }
    if k < |v| {
      assert v'[k] == v[k];
      LookupIs(v', k, name, domain, path);
    } else {
      LookupNone(v', name, domain, path);
    }
  }

  /** Remove takes out its key and no other. */
  lemma RemoveIsDelete(v: seq<Cookie>, i: nat, name: Text, domain: Text, path: Text)
    requires UniqueKeys(v) && i < |v|
    ensures Lookup(Removed(v, i), name, domain, path) ==
      if HasKey(v[i], name, domain, path) then None else Lookup(v, name, domain, path)
  {
    var v', k := Removed(v, i), Find(v, name, domain, path);
    RemovedUnique(v, i);
    if HasKey(v[i], name, domain, path) {
      forall j | 0 <= j < |v'|
        ensures !HasKey(v'[j], name, domain, path)
      {
        var j' := if j < i then j else j + 1;
        assert v'[j] == v[j'];
        OnlyOne(v, i, j', name, domain, path);
      }
      LookupNone(v', name, domain, path);
    } else if k < |v| {
      assert v'[if k < i then k else k - 1] == v[k];
      LookupIs(v', if k < i then k else k - 1, name, domain, path);
    } else {
      LookupNone(v', name, domain, path);
    }
  }

  // ---- expiry

  predicate Expired(c: Cookie, now: nat) {
    c.expires != 0 && c.expires <= now
  }

  /** The cookies still alive, and alongside them anything else kept per cookie. */
  function Unexpired<T>(v: seq<Cookie>, s: seq<T>, now: nat): (r: seq<T>)
    requires |v| == |s|
    ensures |r| <= |s|
  {
    if v == [] then []
    else Unexpired(v[..|v| - 1], s[..|v| - 1], now) + if Expired(v[|v| - 1], now) then [] else [s[|v| - 1]]
  }

  /** Exactly those survive that have no expiry, or one that is still to come. */
  lemma {:induction false} UnexpiredExact(v: seq<Cookie>, now: nat, c: Cookie)
    ensures c in Unexpired(v, v, now) <==> c in v && (c.expires == 0 || now < c.expires)
  {
    if v != [] {
      UnexpiredExact(v[..|v| - 1], now, c);
      assert v == v[..|v| - 1] + [v[|v| - 1]];
    }
  }

  // ---- the header

  /** Domain, path and secure match. */
  predicate Matches(c: Cookie, req: Request) {
    && (if c.hostOnly then MatchCi(req.host, c.domain) else DomainMatch(req.host, c.domain))
    && PathMatch(req.path, c.path)
    && (c.secure ==> req.https)
  }

  /** In plain terms: same labels, or those of the domain at the end; a path below; and secure ones over https only. */
  lemma MatchesIff(c: Cookie, req: Request)
    ensures Matches(c, req) <==>
      && (if c.hostOnly then Labels(req.host) == Labels(c.domain) else EndsIn(Labels(req.host), Labels(c.domain)))
      && Under(Resource(req.path), c.path)
      && (!c.secure || req.https)
  {
    SameLabels(req.host, c.domain);
    DomainMatchIff(req.host, c.domain);
    PathMatchIff(req.path, c.path);
  }

  /** Longest path first, jar order among equals. */
  predicate Before(v: seq<Cookie>, a: nat, b: nat) {
    && a < |v| && b < |v|
    && (|v[a].path| > |v[b].path| || (|v[a].path| == |v[b].path| && a < b))
  }

  predicate Ordered(v: seq<Cookie>, order: seq<nat>) {
    && (forall i :: 0 <= i < |order| ==> order[i] < |v|)
    && forall i, j :: 0 <= i < j < |order| ==> Before(v, order[i], order[j])
  }

  /** `order` lists the matching cookies, each once, in the order they are sent. */
  ghost predicate Emitted(v: seq<Cookie>, req: Request, order: seq<nat>) {
    && Ordered(v, order)
    && forall i: nat :: i in order <==> i < |v| && Matches(v[i], req)
  }

  /** There is only one way to order the same cookies. */
  lemma {:induction false} OrderUnique(v: seq<Cookie>, a: seq<nat>, b: seq<nat>)
    requires Ordered(v, a) && Ordered(v, b) && forall i: nat :: i in a <==> i in b
    ensures a == b
    decreases |a|
  {
    assert |b| > 0 ==> b[0] in b;
    if a != [] {
      assert a[0] in a;
      var k :| 0 <= k < |b| && b[k] == a[0];
      var l :| 0 <= l < |a| && a[l] == b[0];
      assert k > 0 ==> Before(v, b[0], b[k]);
      assert l > 0 ==> Before(v, a[0], a[l]);
      forall i: nat
        ensures i in a[1..] <==> i in b[1..]
      {
        TailMembers(v, a, i);
        TailMembers(v, b, i);
      }
      OrderUnique(v, a[1..], b[1..]);
      assert a == [a[0]] + a[1..] && b == [b[0]] + b[1..];
    }
  }

  lemma TailMembers(v: seq<Cookie>, a: seq<nat>, i: nat)
    requires a != [] && Ordered(v, a)
    ensures i in a[1..] <==> i in a && i != a[0]
  {
    if i in a[1..] {
      var k :| 0 <= k < |a| - 1 && a[1..][k] == i;
      assert Before(v, a[0], a[k + 1]);
    }
  }

  function Render(v: seq<Cookie>, order: seq<nat>): Text
    requires forall i :: 0 <= i < |order| ==> order[i] < |v|
  {
    if order == [] then ""
    else
      var n := |order| - 1;
      Render(v, order[..n]) + (if n > 0 then "; " else "") + v[order[n]].name + "=" + v[order[n]].value
  }

  predicate Ascending(s: seq<nat>) {
    forall i, j :: 0 <= i < j < |s| ==> s[i] < s[j]
  }

  ghost predicate SameMembers(a: seq<nat>, b: seq<nat>) {
    forall i: nat :: i in a <==> i in b
  }

  /** A later index goes behind every path at least as long. */
  lemma InsertOrdered(v: seq<Cookie>, pre: seq<nat>, key: nat, b: nat)
    requires Ordered(v, pre) && key < |v| && b <= |pre|
    requires forall i :: 0 <= i < |pre| ==> pre[i] < key
    requires forall i :: b <= i < |pre| ==> |v[pre[i]].path| < |v[key].path|
    requires b > 0 ==> |v[pre[b - 1]].path| >= |v[key].path|
    ensures Ordered(v, pre[..b] + [key] + pre[b..])
    ensures SameMembers(pre[..b] + [key] + pre[b..], pre + [key])
  {
    forall i | 0 <= i < b
      ensures Before(v, pre[i], key)
    {
      assert i < b - 1 ==> Before(v, pre[i], pre[b - 1]);
    }
    assert pre == pre[..b] + pre[b..];
  }

  /** One round of the insertion sort, in place: idx[a] moves down past the shorter paths. */
  method Insert(v: seq<Cookie>, idx: array<nat>, a: nat) returns (ghost b: nat)
    requires 0 < a < idx.Length && forall i :: 0 <= i <= a ==> idx[i] < |v|
    modifies idx
    ensures b <= a && idx[..a + 1] == old(idx[..b] + [idx[a]] + idx[b..a])
    ensures forall i :: a < i < idx.Length ==> idx[i] == old(idx[i])
    ensures forall i :: b <= i < a ==> |v[old(idx[i])].path| < |v[old(idx[a])].path|
    ensures b > 0 ==> |v[old(idx[b - 1])].path| >= |v[old(idx[a])].path|
  {
    var key, at := idx[a], a;
    while at > 0 && |v[idx[at - 1]].path| < |v[key].path|
      invariant 0 <= at <= a
      invariant forall i :: 0 <= i < at ==> idx[i] == old(idx[i])
      invariant forall i :: at < i <= a ==> idx[i] == old(idx[i - 1])
      invariant forall i :: a < i < idx.Length ==> idx[i] == old(idx[i])
      invariant forall i :: at <= i < a ==> |v[old(idx[i])].path| < |v[key].path|
    {
      idx[at] := idx[at - 1];
      at := at - 1;
    }
    idx[at] := key;
    b := at;
  }

  /** The insertion sort. */
  method SortByPath(v: seq<Cookie>, idx: array<nat>, n: nat)
    requires 0 < n <= idx.Length && Ascending(idx[..n]) && forall i :: 0 <= i < n ==> idx[i] < |v|
    modifies idx
    ensures Ordered(v, idx[..n]) && SameMembers(idx[..n], old(idx[..n]))
  {
    ghost var was := idx[..n];
    for a := 1 to n
      invariant forall i :: a <= i < n ==> idx[i] == was[i]
      invariant Ordered(v, idx[..a]) && SameMembers(idx[..a], was[..a])
    {
      ghost var pre := idx[..a];
      assert forall i :: 0 <= i < a ==> pre[i] == idx[i];
      ghost var b := Insert(v, idx, a);
      assert idx[..a + 1] == pre[..b] + [was[a]] + pre[b..];
      SortStep(v, was, a, pre, b);
    }
  }

  lemma SortStep(v: seq<Cookie>, was: seq<nat>, a: nat, pre: seq<nat>, b: nat)
    requires a < |was| && Ascending(was) && was[a] < |v| && |pre| == a && b <= a
    requires Ordered(v, pre) && SameMembers(pre, was[..a])
    requires forall i :: b <= i < a ==> |v[pre[i]].path| < |v[was[a]].path|
    requires b > 0 ==> |v[pre[b - 1]].path| >= |v[was[a]].path|
    ensures Ordered(v, pre[..b] + [was[a]] + pre[b..])
    ensures SameMembers(pre[..b] + [was[a]] + pre[b..], was[..a + 1])
  {
    AllBelow(was, a, pre);
    InsertOrdered(v, pre, was[a], b);
    assert was[..a + 1] == was[..a] + [was[a]];
  }

  lemma AllBelow(was: seq<nat>, a: nat, pre: seq<nat>)
    requires a < |was| && Ascending(was) && SameMembers(pre, was[..a])
    ensures forall i :: 0 <= i < |pre| ==> pre[i] < was[a]
  {
    forall i | 0 <= i < |pre|
      ensures pre[i] < was[a]
    {
      assert pre[i] in pre;
      assert pre[i] in was[..a];
    }
  }

  // ---- what storing does to the cookies already there

  /** Does an outcome name the key of `c`, to delete it or to write over it? */
  predicate Names(o: Outcome, c: Cookie) {
    match o
    case Ignore => false
    case Delete(name, domain, path) => HasKey(c, name, domain, path)
    case Keep(d) => SameKey(c, d) && c != d
  }

  /** Storing removes an old cookie, expired or not, exactly when the outcome names its key. */
  lemma StoreRemovesIff(v: seq<Cookie>, max: nat, o: Outcome, c: Cookie)
    requires UniqueKeys(v) && c in v
    ensures c !in After(v, max, o) <==> Names(o, c)
  {
    var j :| 0 <= j < |v| && v[j] == c;
    match o
    case Ignore =>
    case Delete(name, domain, path) =>
      var i := Find(v, name, domain, path);
      if i < |v| { RemovedMembers(v, i, j); }
    case Keep(d) =>
      var i := Find(v, d.name, d.domain, d.path);
      if i < |v| {
        if i == j { ReplacedGone(v, i, d); } else { OnlyOne(v, i, j, d.name, d.domain, d.path); assert v[i := d][j] == c; }
      } else if |v| < max {
        assert (v + [d])[j] == c;
      }
  }

  lemma RemovedMembers(v: seq<Cookie>, i: nat, j: nat)
    requires UniqueKeys(v) && i < |v| && j < |v|
    ensures v[j] in Removed(v, i) <==> i != j
  {
    var r := Removed(v, i);
    if i != j {
      assert r[if j < i then j else j - 1] == v[j];
    } else {
      forall k | 0 <= k < |r| ensures r[k] != v[i] {
        OnlyOne(v, i, if k < i then k else k + 1, v[i].name, v[i].domain, v[i].path);
      }
    }
  }

  lemma ReplacedGone(v: seq<Cookie>, i: nat, d: Cookie)
    requires UniqueKeys(v) && i < |v| && SameKey(v[i], d)
    ensures v[i] in v[i := d] <==> v[i] == d
  {
    var r := v[i := d];
    assert r[i] == d;
    forall k | 0 <= k < |r| && k != i ensures r[k] != v[i] {
      OnlyOne(v, i, k, v[i].name, v[i].domain, v[i].path);
    }
  }

  /** So storing does not evict: an expired cookie stays in the jar past any Set-Cookie that names another key. */
  lemma StoreKeepsExpired(v: seq<Cookie>, max: nat, o: Outcome, c: Cookie, now: nat)
    requires UniqueKeys(v) && c in v && Expired(c, now) && !Names(o, c)
    ensures c in After(v, max, o) && c !in Unexpired(After(v, max, o), After(v, max, o), now)
  {
    StoreRemovesIff(v, max, o, c);
    UnexpiredExact(After(v, max, o), now, c);
  }

  /** A jar where that happens: the cookie `a` expired at 1 survives a store of "b=1" at any later time. */
  lemma ExpiredSurvivesStore(t: Tables, now: nat, date: Text -> nat)
    requires now >= 1
    ensures var c := Cookie("a", "x", "h", "/", 1, true, false, false, 0);
      var v' := After([c], 3000, Interpret(t, Request("h", "/", true), "b=1", now, date));
      Expired(c, now) && c in v' && |v'| == 2
  {
    var c, req := Cookie("a", "x", "h", "/", 1, true, false, false, 0), Request("h", "/", true);
    var d := Cookie("b", "1", "h", "/", 0, true, false, false, 0);
    PlainPair(t, req, now, date, d);
    assert !HasKey(c, d.name, d.domain, d.path);
    assert ([c] + [d])[0] == c;
  }

  /** What the Set-Cookie value "b=1" means. */
  lemma PlainPair(t: Tables, req: Request, now: nat, date: Text -> nat, d: Cookie)
    requires req == Request("h", "/", true) && d == Cookie("b", "1", "h", "/", 0, true, false, false, 0)
    ensures Interpret(t, req, "b=1", now, date) == Keep(d)
  {
    var sc: Text := "b=1";
    IndexIs(sc, ';', 3);
    assert sc[..3] == sc && Trim(sc) == sc && Rest(sc, ';') == [];
    IndexIs(sc, '=', 1);
    assert sc[..1] == "b" && sc[2..] == "1" && Trim("b") == "b" && Trim("1") == "1";
    assert DefaultPath("/") == "/";
  }

  // ---- what a Set-Cookie value asks for

  datatype Outcome = Ignore | Delete(name: Text, domain: Text, path: Text) | Keep(cookie: Cookie)

  /** cookie_jar_store up to the point where it touches the jar. */
  function Interpret(t: Tables, req: Request, sc: Text, now: nat, date: Text -> nat): Outcome {
    var nv := Trim(sc[..IndexOf(sc, ';')]);
    var eq := IndexOf(nv, '=');
    if eq == |nv| || Trim(nv[..eq]) == [] then Ignore
    else
      var name, value := Trim(nv[..eq]), Trim(nv[eq + 1..]);
      var p := ApplyAll(Initial(req), Chunks(Rest(sc, ';')), now, date);
      match Decide(t, req.host, p)
      case Rejected => Ignore
      case Accepted(domain, hostOnly) =>
        if p.expiredNow then Delete(name, domain, p.path)
        else Keep(Cookie(name, value, domain, p.path, if p.hasExpiry then p.expires else 0,
                         hostOnly, p.secure, p.httpOnly, p.sameSite))
  }

  /** A kept cookie is in the scope of the host that set it, and would go back to it. */
  lemma KeepReturns(t: Tables, req: Request, sc: Text, now: nat, date: Text -> nat)
    requires Interpret(t, req, sc, now, date).Keep?
    ensures var c := Interpret(t, req, sc, now, date).cookie;
      && Scoped(t, c.domain, c.hostOnly, req.host)
      && (Matches(c, req) <==> PathMatch(req.path, c.path) && (c.secure ==> req.https))
  {
    var cs := Chunks(Rest(sc, ';'));
    HostKept(Initial(req), cs, now, date, req.host);
    DecideScopes(t, req.host, ApplyAll(Initial(req), cs, now, date));
  }

  /** The array after an outcome. */
  function After(v: seq<Cookie>, max: nat, o: Outcome): seq<Cookie> {
    match o
    case Ignore => v
    case Delete(name, domain, path) =>
      var i := Find(v, name, domain, path);
      if i < |v| then Removed(v, i) else v
    case Keep(c) => Put(v, max, c)
  }

  /** Who set each cookie, after an outcome from `host`; nobody if the cookie was restored. */
  function SettersAfter(v: seq<Cookie>, setters: seq<Option<Text>>, max: nat, o: Outcome, host: Option<Text>)
    : seq<Option<Text>>
    requires |setters| == |v|
  {
    match o
    case Ignore => setters
    case Delete(name, domain, path) =>
      var i := Find(v, name, domain, path);
      if i < |v| then Removed(setters, i) else setters
    case Keep(c) =>
      var i := Find(v, c.name, c.domain, c.path);
      if i < |v| then setters[i := host] else if |v| >= max then setters else setters + [host]
  }

  predicate ScopedBy(t: Tables, c: Cookie, setter: Option<Text>) {
    setter.Some? ==> Scoped(t, c.domain, c.hostOnly, setter.value)
  }

  predicate AllScoped(t: Tables, v: seq<Cookie>, setters: seq<Option<Text>>) {
    |setters| == |v| && forall i :: 0 <= i < |v| ==> ScopedBy(t, v[i], setters[i])
  }

  /** The jar's invariant: at most `max` cookies, no key twice, each in the scope of its setter. */
  predicate Inv(t: Tables, v: seq<Cookie>, setters: seq<Option<Text>>, max: nat) {
    SortedTables(t) && |v| <= max && UniqueKeys(v) && AllScoped(t, v, setters)
  }

  lemma RemovedInv(t: Tables, v: seq<Cookie>, setters: seq<Option<Text>>, max: nat, i: nat)
    requires Inv(t, v, setters, max) && i < |v|
    ensures Inv(t, Removed(v, i), Removed(setters, i), max)
  {
    RemovedUnique(v, i);
  }

  lemma AfterInv(t: Tables, v: seq<Cookie>, setters: seq<Option<Text>>, max: nat, o: Outcome, host: Option<Text>)
    requires Inv(t, v, setters, max)
    requires o.Keep? ==> ScopedBy(t, o.cookie, host)
    ensures Inv(t, After(v, max, o), SettersAfter(v, setters, max, o, host), max)
  {
    match o
    case Ignore =>
    case Delete(name, domain, path) =>
      var i := Find(v, name, domain, path);
      if i < |v| { RemovedInv(t, v, setters, max, i); }
    case Keep(c) => PutUnique(v, max, c);
  }

  /** A cookie goes only to hosts its setter shares with; nothing is known of a restored one. */
  ghost predicate MaySend(t: Tables, setter: Option<Text>, host: Text) {
    setter.Some? ==> Shares(t, setter.value, host)
  }

  /** Calls a client may make, in any order. */
  datatype Op = Store(req: Request, setCookie: Text, now: nat) | Restore(cookie: Cookie)
              | Header(req: Request, now: nat) | Evict(now: nat)

  /** One cookie in one Cookie header. */
  datatype Sent = Sent(cookie: Cookie, setter: Option<Text>, req: Request, now: nat)

  /** It may go there: its setter shares with the host, it is alive, its path is above, and a secure one goes over https. */
  ghost predicate Proper(t: Tables, s: Sent) {
    && MaySend(t, s.setter, s.req.host)
    && (s.cookie.expires == 0 || s.now < s.cookie.expires)
    && Under(Resource(s.req.path), s.cookie.path)
    && (s.cookie.secure ==> s.req.https)
  }

  ghost function Receipts(v: seq<Cookie>, setters: seq<Option<Text>>, order: seq<nat>, req: Request, now: nat)
    : (sent: seq<Sent>)
    requires Ordered(v, order) && |setters| == |v|
    ensures |sent| == |order|
    ensures forall i :: 0 <= i < |order| ==> sent[i] == Sent(v[order[i]], setters[order[i]], req, now)
  {
    seq(|order|, i requires 0 <= i < |order| => Sent(v[order[i]], setters[order[i]], req, now))
  }

  /** What a header sends may go. */
  lemma ReceiptsProper(t: Tables, was: seq<Cookie>, v: seq<Cookie>, setters: seq<Option<Text>>,
                       order: seq<nat>, req: Request, now: nat)
    requires v == Unexpired(was, was, now) && |setters| == |v| && Emitted(v, req, order)
    requires forall i :: 0 <= i < |order| ==> MaySend(t, setters[order[i]], req.host)
    ensures forall i :: 0 <= i < |order| ==> Proper(t, Receipts(v, setters, order, req, now)[i])
  {
    forall i | 0 <= i < |order| ensures Proper(t, Receipts(v, setters, order, req, now)[i]) {
      var c := v[order[i]];
      assert order[i] in order && c in v;
      MatchesIff(c, req);
      UnexpiredExact(was, now, c);
    }
  }

  class Jar {
    var v: seq<Cookie>
    const max: nat
    const tables: Tables
    ghost var setters: seq<Option<Text>>

    ghost predicate Valid()
      reads this
    {
      Inv(tables, v, setters, max)
    }

    /** cookie_jar_init. */
    constructor (tables: Tables)
      requires SortedTables(tables)
      ensures Valid() && v == [] && max == 3000 && this.tables == tables
    {
      this.tables := tables;
      max := 3000;
      v := [];
      setters := [];
    }

    /** cookie_jar_find. */
    method FindCookie(name: Text, domain: Text, path: Text) returns (i: int)
      ensures var k := Find(v, name, domain, path); i == if k < |v| then k else -1
    {
      for n := 0 to |v|
        invariant forall k :: 0 <= k < n ==> !HasKey(v[k], name, domain, path)
      {
        if HasKey(v[n], name, domain, path) { return n; }
      }
      return -1;
    }

    /** cookie_jar_remove_at. */
    method RemoveAt(i: nat)
      requires Valid() && i < |v|
      modifies this
      ensures Valid() && v == Removed(old(v), i) && setters == Removed(old(setters), i)
    {
      RemovedInv(tables, v, setters, max, i);
      v := v[..i] + v[i + 1..];
      setters := Removed(setters, i);
    }

    /** cookie_jar_evict_expired. */
    method EvictExpired(now: nat)
      requires Valid()
      modifies this
      ensures Valid() && v == Unexpired(old(v), old(v), now)
      ensures setters == Unexpired(old(v), old(setters), now)
    {
      var i := 0;
      ghost var j := 0;
      ghost var v0, s0 := v, setters;
      while i < |v|
        invariant Valid() && j <= |v0| && i == |Unexpired(v0[..j], v0[..j], now)|
        invariant Evicted(v0, v0, j, now, v) && Evicted(v0, s0, j, now, setters)
        decreases |v| - i
      {
        EvictStep(v0, v0, j, now, v);
        EvictStep(v0, s0, j, now, setters);
        if Expired(v[i], now) {
          RemoveAt(i);
        } else {
          i := i + 1;
        }
        j := j + 1;
      }
      EvictEnd(v0, v0, j, now, v);
      EvictEnd(v0, s0, j, now, setters);
    }

    /** cookie_jar_put: a cookie that `host` set, or any cookie at all when a session is restored. */
    method PutCookie(c: Cookie, ghost host: Option<Text>)
      requires Valid() && ScopedBy(tables, c, host)
      modifies this
      ensures Valid() && v == After(old(v), max, Keep(c))
      ensures setters == SettersAfter(old(v), old(setters), max, Keep(c), host)
    {
      AfterInv(tables, v, setters, max, Keep(c), host);
      var existing := FindCookie(c.name, c.domain, c.path);
      ghost var setters' := SettersAfter(v, setters, max, Keep(c), host);
      if existing >= 0 {
        v := v[existing := c];
      } else if |v| < max {
        v := v + [c];
      }
      setters := setters';
    }

    /** cookie_jar_store. */
    method Store(req: Request, sc: Text, now: nat, date: Text -> nat)
      requires Valid()
      modifies this
      ensures Valid() && v == After(old(v), max, Interpret(tables, req, sc, now, date))
      ensures setters == SettersAfter(old(v), old(setters), max, Interpret(tables, req, sc, now, date), Some(req.host))
    {
      ghost var o := Interpret(tables, req, sc, now, date);
      var pair, av := Chop(sc, ';');
      var nv := Trim(pair);
      var eq := IndexOf(nv, '=');
      if eq == |nv| { return; }
      var name, value := Trim(nv[..eq]), Trim(nv[eq + 1..]);
      if |name| == 0 { return; }
      var p := ParseAttributes(req, av, now, date);
      var s := CheckDomain(tables, req.host, p);
      if s == Rejected { return; }
      if p.expiredNow {
        var existing := FindCookie(name, s.domain, p.path);
        if existing >= 0 { RemoveAt(existing); }
        return;
      }
      KeepReturns(tables, req, sc, now, date);
      PutCookie(Cookie(name, value, s.domain, p.path, if p.hasExpiry then p.expires else 0,
                       s.hostOnly, p.secure, p.httpOnly, p.sameSite), Some(req.host));
    }

    /** The matching cookies, in jar order. */
    method Select(req: Request) returns (idx: array<nat>, n: nat)
      ensures fresh(idx) && n <= idx.Length && Ascending(idx[..n])
      ensures forall i: nat :: i in idx[..n] <==> i < |v| && Matches(v[i], req)
    {
      idx := new nat[|v|];
      n := 0;
      for i := 0 to |v|
        invariant n <= i && Ascending(idx[..n])
        invariant forall k: nat :: k in idx[..n] <==> k < i && Matches(v[k], req)
      {
        var c := v[i];
        var dm := if c.hostOnly then MatchCi(req.host, c.domain) else DomainMatch(req.host, c.domain);
        if dm && PathMatch(req.path, c.path) && !(c.secure && !req.https) {
          ghost var was := idx[..n];
          idx[n] := i;
          assert idx[..n + 1] == was + [i];
          assert forall k :: 0 <= k < n ==> was[k] in was;
          n := n + 1;
        }
      }
    }

    /**
     cookie_jar_cookie_header: exactly the unexpired matching cookies, once each,
     in the one order `Emitted` allows, and none outside its setter's scope.
     */
    method CookieHeader(req: Request, now: nat) returns (text: Text, ghost order: seq<nat>)
      requires Valid()
      modifies this
      ensures Valid() && v == Unexpired(old(v), old(v), now) && setters == Unexpired(old(v), old(setters), now)
      ensures Emitted(v, req, order) && text == Render(v, order)
      ensures forall i :: 0 <= i < |order| ==> MaySend(tables, setters[order[i]], req.host)
    {
      EvictExpired(now);
      var idx, n := Select(req);
      order := idx[..n];
      if n == 0 { return "", []; }
      ghost var chosen := idx[..n];
      assert forall i :: 0 <= i < n ==> idx[i] in chosen;
      SortByPath(v, idx, n);
      order := idx[..n];
      assert Emitted(v, req, order);
      EmittedInScope(tables, v, setters, max, req, order);
      text := Join(v, order, idx, n);
    }

    /**
     Any run of calls: every cookie ever sent went to a host its setter may share with, for a
     path below its own, before it expired, and over https if it is a secure one.
     */
    method Run(ops: seq<Op>, date: Text -> nat) returns (ghost sent: seq<Sent>)
      requires Valid()
      modifies this
      ensures Valid() && forall i :: 0 <= i < |sent| ==> Proper(tables, sent[i])
    {
      sent := [];
      for i := 0 to |ops|
        invariant Valid() && forall i :: 0 <= i < |sent| ==> Proper(tables, sent[i])
      {
        match ops[i]
        case Store(req, sc, now) => Store(req, sc, now, date);
        case Restore(c) => PutCookie(c, None);
        case Evict(now) => EvictExpired(now);
        case Header(req, now) =>
          ghost var was := v;
          var _, order := CookieHeader(req, now);
          ReceiptsProper(tables, was, v, setters, order, req, now);
          sent := sent + Receipts(v, setters, order, req, now);
      }
    }
  }

  lemma {:induction false} UnexpiredSameLength<T>(v: seq<Cookie>, s: seq<T>, now: nat)
    requires |v| == |s|
    ensures |Unexpired(v, s, now)| == |Unexpired(v, v, now)|
  {
    if v != [] { UnexpiredSameLength(v[..|v| - 1], s[..|v| - 1], now); }
  }

  /** The eviction loop has gone over the first `j` of the cookies it began with. */
  predicate Evicted<T(==)>(v: seq<Cookie>, s: seq<T>, j: nat, now: nat, cur: seq<T>)
    requires |v| == |s| && j <= |v|
  {
    cur == Unexpired(v[..j], s[..j], now) + s[j..]
  }

  lemma EvictStep<T>(v: seq<Cookie>, s: seq<T>, j: nat, now: nat, cur: seq<T>)
    requires |v| == |s| && j <= |v| && Evicted(v, s, j, now, cur)
    requires |Unexpired(v[..j], v[..j], now)| < |cur|
    ensures j < |v|
    ensures var i := |Unexpired(v[..j], v[..j], now)|;
      && cur[i] == s[j]
      && i + (if Expired(v[j], now) then 0 else 1) == |Unexpired(v[..j + 1], v[..j + 1], now)|
      && Evicted(v, s, j + 1, now, if Expired(v[j], now) then Removed(cur, i) else cur)
  {
    UnexpiredSameLength(v[..j], s[..j], now);
    if j < |v| {
      assert v[..j + 1][..j] == v[..j] && s[..j + 1][..j] == s[..j];
      assert v[..j + 1][j] == v[j] && s[..j + 1][j] == s[j];
    }
  }

  lemma EvictEnd<T>(v: seq<Cookie>, s: seq<T>, j: nat, now: nat, cur: seq<T>)
    requires |v| == |s| && j <= |v| && Evicted(v, s, j, now, cur)
    requires |Unexpired(v[..j], v[..j], now)| >= |cur|
    ensures cur == Unexpired(v, s, now)
  {
    UnexpiredSameLength(v[..j], s[..j], now);
    assert v[..|v|] == v && s[..|v|] == s;
  }

  lemma EmittedInScope(t: Tables, v: seq<Cookie>, setters: seq<Option<Text>>, max: nat, req: Request, order: seq<nat>)
    requires Inv(t, v, setters, max) && Emitted(v, req, order)
    ensures forall i :: 0 <= i < |order| ==> MaySend(t, setters[order[i]], req.host)
  {
    forall i | 0 <= i < |order|
      ensures MaySend(t, setters[order[i]], req.host)
    {
      var k := order[i];
      assert k in order;
      if setters[k].Some? { ScopeTheorem(t, v[k].domain, v[k].hostOnly, setters[k].value, req.host); }
    }
  }

  /** The header text, pair by pair. */
  method Join(v: seq<Cookie>, ghost order: seq<nat>, idx: array<nat>, n: nat) returns (text: Text)
    requires n <= idx.Length && order == idx[..n] && Ordered(v, order)
    ensures text == Render(v, order)
  {
    text := "";
    for k := 0 to n
      invariant text == Render(v, order[..k])
    {
      assert order[..k + 1][..k] == order[..k];
      if k > 0 { text := text + "; "; }
      text := text + v[idx[k]].name + "=" + v[idx[k]].value;
    }
    assert order[..n] == order;
  }
}
