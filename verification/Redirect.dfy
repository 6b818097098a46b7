/** Redirect chains: the per-hop transition and what it keeps over chains of any length. */
module Redirect {
  import opened SecFetch
  import opened Text

  datatype Method = GET | POST | Other(code: nat)

  datatype Response = Response(ok: bool, status: int, headers: seq<Header>)

  /** url_parse and url_resolve, whatever they compute. */
  datatype Urls = Urls(parse: Text -> Url, resolve: (Text, Text) -> Text)

  predicate IsRedirect(status: int) {
    status == 301 || status == 302 || status == 303 || status == 307 || status == 308
  }

  predicate DropsBody(m: Method, status: int) {
    status == 303 || ((status == 301 || status == 302) && m == POST)
  }

  /** redirect_next_method. */
  function NextMethod(m: Method, status: int): Method {
    if DropsBody(m, status) then GET else m
  }

  predicate IsContent(h: Header) {
    MatchCi(h.name, "content-length") || MatchCi(h.name, "content-type")
  }

  predicate IsAuthorization(h: Header) {
    MatchCi(h.name, "authorization")
  }

  /** The value of the first Location header, empty without one. */
  function Location(hs: seq<Header>): Text {
    if hs == [] then [] else if MatchCi(hs[0].name, "location") then hs[0].value else Location(hs[1..])
  }

  predicate Kept(h: Header, drop: bool, cross: bool) {
    !(drop && IsContent(h)) && !(cross && IsAuthorization(h))
  }

  function Rewritten(h: Header, site: Text): Header {
    if site != [] && IsSite(h) then h.(value := site) else h
  }

  /** The headers of the next hop, in their order. */
  function Carried(hs: seq<Header>, drop: bool, cross: bool, site: Text): seq<Header> {
    if hs == [] then []
    else
      var n := |hs| - 1;
      Carried(hs[..n], drop, cross, site) + if Kept(hs[n], drop, cross) then [Rewritten(hs[n], site)] else []
  }

  datatype Hop = Deliver | Follow(url: Text, verb: Method, drop: bool, headers: seq<Header>)

  predicate Crosses(urls: Urls, cur: Text, next: Text) {
    !(urls.parse(cur).ok && MatchCi(urls.parse(cur).host, urls.parse(next).host))
  }

  /** redirect_prepare_hop. */
  function NextHop(urls: Urls, cur: Text, m: Method, carried: seq<Header>, r: Response): Hop {
    var loc := Location(r.headers);
    var next := urls.resolve(cur, loc);
    if !r.ok || !IsRedirect(r.status) || loc == [] || !urls.parse(next).ok || !urls.parse(next).https then Deliver
    else
      var drop := DropsBody(m, r.status);
      Follow(next, NextMethod(m, r.status), drop,
             Carried(carried, drop, Crosses(urls, cur, next), SiteForRedirect(urls.parse, carried, next)))
  }

  method FindLocation(hs: seq<Header>) returns (loc: Text)
    ensures loc == Location(hs)
  {
    for i := 0 to |hs|
      invariant Location(hs) == Location(hs[i..])
    {
      assert hs[i..][1..] == hs[i + 1..];
      if MatchCi(hs[i].name, "location") { return hs[i].value; }
    }
    return [];
  }

  /** The loop that rebuilds the carried headers. */
  method Carry(hs: seq<Header>, drop: bool, cross: bool, site: Text) returns (out: seq<Header>)
    ensures out == Carried(hs, drop, cross, site)
  {
    out := [];
    for i := 0 to |hs|
      invariant out == Carried(hs[..i], drop, cross, site)
    {
      assert hs[..i + 1][..i] == hs[..i];
      var h := hs[i];
      if drop && (MatchCi(h.name, "content-length") || MatchCi(h.name, "content-type")) { continue; }
      if cross && MatchCi(h.name, "authorization") { continue; }
      var value := h.value;
      if |site| > 0 && MatchCi(h.name, "sec-fetch-site") { value := site; }
      out := out + [Header(h.name, value, h.flags)];
    }
    assert hs[..|hs|] == hs;
  }

  method PrepareHop(urls: Urls, cur: Text, m: Method, carried: seq<Header>, r: Response) returns (hop: Hop)
    ensures hop == NextHop(urls, cur, m, carried, r)
  {
    if !r.ok || !IsRedirect(r.status) { return Deliver; }
    var loc := FindLocation(r.headers);
    if |loc| == 0 { return Deliver; }
    var next := urls.resolve(cur, loc);
    var npu := urls.parse(next);
    if !npu.ok || !npu.https { return Deliver; }
    var drop := DropsBody(m, r.status);
    var cpu := urls.parse(cur);
    var cross := !(cpu.ok && MatchCi(cpu.host, npu.host));
    var site := ComputeSiteForRedirect(urls.parse, carried, next);
    var headers := Carry(carried, drop, cross, site);
    return Follow(next, NextMethod(m, r.status), drop, headers);
  }

  // ---- when a hop is taken, and what it carries

  /** A 303, or a 301 or 302 that answers a POST, turns the request into a GET without a body. */
  predicate Rewrites(verb: Method, status: int) {
    status == 303 || (verb == POST && (status == 301 || status == 302))
  }

  /**
   A hop is taken exactly on these five statuses, with a Location that resolves to an https URL. It
   goes there, with the headers that a rewritten request and a change of host leave.
   */
  lemma FollowsIff(urls: Urls, cur: Text, m: Method, carried: seq<Header>, r: Response)
    ensures var hop, next := NextHop(urls, cur, m, carried, r), urls.resolve(cur, Location(r.headers));
      && (hop.Follow? <==> r.ok && r.status in [301, 302, 303, 307, 308] && Location(r.headers) != []
                           && urls.parse(next).ok && urls.parse(next).https)
      && (hop.Follow? ==>
            var rewritten := Rewrites(m, r.status);
            var moved := !urls.parse(cur).ok || !MatchCi(urls.parse(cur).host, urls.parse(next).host);
            && hop.url == next && hop.drop == rewritten && hop.verb == (if rewritten then GET else m)
            && hop.headers == Carried(carried, rewritten, moved, SiteForRedirect(urls.parse, carried, next)))
  {
  }

  /** The first Location header counts. */
  lemma {:induction false} LocationIsFirst(hs: seq<Header>, i: nat)
    requires i <= |hs| && (forall j :: 0 <= j < i ==> !MatchCi(hs[j].name, "location"))
    requires i < |hs| ==> MatchCi(hs[i].name, "location")
    ensures Location(hs) == if i < |hs| then hs[i].value else []
  {
    if i > 0 { LocationIsFirst(hs[1..], i - 1); }
  }

  /** The headers are carried one by one, in order, ... */
  lemma {:induction false} CarriedCat(a: seq<Header>, b: seq<Header>, drop: bool, cross: bool, site: Text)
    ensures Carried(a + b, drop, cross, site) == Carried(a, drop, cross, site) + Carried(b, drop, cross, site)
    decreases |b|
  {
    if b == [] {
      assert a + b == a;
    } else {
      var n := |b| - 1;
      assert (a + b)[..|a + b| - 1] == a + b[..n];
      CarriedCat(a, b[..n], drop, cross, site);
    }
  }

  /** ... each as it is, but for a dropped body's headers, Authorization to another host, and Sec-Fetch-Site. */
  lemma CarriedOne(h: Header, drop: bool, cross: bool, site: Text)
    ensures Carried([h], drop, cross, site) ==
      if drop && (MatchCi(h.name, "content-length") || MatchCi(h.name, "content-type")) then []
      else if cross && MatchCi(h.name, "authorization") then []
      else if site != [] && MatchCi(h.name, "sec-fetch-site") then [Header(h.name, site, h.flags)]
      else [h]
  {
    assert [h][..0] == [];
  }

  // ---- what one hop does to the headers

  predicate HasContent(hs: seq<Header>) {
    exists h :: h in hs && IsContent(h)
  }

  predicate HasAuthorization(hs: seq<Header>) {
    exists h :: h in hs && IsAuthorization(h)
  }

  predicate HasSite(hs: seq<Header>) {
    exists h :: h in hs && IsSite(h)
  }

  /** Every header of the next hop is one of this hop's, under its own name. */
  lemma {:induction false} Origin(hs: seq<Header>, drop: bool, cross: bool, site: Text, h: Header) returns (x: Header)
    requires h in Carried(hs, drop, cross, site)
    ensures x in hs && h == Rewritten(x, site) && Kept(x, drop, cross)
  {
    var n := |hs| - 1;
    if h in Carried(hs[..n], drop, cross, site) {
      x := Origin(hs[..n], drop, cross, site, h);
    } else {
      x := hs[n];
    }
  }

  /** Nothing sensitive appears out of nowhere, and what must go is gone. */
  lemma HopHeaders(hs: seq<Header>, drop: bool, cross: bool, site: Text)
    ensures var out := Carried(hs, drop, cross, site);
      && (HasAuthorization(out) ==> HasAuthorization(hs) && !cross)
      && (HasContent(out) ==> HasContent(hs) && !drop)
  {
    var out := Carried(hs, drop, cross, site);
    if HasAuthorization(out) {
      var h :| h in out && IsAuthorization(h);
      var x := Origin(hs, drop, cross, site, h);
      assert IsAuthorization(x);
    }
    if HasContent(out) {
      var h :| h in out && IsContent(h);
      var x := Origin(hs, drop, cross, site, h);
      assert IsContent(x);
    }
  }

  lemma SiteIsKept(h: Header, drop: bool, cross: bool)
    requires IsSite(h) || IsReferer(h)
    ensures Kept(h, drop, cross)
  {
    Clash(h.name, "sec-fetch-site", "content-length");
    Clash(h.name, "sec-fetch-site", "content-type");
    Clash(h.name, "sec-fetch-site", "authorization");
    Clash(h.name, "referer", "content-length");
    Clash(h.name, "referer", "content-type");
    Clash(h.name, "referer", "authorization");
  }

  /** The value of Sec-Fetch-Site in force becomes `site` if there is one. */
  lemma {:induction false} CarriedSite(hs: seq<Header>, drop: bool, cross: bool, site: Text)
    ensures SiteIn(Carried(hs, drop, cross, site)) == if site != [] && HasSite(hs) then site else SiteIn(hs)
  {
    if hs != [] {
      var n := |hs| - 1;
      var h, init := hs[n], Carried(hs[..n], drop, cross, site);
      CarriedSite(hs[..n], drop, cross, site);
      assert forall x :: x in hs <==> x in hs[..n] || x == h;
      assert HasSite(hs) <==> HasSite(hs[..n]) || IsSite(h);
      if IsSite(h) { SiteIsKept(h, drop, cross); }
      if Kept(h, drop, cross) {
        assert (init + [Rewritten(h, site)])[..|init|] == init;
      } else {
        assert init + [] == init;
      }
    }
  }

  lemma {:induction false} SiteHasHeader(hs: seq<Header>)
    requires SiteIn(hs) != []
    ensures HasSite(hs)
  {
    var n := |hs| - 1;
    if !IsSite(hs[n]) {
      SiteHasHeader(hs[..n]);
    }
  }

  /** Along one hop the Sec-Fetch-Site in force is the one computed for it. */
  lemma HopSite(parse: Text -> Url, hs: seq<Header>, drop: bool, cross: bool, next: Text)
    ensures var site := SiteForRedirect(parse, hs, next);
      SiteIn(Carried(hs, drop, cross, site)) == if site != [] then site else SiteIn(hs)
  {
    var site := SiteForRedirect(parse, hs, next);
    CarriedSite(hs, drop, cross, site);
    if site != [] { SiteHasHeader(hs); }
  }

  /**
   With several Sec-Fetch-Site headers a hop writes one value over all of them, so
   each keeps its rank exactly when none outranks that value.
   */
  lemma EveryRankKept(hs: seq<Header>, drop: bool, cross: bool, site: Text)
    requires site != []
    ensures (forall h :: h in hs && IsSite(h) ==> Rank(h.value) <= Rank(site)) <==>
            (forall h, x :: h in hs && IsSite(h) && x in Carried(hs, drop, cross, site) && IsSite(x) ==>
                              Rank(h.value) <= Rank(x.value))
  {
    forall x | x in Carried(hs, drop, cross, site) && IsSite(x)
      ensures x.value == site
    {
      var y := Origin(hs, drop, cross, site, x);
    }
    forall h | h in hs && IsSite(h)
      ensures Rewritten(h, site) in Carried(hs, drop, cross, site)
    {
      SiteIsKept(h, drop, cross);
      Survives(hs, drop, cross, site, h);
    }
  }

  lemma {:induction false} Survives(hs: seq<Header>, drop: bool, cross: bool, site: Text, h: Header)
    requires h in hs && Kept(h, drop, cross)
    ensures Rewritten(h, site) in Carried(hs, drop, cross, site)
  {
    var n := |hs| - 1;
    if h != hs[n] { Survives(hs[..n], drop, cross, site, h); }
  }

  /** So an earlier, higher value is lowered: only the last one is looked at. */
  lemma EarlierHeaderLowered(parse: Text -> Url, next: Text)
    requires parse(next).ok && next != []
    ensures var hs := [Header("sec-fetch-site", "cross-site", 0), Header("referer", next, 0),
                       Header("sec-fetch-site", "same-origin", 0)];
      Carried(hs, false, false, SiteForRedirect(parse, hs, next))[0].value == "same-origin"
  {
    var hs := [Header("sec-fetch-site", "cross-site", 0), Header("referer", next, 0),
               Header("sec-fetch-site", "same-origin", 0)];
    var site := "same-origin";
    assert hs[..2] == [hs[0], hs[1]] && hs[..2][..1] == [hs[0]] && [hs[0]][..0] == [];
    assert IsSite(hs[0]) && IsSite(hs[2]);
    assert RefererIn(hs[..2]) == next;
    assert Site(parse, next, next) == "same-origin";
    assert Carried(hs[..2][..1], false, false, site) == [Rewritten(hs[0], site)];
  }

  // ---- chains

  /** One dispatched request; `dropped` says that getting here lost the body. */
  datatype Dispatch = Dispatch(url: Text, verb: Method, headers: seq<Header>, body: Text, dropped: bool)

  /** Hop `b` was reached from hop `a` by some response. */
  ghost predicate Reached(urls: Urls, a: Dispatch, b: Dispatch) {
    exists r: Response ::
      NextHop(urls, a.url, a.verb, a.headers, r) == Follow(b.url, b.verb, b.dropped, b.headers)
      && b.body == if b.dropped then [] else a.body
  }

  ghost predicate Chain(urls: Urls, t: seq<Dispatch>) {
    forall k :: 0 <= k < |t| - 1 ==> Reached(urls, t[k], t[k + 1])
  }

  predicate SameHost(urls: Urls, a: Text, b: Text) {
    urls.parse(a).ok && MatchCi(urls.parse(a).host, urls.parse(b).host)
  }

  /** What a single hop guarantees. */
  lemma HopFacts(urls: Urls, a: Dispatch, b: Dispatch)
    requires Reached(urls, a, b)
    ensures urls.parse(b.url).ok && urls.parse(b.url).https
    ensures HasAuthorization(b.headers) ==> HasAuthorization(a.headers) && SameHost(urls, a.url, b.url)
    ensures b.dropped ==> b.verb == GET && b.body == [] && !HasContent(b.headers)
    ensures !b.dropped ==> b.body == a.body && b.verb == a.verb
    ensures HasContent(b.headers) ==> HasContent(a.headers)
    ensures Rank(SiteIn(a.headers)) <= Rank(SiteIn(b.headers))
    ensures Terminal(SiteIn(a.headers)) ==> SiteIn(b.headers) == SiteIn(a.headers)
  {
    var r: Response :| NextHop(urls, a.url, a.verb, a.headers, r) == Follow(b.url, b.verb, b.dropped, b.headers)
      && b.body == if b.dropped then [] else a.body;
    var cross := Crosses(urls, a.url, b.url);
    HopHeaders(a.headers, b.dropped, cross, SiteForRedirect(urls.parse, a.headers, b.url));
    HopSite(urls.parse, a.headers, b.dropped, cross, b.url);
    SiteRises(urls.parse, a.headers, b.url);
  }

  /** One hop that carries Authorization on. */
  lemma AuthorizationHop(urls: Urls, t: seq<Dispatch>, k: nat)
    requires Chain(urls, t) && 0 < k < |t| && HasAuthorization(t[k].headers)
    ensures HasAuthorization(t[k - 1].headers) && SameHost(urls, t[k - 1].url, t[k].url)
  {
    assert Reached(urls, t[k - 1], t[k - 1 + 1]);
    HopFacts(urls, t[k - 1], t[k]);
  }

  lemma SameHostTrans(urls: Urls, a: Text, b: Text, c: Text)
    requires SameHost(urls, a, b) && SameHost(urls, b, c)
    ensures SameHost(urls, a, c)
  {
    MatchCiTrans(urls.parse(a).host, urls.parse(b).host, urls.parse(c).host);
  }

  /** Authorization at hop k: hops 0 to k all went to one host, ignoring case. */
  lemma {:induction false} AuthorizationStaysHome(urls: Urls, t: seq<Dispatch>, k: nat, j: nat)
    requires Chain(urls, t) && j <= k < |t| && HasAuthorization(t[k].headers)
    ensures HasAuthorization(t[j].headers)
    ensures j < k ==> SameHost(urls, t[j].url, t[k].url)
    decreases k - j
  {
    if j < k {
      AuthorizationHop(urls, t, k);
      AuthorizationStaysHome(urls, t, k - 1, j);
      if j < k - 1 { SameHostTrans(urls, t[j].url, t[k - 1].url, t[k].url); }
    }
  }

  /** One hop to the same host does carry it on. */
  lemma AuthorizationCarried(urls: Urls, a: Dispatch, b: Dispatch)
    requires Reached(urls, a, b) && HasAuthorization(a.headers) && SameHost(urls, a.url, b.url)
    ensures HasAuthorization(b.headers)
  {
    var r := HopResponse(urls, a, b);
    var h :| h in a.headers && IsAuthorization(h);
    Clash(h.name, "authorization", "content-length");
    Clash(h.name, "authorization", "content-type");
    Clash(h.name, "authorization", "sec-fetch-site");
    Survives(a.headers, b.dropped, false, SiteForRedirect(urls.parse, a.headers, b.url), h);
  }

  /** So Authorization is at hop k exactly if it was there at the start and every hop stayed on its host. */
  lemma {:induction false} AuthorizationIff(urls: Urls, t: seq<Dispatch>, k: nat)
    requires Chain(urls, t) && k < |t|
    ensures HasAuthorization(t[k].headers) <==>
              HasAuthorization(t[0].headers) && forall j :: 0 <= j < k ==> SameHost(urls, t[j].url, t[j + 1].url)
  {
    if k > 0 {
      AuthorizationIff(urls, t, k - 1);
      assert Reached(urls, t[k - 1], t[k - 1 + 1]);
      if HasAuthorization(t[k].headers) {
        AuthorizationHop(urls, t, k);
      } else if HasAuthorization(t[k - 1].headers) && SameHost(urls, t[k - 1].url, t[k - 1 + 1].url) {
        AuthorizationCarried(urls, t[k - 1], t[k]);
      }
    }
  }

  /** A dropped body is gone for good, its content headers with it, and the method stays GET. */
  lemma {:induction false} DroppedStaysDropped(urls: Urls, t: seq<Dispatch>, j: nat, k: nat)
    requires Chain(urls, t) && 0 < j <= k < |t| && t[j].dropped
    ensures t[k].verb == GET && t[k].body == [] && !HasContent(t[k].headers)
    decreases k - j
  {
    assert Reached(urls, t[k - 1], t[k - 1 + 1]);
    HopFacts(urls, t[k - 1], t[k]);
    if j < k { DroppedStaysDropped(urls, t, j, k - 1); }
  }

  /** Until then body and method are the original ones. */
  lemma {:induction false} UndroppedUnchanged(urls: Urls, t: seq<Dispatch>, k: nat)
    requires Chain(urls, t) && k < |t| && forall j :: 0 < j <= k ==> !t[j].dropped
    ensures t[k].body == t[0].body && t[k].verb == t[0].verb
  {
    if k > 0 {
      assert Reached(urls, t[k - 1], t[k - 1 + 1]);
      HopFacts(urls, t[k - 1], t[k]);
      UndroppedUnchanged(urls, t, k - 1);
    }
  }

  // ---- which statuses rewrite a request

  /** Hop `b` was reached from hop `a` by this response. */
  ghost predicate HopBy(urls: Urls, a: Dispatch, b: Dispatch, r: Response) {
    && NextHop(urls, a.url, a.verb, a.headers, r) == Follow(b.url, b.verb, b.dropped, b.headers)
    && b.body == if b.dropped then [] else a.body
  }

  ghost predicate ChainBy(urls: Urls, t: seq<Dispatch>, rs: seq<Response>) {
    |t| == |rs| + 1 && forall k :: 0 <= k < |rs| ==> HopBy(urls, t[k], t[k + 1], rs[k])
  }

  lemma {:induction false} ChainHasResponses(urls: Urls, t: seq<Dispatch>) returns (rs: seq<Response>)
    requires Chain(urls, t) && |t| > 0
    ensures ChainBy(urls, t, rs)
    decreases |t|
  {
    rs := [];
    if |t| > 1 {
      var n := |t| - 1;
      var past := ChainHasResponses(urls, t[..n]);
      assert Reached(urls, t[n - 1], t[n - 1 + 1]);
      var r := HopResponse(urls, t[n - 1], t[n]);
      rs := past + [r];
      forall k | 0 <= k < |rs| ensures HopBy(urls, t[k], t[k + 1], rs[k]) {
        if k < n - 1 { assert HopBy(urls, t[..n][k], t[..n][k + 1], past[k]); }
      }
    }
  }

  lemma HopResponse(urls: Urls, a: Dispatch, b: Dispatch) returns (r: Response)
    requires Reached(urls, a, b)
    ensures HopBy(urls, a, b, r)
  {
    r :| NextHop(urls, a.url, a.verb, a.headers, r) == Follow(b.url, b.verb, b.dropped, b.headers)
         && b.body == if b.dropped then [] else a.body;
  }

  /**
   Along a chain of any length: all statuses are redirects; the request is the original one, verb
   and body, as long as none of them rewrites it (a 307 or 308 never does), and a bare GET from
   the first one on that does.
   */
  lemma {:induction false} StatusesDecide(urls: Urls, t: seq<Dispatch>, rs: seq<Response>, k: nat)
    requires ChainBy(urls, t, rs) && k <= |rs|
    ensures forall j :: 0 <= j < k ==> rs[j].status in [301, 302, 303, 307, 308]
    ensures if exists j :: 0 <= j < k && Rewrites(t[0].verb, rs[j].status)
            then t[k].verb == GET && t[k].body == []
            else t[k].verb == t[0].verb && t[k].body == t[0].body
  {
    if k > 0 {
      StatusesDecide(urls, t, rs, k - 1);
      assert HopBy(urls, t[k - 1], t[k - 1 + 1], rs[k - 1]);
      StatusDecides(urls, t[k - 1], t[k], rs[k - 1]);
      assert Rewrites(t[0].verb, rs[k - 1].status) || !Rewrites(t[0].verb, rs[k - 1].status);
    }
  }

  lemma StatusDecides(urls: Urls, a: Dispatch, b: Dispatch, r: Response)
    requires HopBy(urls, a, b, r)
    ensures r.status in [301, 302, 303, 307, 308]
    ensures if Rewrites(a.verb, r.status) then b.verb == GET && b.body == [] else b.verb == a.verb && b.body == a.body
  {
  }

  /** The rank of the Sec-Fetch-Site in force never falls; "none" and "cross-site" persist. */
  lemma {:induction false} SiteNeverFalls(urls: Urls, t: seq<Dispatch>, j: nat, k: nat)
    requires Chain(urls, t) && j <= k < |t|
    ensures Rank(SiteIn(t[j].headers)) <= Rank(SiteIn(t[k].headers))
    ensures Terminal(SiteIn(t[j].headers)) ==> SiteIn(t[k].headers) == SiteIn(t[j].headers)
    decreases k - j
  {
    if j < k {
      assert Reached(urls, t[k - 1], t[k - 1 + 1]);
      HopFacts(urls, t[k - 1], t[k]);
      SiteNeverFalls(urls, t, j, k - 1);
    }
  }

  /** RedirectState with its callback. */
  class RedirectState {
    const urls: Urls
    const budget: nat
    const follow: bool
    var verb: Method
    var headers: seq<Header>
    var body: Text
    var curUrl: Text
    var left: nat
    var delivered: bool
    ghost var trace: seq<Dispatch>

    /** Every request dispatched so far belongs to one chain within the budget, the last being the current one. */
    ghost predicate Valid()
      reads this
    {
      && Chain(urls, trace) && |trace| > 0 && |trace| + left == budget + 1
      && var d := trace[|trace| - 1];
         d.url == curUrl && d.verb == verb && d.headers == headers && d.body == body
    }

    /** The first dispatch; `follow` is the session's switch, and off for a streaming request. */
    constructor (urls: Urls, maxRedirects: nat, follow: bool, url: Text, m: Method, headers: seq<Header>, body: Text)
      ensures Valid() && !delivered && trace == [Dispatch(url, m, headers, body, false)]
      ensures this.urls == urls && budget == maxRedirects && this.follow == follow
    {
      this.urls, budget, this.follow := urls, maxRedirects, follow;
      verb, this.headers, this.body, curUrl := m, headers, body, url;
      left, delivered := maxRedirects, false;
      trace := [Dispatch(url, m, headers, body, false)];
    }

    /** client_redirect_cb and the redirect part of session_hop_cb: one more dispatch, or the end. */
    method OnResponse(r: Response)
      requires Valid() && !delivered
      modifies this
      ensures Valid() && old(trace) <= trace
      ensures delivered <==> !follow || old(left) == 0 || NextHop(urls, old(curUrl), old(verb), old(headers), r).Deliver?
      ensures if delivered then trace == old(trace) else |trace| == |old(trace)| + 1
    {
      if follow && left > 0 {
        var hop := PrepareHop(urls, curUrl, verb, headers, r);
        if hop.Follow? {
          TakeHop(hop, r);
          return;
        }
      }
      delivered := true;
    }

    /** The next dispatch of the chain. */
    method TakeHop(hop: Hop, ghost r: Response)
      requires Valid() && left > 0 && hop.Follow? && hop == NextHop(urls, curUrl, verb, headers, r)
      modifies this
      ensures Valid() && left == old(left) - 1 && delivered == old(delivered)
      ensures trace == old(trace)
                       + [Dispatch(hop.url, hop.verb, hop.headers, if hop.drop then [] else old(body), hop.drop)]
    {
      ghost var next := Dispatch(hop.url, hop.verb, hop.headers, if hop.drop then [] else body, hop.drop);
      ghost var grown := trace + [next];
      assert Chain(urls, grown) by { ChainGrows(urls, trace, next, r); }
      assert grown[|grown| - 1] == next;
      headers, verb, curUrl := hop.headers, hop.verb, hop.url;
      if hop.drop { body := []; }
      left, trace := left - 1, grown;
    }

    /** Whatever the servers answer, there are at most budget + 1 dispatches. */
    method Run(rs: seq<Response>)
      requires Valid() && !delivered
      modifies this
      ensures Valid() && |trace| <= budget + 1
    {
      for i := 0 to |rs|
        invariant Valid()
      {
        if delivered { return; }
        OnResponse(rs[i]);
      }
    }
  }

  lemma ChainGrows(urls: Urls, t: seq<Dispatch>, next: Dispatch, r: Response)
    requires Chain(urls, t) && |t| > 0
    requires var d := t[|t| - 1];
      && NextHop(urls, d.url, d.verb, d.headers, r) == Follow(next.url, next.verb, next.dropped, next.headers)
      && next.body == if next.dropped then [] else d.body
    ensures Chain(urls, t + [next])
  {
    assert Reached(urls, t[|t| - 1], next);
  }
}
