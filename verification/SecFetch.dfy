/** Sec-Fetch-Site along a redirect chain. */
module SecFetch {
  import opened HostNames
  import opened Text

  datatype Header = Header(name: Text, value: Text, flags: nat)

  /** What url_parse reports. */
  datatype Url = Url(ok: bool, https: bool, port: nat, host: Text)

  // ---- the registrable domain

  function Dots(s: Text): nat {
    if s == [] then 0 else (if s[0] == '.' then 1 else 0) + Dots(s[1..])
  }

  /** Labels dropped from the left until two are left. */
  function RegDomain(host: Text): Text
    decreases |host|
  {
    if Dots(host) <= 1 then host else if host == [] then [] else RegDomain(Rest(host, '.'))
  }

  lemma {:induction false} DotsNone(s: Text)
    requires '.' !in s
    ensures Dots(s) == 0
  {
    if s != [] { DotsNone(s[1..]); }
  }

  lemma {:induction false} DotsCat(a: Text, b: Text)
    ensures Dots(a + b) == Dots(a) + Dots(b)
  {
    if a == [] {
      assert a + b == b;
    } else {
      assert (a + b)[1..] == a[1..] + b;
      DotsCat(a[1..], b);
    }
  }

  lemma RegDomainStep(host: Text, f: nat)
    requires f == IndexOf(host, '.') < |host| && Dots(host) > 1
    ensures RegDomain(host) == RegDomain(host[f + 1..])
  {
    assert Rest(host, '.') == host[f + 1..];
  }

  /** Behind any dot with one more dot after it lies the registrable domain. */
  lemma {:induction false} RegDomainAt(host: Text, d: nat)
    requires d < |host| && host[d] == '.' && Dots(host[d + 1..]) == 1
    ensures RegDomain(host) == host[d + 1..]
    decreases |host|
  {
    assert host == host[..d] + ([host[d]] + host[d + 1..]);
    DotsCat(host[..d], [host[d]] + host[d + 1..]);
    DotsCat([host[d]], host[d + 1..]);
    var f := IndexOf(host, '.');
    assert forall k :: 0 <= k < f ==> host[k] == host[..f][k];
    RegDomainStep(host, f);
    if f < d {
      assert host[f + 1..][d - f - 1 + 1..] == host[d + 1..];
      RegDomainAt(host[f + 1..], d - f - 1);
    }
  }

  /** sec_reg_domain, scanning from the right. */
  method FindRegDomain(host: Text) returns (r: Text)
    ensures r == RegDomain(host)
  {
    var i, n := |host|, 0;
    while i > 0
      invariant 0 <= i <= |host| && 0 <= n <= 1 && Dots(host[i..]) == n
    {
      assert host[i - 1..] == [host[i - 1]] + host[i..];
      if host[i - 1] == '.' {
        if n == 0 {
          n := 1;
        } else {
          RegDomainAt(host, i - 1);
          return host[i..];
        }
      }
      i := i - 1;
    }
    assert host[0..] == host;
    return host;
  }

  /** The last two labels, or all of them if there are fewer. */
  function LastTwo(ls: seq<Text>): seq<Text> {
    if |ls| <= 2 then ls else ls[|ls| - 2..]
  }

  lemma {:induction false} DotsAreLabels(s: Text)
    ensures |Labels(s)| == Dots(s) + 1
  {
    if s != [] { DotsAreLabels(s[1..]); }
  }

  /** The registrable domain is the last two labels of a host. */
  lemma {:induction false} RegDomainIsLastTwo(host: Text)
    ensures Labels(RegDomain(host)) == LastTwo(Labels(host))
    decreases |host|
  {
    DotsAreLabels(host);
    if Dots(host) > 1 {
      var f := IndexOf(host, '.');
      if f == |host| {
        assert host[..f] == host;
        DotsNone(host);
      }
      RegDomainStep(host, f);
      RegDomainIsLastTwo(host[f + 1..]);
      TailLabels(host, f);
      OneLabelOff(host, f);
    }
  }

  lemma OneLabelOff(host: Text, f: nat)
    requires f == IndexOf(host, '.') < |host|
    ensures |Labels(host[f + 1..])| == |Labels(host)| - 1
  {
    LabelsSplit(host, f);
    DotsNone(host[..f]);
    DotsAreLabels(host[..f]);
  }

  // ---- the site value

  /** sec_fetch_site. */
  function Site(parse: Text -> Url, url: Text, referer: Text): Text {
    var u, r := parse(url), parse(referer);
    if referer == [] || !u.ok || !r.ok then "none"
    else if u.https == r.https && u.port == r.port && MatchCi(u.host, r.host) then "same-origin"
    else if MatchCi(RegDomain(u.host), RegDomain(r.host)) then "same-site"
    else "cross-site"
  }

  /** Each value, by the labels of the two hosts. */
  lemma SiteIff(parse: Text -> Url, url: Text, referer: Text)
    ensures var u, r, s := parse(url), parse(referer), Site(parse, url, referer);
      var known := referer != [] && u.ok && r.ok;
      var origin := u.https == r.https && u.port == r.port && Labels(u.host) == Labels(r.host);
      var related := LastTwo(Labels(u.host)) == LastTwo(Labels(r.host));
      && (s == "none" <==> !known) && (s == "same-origin" <==> known && origin)
      && (s == "same-site" <==> known && !origin && related)
      && (s == "cross-site" <==> known && !related)
  {
    var u, r := parse(url), parse(referer);
    SameLabels(u.host, r.host);
    SameLabels(RegDomain(u.host), RegDomain(r.host));
    RegDomainIsLastTwo(u.host);
    RegDomainIsLastTwo(r.host);
  }

  method ComputeSite(parse: Text -> Url, url: Text, referer: Text) returns (s: Text)
    ensures s == Site(parse, url, referer)
  {
    if |referer| == 0 { return "none"; }
    var u, r := parse(url), parse(referer);
    if !u.ok || !r.ok { return "none"; }
    if u.https == r.https && u.port == r.port && MatchCi(u.host, r.host) { return "same-origin"; }
    var a := FindRegDomain(u.host);
    var b := FindRegDomain(r.host);
    if MatchCi(a, b) { return "same-site"; }
    return "cross-site";
  }

  /** sec_site_rank. */
  function Rank(s: Text): nat {
    if s == "cross-site" then 3 else if s == "same-site" then 2 else if s == "same-origin" then 1 else 0
  }

  predicate IsSite(h: Header) {
    MatchCi(h.name, "sec-fetch-site")
  }

  predicate IsReferer(h: Header) {
    MatchCi(h.name, "referer")
  }

  /** The value in force: that of the last Sec-Fetch-Site header, empty without one. */
  function SiteIn(hs: seq<Header>): Text {
    if hs == [] then [] else if IsSite(hs[|hs| - 1]) then hs[|hs| - 1].value else SiteIn(hs[..|hs| - 1])
  }

  function RefererIn(hs: seq<Header>): Text {
    if hs == [] then [] else if IsReferer(hs[|hs| - 1]) then hs[|hs| - 1].value else RefererIn(hs[..|hs| - 1])
  }

  predicate Terminal(site: Text) {
    site == "none" || site == "cross-site"
  }

  /** sec_fetch_site_for_redirect: empty leaves the headers as they are. */
  function SiteForRedirect(parse: Text -> Url, hs: seq<Header>, next: Text): Text {
    var site, referer := SiteIn(hs), RefererIn(hs);
    if site == [] || referer == [] then []
    else if Terminal(site) then site
    else if Rank(Site(parse, next, referer)) > Rank(site) then Site(parse, next, referer) else site
  }

  method ComputeSiteForRedirect(parse: Text -> Url, hs: seq<Header>, next: Text) returns (s: Text)
    ensures s == SiteForRedirect(parse, hs, next)
  {
    var site: Text, referer: Text := [], [];
    for i := 0 to |hs|
      invariant site == SiteIn(hs[..i]) && referer == RefererIn(hs[..i])
    {
      assert hs[..i + 1][..i] == hs[..i];
      if MatchCi(hs[i].name, "sec-fetch-site") {
        site := hs[i].value;
      } else if MatchCi(hs[i].name, "referer") {
        referer := hs[i].value;
      }
    }
    assert hs[..|hs|] == hs;
    if |site| == 0 || |referer| == 0 { return []; }
    if site == "none" || site == "cross-site" { return site; }
    var rel := ComputeSite(parse, next, referer);
    return if Rank(rel) > Rank(site) then rel else site;
  }

  /** No name matches two that differ in length or first letter. */
  lemma Clash(name: Text, a: Text, b: Text)
    requires a != [] && b != [] && (|a| != |b| || Lower(a[0]) != Lower(b[0]))
    ensures !(MatchCi(name, a) && MatchCi(name, b))
  {
  }

  /** One hop never lowers the rank, and keeps a terminal value. */
  lemma SiteRises(parse: Text -> Url, hs: seq<Header>, next: Text)
    ensures var s := SiteForRedirect(parse, hs, next);
      s != [] ==> Rank(s) >= Rank(SiteIn(hs)) && (Terminal(SiteIn(hs)) ==> s == SiteIn(hs))
  {
  }

  /** A value that can still change becomes the wider of itself and the relation to the next host. */
  lemma SiteWidens(parse: Text -> Url, hs: seq<Header>, next: Text)
    ensures var site, referer := SiteIn(hs), RefererIn(hs);
      var s, rel := SiteForRedirect(parse, hs, next), Site(parse, next, referer);
      && (site == [] || referer == [] <==> s == [])
      && (s != [] && site != "none" && site != "cross-site" ==>
            (s == site || s == rel) && Rank(s) >= Rank(site) && Rank(s) >= Rank(rel))
  {
  }

  /** none and unknown values, same-origin, same-site, cross-site, in this order. */
  lemma Ranks()
    ensures Rank("none") == Rank([]) == 0 < Rank("same-origin") < Rank("same-site") < Rank("cross-site")
  {
  }
}
