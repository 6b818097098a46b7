/** Set-Cookie parsing and the matching rules (sections 5.1.3, 5.1.4 and 5.2 of RFC 6265). */
module CookieParse {
  import opened HostNames
  import opened Psl
  import opened Text

  /** The parts of a request URL the jar looks at. */
  datatype Request = Request(host: Text, path: Text, https: bool)

  // ---- matching

  /** cookie_domain_match. */
  predicate DomainMatch(host: Text, dom: Text) {
    || MatchCi(host, dom)
    || (|host| > |dom| && MatchCi(host[|host| - |dom|..], dom) && host[|host| - |dom| - 1] == '.')
  }

  /** A host matches a domain exactly if its last labels are those of the domain, ignoring case. */
  lemma DomainMatchIff(host: Text, dom: Text)
    ensures DomainMatch(host, dom) <==> EndsIn(Labels(host), Labels(dom))
  {
    if DomainMatch(host, dom) { MatchedLabels(host, dom); }
    if EndsIn(Labels(host), Labels(dom)) { LabelsMatched(host, dom); }
  }

  lemma MatchedLabels(host: Text, dom: Text)
    requires DomainMatch(host, dom)
    ensures EndsIn(Labels(host), Labels(dom))
  {
    if MatchCi(host, dom) {
      SameLabels(host, dom);
    } else {
      var p := |host| - |dom| - 1;
      TailLabels(host, p);
      SameLabels(host[p + 1..], dom);
    }
  }

  lemma LabelsMatched(host: Text, dom: Text)
    requires EndsIn(Labels(host), Labels(dom))
    ensures DomainMatch(host, dom)
  {
    var a, b := Labels(host), Labels(dom);
    if |a| == |b| {
      assert a[0..] == a;
      SameLabels(host, dom);
    } else {
      var p := DotBefore(host, |a| - |b|);
      LabelsSplit(host, p);
      assert a[|a| - |b|..] == Labels(host[p + 1..]);
      SameLabels(host[p + 1..], dom);
    }
  }

  function StripQuery(path: Text): Text {
    path[..IndexOf(path, '?')]
  }

  /** cookie_path_match. */
  predicate PathMatch(reqPath: Text, cp: Text) {
    var stripped := StripQuery(reqPath);
    var req := if stripped == [] then "/" else stripped;
    || req == cp
    || (0 < |cp| < |req| && cp <= req && (cp[|cp| - 1] == '/' || req[|cp|] == '/'))
  }

  /** The path a request is for: up to the query, and "/" if that leaves nothing. */
  function Resource(path: Text): Text {
    var p := path[..IndexOf(path, '?')];
    if p == [] then "/" else p
  }

  /** A path lies under another: the same, or the other with a slash behind it begins it. */
  predicate Under(path: Text, dir: Text) {
    path == dir || (dir != [] && (if dir[|dir| - 1] == '/' then dir else dir + "/") <= path)
  }

  lemma PathMatchIff(reqPath: Text, cp: Text)
    ensures PathMatch(reqPath, cp) <==> Under(Resource(reqPath), cp)
  {
    var req := Resource(reqPath);
    if cp != [] && cp[|cp| - 1] != '/' {
      assert (cp + "/")[..|cp|] == cp && (cp + "/")[|cp|] == '/';
      if |cp| < |req| && cp <= req && req[|cp|] == '/' { assert req[..|cp| + 1] == cp + "/"; }
    }
  }

  /** Where the last slash of the first `n` bytes is; `n` if there is none. */
  function LastSlash(s: Text, n: nat): (i: nat)
    requires n <= |s|
    ensures i <= n && (i < n ==> s[i] == '/')
  {
    if n == 0 then 0
    else if s[n - 1] == '/' then n - 1
    else
      var i := LastSlash(s, n - 1);
      if i == n - 1 then n else i
  }

  /** cookie_default_path. */
  function DefaultPath(path: Text): Text {
    var p := StripQuery(path);
    var last := LastSlash(p, |p|);
    if p == [] || p[0] != '/' || last == |p| || last == 0 then "/" else p[..last]
  }

  /** The loop of cookie_default_path, which runs forward. */
  method FindDefaultPath(path: Text) returns (r: Text)
    ensures r == DefaultPath(path)
  {
    var p := StripQuery(path);
    if |p| == 0 || p[0] != '/' { return "/"; }
    var last, found := 0, false;
    for i := 0 to |p|
      invariant if found then last < i && LastSlash(p, i) == last else LastSlash(p, i) == i && last == 0
    {
      if p[i] == '/' { last, found := i, true; }
    }
    if !found || last == 0 { return "/"; }
    return p[..last];
  }

  /** The default path covers the request it came from exactly when that path is empty or absolute. */
  lemma DefaultPathCovers(path: Text)
    ensures PathMatch(path, DefaultPath(path)) <==> (StripQuery(path) == [] || StripQuery(path)[0] == '/')
  {
    var p := StripQuery(path);
    var last := LastSlash(p, |p|);
    if p != [] && p[0] == '/' && 0 < last < |p| {
      assert p[..last] <= p && p[last] == '/';
    }
  }

  lemma {:induction false} LastSlashIsLast(s: Text, n: nat)
    requires n <= |s|
    ensures forall k :: LastSlash(s, n) < k < n ==> s[k] != '/'
    ensures LastSlash(s, n) == n ==> forall k :: 0 <= k < n ==> s[k] != '/'
  {
    if n > 0 && s[n - 1] != '/' { LastSlashIsLast(s, n - 1); }
  }

  /** The default path of an absolute path is what comes before its last slash, or "/" if nothing does; of others, "/". */
  lemma DefaultPathIs(path: Text) returns (file: Text)
    ensures var p, d := path[..IndexOf(path, '?')], DefaultPath(path);
      if p == [] || p[0] != '/' then d == "/"
      else '/' !in file && (p == d + "/" + file || (d == "/" && p == "/" + file))
  {
    var p := path[..IndexOf(path, '?')];
    var last := LastSlash(p, |p|);
    LastSlashIsLast(p, |p|);
    file := if last < |p| then p[last + 1..] else [];
    if p != [] && p[0] == '/' {
      assert last < |p|;
      assert forall k :: 0 <= k < |file| ==> file[k] == p[last + 1 + k];
      assert p == p[..last] + "/" + file;
    }
  }

  predicate IsAlpha(c: char) {
    'a' <= c <= 'z' || 'A' <= c <= 'Z'
  }

  /** A colon, or no letter at all. */
  predicate IsIp(host: Text) {
    ':' in host || (host != [] && forall i :: 0 <= i < |host| ==> !IsAlpha(host[i]))
  }

  /** Digits and dots make an address, and so does any colon; a letter without a colon makes a name. */
  lemma IpOrName(host: Text)
    ensures ':' in host ==> IsIp(host)
    ensures host != [] && (forall i :: 0 <= i < |host| ==> IsDigit(host[i]) || host[i] == '.') ==> IsIp(host)
    ensures ':' !in host && (exists i :: 0 <= i < |host| && 'a' <= Lower(host[i]) <= 'z') ==> !IsIp(host)
  {
    if i :| 0 <= i < |host| && 'a' <= Lower(host[i]) <= 'z' { assert IsAlpha(host[i]); }
  }

  /** cookie_host_is_ip. */
  method HostIsIp(host: Text) returns (r: bool)
    ensures r <==> IsIp(host)
  {
    var hasAlpha, hasColon := false, false;
    for i := 0 to |host|
      invariant hasColon <==> ':' in host[..i]
      invariant hasAlpha <==> exists k :: 0 <= k < i && IsAlpha(host[k])
    {
      assert host[..i + 1] == host[..i] + [host[i]];
      if host[i] == ':' { hasColon := true; }
      if IsAlpha(host[i]) { hasAlpha := true; }
    }
    assert host[..|host|] == host;
    if hasColon { return true; }
    return !(hasAlpha || |host| == 0);
  }

  // ---- attributes

  /** The locals of cookie_jar_store that the attribute loop updates. */
  datatype Attrs = Attrs(domain: Text, path: Text, hostOnly: bool, secure: bool, httpOnly: bool, sameSite: nat,
                         hasExpiry: bool, expiredNow: bool, maxAge: bool, expires: nat)

  function Initial(req: Request): Attrs {
    Attrs(req.host, DefaultPath(req.path), true, false, false, 0, false, false, false, 0)
  }

  /** The chunks between semicolons. */
  function Chunks(av: Text): seq<Text>
    decreases |av|
  {
    if av == [] then [] else [av[..IndexOf(av, ';')]] + Chunks(Rest(av, ';'))
  }

  function NameOf(attr: Text): Text {
    var e := IndexOf(attr, '=');
    if e < |attr| then Trim(attr[..e]) else attr
  }

  function ValueOf(attr: Text): Text {
    var e := IndexOf(attr, '=');
    if e < |attr| then Trim(attr[e + 1..]) else []
  }

  /** A Max-Age value means "delete" when it is negative or zero. */
  predicate Deletes(val: Text) {
    (val != [] && val[0] == '-') || Decimal(val, 0) == 0
  }

  /** now + secs in 64 bits. */
  function Deadline(now: nat, val: Text): nat {
    (now + Saturated(Decimal(val, 0))) % (U64_MAX + 1)
  }

  datatype Kind = Expires | MaxAge | Domain | Path | Secure | HttpOnly | SameSite | Unknown

  function KindOf(an: Text): Kind {
    if MatchCi(an, "expires") then Expires
    else if MatchCi(an, "max-age") then MaxAge
    else if MatchCi(an, "domain") then Domain
    else if MatchCi(an, "path") then Path
    else if MatchCi(an, "secure") then Secure
    else if MatchCi(an, "httponly") then HttpOnly
    else if MatchCi(an, "samesite") then SameSite
    else Unknown
  }

  /** One attribute with its name known; `date` is http_date_parse. */
  function ApplyKind(p: Attrs, kind: Kind, val: Text, now: nat, date: Text -> nat): Attrs {
    match kind
    case Expires =>
      if p.maxAge || date(val) == 0 then p
      else p.(expires := date(val), hasExpiry := true, expiredNow := p.expiredNow || date(val) <= now)
    case MaxAge =>
      p.(maxAge := true, hasExpiry := true, expiredNow := Deletes(val),
         expires := if Deletes(val) then 1 else Deadline(now, val))
    case Domain =>
      var d := if val != [] && val[0] == '.' then val[1..] else val;
      if d == [] then p else p.(domain := d, hostOnly := false)
    case Path => if val != [] && val[0] == '/' then p.(path := val) else p
    case Secure => p.(secure := true)
    case HttpOnly => p.(httpOnly := true)
    case SameSite => p.(sameSite := if MatchCi(val, "strict") then 2 else if MatchCi(val, "none") then 3 else 1)
    case Unknown => p
  }

  function Apply(p: Attrs, chunk: Text, now: nat, date: Text -> nat): Attrs {
    var attr := Trim(chunk);
    if attr == [] then p else ApplyKind(p, KindOf(NameOf(attr)), ValueOf(attr), now, date)
  }

  function ApplyAll(p: Attrs, cs: seq<Text>, now: nat, date: Text -> nat): Attrs
    decreases |cs|
  {
    if cs == [] then p else ApplyAll(Apply(p, cs[0], now, date), cs[1..], now, date)
  }

  /** The attribute loop of cookie_jar_store. */
  method ParseAttributes(req: Request, av0: Text, now: nat, date: Text -> nat) returns (p: Attrs)
    ensures p == ApplyAll(Initial(req), Chunks(av0), now, date)
  {
    var path := FindDefaultPath(req.path);
    p := Attrs(req.host, path, true, false, false, 0, false, false, false, 0);
    var av := av0;
    while |av| > 0
      invariant ApplyAll(p, Chunks(av), now, date) == ApplyAll(Initial(req), Chunks(av0), now, date)
    {
      var chunk, rest := Chop(av, ';');
      assert Chunks(av)[1..] == Chunks(rest);
      p := ApplyAttribute(p, chunk, now, date);
      av := rest;
    }
  }

  method ApplyAttribute(p: Attrs, chunk: Text, now: nat, date: Text -> nat) returns (q: Attrs)
    ensures q == Apply(p, chunk, now, date)
  {
    q := p;
    var attr := Trim(chunk);
    if |attr| == 0 { return; }
    var kind, val := KindOf(NameOf(attr)), ValueOf(attr);
    match kind {
      case Expires =>
        if !p.maxAge && date(val) != 0 {
          q := q.(expires := date(val), hasExpiry := true);
          if date(val) <= now { q := q.(expiredNow := true); }
        }
      case MaxAge => q := ApplyMaxAge(p, val, now);
      case _ => q := ApplyKind(p, kind, val, now, date);
    }
  }

  /** The Max-Age branch. */
  method ApplyMaxAge(p: Attrs, val: Text, now: nat) returns (q: Attrs)
    ensures q == p.(maxAge := true, hasExpiry := true, expiredNow := Deletes(val),
                    expires := if Deletes(val) then 1 else Deadline(now, val))
  {
    q := p.(maxAge := true, hasExpiry := true);
    var neg := |val| > 0 && val[0] == '-';
    var secs := ToU64(if neg then val[1..] else val);
    if neg || secs == 0 {
      q := q.(expiredNow := true, expires := 1);
    } else {
      q := q.(expiredNow := false, expires := (now + secs) % (U64_MAX + 1));
    }
  }

  // ---- what the loop means

  predicate IsMaxAge(chunk: Text) {
    var attr := Trim(chunk);
    attr != [] && KindOf(NameOf(attr)) == MaxAge
  }

  /** The lifetime a Max-Age chunk asks for. */
  predicate LivesBy(p: Attrs, chunk: Text, now: nat) {
    var val := ValueOf(Trim(chunk));
    p.hasExpiry && p.maxAge && p.expiredNow == Deletes(val) && p.expires == if Deletes(val) then 1 else Deadline(now, val)
  }

  lemma {:induction false} LaterKeepsMaxAge(p: Attrs, cs: seq<Text>, now: nat, date: Text -> nat, chunk: Text)
    requires LivesBy(p, chunk, now) && forall i :: 0 <= i < |cs| ==> !IsMaxAge(cs[i])
    ensures LivesBy(ApplyAll(p, cs, now, date), chunk, now)
    decreases |cs|
  {
    if cs != [] {
      var q := Apply(p, cs[0], now, date);
      StepKeepsMaxAge(p, cs[0], now, date, q, chunk);
      LaterKeepsMaxAge(q, cs[1..], now, date, chunk);
    }
  }

  /** The last Max-Age alone decides the lifetime, wherever and however often Expires appears. */
  lemma {:induction false} MaxAgeWins(p: Attrs, cs: seq<Text>, now: nat, date: Text -> nat, k: nat)
    requires k < |cs| && IsMaxAge(cs[k]) && forall i :: k < i < |cs| ==> !IsMaxAge(cs[i])
    ensures LivesBy(ApplyAll(p, cs, now, date), cs[k], now)
    decreases |cs|
  {
    var q := Apply(p, cs[0], now, date);
    if k == 0 {
      LaterKeepsMaxAge(q, cs[1..], now, date, cs[0]);
    } else {
      MaxAgeWins(q, cs[1..], now, date, k - 1);
    }
  }

  lemma {:induction false} HostKept(p: Attrs, cs: seq<Text>, now: nat, date: Text -> nat, host: Text)
    requires if p.hostOnly then p.domain == host else p.domain != []
    ensures var q := ApplyAll(p, cs, now, date); if q.hostOnly then q.domain == host else q.domain != []
    decreases |cs|
  {
    if cs != [] {
      var q := Apply(p, cs[0], now, date);
      StepKeepsHost(p, cs[0], now, date, q, host);
      HostKept(q, cs[1..], now, date, host);
    }
  }

  lemma StepKeepsHost(p: Attrs, chunk: Text, now: nat, date: Text -> nat, q: Attrs, host: Text)
    requires q == Apply(p, chunk, now, date) && (if p.hostOnly then p.domain == host else p.domain != [])
    ensures if q.hostOnly then q.domain == host else q.domain != []
  {
    var attr := Trim(chunk);
    if attr != [] { KindKeepsHost(p, KindOf(NameOf(attr)), ValueOf(attr), now, date); }
  }

  lemma KindKeepsHost(p: Attrs, kind: Kind, val: Text, now: nat, date: Text -> nat)
    ensures var q := ApplyKind(p, kind, val, now, date);
      (q.hostOnly == p.hostOnly && q.domain == p.domain) || (!q.hostOnly && q.domain != [])
  {
    match kind {
      case Expires =>
      case MaxAge =>
      case Domain =>
      case Path =>
      case Secure =>
      case HttpOnly =>
      case SameSite =>
      case Unknown =>
    }
  }

  lemma StepKeepsMaxAge(p: Attrs, chunk: Text, now: nat, date: Text -> nat, q: Attrs, chosen: Text)
    requires q == Apply(p, chunk, now, date) && !IsMaxAge(chunk) && LivesBy(p, chosen, now)
    ensures LivesBy(q, chosen, now)
  {
  }

  // ---- scope

  datatype Scope = Rejected | Accepted(domain: Text, hostOnly: bool)

  /** Whom a Domain attribute may cover. */
  function Decide(t: Tables, host: Text, p: Attrs): Scope {
    if p.hostOnly then Accepted(p.domain, true)
    else if exists i :: 0 <= i < |p.domain| && p.domain[i] >= 128 as char then Rejected
    else if IsIp(host) || PublicSuffix(t, p.domain) then
      if MatchCi(p.domain, host) then Accepted(host, true) else Rejected
    else if DomainMatch(host, p.domain) then Accepted(p.domain, false) else Rejected
  }

  /** The checks of cookie_jar_store behind the attribute loop. */
  method CheckDomain(t: Tables, host: Text, p: Attrs) returns (s: Scope)
    requires SortedTables(t)
    ensures s == Decide(t, host, p)
  {
    if p.hostOnly { return Accepted(p.domain, true); }
    for i := 0 to |p.domain|
      invariant forall k :: 0 <= k < i ==> p.domain[k] < 128 as char
    {
      if p.domain[i] >= 128 as char { return Rejected; }
    }
    var ip := HostIsIp(host);
    if ip {
      return if MatchCi(p.domain, host) then Accepted(host, true) else Rejected;
    }
    var suffix := IsPublicSuffix(t, p.domain);
    if suffix {
      return if MatchCi(p.domain, host) then Accepted(host, true) else Rejected;
    }
    return if DomainMatch(host, p.domain) then Accepted(p.domain, false) else Rejected;
  }

  /** What a stored cookie's domain promises about the host that set it. */
  predicate Scoped(t: Tables, domain: Text, hostOnly: bool, setter: Text) {
    if hostOnly then MatchCi(domain, setter)
    else domain != [] && !PublicSuffix(t, domain) && DomainMatch(setter, domain)
  }

  /** Both names end in the labels of `d`, which is no public suffix. */
  predicate SharedDomain(t: Tables, a: Text, b: Text, d: Text) {
    d != [] && !PublicSuffix(t, d) && EndsIn(Labels(a), Labels(d)) && EndsIn(Labels(b), Labels(d))
  }

  /** Hosts that may share a cookie: equal up to case, or under a common domain that is no public suffix. */
  ghost predicate Shares(t: Tables, setter: Text, host: Text) {
    Labels(host) == Labels(setter) || exists d: Text :: SharedDomain(t, setter, host, d)
  }

  /** Nobody gets a cookie scoped to someone they do not share with. */
  lemma ScopeTheorem(t: Tables, domain: Text, hostOnly: bool, setter: Text, host: Text)
    requires Scoped(t, domain, hostOnly, setter)
    requires if hostOnly then MatchCi(host, domain) else DomainMatch(host, domain)
    ensures Shares(t, setter, host)
  {
    if hostOnly {
      MatchCiTrans(host, domain, setter);
      SameLabels(host, setter);
    } else {
      DomainMatchIff(setter, domain);
      DomainMatchIff(host, domain);
      assert SharedDomain(t, setter, host, domain);
    }
  }

  lemma DecideScopes(t: Tables, host: Text, p: Attrs)
    requires if p.hostOnly then p.domain == host else p.domain != []
    ensures var s := Decide(t, host, p); s.Accepted? ==> Scoped(t, s.domain, s.hostOnly, host)
  {
  }

  /**
   Which scope a Domain attribute gets: none if it is not ASCII; the host itself, and only it, if
   that is what it names and the host is an address or the domain a public suffix; else the domain,
   if it is the end of the host, label by label.
   */
  lemma DecideByLabels(t: Tables, host: Text, p: Attrs)
    requires !p.hostOnly
    ensures var s, ascii := Decide(t, host, p), forall i :: 0 <= i < |p.domain| ==> p.domain[i] < 128 as char;
      && (s == Accepted(p.domain, false) <==>
            ascii && !IsIp(host) && !PublicSuffix(t, p.domain) && EndsIn(Labels(host), Labels(p.domain)))
      && (s == Accepted(host, true) <==>
            ascii && (IsIp(host) || PublicSuffix(t, p.domain)) && Labels(host) == Labels(p.domain))
      && (s == Accepted(p.domain, false) || s == Accepted(host, true) || s == Rejected)
  {
    DomainMatchIff(host, p.domain);
    SameLabels(host, p.domain);
  }
}
