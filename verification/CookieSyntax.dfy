/**
 The grammar of Set-Cookie (section 4.1 of RFC 6265) as a writer, and what the
 jar makes of a value that is written by it.
 */
module CookieSyntax {
  import opened CookieJar
  import opened CookieParse
  import opened Psl
  import opened Text

  datatype Attribute =
    | ExpiresAt(date: Text) | MaxAgeOf(secs: int) | DomainOf(name: Text) | PathOf(path: Text)
    | SecureFlag | HttpOnlyFlag | SameSiteOf(mode: Text)

  // ---- writing

  function Digits(n: nat): Text {
    if n < 10 then [('0' as int + n) as char] else Digits(n / 10) + [('0' as int + n % 10) as char]
  }

  function Signed(n: int): Text {
    if n < 0 then "-" + Digits(-n) else Digits(n)
  }

  // `gap` is the white space a writer leaves around every separator, possibly none.

  function Assign(an: Text, gap: Text, val: Text): Text {
    an + gap + "=" + (gap + val)
  }

  function Spelled(a: Attribute, gap: Text): Text {
    match a
    case ExpiresAt(date) => Assign("Expires", gap, date)
    case MaxAgeOf(secs) => Assign("Max-Age", gap, Signed(secs))
    case DomainOf(name) => Assign("Domain", gap, name)
    case PathOf(path) => Assign("Path", gap, path)
    case SecureFlag => "Secure"
    case HttpOnlyFlag => "HttpOnly"
    case SameSiteOf(mode) => Assign("SameSite", gap, mode)
  }

  function Tail(attrs: seq<Attribute>, gap: Text): Text {
    if attrs == [] then [] else ";" + (gap + Spelled(attrs[0], gap) + Tail(attrs[1..], gap))
  }

  /** A Set-Cookie value. */
  function Written(name: Text, value: Text, attrs: seq<Attribute>, gap: Text): Text {
    Assign(name, gap, value) + Tail(attrs, gap)
  }

  predicate Blank(gap: Text) {
    forall i :: 0 <= i < |gap| ==> IsSpace(gap[i])
  }

  /** No semicolon in it, and no space at its ends. */
  predicate Neat(x: Text) {
    ';' !in x && (x != [] ==> !IsSpace(x[0]) && !IsSpace(x[|x| - 1]))
  }

  predicate NeatAttribute(a: Attribute) {
    match a
    case ExpiresAt(date) => Neat(date)
    case DomainOf(name) => Neat(name)
    case PathOf(path) => Neat(path)
    case SameSiteOf(mode) => Neat(mode)
    case _ => true
  }

  // ---- what is meant

  /** What an attribute does to the cookie in the making. */
  function Effect(p: Attrs, a: Attribute, now: nat, date: Text -> nat): Attrs {
    match a
    case ExpiresAt(text) =>
      if p.maxAge || date(text) == 0 then p
      else p.(expires := date(text), hasExpiry := true, expiredNow := p.expiredNow || date(text) <= now)
    case MaxAgeOf(secs) =>
      if secs <= 0 then p.(maxAge := true, hasExpiry := true, expiredNow := true, expires := 1)
      else
        var life := if secs < 0xFFFF_FFFF_FFFF_FFFF then secs else 0xFFFF_FFFF_FFFF_FFFF;
        p.(maxAge := true, hasExpiry := true, expiredNow := false, expires := (now + life) % 0x1_0000_0000_0000_0000)
    case DomainOf(name) =>
      if name == "" || name == "." then p
      else p.(hostOnly := false, domain := if name[0] == '.' then name[1..] else name)
    case PathOf(path) => if path != [] && path[0] == '/' then p.(path := path) else p
    case SecureFlag => p.(secure := true)
    case HttpOnlyFlag => p.(httpOnly := true)
    case SameSiteOf(mode) =>
      p.(sameSite := if MatchCi(mode, "strict") then 2 else if MatchCi(mode, "none") then 3 else 1)
  }

  function Effects(p: Attrs, attrs: seq<Attribute>, now: nat, date: Text -> nat): Attrs
    decreases |attrs|
  {
    if attrs == [] then p else Effects(Effect(p, attrs[0], now, date), attrs[1..], now, date)
  }

  // ---- trimming and splitting

  lemma {:induction false} TrimRightPadded(x: Text, b: Text)
    requires Blank(b)
    ensures TrimRight(x + b) == TrimRight(x)
    decreases |b|
  {
    if b == [] {
      assert x + b == x;
    } else {
      var n := |b| - 1;
      assert (x + b)[..|x + b| - 1] == x + b[..n];
      TrimRightPadded(x, b[..n]);
    }
  }

  lemma {:induction false} TrimLeftPadded(a: Text, x: Text)
    requires Blank(a)
    ensures TrimLeft(a + x) == TrimLeft(x)
    decreases |a|
  {
    if a == [] {
      assert a + x == x;
    } else {
      assert (a + x)[1..] == a[1..] + x;
      TrimLeftPadded(a[1..], x);
    }
  }

  /** White space around a text is trimmed away, and nothing else. */
  lemma TrimPadded(a: Text, x: Text, b: Text)
    requires Blank(a) && Blank(b) && Neat(x)
    ensures Trim(a + x + b) == x && Trim(a + x) == x && Trim(x + b) == x
  {
    TrimRightPadded(a + x, b);
    TrimRightPadded(x, b);
    if x == [] {
      assert a + x == [] + a;
      TrimRightPadded([], a);
    } else {
      assert (a + x)[|a + x| - 1] == x[|x| - 1];
      TrimLeftPadded(a, x);
    }
  }

  lemma IndexPast(a: Text, c: char, b: Text)
    requires c !in a
    ensures IndexOf(a + [c] + b, c) == |a| && Rest(a + [c] + b, c) == b
    ensures IndexOf(a, c) == |a|
  {
    var s := a + [c] + b;
    assert s[..|a|] == a && s[|a|] == c && s[|a| + 1..] == b;
    IndexIs(s, c, |a|);
    assert a[..|a|] == a;
    IndexIs(a, c, |a|);
  }

  // ---- one attribute

  lemma NoSeparators(gap: Text)
    requires Blank(gap)
    ensures ';' !in gap && '=' !in gap
  {
  }

  /** An assignment without the white space at its ends. */
  function Core(an: Text, gap: Text, val: Text): Text {
    an + gap + ['='] + if val == [] then [] else gap + val
  }

  lemma AssignTrimmed(an: Text, gap: Text, val: Text)
    requires an != [] && Neat(an) && Neat(val) && Blank(gap)
    ensures Trim(Assign(an, gap, val)) == Core(an, gap, val) == Trim(gap + Assign(an, gap, val))
  {
    var core, all := Core(an, gap, val), Assign(an, gap, val);
    assert core[0] == an[0] && core[|core| - 1] == if val == [] then '=' else val[|val| - 1];
    NoSeparators(gap);
    assert ';' !in core;
    var rest: Text := if val == [] then gap else [];
    assert all == core + rest;
    TrimPadded(gap, core, rest);
    assert gap + all == gap + core + rest;
  }

  lemma NameAndValue(an: Text, gap: Text, val: Text)
    requires '=' !in an && an != [] && Neat(an) && Neat(val) && Blank(gap)
    ensures var c := Core(an, gap, val);
      && c != [] && NameOf(c) == an && ValueOf(c) == val && IndexOf(c, '=') < |c|
      && Trim(c[..IndexOf(c, '=')]) == an && Trim(c[IndexOf(c, '=') + 1..]) == val
    ensures ';' !in Assign(an, gap, val)
  {
    CoreSplits(an, gap, val, Core(an, gap, val));
    AssignClean(an, gap, val);
    TrimPadded([], an, gap);
    assert [] + an == an;
    ValueTrimmed(gap, val);
  }

  lemma ValueTrimmed(gap: Text, val: Text)
    requires Blank(gap) && Neat(val)
    ensures Trim(if val == [] then [] else gap + val) == val
  {
    TrimPadded(gap, val, []);
  }

  lemma CoreSplits(an: Text, gap: Text, val: Text, c: Text)
    requires '=' !in an && Blank(gap) && c == Core(an, gap, val)
    ensures var i := IndexOf(c, '=');
      i < |c| && c[..i] == an + gap && c[i + 1..] == if val == [] then [] else gap + val
  {
    NoSeparators(gap);
    var left, right := an + gap, if val == [] then [] else gap + val;
    IndexPast(left, '=', right);
    assert c[..|left|] == left && c[|left| + 1..] == right;
  }

  lemma AssignClean(an: Text, gap: Text, val: Text)
    requires Neat(an) && Neat(val) && Blank(gap)
    ensures ';' !in Assign(an, gap, val)
  {
    NoSeparators(gap);
  }

  // The name of each attribute; `an` is a parameter so that no proof has to compare all the names at once.

  lemma ExpiresKind(an: Text)
    requires an == "Expires"
    ensures KindOf(an) == Expires && '=' !in an && Neat(an)
  {
  }

  lemma MaxAgeKind(an: Text)
    requires an == "Max-Age"
    ensures KindOf(an) == MaxAge && '=' !in an && Neat(an)
  {
    assert Lower(an[0]) != Lower("expires"[0]);
  }

  lemma DomainKind(an: Text)
    requires an == "Domain"
    ensures KindOf(an) == Domain && '=' !in an && Neat(an)
  {
  }

  lemma PathKind(an: Text)
    requires an == "Path"
    ensures KindOf(an) == Path && '=' !in an && Neat(an)
  {
  }

  lemma SecureKind(an: Text)
    requires an == "Secure"
    ensures KindOf(an) == Secure && '=' !in an && Neat(an)
  {
    assert Lower(an[0]) != Lower("domain"[0]);
  }

  lemma HttpOnlyKind(an: Text)
    requires an == "HttpOnly"
    ensures KindOf(an) == HttpOnly && '=' !in an && Neat(an)
  {
  }

  lemma SameSiteKind(an: Text)
    requires an == "SameSite"
    ensures KindOf(an) == SameSite && '=' !in an && Neat(an)
  {
    assert Lower(an[0]) != Lower("httponly"[0]);
  }

  lemma {:induction false} DigitsNeat(n: nat)
    ensures Digits(n) != [] && (forall i :: 0 <= i < |Digits(n)| ==> IsDigit(Digits(n)[i])) && Neat(Digits(n))
  {
    if n >= 10 { DigitsNeat(n / 10); }
  }

  lemma {:induction false} DecimalSnoc(s: Text, c: char, r: nat)
    requires (forall i :: 0 <= i < |s| ==> IsDigit(s[i])) && IsDigit(c)
    ensures Decimal(s + [c], r) == Decimal(s, r) * 10 + (c as int - '0' as int)
    decreases |s|
  {
    if s == [] {
      assert s + [c] == [c];
    } else {
      assert (s + [c])[1..] == s[1..] + [c];
      DecimalSnoc(s[1..], c, r * 10 + (s[0] as int - '0' as int));
    }
  }

  lemma {:induction false} DigitsSpell(n: nat)
    ensures Decimal(Digits(n), 0) == n
  {
    if n >= 10 {
      DigitsNeat(n / 10);
      DigitsSpell(n / 10);
      DecimalSnoc(Digits(n / 10), ('0' as int + n % 10) as char, 0);
    }
  }

  lemma SignedMeans(n: int, now: nat)
    ensures Neat(Signed(n)) && (Deletes(Signed(n)) <==> n <= 0)
    ensures n > 0 ==> Deadline(now, Signed(n)) == (now + if n < U64_MAX then n else U64_MAX) % (U64_MAX + 1)
  {
    if n < 0 {
      DigitsNeat(-n);
      assert Signed(n)[|Signed(n)| - 1] == Digits(-n)[|Digits(-n)| - 1];
    } else {
      DigitsNeat(n);
      DigitsSpell(n);
    }
  }

  lemma MaxAgeMeans(p: Attrs, secs: int, an: Text, gap: Text, now: nat, date: Text -> nat)
    requires an == "Max-Age" && Blank(gap)
    ensures Apply(p, gap + Assign(an, gap, Signed(secs)), now, date) == Effect(p, MaxAgeOf(secs), now, date)
    ensures ';' !in Assign(an, gap, Signed(secs))
  {
    MaxAgeKind(an);
    SignedMeans(secs, now);
    Valued(p, an, gap, Signed(secs), now, date);
  }

  lemma TextMeans(p: Attrs, a: Attribute, an: Text, gap: Text, val: Text, now: nat, date: Text -> nat)
    requires Neat(val) && Blank(gap)
    requires (an == "Expires" && a == ExpiresAt(val)) || (an == "Domain" && a == DomainOf(val))
             || (an == "Path" && a == PathOf(val)) || (an == "SameSite" && a == SameSiteOf(val))
    ensures Apply(p, gap + Assign(an, gap, val), now, date) == Effect(p, a, now, date) && ';' !in Assign(an, gap, val)
  {
    match a {
      case ExpiresAt(_) => ExpiresKind(an);
      case DomainOf(_) => DomainKind(an);
      case PathOf(_) => PathKind(an);
      case SameSiteOf(_) => SameSiteKind(an);
    }
    Valued(p, an, gap, val, now, date);
  }

  lemma FlagMeans(p: Attrs, a: Attribute, an: Text, gap: Text, now: nat, date: Text -> nat)
    requires (an == "Secure" && a == SecureFlag) || (an == "HttpOnly" && a == HttpOnlyFlag)
    requires Blank(gap)
    ensures Apply(p, gap + an, now, date) == Effect(p, a, now, date) && ';' !in an
  {
    if a.SecureFlag? { SecureKind(an); } else { HttpOnlyKind(an); }
    Bare(p, an, gap, now, date);
  }

  /** An attribute as written does what it means. */
  lemma AttributeMeans(p: Attrs, a: Attribute, gap: Text, now: nat, date: Text -> nat)
    requires NeatAttribute(a) && Blank(gap)
    ensures Apply(p, gap + Spelled(a, gap), now, date) == Effect(p, a, now, date) && ';' !in Spelled(a, gap)
  {
    match a {
      case ExpiresAt(text) => TextMeans(p, a, "Expires", gap, text, now, date);
      case MaxAgeOf(secs) => MaxAgeMeans(p, secs, "Max-Age", gap, now, date);
      case DomainOf(name) => TextMeans(p, a, "Domain", gap, name, now, date);
      case PathOf(path) => TextMeans(p, a, "Path", gap, path, now, date);
      case SecureFlag => FlagMeans(p, a, "Secure", gap, now, date);
      case HttpOnlyFlag => FlagMeans(p, a, "HttpOnly", gap, now, date);
      case SameSiteOf(mode) => TextMeans(p, a, "SameSite", gap, mode, now, date);
    }
  }

  lemma Valued(p: Attrs, an: Text, gap: Text, val: Text, now: nat, date: Text -> nat)
    requires '=' !in an && an != [] && Neat(an) && Neat(val) && Blank(gap)
    ensures Apply(p, gap + Assign(an, gap, val), now, date) == ApplyKind(p, KindOf(an), val, now, date)
    ensures ';' !in Assign(an, gap, val)
  {
    NameAndValue(an, gap, val);
    AssignTrimmed(an, gap, val);
  }

  lemma Bare(p: Attrs, an: Text, gap: Text, now: nat, date: Text -> nat)
    requires '=' !in an && an != [] && Neat(an) && Blank(gap)
    ensures Apply(p, gap + an, now, date) == ApplyKind(p, KindOf(an), [], now, date)
  {
    TrimPadded(gap, an, []);
    IndexPast(an, '=', []);
  }

  // ---- the whole value

  /** What follows the first semicolon. */
  function Listed(attrs: seq<Attribute>, gap: Text): Text {
    if attrs == [] then [] else gap + Spelled(attrs[0], gap) + Tail(attrs[1..], gap)
  }

  lemma SpelledNotEmpty(a: Attribute, gap: Text)
    ensures Spelled(a, gap) != []
  {
  }

  lemma {:induction false} AttributesMean(p: Attrs, attrs: seq<Attribute>, gap: Text, now: nat, date: Text -> nat)
    requires Blank(gap) && forall i :: 0 <= i < |attrs| ==> NeatAttribute(attrs[i])
    ensures ApplyAll(p, Chunks(Listed(attrs, gap)), now, date) == Effects(p, attrs, now, date)
    decreases |attrs|
  {
    if attrs != [] {
      var chunk, av, q := gap + Spelled(attrs[0], gap), Listed(attrs, gap), Effect(p, attrs[0], now, date);
      AttributeMeans(p, attrs[0], gap, now, date);
      NoSeparators(gap);
      SpelledNotEmpty(attrs[0], gap);
      PairFirst(chunk, attrs[1..], gap, av);
      assert Chunks(av)[0] == chunk && Chunks(av)[1..] == Chunks(Listed(attrs[1..], gap));
      AttributesMean(q, attrs[1..], gap, now, date);
    }
  }

  /**
   A written Set-Cookie is understood as it is meant, for every list of attributes in every order
   and all white space around the separators: the cookie it names is kept with them, or deleted
   if it has expired.
   */
  lemma WrittenIsUnderstood(t: Tables, req: Request, name: Text, value: Text, attrs: seq<Attribute>, gap: Text,
                            now: nat, date: Text -> nat)
    requires name != [] && '=' !in name && Neat(name) && Neat(value) && Blank(gap)
    requires forall i :: 0 <= i < |attrs| ==> NeatAttribute(attrs[i])
    ensures var p := Effects(Initial(req), attrs, now, date);
      Interpret(t, req, Written(name, value, attrs, gap), now, date) ==
      match Decide(t, req.host, p)
      case Rejected => Ignore
      case Accepted(domain, hostOnly) =>
        if p.expiredNow then Delete(name, domain, p.path)
        else Keep(Cookie(name, value, domain, p.path, if p.hasExpiry then p.expires else 0,
                         hostOnly, p.secure, p.httpOnly, p.sameSite))
  {
    NameAndValue(name, gap, value);
    AssignTrimmed(name, gap, value);
    PairFirst(Assign(name, gap, value), attrs, gap, Written(name, value, attrs, gap));
    AttributesMean(Initial(req), attrs, gap, now, date);
  }

  /** Without a name there is no cookie. */
  lemma NamelessIgnored(t: Tables, req: Request, sc: Text, now: nat, date: Text -> nat)
    requires var nv := Trim(sc[..IndexOf(sc, ';')]); '=' !in nv || nv[0] == '='
    ensures Interpret(t, req, sc, now, date) == Ignore
  {
    var nv := Trim(sc[..IndexOf(sc, ';')]);
    if '=' !in nv {
      IndexPast(nv, '=', []);
    } else {
      IndexIs(nv, '=', 0);
      assert nv[..0] == [];
    }
  }

  lemma PairFirst(nv: Text, attrs: seq<Attribute>, gap: Text, sc: Text)
    requires ';' !in nv && sc == nv + Tail(attrs, gap)
    ensures sc[..IndexOf(sc, ';')] == nv && Rest(sc, ';') == Listed(attrs, gap)
  {
    if attrs == [] {
      assert sc == nv && nv[..|nv|] == nv;
      IndexPast(nv, ';', []);
    } else {
      var list := Listed(attrs, gap);
      assert Tail(attrs, gap) == [';'] + list;
      Regroup(nv, list, sc);
      IndexPast(nv, ';', list);
    }
  }

  lemma Regroup(nv: Text, list: Text, sc: Text)
    requires sc == nv + ([';'] + list)
    ensures sc == nv + [';'] + list && sc[..|nv|] == nv
  {
  }
}
