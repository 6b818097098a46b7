/** Byte strings, one char for one byte, with the operations of string8 the model needs. */
module Text {
  type Text = string

  const U64_MAX: nat := 0xFFFF_FFFF_FFFF_FFFF

  /** char_to_lower. */
  function Lower(c: char): char {
    if 'A' <= c <= 'Z' then (c as int + 32) as char else c
  }

  /** Only the 26 capital letters change, each to its small letter. */
  lemma LowerIs(c: char)
    ensures Lower(c) as int == if 65 <= c as int <= 90 then c as int + 32 else c as int
  {
  }

  function LowerAll(s: Text): (t: Text)
    ensures |t| == |s| && forall i :: 0 <= i < |s| ==> t[i] == Lower(s[i])
  {
    seq(|s|, i requires 0 <= i < |s| => Lower(s[i]))
  }

  /** str8_match_ci. */
  predicate MatchCi(a: Text, b: Text) {
    |a| == |b| && forall i :: 0 <= i < |a| ==> Lower(a[i]) == Lower(b[i])
  }

  lemma MatchCiTrans(a: Text, b: Text, c: Text)
    requires MatchCi(a, b) && MatchCi(b, c)
    ensures MatchCi(a, c)
  {
    forall i | 0 <= i < |a|
      ensures Lower(a[i]) == Lower(c[i])
    {
      assert Lower(a[i]) == Lower(b[i]) && Lower(b[i]) == Lower(c[i]);
    }
  }

  lemma MatchCiIsFold(a: Text, b: Text)
    ensures MatchCi(a, b) <==> LowerAll(a) == LowerAll(b)
  {
    if LowerAll(a) == LowerAll(b) {
      forall i | 0 <= i < |a|
        ensures Lower(a[i]) == Lower(b[i])
      {
        assert LowerAll(a)[i] == LowerAll(b)[i];
      }
    }
  }

  /** str8_index_of, with the length for a byte that is absent. */
  function IndexOf(s: Text, c: char): (i: nat)
    ensures i <= |s| && c !in s[..i]
    ensures i < |s| ==> s[i] == c
  {
    if s == [] || s[0] == c then 0
    else
      var i := IndexOf(s[1..], c);
      assert s[..i + 1] == [s[0]] + s[1..][..i];
      i + 1
  }

  /** What str8_chop_by_delim leaves behind the delimiter. */
  function Rest(s: Text, c: char): (r: Text)
    ensures |r| <= |s| && (s != [] ==> |r| < |s|)
  {
    var i := IndexOf(s, c);
    if i < |s| then s[i + 1..] else []
  }

  /** str8_chop_by_delim. */
  method Chop(s: Text, c: char) returns (head: Text, rest: Text)
    ensures head == s[..IndexOf(s, c)] && rest == Rest(s, c)
  {
    var i := 0;
    while i < |s| && s[i] != c
      invariant i <= |s| && c !in s[..i]
    {
      i := i + 1;
    }
    IndexIs(s, c, i);
    head := s[..i];
    if i < |s| { i := i + 1; }
    rest := s[i..];
  }

  /** The first occurrence is where the scan stops. */
  lemma IndexIs(s: Text, c: char, i: nat)
    requires i <= |s| && c !in s[..i] && (i < |s| ==> s[i] == c)
    ensures IndexOf(s, c) == i
  {
    var k := IndexOf(s, c);
    assert forall j :: 0 <= j < i ==> s[j] == s[..i][j];
    assert forall j :: 0 <= j < k ==> s[j] == s[..k][j];
  }

  predicate IsSpace(c: char) {
    c == ' ' || c == '\t' || c == '\n' || c == '\r' || c == '\U{0B}' || c == '\U{0C}'
  }

  /** Space, tab, line feed, vertical tab, form feed and carriage return. */
  lemma SpacesAre(c: char)
    ensures IsSpace(c) <==> c as int == 32 || 9 <= c as int <= 13
  {
  }

  function TrimRight(s: Text): Text {
    if s != [] && IsSpace(s[|s| - 1]) then TrimRight(s[..|s| - 1]) else s
  }

  function TrimLeft(s: Text): Text {
    if s != [] && IsSpace(s[0]) then TrimLeft(s[1..]) else s
  }

  function Trim(s: Text): Text {
    TrimLeft(TrimRight(s))
  }

  predicate IsDigit(c: char) {
    '0' <= c <= '9'
  }

  /** The number the leading digits spell, without a limit. */
  function Decimal(s: Text, r: nat): nat {
    if s == [] || !IsDigit(s[0]) then r else Decimal(s[1..], r * 10 + (s[0] as int - '0' as int))
  }

  lemma {:induction false} DecimalGrows(s: Text, r: nat)
    ensures Decimal(s, r) >= r
  {
    if s != [] && IsDigit(s[0]) {
      DecimalGrows(s[1..], r * 10 + (s[0] as int - '0' as int));
    }
  }

  function Saturated(n: nat): nat {
    if n < U64_MAX then n else U64_MAX
  }

  /** str8_to_u64: the leading digits, saturating. */
  method ToU64(s: Text) returns (r: nat)
    ensures r == Saturated(Decimal(s, 0))
  {
    r := 0;
    for i := 0 to |s|
      invariant r <= U64_MAX && Decimal(s, 0) == Decimal(s[i..], r)
    {
      if !IsDigit(s[i]) { return; }
      var d := s[i] as int - '0' as int;
      assert s[i..][1..] == s[i + 1..];
      DecimalGrows(s[i + 1..], r * 10 + d);
      if r > (U64_MAX - d) / 10 { return U64_MAX; }
      r := r * 10 + d;
    }
  }
}
