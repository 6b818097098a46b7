/** The public-suffix guard over sorted rule tables. */
module Psl {
  import opened Text

  /** The three generated tables: "!rule", plain rules, and the parents of "*.parent". */
  datatype Tables = Tables(exceptions: seq<Text>, exact: seq<Text>, wildcard: seq<Text>)

  /** strcmp on strings without NUL: the sign of the first difference, a proper prefix first. */
  function Compare(a: Text, b: Text): int {
    if a == [] then (if b == [] then 0 else -1)
    else if b == [] then 1
    else if a[0] < b[0] then -1
    else if a[0] > b[0] then 1
    else Compare(a[1..], b[1..])
  }

  lemma {:induction false} CompareEqual(a: Text, b: Text)
    ensures Compare(a, b) == 0 <==> a == b
  {
    if a != [] && b != [] && a[0] == b[0] {
      CompareEqual(a[1..], b[1..]);
      assert a == [a[0]] + a[1..] && b == [b[0]] + b[1..];
    }
  }

  lemma {:induction false} CompareTrans(a: Text, b: Text, c: Text)
    requires Compare(a, b) < 0 && Compare(b, c) < 0
    ensures Compare(a, c) < 0
  {
    if a != [] && b != [] && c != [] && a[0] == b[0] == c[0] {
      CompareTrans(a[1..], b[1..], c[1..]);
    }
  }

  lemma {:induction false} CompareFlip(a: Text, b: Text)
    ensures Compare(a, b) == -Compare(b, a)
  {
    if a != [] && b != [] && a[0] == b[0] {
      CompareFlip(a[1..], b[1..]);
    }
  }

  predicate Sorted(t: seq<Text>) {
    forall i, j :: 0 <= i < j < |t| ==> Compare(t[i], t[j]) < 0
  }

  predicate SortedTables(t: Tables) {
    Sorted(t.exceptions) && Sorted(t.exact) && Sorted(t.wildcard)
  }

  /** psl_table_has: the binary search finds exactly the members. */
  method TableHas(t: seq<Text>, key: Text) returns (found: bool)
    requires Sorted(t)
    ensures found <==> key in t
  {
    var lo, hi := 0, |t|;
    while lo < hi
      invariant 0 <= lo <= hi <= |t|
      invariant key !in t[..lo] && key !in t[hi..]
    {
      var mid := lo + (hi - lo) / 2;
      var c := Compare(key, t[mid]);
      CompareEqual(key, t[mid]);
      if c == 0 { return true; }
      if c < 0 {
        AbsentAbove(t, key, mid);
        hi := mid;
      } else {
        AbsentBelow(t, key, mid);
        lo := mid + 1;
      }
    }
    assert t == t[..lo] + t[hi..];
    return false;
  }

  lemma AbsentAbove(t: seq<Text>, key: Text, mid: nat)
    requires Sorted(t) && mid < |t| && Compare(key, t[mid]) < 0
    ensures key !in t[mid..]
  {
    forall i | mid <= i < |t|
      ensures t[i] != key
    {
      if i > mid { CompareTrans(key, t[mid], t[i]); }
      CompareEqual(key, t[i]);
    }
  }

  lemma AbsentBelow(t: seq<Text>, key: Text, mid: nat)
    requires Sorted(t) && mid < |t| && Compare(key, t[mid]) > 0
    ensures key !in t[..mid + 1]
  {
    CompareFlip(key, t[mid]);
    forall i | 0 <= i <= mid
      ensures t[i] != key
    {
      if i < mid { CompareTrans(t[i], t[mid], key); }
      CompareEqual(t[i], key);
    }
  }

  /** The C string in a buffer: up to its first NUL. */
  function CString(s: Text): Text {
    s[..IndexOf(s, '\0')]
  }

  /** How many bytes of the domain are looked up: all, less one trailing dot. */
  function Length(domain: Text): (n: nat)
    requires domain != []
    ensures n <= |domain|
  {
    if domain[|domain| - 1] == '.' then |domain| - 1 else |domain|
  }

  function Key(domain: Text): Text
    requires domain != []
  {
    CString(LowerAll(domain)[..Length(domain)])
  }

  /** Exactly when psl_is_public_suffix says yes. */
  predicate PublicSuffix(t: Tables, domain: Text) {
    && 0 < |domain| < 256 && Length(domain) > 0
    && var d := Key(domain);
       && d !in t.exceptions
       && (d in t.exact || '.' !in d || Rest(d, '.') in t.wildcard)
  }

  /** psl_is_public_suffix. */
  method IsPublicSuffix(t: Tables, domain: Text) returns (r: bool)
    requires SortedTables(t)
    ensures r <==> PublicSuffix(t, domain)
  {
    if |domain| == 0 || |domain| >= 256 { return false; }
    var buf := [];
    for i := 0 to |domain|
      invariant buf == LowerAll(domain)[..i]
    {
      buf := buf + [Lower(domain[i])];
    }
    var n := |domain|;
    DotKept(domain);
    if buf[n - 1] == '.' { n := n - 1; }
    if n == 0 { return false; }
    assert buf == LowerAll(domain) && n == Length(domain);
    var d := CString(buf[..n]);
    var excepted := TableHas(t.exceptions, d);
    if excepted { return false; }
    var listed := TableHas(t.exact, d);
    if listed { return true; }
    var dot := IndexOf(d, '.');
    if dot == |d| {
      assert d[..dot] == d;
      return true;
    }
    r := TableHas(t.wildcard, d[dot + 1..]);
  }

  lemma DotKept(domain: Text)
    requires domain != []
    ensures LowerAll(domain)[|domain| - 1] == '.' <==> domain[|domain| - 1] == '.'
  {
  }

  /** The verdict does not depend on case. */
  lemma CaseInsensitive(t: Tables, a: Text, b: Text)
    requires MatchCi(a, b)
    ensures PublicSuffix(t, a) <==> PublicSuffix(t, b)
  {
    MatchCiIsFold(a, b);
    if a != [] {
      DotKept(a);
      DotKept(b);
    }
  }

  /** Nor on one trailing dot, except at 255 bytes, where the dotted form no longer fits the buffer. */
  lemma TrailingDot(t: Tables, d: Text)
    requires d == [] || d[|d| - 1] != '.'
    ensures PublicSuffix(t, d + ".") <==> PublicSuffix(t, d) && |d| != 255
  {
    if d != [] { assert LowerAll(d + ".")[..|d|] == LowerAll(d)[..|d|]; }
  }

  /** There the verdict does change: for one 255-byte label, say. */
  lemma TrailingDotCounts(t: Tables, d: Text)
    requires t == Tables([], [], []) && d == seq(255, _ => 'a')
    ensures PublicSuffix(t, d) && !PublicSuffix(t, d + ".")
  {
    assert '.' !in LowerAll(d);
  }

  /** An exception rule wins over everything. */
  lemma ExceptionWins(t: Tables, d: Text)
    requires d != [] && LowerAll(d) in t.exceptions && Plain(d)
    ensures !PublicSuffix(t, d)
  {
    PlainKey(d);
  }

  /** A name with no oddities in it: no NUL, and no dot at the end. */
  predicate Plain(d: Text) {
    d != [] && d[|d| - 1] != '.' && '\0' !in d
  }

  lemma PlainKey(d: Text)
    requires Plain(d)
    ensures Key(d) == LowerAll(d) && Length(d) == |d|
  {
    var k := LowerAll(d);
    forall i | 0 <= i < |k| ensures k[i] != '\0' { assert d[i] != '\0'; }
    IndexIs(k, '\0', |k|);
    assert k[..|k|] == k;
  }

  /** A name is a public suffix if it is listed, or has no dot, or is one label under a wildcard; otherwise it is not. */
  lemma SuffixRules(t: Tables, head: Text, parent: Text)
    requires '.' !in head && Plain(head) && Plain(parent) && |head| + 1 + |parent| < 256
    requires LowerAll(head) !in t.exceptions && LowerAll(head + "." + parent) !in t.exceptions
    ensures PublicSuffix(t, head)
    ensures PublicSuffix(t, head + "." + parent) <==>
              LowerAll(head + "." + parent) in t.exact || LowerAll(parent) in t.wildcard
  {
    var d := head + "." + parent;
    assert d[|head|] == '.' && Plain(d);
    PlainKey(head);
    PlainKey(d);
    NoDot(head);
    var k := LowerAll(d);
    assert k[..|head|] == LowerAll(head) && k[|head|] == '.' && k[|head| + 1..] == LowerAll(parent);
    IndexIs(k, '.', |head|);
  }

  lemma NoDot(s: Text)
    requires '.' !in s
    ensures '.' !in LowerAll(s)
  {
    forall i | 0 <= i < |s| ensures LowerAll(s)[i] != '.' { assert s[i] != '.'; }
  }

  /** Names of 256 bytes and more, and the bare dot, are never one. */
  lemma SuffixBounds(t: Tables, d: Text)
    ensures |d| == 0 || |d| >= 256 || d == "." ==> !PublicSuffix(t, d)
  {
  }
}
