/** Host names as sequences of labels. */
module HostNames {
  import opened Text

  /** The pieces between the dots, in lower case. */
  function Labels(x: Text): (ls: seq<Text>)
    ensures |ls| >= 1
  {
    if x == [] then [[]]
    else if x[0] == '.' then [[]] + Labels(x[1..])
    else Grown(Lower(x[0]), Labels(x[1..]))
  }

  /** One more character in front of the first label. */
  function Grown(c: char, ls: seq<Text>): (r: seq<Text>)
    requires |ls| >= 1
    ensures |r| == |ls|
  {
    [[c] + ls[0]] + ls[1..]
  }

  predicate EndsIn(a: seq<Text>, b: seq<Text>) {
    |b| <= |a| && a[|a| - |b|..] == b
  }

  lemma GrownSame(c: char, a: seq<Text>, d: char, b: seq<Text>)
    requires |a| >= 1 && |b| >= 1
    ensures Grown(c, a) == Grown(d, b) <==> c == d && a == b
  {
    var x, y := Grown(c, a), Grown(d, b);
    if x == y {
      assert c == x[0][0] == y[0][0] == d;
      assert a[0] == x[0][1..] == y[0][1..] == b[0];
      assert a == [a[0]] + x[1..] == [b[0]] + y[1..] == b;
    }
  }

  /** Two names have the same labels exactly if they are the same up to case. */
  lemma {:induction false} SameLabels(a: Text, b: Text)
    ensures Labels(a) == Labels(b) <==> MatchCi(a, b)
  {
    if a == [] || b == [] {
      if a != [] { NotBlank(a); }
      if b != [] { NotBlank(b); }
    } else {
      var u, v := Labels(a[1..]), Labels(b[1..]);
      SameLabels(a[1..], b[1..]);
      FirstAndRest(a, b);
      if a[0] == '.' && b[0] == '.' {
        assert ([[]] + u)[1..] == u && ([[]] + v)[1..] == v;
      } else if a[0] == '.' || b[0] == '.' {
        assert Labels(a)[0] != Labels(b)[0];
      } else {
        GrownSame(Lower(a[0]), u, Lower(b[0]), v);
      }
    }
  }

  lemma NotBlank(a: Text)
    requires a != []
    ensures Labels(a) != [[]]
  {
    if a[0] != '.' { assert Labels(a)[0] != []; }
  }

  lemma FirstAndRest(a: Text, b: Text)
    requires a != [] && b != []
    ensures MatchCi(a, b) <==> Lower(a[0]) == Lower(b[0]) && MatchCi(a[1..], b[1..])
  {
    if Lower(a[0]) == Lower(b[0]) && MatchCi(a[1..], b[1..]) {
      forall i | 0 <= i < |a| ensures Lower(a[i]) == Lower(b[i]) {
        if i > 0 { assert a[i] == a[1..][i - 1] && b[i] == b[1..][i - 1]; }
      }
    }
    if MatchCi(a, b) {
      forall i | 0 <= i < |a| - 1 ensures Lower(a[1..][i]) == Lower(b[1..][i]) {
        assert Lower(a[i + 1]) == Lower(b[i + 1]);
      }
    }
  }

  /** A dot ends a label. */
  lemma {:induction false} LabelsSplit(x: Text, d: nat)
    requires d < |x| && x[d] == '.'
    ensures Labels(x) == Labels(x[..d]) + Labels(x[d + 1..])
    decreases d
  {
    if d == 0 {
      assert x[..0] == [];
    } else {
      var y, v := x[1..], Labels(x[d + 1..]);
      LabelsSplit(y, d - 1);
      assert y[..d - 1] == x[..d][1..] && y[d..] == x[d + 1..];
      var u := Labels(y[..d - 1]);
      if x[0] == '.' {
        assert [[]] + (u + v) == [[]] + u + v;
      } else {
        GrownFront(Lower(x[0]), u, v);
      }
    }
  }

  lemma GrownFront(c: char, u: seq<Text>, v: seq<Text>)
    requires |u| >= 1
    ensures Grown(c, u + v) == Grown(c, u) + v
  {
    assert (u + v)[1..] == u[1..] + v;
  }

  /** Every label but the first begins behind a dot. */
  lemma {:induction false} DotBefore(x: Text, k: nat) returns (p: nat)
    requires 1 <= k < |Labels(x)|
    ensures p < |x| && x[p] == '.' && |Labels(x[..p])| == k
    decreases |x|
  {
    if x[0] == '.' && k == 1 {
      p := 0;
      assert x[..0] == [];
    } else {
      p := DotBefore(x[1..], if x[0] == '.' then k - 1 else k);
      p := p + 1;
      assert x[..p][1..] == x[1..][..p - 1];
    }
  }

  /** The labels behind a dot are the last ones. */
  lemma TailLabels(x: Text, d: nat)
    requires d < |x| && x[d] == '.'
    ensures var a, b := Labels(x), Labels(x[d + 1..]); |b| < |a| && a[|a| - |b|..] == b
  {
    LabelsSplit(x, d);
  }
}
