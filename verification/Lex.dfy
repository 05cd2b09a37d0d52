/** The byte-wise string order DynamoDB uses for sort keys, and what a key
    range or a key prefix selects under it. */
module Lex {

  /** Strictly before in key order; a proper prefix comes first. */
  predicate Lt(a: string, b: string)
    decreases |b|
  {
    |b| > 0 && (|a| == 0 || a[0] < b[0] || (a[0] == b[0] && Lt(a[1..], b[1..])))
  }

  predicate Le(a: string, b: string) {
    a == b || Lt(a, b)
  }

  lemma {:induction false} Irreflexive(a: string)
    ensures !Lt(a, a)
    decreases |a|
  {
    if |a| > 0 {
      Irreflexive(a[1..]);
    }
  }

  lemma {:induction false} Transitive(a: string, b: string, c: string)
    requires Lt(a, b) && Lt(b, c)
    ensures Lt(a, c)
    decreases |b|
  {
    if |a| > 0 && a[0] == b[0] && b[0] == c[0] {
      Transitive(a[1..], b[1..], c[1..]);
    }
  }

  lemma {:induction false} Total(a: string, b: string)
    ensures Lt(a, b) || a == b || Lt(b, a)
    decreases |a|
  {
    if |a| > 0 && |b| > 0 && a[0] == b[0] {
      Total(a[1..], b[1..]);
      assert a == [a[0]] + a[1..] && b == [b[0]] + b[1..];
    }
  }

  lemma Asymmetric(a: string, b: string)
    requires Lt(a, b)
    ensures !Lt(b, a) && a != b
  {
    if Lt(b, a) {
      Transitive(a, b, a);
    }
    Irreflexive(a);
  }

  lemma LeTransitive(a: string, b: string, c: string)
    requires Le(a, b) && Le(b, c)
    ensures Le(a, c)
    ensures Lt(a, b) || Lt(b, c) ==> Lt(a, c)
  {
    if Lt(a, b) && Lt(b, c) {
      Transitive(a, b, c);
    }
  }

  /** Not before is the same as at or after. */
  lemma LeOrLt(a: string, b: string)
    ensures Le(a, b) <==> !Lt(b, a)
  {
    Total(a, b);
    Irreflexive(a);
    if Lt(a, b) {
      Asymmetric(a, b);
    }
  }

  /** A shared prefix does not matter. */
  lemma {:induction false} SharedPrefix(p: string, a: string, b: string)
    ensures Lt(p + a, p + b) <==> Lt(a, b)
    decreases |p|
  {
    if |p| == 0 {
      assert p + a == a && p + b == b;
    } else {
      assert (p + a)[1..] == p[1..] + a && (p + b)[1..] == p[1..] + b;
      SharedPrefix(p[1..], a, b);
    }
  }

  lemma SharedPrefixLe(p: string, a: string, b: string)
    ensures Le(p + a, p + b) <==> Le(a, b)
  {
    SharedPrefix(p, a, b);
    if p + a == p + b {
      assert a == (p + a)[|p|..] && b == (p + b)[|p|..];
    }
  }

  /** A difference within equal-length heads decides, whatever follows. */
  lemma {:induction false} HeadDecides(a: string, b: string, x: string, y: string)
    requires |a| == |b| && Lt(a, b)
    ensures Lt(a + x, b + y)
    decreases |a|
  {
    assert (a + x)[0] == a[0] && (b + y)[0] == b[0];
    if a[0] == b[0] {
      assert (a + x)[1..] == a[1..] + x && (b + y)[1..] == b[1..] + y;
      HeadDecides(a[1..], b[1..], x, y);
    }
  }

  /** What lies between p and an extension of p starts with p. */
  lemma {:induction false} BetweenHasPrefix(p: string, s: string, k: string)
    requires Le(p, k) && Le(k, p + s)
    ensures p <= k
    decreases |p|
  {
    if |p| > 0 {
      assert (p + s)[0] == p[0];
      assert |k| > 0 && k[0] == p[0];
      assert (p + s)[1..] == p[1..] + s;
      BetweenHasPrefix(p[1..], s, k[1..]);
      assert p == [p[0]] + p[1..] && k == [k[0]] + k[1..];
    }
  }

  /** A proper prefix comes before its extensions. */
  lemma PrefixBefore(p: string, k: string)
    requires p <= k
    ensures Le(p, k)
  {
    assert k == p + k[|p|..];
    SharedPrefix(p, "", k[|p|..]);
    assert p + "" == p;
  }

  /** Either one string is a prefix of the other or they part at some index. */
  lemma {:induction false} Part(a: string, b: string) returns (i: nat)
    ensures i <= |a| && i <= |b| && a[..i] == b[..i]
    ensures i == |a| || i == |b| || a[i] != b[i]
    decreases |a|
  {
    if |a| == 0 || |b| == 0 || a[0] != b[0] {
      i := 0;
    } else {
      var j := Part(a[1..], b[1..]);
      i := j + 1;
      assert a[..i] == [a[0]] + a[1..][..j] && b[..i] == [b[0]] + b[1..][..j];
    }
  }
}
