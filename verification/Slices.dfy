/** Parts of sequences and arrays, sequences with a part replaced, and sequences in pieces. */
module Slices {
  /** `s` with `w` written at position `at`. */
  function Splice<T>(s: seq<T>, at: nat, w: seq<T>): (r: seq<T>)
    requires at + |w| <= |s|
    ensures |r| == |s|
  {
    s[..at] + w + s[at + |w|..]
  }

  lemma Sub<T>(s: seq<T>, a: nat, b: nat, c: nat, d: nat)
    requires a <= b <= |s| && c <= d <= b - a
    ensures s[a..b][c..d] == s[a + c..a + d]
  {
    assert |s[a..b][c..d]| == |s[a + c..a + d]|;
    forall i | 0 <= i < d - c ensures s[a..b][c..d][i] == s[a + c..a + d][i] {
      assert s[a..b][c..d][i] == s[a..b][c + i] == s[a + c + i];
    }
  }

  lemma Join<T>(s: seq<T>, a: nat, b: nat, c: nat)
    requires a <= b <= c <= |s|
    ensures s[a..b] + s[b..c] == s[a..c]
  {
  }

  lemma SpliceHas<T>(s: seq<T>, at: nat, w: seq<T>)
    requires at + |w| <= |s|
    ensures Splice(s, at, w)[at..at + |w|] == w
  {
    var r := Splice(s, at, w);
    forall i | 0 <= i < |w| ensures r[at..at + |w|][i] == w[i] {
      assert r[at + i] == w[i];
    }
  }

  /** What does not meet the part written is as it was. */
  lemma SpliceKeeps<T>(s: seq<T>, at: nat, w: seq<T>, lo: nat, hi: nat)
    requires at + |w| <= |s| && lo <= hi <= |s| && (hi <= at || at + |w| <= lo)
    ensures Splice(s, at, w)[lo..hi] == s[lo..hi]
  {
    var r := Splice(s, at, w);
    forall i | 0 <= i < hi - lo ensures r[lo..hi][i] == s[lo..hi][i] {
      assert r[lo + i] == s[lo + i];
    }
  }

  lemma SpliceFront<T>(s: seq<T>, at: nat, w: seq<T>, hi: nat)
    requires at + |w| <= |s| && hi <= at
    ensures Splice(s, at, w)[..hi] == s[..hi]
  {
  }

  lemma SpliceBack<T>(s: seq<T>, at: nat, w: seq<T>, lo: nat)
    requires at + |w| <= lo <= |s|
    ensures Splice(s, at, w)[lo..] == s[lo..]
  {
    var r := Splice(s, at, w);
    forall i | 0 <= i < |s| - lo ensures r[lo..][i] == s[lo..][i] {
      assert r[lo + i] == s[lo + i];
    }
  }

  /** Writing inside a part is writing into that part. */
  lemma SpliceInside<T>(s: seq<T>, at: nat, w: seq<T>, lo: nat, hi: nat)
    requires lo <= at && at + |w| <= hi <= |s|
    ensures Splice(s, at, w)[lo..hi] == Splice(s[lo..hi], at - lo, w)
  {
    var r, q := Splice(s, at, w), Splice(s[lo..hi], at - lo, w);
    forall i | 0 <= i < hi - lo ensures r[lo..hi][i] == q[i] {
      assert r[lo..hi][i] == r[lo + i];
      if at - lo <= i < at - lo + |w| {
        assert r[lo + i] == w[lo + i - at] == q[i];
      } else {
        assert r[lo + i] == s[lo + i] == s[lo..hi][i] == q[i];
      }
    }
  }

  lemma ArraySub<T>(x: array<T>, a: nat, b: nat, c: nat, d: nat)
    requires a <= b <= x.Length && c <= d <= b - a
    ensures x[a..b][c..d] == x[a + c..a + d]
  {
    Sub(x[..], a, b, c, d);
    ArrayPart(x, a, b);
    ArrayPart(x, a + c, a + d);
  }

  lemma ArrayPart<T>(x: array<T>, a: nat, b: nat)
    requires a <= b <= x.Length
    ensures x[..][a..b] == x[a..b]
  {
  }

  lemma ArrayJoin<T>(x: array<T>, a: nat, b: nat, c: nat)
    requires a <= b <= c <= x.Length
    ensures x[a..b] + x[b..c] == x[a..c]
  {
  }

  lemma Middle<T>(a: seq<T>, m: seq<T>, b: seq<T>, off: nat, n: nat)
    requires off + n <= |m|
    ensures (a + m + b)[|a| + off..|a| + off + n] == m[off..off + n]
  {
    var s := a + m + b;
    var x, y := s[|a| + off..|a| + off + n], m[off..off + n];
    forall i | 0 <= i < n ensures x[i] == y[i] {
      assert s[|a| + off + i] == m[off + i];
    }
    assert x == y;
  }

  // ----- sequences in pieces

  /** The pieces one after the other. */
  function Flatten<T>(v: seq<seq<T>>): seq<T> {
    if v == [] then [] else v[0] + Flatten(v[1..])
  }

  lemma FlattenCons<T>(v: seq<seq<T>>)
    requires v != []
    ensures Flatten(v) == v[0] + Flatten(v[1..])
  {
  }

  lemma FlattenOne<T>(x: seq<T>)
    ensures Flatten([x]) == x
  {
    assert [x][1..] == [];
  }

  lemma {:induction false} FlattenConcat<T>(v: seq<seq<T>>, w: seq<seq<T>>)
    ensures Flatten(v + w) == Flatten(v) + Flatten(w)
  {
    if v == [] {
      assert v + w == w;
    } else {
      assert (v + w)[1..] == v[1..] + w;
      FlattenConcat(v[1..], w);
    }
  }
}
