/** The canonical two-party room key: both ids sorted with JavaScript's default
    string order and joined with an underscore (`[a, b].sort().join("_")`). */
module RoomIdentity {

  const SEPARATOR: char := '_'

  /** JavaScript's default string order: element-wise comparison, a proper
      prefix sorting first. */
  predicate LexLe(a: string, b: string)
    decreases |a|
  {
    |a| == 0 || (|b| > 0 && (a[0] < b[0] || (a[0] == b[0] && LexLe(a[1..], b[1..]))))
  }

  lemma {:induction false} LexLeTotal(a: string, b: string)
    ensures LexLe(a, b) || LexLe(b, a)
    decreases |a|
  {
    if |a| > 0 && |b| > 0 && a[0] == b[0] {
      LexLeTotal(a[1..], b[1..]);
    }
  }

  lemma {:induction false} LexLeAntisymmetric(a: string, b: string)
    requires LexLe(a, b) && LexLe(b, a)
    ensures a == b
    decreases |a|
  {
    if |a| > 0 {
      LexLeAntisymmetric(a[1..], b[1..]);
      assert a == [a[0]] + a[1..] && b == [b[0]] + b[1..];
    }
  }

  lemma {:induction false} LexLeTransitive(a: string, b: string, c: string)
    requires LexLe(a, b) && LexLe(b, c)
    ensures LexLe(a, c)
    decreases |a|
  {
    if |a| > 0 && a[0] == b[0] && b[0] == c[0] {
      LexLeTransitive(a[1..], b[1..], c[1..]);
    }
  }

  /** The room both parties compute independently from their own point of view. */
  function RoomId(a: string, b: string): (r: string)
    ensures LexLe(a, b) ==> r == a + [SEPARATOR] + b
    ensures LexLe(b, a) ==> r == b + [SEPARATOR] + a
    ensures |r| == |a| + |b| + 1
  {
    assert LexLe(a, b) && LexLe(b, a) ==> a == b by {
      if LexLe(a, b) && LexLe(b, a) { LexLeAntisymmetric(a, b); }
    }
    if LexLe(a, b) then a + [SEPARATOR] + b else b + [SEPARATOR] + a
  }

  /** Caller and callee arrive at the same key whichever side computes it. */
  lemma RoomIdCommutative(a: string, b: string)
    ensures RoomId(a, b) == RoomId(b, a)
  {
    LexLeTotal(a, b);
  }

  /** The smaller id is the part before the separator. */
  lemma RoomIdStartsWithSmaller(a: string, b: string)
    ensures LexLe(a, b) ==> RoomId(a, b)[..|a|] == a
    ensures LexLe(b, a) ==> RoomId(a, b)[..|b|] == b
  {
  }

  /** An id that can be told apart from the separator. */
  predicate PlainId(a: string) {
    SEPARATOR !in a
  }

  lemma {:induction false} SplitAtFirstSeparator(x: string, y: string, z: string, w: string)
    requires PlainId(x) && PlainId(z)
    requires x + [SEPARATOR] + y == z + [SEPARATOR] + w
    ensures x == z && y == w
  {
    var r := x + [SEPARATOR] + y;
    assert |x| == |z| by {
      assert forall i :: 0 <= i < |x| ==> r[i] == x[i] != SEPARATOR;
      assert forall i :: 0 <= i < |z| ==> r[i] == z[i] != SEPARATOR;
      assert r[|x|] == SEPARATOR && r[|z|] == SEPARATOR;
    }
    assert x == r[..|x|] == z;
    assert y == r[|x| + 1..] == w;
  }

  /** For ids without an underscore, the room key identifies the pair of
      participants (in either order): distinct pairs never share a room. */
  lemma RoomIdIdentifiesPair(a: string, b: string, c: string, d: string)
    requires PlainId(a) && PlainId(b) && PlainId(c) && PlainId(d)
    requires RoomId(a, b) == RoomId(c, d)
    ensures (a == c && b == d) || (a == d && b == c)
  {
    LexLeTotal(a, b);
    LexLeTotal(c, d);
    if LexLe(a, b) {
      if LexLe(c, d) {
        SplitAtFirstSeparator(a, b, c, d);
      } else {
        SplitAtFirstSeparator(a, b, d, c);
      }
    } else {
      if LexLe(c, d) {
        SplitAtFirstSeparator(b, a, c, d);
      } else {
        SplitAtFirstSeparator(b, a, d, c);
      }
    }
  }
}
