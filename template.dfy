/** A Python f-string with only `{expr}` placeholders, seen as fixed pieces of
    text with one value between each two of them, and where each value ends up
    in the result. */
module Template {

  /** The f-string's result: lits[0] + vals[0] + lits[1] + ... + lits[n]. It
      opens with the first fixed piece. */
  function Interleave(lits: seq<string>, vals: seq<string>): (s: string)
    requires |lits| == |vals| + 1
    ensures OccursAt(s, lits[0], 0)
    decreases |vals|
  {
    if vals == [] then lits[0]
    else lits[0] + vals[0] + Interleave(lits[1..], vals[1..])
  }

  /** The text before value j: pieces 0..j with values 0..j-1 between them. */
  function Before(lits: seq<string>, vals: seq<string>, j: nat): string
    requires |lits| == |vals| + 1 && j < |vals|
  {
    Interleave(lits[..j + 1], vals[..j])
  }

  /** Where value j begins in the result. */
  function Offset(lits: seq<string>, vals: seq<string>, j: nat): nat
    requires |lits| == |vals| + 1 && j < |vals|
  {
    |Before(lits, vals, j)|
  }

  /** t occurs in s at position i. */
  predicate OccursAt(s: string, t: string, i: int) {
    0 <= i <= |s| - |t| && s[i..i + |t|] == t
  }

  /** s contains t as a contiguous piece. */
  ghost predicate Contains(s: string, t: string) {
    exists i :: OccursAt(s, t, i)
  }

  /** Appending text after s keeps every occurrence in s. */
  lemma OccursExtend(s: string, c: string, t: string, i: int)
    requires OccursAt(s, t, i)
    ensures OccursAt(s + c, t, i)
  {
    assert (s + c)[i..i + |t|] == s[i..i + |t|];
  }

  /** Putting text before s moves every occurrence in s by its length. */
  lemma OccursShift(a: string, s: string, t: string, i: int)
    requires OccursAt(s, t, i)
    ensures OccursAt(a + s, t, |a| + i)
  {
    assert (a + s)[|a| + i..|a| + i + |t|] == s[i..i + |t|];
  }

  /** The right operand of a concatenation occurs right after the left. */
  lemma OccursRight(a: string, t: string)
    ensures OccursAt(a + t, t, |a|)
  {
    assert OccursAt(t, t, 0);
    OccursShift(a, t, t, 0);
  }

  /** An occurrence of a + b is an occurrence of a ... */
  lemma OccursPrefix(s: string, a: string, b: string, i: int)
    requires OccursAt(s, a + b, i)
    ensures OccursAt(s, a, i)
  {
    assert s[i..i + |a|] == (a + b)[..|a|];
  }

  /** ... followed by an occurrence of b. */
  lemma OccursSuffix(s: string, a: string, b: string, i: int)
    requires OccursAt(s, a + b, i)
    ensures OccursAt(s, b, i + |a|)
  {
    assert s[i + |a|..i + |a| + |b|] == (a + b)[|a|..];
  }

  /** Two adjacent occurrences make one of the concatenation. */
  lemma OccursJoin(s: string, a: string, b: string, i: int)
    requires OccursAt(s, a, i) && OccursAt(s, b, i + |a|)
    ensures OccursAt(s, a + b, i)
  {
    assert s[i..i + |a| + |b|] == s[i..i + |a|] + s[i + |a|..i + |a| + |b|];
  }

  /** The result is the text before value j, value j, and the f-string made of
      the remaining pieces and values. */
  lemma {:induction false} InterleaveSplit(lits: seq<string>, vals: seq<string>, j: nat)
    requires |lits| == |vals| + 1 && j < |vals|
    ensures Interleave(lits, vals) == Before(lits, vals, j) + vals[j] + Interleave(lits[j + 1..], vals[j + 1..])
  {
    if j == 0 {
      assert lits[..1] == [lits[0]] && vals[..0] == [];
    } else {
      InterleaveSplit(lits[1..], vals[1..], j - 1);
      assert lits[..j + 1][1..] == lits[1..][..j];
      assert vals[..j][1..] == vals[1..][..j - 1];
      assert lits[1..][j..] == lits[j + 1..];
      assert vals[1..][j..] == vals[j + 1..];
      assert Before(lits, vals, j) == lits[0] + vals[0] + Before(lits[1..], vals[1..], j - 1);
    }
  }

  /** The text before value j + 1 extends the text before value j by value j
      and piece j + 1. */
  lemma BeforeNext(lits: seq<string>, vals: seq<string>, j: nat)
    requires |lits| == |vals| + 1 && j + 1 < |vals|
    ensures Before(lits, vals, j + 1) == Before(lits, vals, j) + vals[j] + lits[j + 1]
  {
    var ls, vs := lits[..j + 2], vals[..j + 1];
    InterleaveSplit(ls, vs, j);
    assert ls[..j + 1] == lits[..j + 1] && vs[..j] == vals[..j];
    assert ls[j + 1..] == [lits[j + 1]] && vs[j + 1..] == [];
  }

  /** Value 0 begins right after the first fixed piece. */
  lemma OffsetFirst(lits: seq<string>, vals: seq<string>)
    requires |lits| == |vals| + 1 && 0 < |vals|
    ensures Offset(lits, vals, 0) == |lits[0]|
  {
    assert lits[..1] == [lits[0]] && vals[..0] == [];
  }

  /** Value j occurs verbatim at Offset(j), piece j + 1 follows it at once,
      and value j + 1 begins right after that piece. */
  lemma InterleaveAt(lits: seq<string>, vals: seq<string>, j: nat)
    requires |lits| == |vals| + 1 && j < |vals|
    ensures OccursAt(Interleave(lits, vals), vals[j], Offset(lits, vals, j))
    ensures OccursAt(Interleave(lits, vals), lits[j + 1], Offset(lits, vals, j) + |vals[j]|)
    ensures j + 1 < |vals| ==> Offset(lits, vals, j + 1) == Offset(lits, vals, j) + |vals[j]| + |lits[j + 1]|
  {
    var b := Before(lits, vals, j);
    var rest := Interleave(lits[j + 1..], vals[j + 1..]);
    assert Interleave(lits, vals) == b + vals[j] + rest by {
      InterleaveSplit(lits, vals, j);
    }
    assert OccursAt(rest, lits[j + 1], 0) by {
      assert lits[j + 1..][0] == lits[j + 1];
    }
    OccursMiddle(b, vals[j], rest, lits[j + 1]);
    if j + 1 < |vals| {
      BeforeNext(lits, vals, j);
    }
  }

  /** The result closes with the last fixed piece, and the last value stands
      immediately before it. */
  lemma InterleaveEnd(lits: seq<string>, vals: seq<string>)
    requires |lits| == |vals| + 1 && |vals| > 0
    ensures var s, n := Interleave(lits, vals), |vals|;
      OccursAt(s, lits[n], |s| - |lits[n]|) && OccursAt(s, vals[n - 1], |s| - |lits[n]| - |vals[n - 1]|)
    ensures var n := |vals|;
      |Interleave(lits, vals)| == Offset(lits, vals, n - 1) + |vals[n - 1]| + |lits[n]|
  {
    var n := |vals|;
    var b := Before(lits, vals, n - 1);
    assert Interleave(lits, vals) == b + vals[n - 1] + lits[n] by {
      InterleaveSplit(lits, vals, n - 1);
      assert lits[n..] == [lits[n]] && vals[n..] == [];
    }
    OccursLastTwo(b, vals[n - 1], lits[n]);
    assert |b + vals[n - 1] + lits[n]| == |b| + |vals[n - 1]| + |lits[n]|;
  }

  /** In a + b + c, b stands right after a, and whatever opens c right
      after b. */
  lemma OccursMiddle(a: string, b: string, c: string, t: string)
    requires OccursAt(c, t, 0)
    ensures OccursAt(a + b + c, b, |a|)
    ensures OccursAt(a + b + c, t, |a| + |b|)
  {
    OccursRight(a, b);
    OccursExtend(a + b, c, b, |a|);
    OccursShift(a + b, c, t, 0);
  }

  /** In a + b + c, c closes the string and b stands just before it. */
  lemma OccursLastTwo(a: string, b: string, c: string)
    ensures OccursAt(a + b + c, c, |a + b + c| - |c|)
    ensures OccursAt(a + b + c, b, |a + b + c| - |c| - |b|)
  {
    OccursRight(a, b);
    OccursExtend(a + b, c, b, |a|);
    OccursRight(a + b, c);
  }
}
