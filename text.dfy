/** The two string operations the search filter relies on: `toLowerCase`
    (modelled on ASCII letters only) and `includes` (substring test). */
module Text {

  /** `toLowerCase` on one character: maps 'A'..'Z' to 'a'..'z', leaves every other character. */
  function LowerChar(c: char): char
  {
    if 'A' <= c <= 'Z' then (c as int - 'A' as int + 'a' as int) as char else c
  }

  function Lower(s: string): string
  {
    seq(|s|, i requires 0 <= i < |s| => LowerChar(s[i]))
  }

  /** `n` occurs in `h` starting at position `i`. */
  predicate OccursAt(h: string, n: string, i: int)
  {
    0 <= i && i + |n| <= |h| && h[i..i + |n|] == n
  }

  /** `h.includes(n)`: `n` is a prefix of `h` or occurs in its tail. */
  predicate Contains(h: string, n: string)
    decreases |h|
  {
    n <= h || (h != [] && Contains(h[1..], n))
  }

  /** Lower-casing keeps the length, folds exactly the upper-case ASCII letters,
      and leaves no upper-case ASCII letter behind. */
  lemma LowerChars(s: string)
    ensures |Lower(s)| == |s|
    ensures forall i :: 0 <= i < |s| ==> Lower(s)[i] == (if 'A' <= s[i] <= 'Z' then s[i] + ('a' - 'A') as char else s[i])
    ensures forall i :: 0 <= i < |s| ==> !('A' <= Lower(s)[i] <= 'Z')
  {
  }

  /** Lower-casing twice is lower-casing once. */
  lemma LowerIdempotent(s: string)
    ensures Lower(Lower(s)) == Lower(s)
  {
  }

  /** Only the empty string lower-cases to the empty string. */
  lemma LowerEmpty(s: string)
    ensures Lower(s) == [] <==> s == []
  {
  }

  /** `includes` holds exactly when the needle occurs at some position. */
  lemma ContainsIffOccurs(h: string, n: string)
    ensures Contains(h, n) <==> exists i :: OccursAt(h, n, i)
  {
    if Contains(h, n) {
      var i := ContainsWitness(h, n);
    }
    if i :| OccursAt(h, n, i) {
      OccursContains(h, n, i);
    }
  }

  /** A position where a contained needle occurs. */
  lemma {:induction false} ContainsWitness(h: string, n: string) returns (i: int)
    requires Contains(h, n)
    ensures OccursAt(h, n, i)
    decreases |h|
  {
    if n <= h {
      i := 0;
    } else {
      var j := ContainsWitness(h[1..], n);
      assert h[1..][j..j + |n|] == h[j + 1..j + 1 + |n|];
      i := j + 1;
    }
  }

  /** A needle that occurs at some position is contained. */
  lemma {:induction false} OccursContains(h: string, n: string, i: int)
    requires OccursAt(h, n, i)
    ensures Contains(h, n)
    decreases |h|
  {
    if i > 0 {
      assert h[1..][i - 1..i - 1 + |n|] == h[i..i + |n|];
      OccursContains(h[1..], n, i - 1);
    }
  }
}
