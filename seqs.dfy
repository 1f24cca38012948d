/** Sequence combinators that mirror the array methods the storefront uses:
    `Keep` is `Array.prototype.filter`, `FoldLeft` is `Array.prototype.reduce`
    with an initial value, and `Sum` is the plain mathematical sum that the
    folds are proved to compute. */
module Seqs {

  /** The elements of `s` that satisfy `f`, in their original order. */
  function Keep<T>(s: seq<T>, f: T -> bool): (r: seq<T>)
    ensures |r| <= |s|
  {
    if s == [] then []
    else if f(s[0]) then [s[0]] + Keep(s[1..], f)
    else Keep(s[1..], f)
  }

  /** `a` can be obtained from `b` by deleting elements, without reordering. */
  predicate IsSubsequence<T(==)>(a: seq<T>, b: seq<T>)
    decreases |b|
  {
    if a == [] then true
    else if b == [] then false
    else (a[0] == b[0] && IsSubsequence(a[1..], b[1..])) || IsSubsequence(a, b[1..])
  }

  /** Left fold with an accumulator, as `reduce(f, acc)` does. */
  function FoldLeft<T>(f: (int, T) -> int, acc: int, s: seq<T>): int
    decreases |s|
  {
    if s == [] then acc else FoldLeft(f, f(acc, s[0]), s[1..])
  }

  /** The sum of `g` over the elements of `s`. */
  function Sum<T>(s: seq<T>, g: T -> int): int
    decreases |s|
  {
    if s == [] then 0 else g(s[0]) + Sum(s[1..], g)
  }

  lemma {:induction false} KeepIsSubsequence<T>(s: seq<T>, f: T -> bool)
    ensures IsSubsequence(Keep(s, f), s)
    decreases |s|
  {
    if s != [] {
      KeepIsSubsequence(s[1..], f);
      if f(s[0]) {
        var r := Keep(s, f);
        assert r[0] == s[0] && r[1..] == Keep(s[1..], f);
      } else {
        SubsequenceDropsHead(Keep(s[1..], f), s);
      }
    }
  }

  lemma SubsequenceDropsHead<T>(a: seq<T>, b: seq<T>)
    requires b != [] && IsSubsequence(a, b[1..])
    ensures IsSubsequence(a, b)
  {
  }

  /** Membership in a filtered sequence, both directions. */
  lemma {:induction false} KeepMembership<T>(s: seq<T>, f: T -> bool, x: T)
    ensures x in Keep(s, f) <==> x in s && f(x)
    decreases |s|
  {
    if s != [] {
      KeepMembership(s[1..], f, x);
      assert s == [s[0]] + s[1..];
    }
  }

  /** Filtering distributes over concatenation. */
  lemma {:induction false} KeepAppend<T>(a: seq<T>, b: seq<T>, f: T -> bool)
    ensures Keep(a + b, f) == Keep(a, f) + Keep(b, f)
    decreases |a|
  {
    if a == [] {
      assert a + b == b;
    } else {
      assert (a + b)[0] == a[0];
      assert (a + b)[1..] == a[1..] + b;
      KeepAppend(a[1..], b, f);
    }
  }

  /** A filter that every element passes changes nothing. */
  lemma {:induction false} KeepAll<T>(s: seq<T>, f: T -> bool)
    requires forall i :: 0 <= i < |s| ==> f(s[i])
    ensures Keep(s, f) == s
    decreases |s|
  {
    if s != [] {
      KeepAll(s[1..], f);
    }
  }

  /** Two predicates that agree on the elements of `s` filter it alike. */
  lemma {:induction false} KeepCongruent<T>(s: seq<T>, f: T -> bool, g: T -> bool)
    requires forall i :: 0 <= i < |s| ==> f(s[i]) == g(s[i])
    ensures Keep(s, f) == Keep(s, g)
    decreases |s|
  {
    if s != [] {
      KeepCongruent(s[1..], f, g);
    }
  }

  /** Two filters in a row are one filter by the conjunction. */
  lemma {:induction false} KeepTwice<T>(s: seq<T>, f: T -> bool, g: T -> bool, h: T -> bool)
    requires forall i :: 0 <= i < |s| ==> h(s[i]) == (f(s[i]) && g(s[i]))
    ensures Keep(Keep(s, f), g) == Keep(s, h)
    decreases |s|
  {
    if s != [] {
      KeepTwice(s[1..], f, g, h);
      if f(s[0]) {
        assert Keep(s, f) == [s[0]] + Keep(s[1..], f);
        assert Keep(s, f)[0] == s[0] && Keep(s, f)[1..] == Keep(s[1..], f);
      }
    }
  }

  /** `reduce((acc, x) => acc + g(x), acc0)` is `acc0` plus the sum of `g`. */
  lemma {:induction false} FoldLeftIsSum<T>(f: (int, T) -> int, g: T -> int, acc: int, s: seq<T>)
    requires forall a: int, x: T :: f(a, x) == a + g(x)
    ensures FoldLeft(f, acc, s) == acc + Sum(s, g)
    decreases |s|
  {
    if s != [] {
      FoldLeftIsSum(f, g, f(acc, s[0]), s[1..]);
    }
  }

  lemma {:induction false} SumAppend<T>(a: seq<T>, b: seq<T>, g: T -> int)
    ensures Sum(a + b, g) == Sum(a, g) + Sum(b, g)
    decreases |a|
  {
    if a == [] {
      assert a + b == b;
    } else {
      assert (a + b)[0] == a[0];
      assert (a + b)[1..] == a[1..] + b;
      SumAppend(a[1..], b, g);
    }
  }

  /** Replacing one element changes the sum by the difference of its terms. */
  lemma SumUpdate<T>(s: seq<T>, k: nat, x: T, g: T -> int)
    requires k < |s|
    ensures Sum(s[k := x], g) == Sum(s, g) - g(s[k]) + g(x)
  {
    assert s == s[..k] + [s[k]] + s[k+1..];
    assert s[k := x] == s[..k] + [x] + s[k+1..];
    SumAppend(s[..k] + [s[k]], s[k+1..], g);
    SumAppend(s[..k], [s[k]], g);
    SumAppend(s[..k] + [x], s[k+1..], g);
    SumAppend(s[..k], [x], g);
  }

  /** Filtering a sequence in which only position `k` fails removes position `k`. */
  lemma {:induction false} KeepRemovesOne<T>(s: seq<T>, k: nat, f: T -> bool)
    requires k < |s| && !f(s[k])
    requires forall i :: 0 <= i < |s| && i != k ==> f(s[i])
    ensures Keep(s, f) == s[..k] + s[k+1..]
  {
    var front, back := s[..k], s[k+1..];
    assert forall i :: 0 <= i < |front| ==> f(front[i]);
    assert forall i :: 0 <= i < |back| ==> f(back[i]) by {
      forall i | 0 <= i < |back| ensures f(back[i]) {
        assert back[i] == s[k + 1 + i];
      }
    }
    KeepAll(front, f);
    KeepAll(back, f);
    KeepDropsHead(s[k..], f);
    assert s[k..][1..] == back;
    assert s == front + s[k..];
    KeepAppend(front, s[k..], f);
  }

  /** A failing head is dropped by the filter. */
  lemma KeepDropsHead<T>(s: seq<T>, f: T -> bool)
    requires s != [] && !f(s[0])
    ensures Keep(s, f) == Keep(s[1..], f)
  {
  }

  /** Removing position `k` takes its term off the sum. */
  lemma SumRemove<T>(s: seq<T>, k: nat, g: T -> int)
    requires k < |s|
    ensures Sum(s[..k] + s[k+1..], g) == Sum(s, g) - g(s[k])
  {
    var front, back := s[..k], s[k+1..];
    assert s == front + [s[k]] + back;
    SumAppend(front + [s[k]], back, g);
    SumAppend(front, [s[k]], g);
    SumAppend(front, back, g);
  }
}
