/** Sequences: concatenation, removal, and sums of their elements. */
module Sums {
  lemma ConcatAssoc<T>(a: seq<T>, b: seq<T>, c: seq<T>)
    ensures a + (b + c) == a + b + c
  {
  }

  function Sum(s: seq<int>): int {
    if s == [] then 0 else s[0] + Sum(s[1..])
  }

  lemma {:induction false} SumUpdate(s: seq<int>, i: nat, v: int)
    requires i < |s|
    ensures Sum(s[i := v]) == Sum(s) - s[i] + v
  {
    if i == 0 {
      assert s[i := v][1..] == s[1..];
    } else {
      SumUpdate(s[1..], i - 1, v);
      assert s[i := v][1..] == s[1..][i - 1 := v];
    }
  }

  lemma {:induction false} SumAppend(s: seq<int>, t: seq<int>)
    ensures Sum(s + t) == Sum(s) + Sum(t)
  {
    if s == [] {
      assert s + t == t;
    } else {
      SumAppend(s[1..], t);
      assert (s + t)[1..] == s[1..] + t;
    }
  }

  /** A list without its i-th element. */
  function Without<T>(s: seq<T>, i: nat): seq<T>
    requires i < |s|
  {
    s[..i] + s[i + 1..]
  }

  lemma SumWithout(s: seq<int>, i: nat)
    requires i < |s|
    ensures Sum(Without(s, i)) == Sum(s) - s[i]
  {
    SumAppend(s[..i], s[i..]);
    assert s == s[..i] + s[i..];
    SumAppend(s[..i], s[i + 1..]);
    assert s[i..][1..] == s[i + 1..];
  }

  /** Everything held in a sequence of bags. */
  function Pool<T>(s: seq<multiset<T>>): multiset<T> {
    if s == [] then multiset{} else s[0] + Pool(s[1..])
  }

  lemma {:induction false} PoolUpdate<T>(s: seq<multiset<T>>, i: nat, b: multiset<T>)
    requires i < |s|
    ensures Pool(s[i := b]) + s[i] == Pool(s) + b
  {
    if i == 0 {
      assert s[i := b][1..] == s[1..];
    } else {
      PoolUpdate(s[1..], i - 1, b);
      assert s[i := b][1..] == s[1..][i - 1 := b];
      var rest, rest' := Pool(s[1..]), Pool(s[1..][i - 1 := b]);
      assert s[0] + rest' + s[i] == s[0] + (rest' + s[i]) == s[0] + (rest + b) == s[0] + rest + b;
    }
  }
}
