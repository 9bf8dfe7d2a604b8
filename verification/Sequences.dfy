/** What the other modules share about sequences. */
module Sequences {

  lemma Assoc<T>(a: seq<T>, b: seq<T>, c: seq<T>)
    ensures a + (b + c) == (a + b) + c
  {
  }

  /** How far two sequences agree. */
  function CommonPrefix<T(==)>(a: seq<T>, b: seq<T>): (n: nat)
    ensures n <= |a| && n <= |b|
    ensures a[..n] == b[..n]
    ensures n < |a| && n < |b| ==> a[n] != b[n]
  {
    if a == [] || b == [] || a[0] != b[0] then 0
    else
      assert a == [a[0]] + a[1..] && b == [b[0]] + b[1..];
      1 + CommonPrefix(a[1..], b[1..])
  }

  /** A common prefix that cannot be extended is the longest one. */
  lemma CommonPrefixIs<T>(a: seq<T>, b: seq<T>, n: nat)
    requires n <= |a| && n <= |b| && a[..n] == b[..n]
    requires n < |a| && n < |b| ==> a[n] != b[n]
    ensures n == CommonPrefix(a, b)
  {
    var m := CommonPrefix(a, b);
    assert forall i :: 0 <= i < n ==> a[..n][i] == b[..n][i];
    assert forall i :: 0 <= i < m ==> a[..m][i] == b[..m][i];
  }

  /** How far two sequences agree from behind. */
  function CommonSuffix<T(==)>(a: seq<T>, b: seq<T>): (n: nat)
    ensures n <= |a| && n <= |b|
  {
    if a == [] || b == [] || a[|a| - 1] != b[|b| - 1] then 0
    else 1 + CommonSuffix(a[..|a| - 1], b[..|b| - 1])
  }

  /** The last n elements, peeled off one by one. */
  lemma SuffixSnoc<T>(a: seq<T>, n: nat)
    requires n < |a|
    ensures a[|a| - (n + 1)..] == a[..|a| - 1][|a| - 1 - n..] + [a[|a| - 1]]
  {
  }

  lemma {:induction false} SuffixShared<T>(a: seq<T>, b: seq<T>)
    ensures var n := CommonSuffix(a, b);
            a[|a| - n..] == b[|b| - n..]
  {
    if a == [] || b == [] || a[|a| - 1] != b[|b| - 1] {
    } else {
      var m := CommonSuffix(a[..|a| - 1], b[..|b| - 1]);
      SuffixShared(a[..|a| - 1], b[..|b| - 1]);
      SuffixSnoc(a, m);
      SuffixSnoc(b, m);
    }
  }

  /** The shared suffix goes as far as it can. */
  lemma {:induction false} SuffixEnds<T>(a: seq<T>, b: seq<T>)
    ensures var n := CommonSuffix(a, b);
            n < |a| && n < |b| ==> a[|a| - 1 - n] != b[|b| - 1 - n]
  {
    if a != [] && b != [] && a[|a| - 1] == b[|b| - 1] {
      SuffixEnds(a[..|a| - 1], b[..|b| - 1]);
    }
  }

  lemma FromBehind<T>(a: seq<T>, b: seq<T>, n: nat)
    requires n <= |a| && n <= |b| && a[|a| - n..] == b[|b| - n..]
    ensures forall j :: |a| - n <= j < |a| ==> a[j] == b[j + |b| - |a|]
  {
    forall j | |a| - n <= j < |a|
      ensures a[j] == b[j + |b| - |a|]
    {
      assert a[|a| - n..][j - (|a| - n)] == b[|b| - n..][j - (|a| - n)];
    }
  }

  /** A shared suffix that cannot be extended is the longest one. */
  lemma CommonSuffixIs<T>(a: seq<T>, b: seq<T>, n: nat)
    requires n <= |a| && n <= |b| && a[|a| - n..] == b[|b| - n..]
    requires n < |a| && n < |b| ==> a[|a| - 1 - n] != b[|b| - 1 - n]
    ensures n == CommonSuffix(a, b)
  {
    hide CommonSuffix;
    FromBehind(a, b, n);
    SuffixShared(a, b);
    FromBehind(a, b, CommonSuffix(a, b));
    SuffixEnds(a, b);
  }

  /** Counting from the front. */
  method CommonPrefixLength<T(==)>(left: seq<T>, right: seq<T>) returns (n: nat)
    ensures n == CommonPrefix(left, right)
  {
    n := 0;
    var minLen := if |left| < |right| then |left| else |right|;
    while n < minLen && left[n] == right[n]
      invariant n <= minLen && left[..n] == right[..n]
    {
      n := n + 1;
    }
    CommonPrefixIs(left, right, n);
  }

  /** Counting from behind. */
  method CommonSuffixLength<T(==)>(left: seq<T>, right: seq<T>) returns (n: nat)
    ensures n == CommonSuffix(left, right)
  {
    n := 0;
    var minLen := if |left| < |right| then |left| else |right|;
    assert left[..|left|] == left && right[..|right|] == right;
    while n < minLen && left[|left| - 1 - n] == right[|right| - 1 - n]
      invariant n <= minLen
      invariant CommonSuffix(left, right) == n + CommonSuffix(left[..|left| - n], right[..|right| - n])
    {
      PeelOne(left, right, n);
      n := n + 1;
    }
  }

  lemma PeelOne<T>(a: seq<T>, b: seq<T>, n: nat)
    requires n < |a| && n < |b| && a[|a| - 1 - n] == b[|b| - 1 - n]
    ensures CommonSuffix(a[..|a| - n], b[..|b| - n]) == 1 + CommonSuffix(a[..|a| - (n + 1)], b[..|b| - (n + 1)])
  {
    var a', b' := a[..|a| - n], b[..|b| - n];
    assert a'[..|a'| - 1] == a[..|a| - (n + 1)] && b'[..|b'| - 1] == b[..|b| - (n + 1)];
  }
}
