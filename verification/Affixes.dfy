/**
 `until_common_prefix` and `after_common_suffix`: the text before the first
 occurrence of what two strings share in front, and the text after the last
 occurrence of what they share behind.
 */
module Affixes {
  import opened Sequences

  function Rev(s: string): (r: string)
    ensures |r| == |s|
    ensures forall i {:trigger r[i]} :: 0 <= i < |s| ==> r[i] == s[|s| - 1 - i]
  {
    seq(|s|, i requires 0 <= i < |s| => s[|s| - 1 - i])
  }

  predicate OccursAt(full: string, pat: string, pos: int) {
    0 <= pos && pos + |pat| <= |full| && full[pos..pos + |pat|] == pat
  }

  /** `full.find(pat)`: the first occurrence from `from` on, -1 without one. */
  function Find(full: string, pat: string, from: nat): (p: int)
    ensures p == -1 || (from <= p && OccursAt(full, pat, p))
    ensures forall q :: from <= q && OccursAt(full, pat, q) ==> 0 <= p <= q
    decreases |full| - from
  {
    if from + |pat| > |full| then -1
    else if OccursAt(full, pat, from) then from
    else if from == |full| then -1
    else Find(full, pat, from + 1)
  }

  /** `full.rfind(pat)`: the last occurrence up to `upto`, -1 without one. */
  function RFind(full: string, pat: string, upto: int): (p: int)
    ensures p == -1 || (p <= upto && OccursAt(full, pat, p))
    ensures forall q :: q <= upto && OccursAt(full, pat, q) ==> q <= p
    decreases upto
  {
    if upto < 0 then -1
    else if OccursAt(full, pat, upto) then upto
    else RFind(full, pat, upto - 1)
  }

  function Until(full: string, left: string, right: string): string {
    var n := CommonPrefix(left, right);
    var p := Find(full, left[..n], 0);
    if n == 0 || p == -1 then "" else full[..p]
  }

  function After(full: string, left: string, right: string): string {
    var n := CommonSuffix(left, right);
    var p := RFind(full, left[|left| - n..], |full|);
    if n == 0 || p == -1 then "" else full[p + n..]
  }

  method UntilCommonPrefix(full: string, left: string, right: string) returns (r: string)
    ensures r == Until(full, left, right)
  {
    var n := CommonPrefixLength(left, right);
    if n == 0 {
      return "";
    }
    var pos := Find(full, left[..n], 0);
    if pos == -1 {
      return "";
    }
    return full[..pos];
  }

  method AfterCommonSuffix(full: string, left: string, right: string) returns (r: string)
    ensures r == After(full, left, right)
  {
    var n := CommonSuffixLength(left, right);
    if n == 0 {
      return "";
    }
    var pos := RFind(full, left[|left| - n..], |full|);
    if pos == -1 {
      return "";
    }
    return full[pos + n..];
  }

  /** An occurrence seen from the other end. */
  lemma OccursReversed(full: string, pat: string, pos: int)
    ensures OccursAt(full, pat, pos) <==> OccursAt(Rev(full), Rev(pat), |full| - |pat| - pos)
  {
    var pos' := |full| - |pat| - pos;
    if 0 <= pos && pos + |pat| <= |full| {
      var cut, cut' := full[pos..pos + |pat|], Rev(full)[pos'..pos' + |pat|];
      assert Rev(cut) == cut';
      if cut == pat { assert cut' == Rev(pat); }
      if cut' == Rev(pat) {
        forall i | 0 <= i < |pat| ensures cut[i] == pat[i] {
          assert cut'[|pat| - 1 - i] == Rev(pat)[|pat| - 1 - i];
        }
      }
    }
  }

  /** The last occurrence is the first one of the reversal. */
  lemma LastIsFirstReversed(full: string, pat: string)
    ensures var p, q := RFind(full, pat, |full|), Find(Rev(full), Rev(pat), 0);
            (p == -1 <==> q == -1) && (p != -1 ==> q == |full| - |pat| - p)
  {
    var p, q := RFind(full, pat, |full|), Find(Rev(full), Rev(pat), 0);
    if p != -1 {
      OccursReversed(full, pat, p);
    }
    if q != -1 {
      OccursReversed(full, pat, |full| - |pat| - q);
    }
  }

  lemma RevPrefix(s: string, n: nat)
    requires n <= |s|
    ensures Rev(s)[..n] == Rev(s[|s| - n..])
    ensures Rev(s[n..]) == Rev(s)[..|s| - n]
  {
  }

  /** What is shared behind is what the reversals share in front. */
  lemma {:induction false} SuffixMirrored(a: string, b: string)
    ensures CommonSuffix(a, b) == CommonPrefix(Rev(a), Rev(b))
    decreases |a|
  {
    if a != [] && b != [] && a[|a| - 1] == b[|b| - 1] {
      SuffixMirrored(a[..|a| - 1], b[..|b| - 1]);
      assert Rev(a)[1..] == Rev(a[..|a| - 1]) && Rev(b)[1..] == Rev(b[..|b| - 1]);
    }
  }

  /** `after_common_suffix` is the mirror image of `until_common_prefix`, on all strings. */
  lemma Mirrored(full: string, left: string, right: string)
    ensures Rev(After(full, left, right)) == Until(Rev(full), Rev(left), Rev(right))
  {
    var n := CommonSuffix(left, right);
    var pat := left[|left| - n..];
    RevPrefix(left, n);
    LastIsFirstReversed(full, pat);
    var p, q := RFind(full, pat, |full|), Find(Rev(full), Rev(pat), 0);
    SuffixMirrored(left, right);
    assert p != -1 ==> 0 <= p && p + n <= |full|;
    hide *;
    AfterIs(full, left, right, n, p);
    UntilIs(Rev(full), Rev(left), Rev(right), n, q, Rev(pat));
    TailReversed(full, n, p, q);
  }

  lemma AfterIs(full: string, left: string, right: string, n: nat, p: int)
    requires n == CommonSuffix(left, right) && p == RFind(full, left[|left| - n..], |full|)
    ensures p != -1 ==> 0 <= p && p + n <= |full|
    ensures After(full, left, right) == if n == 0 || p == -1 then "" else full[p + n..]
  {
    hide RFind, CommonPrefix, CommonSuffix, Rev, OccursAt;
    LastFits(full, left[|left| - n..]);
  }

  lemma LastFits(full: string, pat: string)
    ensures var p := RFind(full, pat, |full|);
            p == -1 || (0 <= p && p + |pat| <= |full|)
  {
    hide RFind;
  }

  lemma UntilIs(full: string, left: string, right: string, n: nat, p: int, pat: string)
    requires n == CommonPrefix(left, right) && pat == left[..n] && p == Find(full, pat, 0)
    ensures p != -1 ==> 0 <= p <= |full|
    ensures Until(full, left, right) == if n == 0 || p == -1 then "" else full[..p]
  {
    hide Find, CommonPrefix, OccursAt;
    FirstFits(full, pat);
  }

  lemma FirstFits(full: string, pat: string)
    ensures var p := Find(full, pat, 0);
            p == -1 || (0 <= p && p + |pat| <= |full|)
  {
    hide Find;
  }

  lemma TailReversed(full: string, n: nat, p: int, q: int)
    requires p == -1 <==> q == -1
    requires p != -1 ==> 0 <= p && p + n <= |full| && q == |full| - n - p
    ensures Rev(if n == 0 || p == -1 then "" else full[p + n..]) == if n == 0 || q == -1 then "" else Rev(full)[..q]
  {
    if n != 0 && p != -1 {
      RevPrefix(full, p + n);
    }
  }

  /** Nothing before the result of `until_common_prefix` starts with the shared prefix. */
  lemma UntilIsFirst(full: string, left: string, right: string, q: int)
    requires OccursAt(full, left[..CommonPrefix(left, right)], q) && CommonPrefix(left, right) > 0
    ensures Until(full, left, right) <= full && |Until(full, left, right)| <= q
    ensures OccursAt(full, left[..CommonPrefix(left, right)], |Until(full, left, right)|)
  {
  }

  /** Nothing shared, or nothing found, gives nothing. */
  lemma UntilNothing(full: string, left: string, right: string)
    requires left == "" || right == "" || left[0] != right[0] || NowhereIn(full, left[..CommonPrefix(left, right)])
    ensures Until(full, left, right) == ""
  {
    if left == "" || right == "" || left[0] != right[0] {
      CommonPrefixIs(left, right, 0);
    } else {
      hide CommonPrefix, Find;
      NotFound(full, left[..CommonPrefix(left, right)]);
    }
  }

  ghost predicate NowhereIn(full: string, pat: string) { forall q :: !OccursAt(full, pat, q) }

  lemma NotFound(full: string, pat: string)
    requires NowhereIn(full, pat)
    ensures Find(full, pat, 0) == -1
  {
    var p := Find(full, pat, 0);
    assert !OccursAt(full, pat, p);
  }
}
