/**
 * The few functions of Go's `strings` package that the core relies on,
 * each given by a recursive definition and an explicit contract that
 * characterises its result.
 */
module GoStrings {
  import opened Wrappers

  /** `sub` occurs in `s` starting at index `i`. */
  predicate OccursAt(s: string, sub: string, i: int)
  {
    0 <= i && i + |sub| <= |s| && s[i..i + |sub|] == sub
  }

  /** `strings.Contains(s, sub)`. */
  function Contains(s: string, sub: string): (r: bool)
    ensures r <==> exists i :: OccursAt(s, sub, i)
    decreases |s|
  {
    if sub <= s then
      assert OccursAt(s, sub, 0);
      true
    else if |s| == 0 then
      false
    else
      var r := Contains(s[1..], sub);
      assert r ==> exists i :: OccursAt(s, sub, i) by {
        if r {
          var j :| OccursAt(s[1..], sub, j);
          assert s[j + 1..j + 1 + |sub|] == s[1..][j..j + |sub|];
          assert OccursAt(s, sub, j + 1);
        }
      }
      assert (exists i :: OccursAt(s, sub, i)) ==> r by {
        if exists i :: OccursAt(s, sub, i) {
          var i :| OccursAt(s, sub, i);
          assert i != 0;
          assert s[1..][i - 1..i - 1 + |sub|] == s[i..i + |sub|];
          assert OccursAt(s[1..], sub, i - 1);
        }
      }
      r
  }

  /** `strings.LastIndex(s, string([c]))`: the last index holding `c`, or -1. */
  function LastIndex(s: string, c: char): (r: int)
    ensures -1 <= r < |s|
    ensures r >= 0 ==> s[r] == c
    ensures forall j :: r < j < |s| ==> s[j] != c
  {
    if |s| == 0 then -1
    else if s[|s| - 1] == c then |s| - 1
    else LastIndex(s[..|s| - 1], c)
  }

  /** `strings.Split(s, sep)[0]`: the text before the first `sep`, or all of `s`. */
  function SplitFirst(s: string, sep: string): (r: string)
    requires sep != []
    ensures r <= s
    ensures forall i :: 0 <= i < |r| ==> !OccursAt(s, sep, i)
    ensures r == s || OccursAt(s, sep, |r|)
    decreases |s|
  {
    if sep <= s then
      assert OccursAt(s, sep, 0);
      []
    else if |s| == 0 then
      []
    else
      var rest := SplitFirst(s[1..], sep);
      assert forall i :: 1 <= i <= |rest| && OccursAt(s, sep, i) ==> OccursAt(s[1..], sep, i - 1) by {
        forall i | 1 <= i <= |rest| && OccursAt(s, sep, i)
          ensures OccursAt(s[1..], sep, i - 1)
        {
          assert s[1..][i - 1..i - 1 + |sep|] == s[i..i + |sep|];
        }
      }
      assert OccursAt(s[1..], sep, |rest|) ==> OccursAt(s, sep, |rest| + 1) by {
        if OccursAt(s[1..], sep, |rest|) {
          assert s[1..][|rest|..|rest| + |sep|] == s[|rest| + 1..|rest| + 1 + |sep|];
        }
      }
      [s[0]] + rest
  }

  /** The three facts of `SplitFirst`'s contract pin its result down. */
  lemma SplitFirstUnique(s: string, sep: string, p: string)
    requires sep != [] && p <= s
    requires forall i :: 0 <= i < |p| ==> !OccursAt(s, sep, i)
    requires p == s || OccursAt(s, sep, |p|)
    ensures SplitFirst(s, sep) == p
  {
    var r := SplitFirst(s, sep);
    assert |r| == |p|;
  }

  /**
   * The text before the first `c`, or all of `s`: what `strings.Cut`
   * and `strings.IndexByte` leave in front of a one-character separator.
   */
  function BeforeChar(s: string, c: char): (r: string)
    ensures r <= s
    ensures c !in r
    ensures r == s || s[|r|] == c
  {
    if |s| == 0 then []
    else if s[0] == c then []
    else [s[0]] + BeforeChar(s[1..], c)
  }

  /** Cutting before `c` skips over a prefix that holds no `c`. */
  lemma {:induction false} BeforeCharSkips(a: string, b: string, c: char)
    requires c !in a
    ensures BeforeChar(a + b, c) == a + BeforeChar(b, c)
  {
    if a != [] {
      assert (a + b)[1..] == a[1..] + b;
      BeforeCharSkips(a[1..], b, c);
    } else {
      assert a + b == b;
    }
  }

  /** A text holding no `c` is left whole. */
  lemma {:induction false} BeforeCharAbsent(s: string, c: char)
    requires c !in s
    ensures BeforeChar(s, c) == s
  {
    if s != [] {
      BeforeCharAbsent(s[1..], c);
    }
  }

  /**
   * `strings.CutPrefix` then `strings.CutSuffix`: the text between a
   * known head and a known tail, when `s` has both.
   */
  function Between(s: string, head: string, tail: string): (r: Option<string>)
    ensures r.Some? ==> s == head + r.value + tail
  {
    if head <= s && |head| + |tail| <= |s| && s[|s| - |tail|..] == tail then
      var mid := s[|head|..|s| - |tail|];
      assert s == s[..|head|] + mid + s[|s| - |tail|..];
      Some(mid)
    else
      None
  }

  /** Whatever is framed by a head and a tail is recovered by `Between`. */
  lemma BetweenFramed(head: string, mid: string, tail: string)
    ensures Between(head + mid + tail, head, tail) == Some(mid)
  {
    var s := head + mid + tail;
    assert s[..|head|] == head;
    assert s[|s| - |tail|..] == tail;
    assert s[|head|..|s| - |tail|] == mid;
  }

  /** Equal texts with a common head are equal after it. */
  lemma CancelHead(h: string, x: string, y: string)
    requires h + x == h + y
    ensures x == y
  {
    assert x == (h + x)[|h|..];
    assert y == (h + y)[|h|..];
  }
}
