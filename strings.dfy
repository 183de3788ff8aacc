/** The few JavaScript string operations the three functions rely on. */
module Strings {
  import opened Wrappers

  /** `String.prototype.toLowerCase` restricted to the ASCII letters. */
  function LowerChar(c: char): (d: char)
    ensures 'A' <= c <= 'Z' ==> d as int == c as int + 32
    ensures !('A' <= c <= 'Z') ==> d == c
  {
    if 'A' <= c <= 'Z' then (c as int + 32) as char else c
  }

  function ToLower(s: string): (t: string)
    ensures |t| == |s|
    ensures forall i | 0 <= i < |s| :: t[i] == LowerChar(s[i])
  {
    if s == [] then [] else [LowerChar(s[0])] + ToLower(s[1..])
  }

  /** Text without upper-case letters is its own lower-case form. */
  lemma LowerUnchanged(s: string)
    requires forall i | 0 <= i < |s| :: !('A' <= s[i] <= 'Z')
    ensures ToLower(s) == s
  {
    assert forall i | 0 <= i < |s| :: ToLower(s)[i] == s[i];
  }

  /** `pat` occurs in `s` at index `k`. */
  predicate OccursAt(s: string, pat: string, k: nat) {
    k + |pat| <= |s| && s[k..k + |pat|] == pat
  }

  /** The leftmost index `k >= from` at which `pat` occurs in `s` (`indexOf`). */
  function FindFirst(s: string, pat: string, from: nat): (r: Option<nat>)
    requires from <= |s|
    ensures r.Some? ==> from <= r.value && OccursAt(s, pat, r.value)
    ensures r.Some? ==> forall k | from <= k < r.value :: !OccursAt(s, pat, k)
    ensures r.None? ==> forall k | from <= k <= |s| :: !OccursAt(s, pat, k)
    decreases |s| - from
  {
    if OccursAt(s, pat, from) then Some(from)
    else if from == |s| then None
    else FindFirst(s, pat, from + 1)
  }

  /**
   * `s.replace(pat, rep)` with a string pattern: only the leftmost
   * occurrence is replaced, and `s` is returned unchanged without one.
   */
  function ReplaceFirst(s: string, pat: string, rep: string): string {
    match FindFirst(s, pat, 0)
    case None => s
    case Some(k) => s[..k] + rep + s[k + |pat|..]
  }

  /**
   * When the text before the first occurrence cannot start the pattern
   * (it lacks the pattern's first character), the replacement lands
   * exactly there.
   */
  lemma ReplaceAfterPrefix(pre: string, pat: string, post: string, rep: string)
    requires pat != [] && pat[0] !in pre
    ensures ReplaceFirst(pre + pat + post, pat, rep) == pre + rep + post
  {
    var s := pre + pat + post;
    assert OccursAt(s, pat, |pre|);
    forall k | 0 <= k < |pre| ensures !OccursAt(s, pat, k) {
      assert s[k] == pre[k];
    }
    var r := FindFirst(s, pat, 0);
    assert r == Some(|pre|);
    assert s[..|pre|] == pre;
    assert s[|pre| + |pat|..] == post;
  }

  /** The concatenation of `parts`, in order. */
  function Join(parts: seq<string>): string {
    if parts == [] then "" else Join(parts[..|parts| - 1]) + parts[|parts| - 1]
  }

  /** The number of occurrences of `c` in `s`. */
  function CountChar(s: string, c: char): nat {
    if s == [] then 0 else CountChar(s[..|s| - 1], c) + (if s[|s| - 1] == c then 1 else 0)
  }

  lemma {:induction false} CountCharAppend(s: string, t: string, c: char)
    ensures CountChar(s + t, c) == CountChar(s, c) + CountChar(t, c)
    decreases |t|
  {
    if t == [] {
      assert s + t == s;
    } else {
      assert (s + t)[..|s + t| - 1] == s + t[..|t| - 1];
      CountCharAppend(s, t[..|t| - 1], c);
    }
  }
}
