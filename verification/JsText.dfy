/** White space and trimming as JavaScript has them. */
module JsText {
  /** The characters that `\s` matches and `trim` removes. */
  predicate IsBlank(c: char) {
    c == ' ' || '\t' <= c <= '\r' || c == '\U{a0}' || c == '\U{2028}' || c == '\U{2029}' || c == '\U{feff}'
  }

  lemma Blanks(c: char)
    ensures IsBlank(c) <==> c in {' ', '\t', '\n', '\U{b}', '\U{c}', '\r', '\U{a0}', '\U{2028}', '\U{2029}', '\U{feff}'}
  {
  }

  predicate NoBlank(s: string) {
    forall i :: 0 <= i < |s| ==> !IsBlank(s[i])
  }

  function Trim(s: string): string {
    if s != "" && IsBlank(s[0]) then Trim(s[1..])
    else if s != "" && IsBlank(s[|s| - 1]) then Trim(s[..|s| - 1])
    else s
  }

  lemma TrimNothing(s: string)
    requires s == "" || (!IsBlank(s[0]) && !IsBlank(s[|s| - 1]))
    ensures Trim(s) == s
  {
  }

  predicate AllBlank(s: string) {
    forall i :: 0 <= i < |s| ==> IsBlank(s[i])
  }

  /** White space around a text that has none at its ends comes off on both sides. */
  lemma {:induction false} TrimAround(before: string, s: string, after: string)
    requires AllBlank(before) && AllBlank(after)
    requires s == "" || (!IsBlank(s[0]) && !IsBlank(s[|s| - 1]))
    ensures Trim(before + s + after) == s
    decreases |before| + |after|
  {
    var all := before + s + after;
    if before != "" {
      assert all[1..] == before[1..] + s + after;
      TrimAround(before[1..], s, after);
    } else if after != "" {
      TrimBehind(s, after);
      assert all == s + after;
    } else {
      assert all == s;
    }
  }

  lemma {:induction false} TrimBehind(s: string, after: string)
    requires AllBlank(after) && (s == "" || (!IsBlank(s[0]) && !IsBlank(s[|s| - 1])))
    ensures Trim(s + after) == s
  {
    if after == "" {
      assert s + after == s;
    } else if s == "" {
      assert (s + after)[1..] == s + after[1..];
      TrimBehind(s, after[1..]);
    } else {
      assert (s + after)[..|s + after| - 1] == s + after[..|after| - 1];
      TrimBehind(s, after[..|after| - 1]);
    }
  }

  /** `toUpperCase` on the letters A to Z. */
  function Upper(s: string): string {
    seq(|s|, i requires 0 <= i < |s| => if 'a' <= s[i] <= 'z' then (s[i] as int - 32) as char else s[i])
  }
}
