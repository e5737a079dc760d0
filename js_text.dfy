/** The part of JavaScript's `String.prototype.trim` the form relies on:
    removing leading and trailing white space and line terminators. */
module JsText {

  /** White space and line terminators as `trim` understands them:
      TAB, VT, FF, SP, NBSP, ZWNBSP, every space separator (Zs),
      LF, CR, LS and PS. */
  predicate IsTrimmable(c: char)
  {
    c == '\t' || c == '\U{000B}' || c == '\U{000C}' || c == ' ' || c == '\U{00A0}' || c == '\U{FEFF}'
    || c == '\U{1680}' || ('\U{2000}' <= c <= '\U{200A}') || c == '\U{202F}' || c == '\U{205F}' || c == '\U{3000}'
    || c == '\n' || c == '\r' || c == '\U{2028}' || c == '\U{2029}'
  }

  /** Every character of `s` is one that `trim` removes. */
  predicate AllTrimmable(s: string)
  {
    forall i :: 0 <= i < |s| ==> IsTrimmable(s[i])
  }

  /** `s` with its leading trimmable characters removed. */
  function TrimStart(s: string): string
  {
    if |s| > 0 && IsTrimmable(s[0]) then TrimStart(s[1..]) else s
  }

  /** `s` with its trailing trimmable characters removed. */
  function TrimEnd(s: string): string
  {
    if |s| > 0 && IsTrimmable(s[|s| - 1]) then TrimEnd(s[..|s| - 1]) else s
  }

  /** `TrimStart` keeps a suffix of `s` whose first character (if any) is not
      trimmable, and everything it cuts off is trimmable. */
  lemma {:induction false} TrimStartCuts(s: string)
    ensures var r := TrimStart(s);
            && |r| <= |s| && r == s[|s| - |r|..]
            && (forall i :: 0 <= i < |s| - |r| ==> IsTrimmable(s[i]))
            && (r == [] || !IsTrimmable(r[0]))
  {
    if |s| > 0 && IsTrimmable(s[0]) {
      TrimStartCuts(s[1..]);
    }
  }

  /** `TrimEnd` keeps a prefix of `s` whose last character (if any) is not
      trimmable, and everything it cuts off is trimmable. */
  lemma {:induction false} TrimEndCuts(s: string)
    ensures var r := TrimEnd(s);
            && |r| <= |s| && r == s[..|r|]
            && (forall i :: |r| <= i < |s| ==> IsTrimmable(s[i]))
            && (r == [] || !IsTrimmable(r[|r| - 1]))
  {
    if |s| > 0 && IsTrimmable(s[|s| - 1]) {
      TrimEndCuts(s[..|s| - 1]);
    }
  }

  /** `r` is the slice of `s` starting at `k`, and everything of `s` before
      and after that slice is trimmable. */
  predicate TrimmedSlice(s: string, r: string, k: int)
  {
    && 0 <= k <= k + |r| <= |s|
    && r == s[k..k + |r|]
    && AllTrimmable(s[..k])
    && AllTrimmable(s[k + |r|..])
  }

  /** `s.trim()`: no longer than `s`, and neither starting nor ending with
      a trimmable character. */
  function Trim(s: string): (r: string)
    ensures |r| <= |s|
    ensures r == [] || (!IsTrimmable(r[0]) && !IsTrimmable(r[|r| - 1]))
  {
    TrimStartCuts(s);
    TrimEndCuts(TrimStart(s));
    TrimEnd(TrimStart(s))
  }

  /** `s.trim()` is a slice of `s`, and only trimmable characters are cut
      off before and after it. */
  lemma TrimIsSlice(s: string)
    ensures exists k :: TrimmedSlice(s, Trim(s), k)
  {
    var t := TrimStart(s);
    var r := TrimEnd(t);
    var k := |s| - |t|;
    TrimStartCuts(s);
    TrimEndCuts(t);
    assert s[k..k + |r|] == t[..|r|];
    assert forall i :: k + |r| <= i < |s| ==> s[i] == t[i - k];
    assert Trim(s) == r && TrimmedSlice(s, r, k);
  }

  /** `s.trim()` is the empty string, the one falsy string, exactly when
      `s` consists of white space and line terminators only. */
  lemma TrimEmptyIffBlank(s: string)
    ensures Trim(s) == "" <==> AllTrimmable(s)
  {
    var t := TrimStart(s);
    TrimStartCuts(s);
    TrimEndCuts(t);
    if !AllTrimmable(s) {
      // Some character survives the first pass, and it is not trimmable,
      // so the second pass cannot remove it either.
      assert t != [];
      assert t[0] in t[|TrimEnd(t)|..] || TrimEnd(t) != [];
    }
  }
}
