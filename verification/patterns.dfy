/** The pieces of ECMAScript regular-expression matching the bot's command patterns use:
    the `\s`, `\S` and `.` character classes, greedy repetition, and the leftmost-position
    search that `RegExp.prototype.exec` performs on an unanchored pattern. */
module Patterns {
  import opened Wrappers

  /** The `\s` class: ECMAScript WhiteSpace and LineTerminator code points. */
  predicate IsSpace(c: char) {
    || c == '\t' || c == '\n' || c == '\U{000B}' || c == '\U{000C}' || c == '\r' || c == ' '
    || c == '\U{00A0}' || c == '\U{1680}' || ('\U{2000}' <= c <= '\U{200A}')
    || c == '\U{2028}' || c == '\U{2029}' || c == '\U{202F}' || c == '\U{205F}'
    || c == '\U{3000}' || c == '\U{FEFF}'
  }

  /** The LineTerminator code points, which `.` does not match (no `s` flag). */
  predicate IsBreak(c: char) {
    c == '\n' || c == '\r' || c == '\U{2028}' || c == '\U{2029}'
  }

  /** A half-open range `[start, end)` of a message text; the extent of one capture group. */
  datatype Span = Span(start: nat, end: nat)

  /** The text a span captures. */
  function Slice(t: string, sp: Span): string
    requires sp.start <= sp.end <= |t|
  {
    t[sp.start..sp.end]
  }

  /** `t[i..j]` is matched by `\s*`. */
  ghost predicate AllSpace(t: string, i: nat, j: nat)
    requires i <= j <= |t|
  {
    forall k :: i <= k < j ==> IsSpace(t[k])
  }

  /** `t[i..j]` is matched by `\S*`. */
  ghost predicate NoSpace(t: string, i: nat, j: nat)
    requires i <= j <= |t|
  {
    forall k :: i <= k < j ==> !IsSpace(t[k])
  }

  /** `t[i..j]` is matched by `.*`. */
  ghost predicate NoBreak(t: string, i: nat, j: nat)
    requires i <= j <= |t|
  {
    forall k :: i <= k < j ==> !IsBreak(t[k])
  }

  /** Greedy `\s*` from `i`: the end of the whitespace run starting there. */
  function SkipSpaces(t: string, i: nat): (r: nat)
    requires i <= |t|
    ensures i <= r <= |t|
    ensures AllSpace(t, i, r)
    ensures r == |t| || !IsSpace(t[r])
    decreases |t| - i
  {
    if i == |t| || !IsSpace(t[i]) then i else SkipSpaces(t, i + 1)
  }

  /** Greedy `\S*` from `i`: the end of the token starting there. */
  function TokenEnd(t: string, i: nat): (r: nat)
    requires i <= |t|
    ensures i <= r <= |t|
    ensures NoSpace(t, i, r)
    ensures r == |t| || IsSpace(t[r])
    decreases |t| - i
  {
    if i == |t| || IsSpace(t[i]) then i else TokenEnd(t, i + 1)
  }

  /** Greedy `.*` from `i`: the end of the line starting there. */
  function LineEnd(t: string, i: nat): (r: nat)
    requires i <= |t|
    ensures i <= r <= |t|
    ensures NoBreak(t, i, r)
    ensures r == |t| || IsBreak(t[r])
    decreases |t| - i
  {
    if i == |t| || IsBreak(t[i]) then i else LineEnd(t, i + 1)
  }

  /** A run of spaces can only end where the text ends or at a non-space: given such an
      end `j`, greedy `\s*` from `i` stops exactly there. */
  lemma {:induction false} SkipSpacesAt(t: string, i: nat, j: nat)
    requires i <= j <= |t|
    requires AllSpace(t, i, j)
    requires j == |t| || !IsSpace(t[j])
    ensures SkipSpaces(t, i) == j
    decreases j - i
  {
    if i < j {
      SkipSpacesAt(t, i + 1, j);
    }
  }

  /** Greedy `\s*` from `i` runs at least to the end of any whitespace range starting at `i`. */
  lemma {:induction false} SkipSpacesPast(t: string, i: nat, j: nat)
    requires i <= j <= |t|
    requires AllSpace(t, i, j)
    ensures j <= SkipSpaces(t, i)
    decreases j - i
  {
    if i < j {
      assert IsSpace(t[i]);
      SkipSpacesPast(t, i + 1, j);
    }
  }

  /** Likewise for a token: greedy `\S*` from `i` stops at the first space. */
  lemma {:induction false} TokenEndAt(t: string, i: nat, j: nat)
    requires i <= j <= |t|
    requires NoSpace(t, i, j)
    requires j == |t| || IsSpace(t[j])
    ensures TokenEnd(t, i) == j
    decreases j - i
  {
    if i < j {
      TokenEndAt(t, i + 1, j);
    }
  }

  /** Likewise for a line: greedy `.*` from `i` stops at the first line terminator. */
  lemma {:induction false} LineEndAt(t: string, i: nat, j: nat)
    requires i <= j <= |t|
    requires NoBreak(t, i, j)
    requires j == |t| || IsBreak(t[j])
    ensures LineEnd(t, i) == j
    decreases j - i
  {
    if i < j {
      LineEndAt(t, i + 1, j);
    }
  }

  /** The last position in `[lo, hi)` that `.` can match, searching downwards; this is the
      order in which backtracking gives characters back from a greedy `\s+`. */
  function LastNonBreak(t: string, lo: nat, hi: nat): (r: Option<nat>)
    requires lo <= hi <= |t|
    ensures r.Some? ==> lo <= r.value < hi && !IsBreak(t[r.value])
    ensures r.None? ==> forall k :: lo <= k < hi ==> IsBreak(t[k])
    ensures r.Some? ==> forall k :: r.value < k < hi ==> IsBreak(t[k])
    decreases hi - lo
  {
    if hi == lo then None
    else if !IsBreak(t[hi - 1]) then Some(hi - 1)
    else LastNonBreak(t, lo, hi - 1)
  }

  /** `sp` is one way for `\s+(.+)` to match at `i` with the group taking `sp`. */
  ghost predicate LineGroup(t: string, i: nat, sp: Span) {
    && i < sp.start < sp.end <= |t|
    && AllSpace(t, i, sp.start)
    && NoBreak(t, sp.start, sp.end)
  }

  /** Of all the ways `\s+(.+)` can match at `i`, `sp` is the one a backtracking matcher
      takes when the pattern ends there: the group starts as late as possible (the longest
      `\s+` that still leaves something for `.+`) and then runs to the end of the line. */
  ghost predicate GreedyLine(t: string, i: nat, sp: Span) {
    && LineGroup(t, i, sp)
    && (sp.end == |t| || IsBreak(t[sp.end]))
    && forall c :: sp.start < c < |t| && AllSpace(t, i, c) ==> IsBreak(t[c])
  }

  /** `\s+(.+)` tried at position `i`, at the end of a pattern: the span of the group. */
  function SpaceLine(t: string, i: nat): (r: Option<Span>)
    requires i <= |t|
    ensures r.Some? ==> GreedyLine(t, i, r.value)
  {
    if i == |t| || !IsSpace(t[i]) then None
    else
      var e := SkipSpaces(t, i);
      if e < |t| then
        Some(Span(e, LineEnd(t, e)))
      else
        match LastNonBreak(t, i + 1, |t|)
        case None => None
        case Some(k) => Some(Span(k, LineEnd(t, k)))
  }

  /** `SpaceLine` misses no match: whenever `\s+(.+)` can match at `i` at all, it reports
      a match, and none that starts its group later than the one it reports. */
  lemma SpaceLineComplete(t: string, i: nat, sp: Span)
    requires LineGroup(t, i, sp)
    ensures SpaceLine(t, i).Some?
    ensures sp.start <= SpaceLine(t, i).value.start
  {
    var e := SkipSpaces(t, i);
    SkipSpacesPast(t, i, sp.start);
    if e == |t| {
      assert !IsBreak(t[sp.start]);
      var r := LastNonBreak(t, i + 1, |t|);
      assert r.Some? && sp.start <= r.value;
    }
  }

  /** When `SpaceLine` reports nothing, `\s+(.+)` cannot match at `i` in any way. */
  lemma SpaceLineNone(t: string, i: nat)
    requires i <= |t|
    requires SpaceLine(t, i).None?
    ensures forall sp :: !LineGroup(t, i, sp)
  {
    forall sp | LineGroup(t, i, sp)
      ensures false
    {
      SpaceLineComplete(t, i, sp);
    }
  }

  /** When the whitespace after `i` is followed by a line that runs to the end of the
      text or to a line terminator, `\s+(.+)` captures exactly that line. */
  lemma SpaceLineAt(t: string, i: nat, sp: Span)
    requires LineGroup(t, i, sp)
    requires !IsSpace(t[sp.start])
    requires sp.end == |t| || IsBreak(t[sp.end])
    ensures SpaceLine(t, i) == Some(sp)
  {
    SkipSpacesAt(t, i, sp.start);
    LineEndAt(t, sp.start, sp.end);
  }

  /** `pat` occurs in `t` at position `k`. */
  predicate OccursAt(t: string, pat: string, k: nat) {
    k + |pat| <= |t| && t[k..k + |pat|] == pat
  }

  /** Leftmost occurrence of `pat` in `t` at or after `i`: the position an unanchored
      literal pattern matches at. */
  function Find(t: string, pat: string, i: nat): (r: Option<nat>)
    requires i <= |t|
    ensures r.Some? ==> i <= r.value && OccursAt(t, pat, r.value)
    ensures forall k :: i <= k && (r.None? || k < r.value) ==> !OccursAt(t, pat, k)
    decreases |t| - i
  {
    if OccursAt(t, pat, i) then Some(i)
    else if i == |t| then None
    else Find(t, pat, i + 1)
  }

  /** An unanchored literal pattern matches: `pat` occurs somewhere in `t`. */
  function Contains(t: string, pat: string): (r: bool)
    ensures r <==> exists k :: OccursAt(t, pat, k)
  {
    var f := Find(t, pat, 0);
    if f.Some? then assert OccursAt(t, pat, f.value); true else false
  }
}
