/** The command recognisers: the patterns bot.js registers with `onText`, each applied to
    a message text with leftmost-match semantics. */
module Commands {
  import opened Wrappers
  import opened Registry
  import opened Patterns

  /** The capture groups of a successful `/add` match, with the kind already read. */
  datatype AddArgs = AddArgs(slug: string, fileId: string, kind: MediaKind, caption: string)

  /** Where the four groups of `/add\s+(\S+)\s+(\S+)\s+(photo|video|document)\s+(.+)` lie. */
  datatype AddSplit = AddSplit(slug: Span, fileId: Span, kind: Span, caption: Span)

  /** `m` is one way for the `/add` pattern to match the text at position `p`. */
  ghost predicate AddShape(t: string, p: nat, m: AddSplit) {
    && OccursAt(t, "/add", p)
    && p + 4 < m.slug.start < m.slug.end < m.fileId.start < m.fileId.end < m.kind.start
    && m.kind.start <= m.kind.end <= |t|
    && AllSpace(t, p + 4, m.slug.start)
    && NoSpace(t, m.slug.start, m.slug.end)
    && AllSpace(t, m.slug.end, m.fileId.start)
    && NoSpace(t, m.fileId.start, m.fileId.end)
    && AllSpace(t, m.fileId.end, m.kind.start)
    && ParseKind(t[m.kind.start..m.kind.end]).Some?
    && LineGroup(t, m.kind.end, m.caption)
  }

  /** The `/add` pattern tried at position `p` of `t`. */
  function AddSplitAt(t: string, p: nat): (r: Option<AddSplit>)
    requires p <= |t|
    ensures r.Some? ==> AddShape(t, p, r.value) && GreedyLine(t, r.value.kind.end, r.value.caption)
  {
    if !OccursAt(t, "/add", p) then None
    else
      var s0 := SkipSpaces(t, p + 4);
      if s0 == p + 4 || s0 == |t| then None
      else
        var s1 := TokenEnd(t, s0);
        var f0 := SkipSpaces(t, s1);
        if f0 == s1 || f0 == |t| then None
        else
          var f1 := TokenEnd(t, f0);
          var k0 := SkipSpaces(t, f1);
          if k0 == f1 then None
          else
            var k1 := TokenEnd(t, k0);
            if ParseKind(t[k0..k1]).None? then None
            else
              match SpaceLine(t, k1)
              case None => None
              case Some(c) => Some(AddSplit(Span(s0, s1), Span(f0, f1), Span(k0, k1), c))
  }

  /** The matcher misses no match at `p`, and the slug, file id and kind groups are
      forced: every way of matching puts them in the same place. The caption group
      starts no earlier than in any other way of matching. */
  lemma AddSplitComplete(t: string, p: nat, m: AddSplit)
    requires p <= |t|
    requires AddShape(t, p, m)
    ensures AddSplitAt(t, p).Some?
    ensures AddSplitAt(t, p).value.slug == m.slug
    ensures AddSplitAt(t, p).value.fileId == m.fileId
    ensures AddSplitAt(t, p).value.kind == m.kind
    ensures m.caption.start <= AddSplitAt(t, p).value.caption.start
  {
    KindTokenNoSpace(t, m.kind.start, m.kind.end);
    SkipSpacesAt(t, p + 4, m.slug.start);
    TokenEndAt(t, m.slug.start, m.slug.end);
    SkipSpacesAt(t, m.slug.end, m.fileId.start);
    TokenEndAt(t, m.fileId.start, m.fileId.end);
    SkipSpacesAt(t, m.fileId.end, m.kind.start);
    TokenEndAt(t, m.kind.start, m.kind.end);
    SpaceLineComplete(t, m.kind.end, m.caption);
    var c := SpaceLine(t, m.kind.end).value;
    assert AddSplitAt(t, p) == Some(AddSplit(m.slug, m.fileId, m.kind, c));
  }

  /** A kind token is non-empty and has no whitespace, so it ends a `\S+` run. */
  lemma KindTokenNoSpace(t: string, i: nat, j: nat)
    requires i <= j <= |t|
    requires ParseKind(t[i..j]).Some?
    ensures i < j && NoSpace(t, i, j)
  {
    var w := t[i..j];
    assert w == "photo" || w == "video" || w == "document";
    forall k | i <= k < j
      ensures !IsSpace(t[k])
    {
      assert t[k] == w[k - i];
    }
  }

  /** A match of the `/add` pattern: where it starts, and where its groups lie. */
  datatype AddMatch = AddMatch(at: nat, split: AddSplit)

  /** The leftmost position at or after `p` where the `/add` pattern matches. */
  function FirstAdd(t: string, p: nat): (r: Option<AddMatch>)
    requires p <= |t|
    ensures r.Some? ==> p <= r.value.at <= |t| && AddSplitAt(t, r.value.at) == Some(r.value.split)
    ensures forall q :: p <= q <= |t| && (r.None? || q < r.value.at) ==> AddSplitAt(t, q).None?
    decreases |t| - p
  {
    var here := AddSplitAt(t, p);
    if here.Some? then Some(AddMatch(p, here.value))
    else if p == |t| then None
    else FirstAdd(t, p + 1)
  }

  /** The capture groups of a split, read out of the text. */
  function AddGroups(t: string, m: AddSplit): AddArgs
    requires m.slug.start <= m.slug.end <= |t|
    requires m.fileId.start <= m.fileId.end <= |t|
    requires m.kind.start <= m.kind.end <= |t| && ParseKind(t[m.kind.start..m.kind.end]).Some?
    requires m.caption.start <= m.caption.end <= |t|
  {
    AddArgs(Slice(t, m.slug), Slice(t, m.fileId), ParseKind(Slice(t, m.kind)).value, Slice(t, m.caption))
  }

  /** No character of `s` is in `\s`. */
  ghost predicate NoSpaceIn(s: string) {
    forall k :: 0 <= k < |s| ==> !IsSpace(s[k])
  }

  /** No character of `s` is a line terminator. */
  ghost predicate NoBreakIn(s: string) {
    forall k :: 0 <= k < |s| ==> !IsBreak(s[k])
  }

  /** `m` is the match `exec` reports for the `/add` pattern: the pattern matches at `p`
      with the groups of `m`, the caption is the one a backtracking matcher takes, and the
      pattern matches at no earlier position. */
  ghost predicate LeftmostAdd(t: string, p: nat, m: AddSplit) {
    && AddShape(t, p, m)
    && GreedyLine(t, m.kind.end, m.caption)
    && forall q: nat, m': AddSplit :: q < p ==> !AddShape(t, q, m')
  }

  /** The match `FirstAdd` reports from the start of the text is the one `exec` reports. */
  lemma FirstAddLeftmost(t: string)
    requires FirstAdd(t, 0).Some?
    ensures LeftmostAdd(t, FirstAdd(t, 0).value.at, FirstAdd(t, 0).value.split)
  {
    var m := FirstAdd(t, 0).value;
    forall q: nat, m': AddSplit | q < m.at && AddShape(t, q, m')
      ensures false
    {
      AddSplitComplete(t, q, m');
    }
  }

  /** When `FirstAdd` finds nothing, the `/add` pattern matches nowhere in the text. */
  lemma FirstAddNone(t: string)
    requires FirstAdd(t, 0).None?
    ensures forall p: nat, m: AddSplit :: !AddShape(t, p, m)
  {
    forall p: nat, m: AddSplit | AddShape(t, p, m)
      ensures false
    {
      AddSplitComplete(t, p, m);
    }
  }

  /** `/\/add\s+(\S+)\s+(\S+)\s+(photo|video|document)\s+(.+)/.exec(text)`, read as a
      registration request. A request comes out only with a non-empty, whitespace-free
      slug and file id, a kind token that was exactly `photo`, `video` or `document`, and
      a non-empty caption on one line. */
  function MatchAdd(t: string): (r: Option<AddArgs>)
    ensures r.Some? ==> r.value.slug != [] && NoSpaceIn(r.value.slug)
    ensures r.Some? ==> r.value.fileId != [] && NoSpaceIn(r.value.fileId)
    ensures r.Some? ==> r.value.caption != [] && NoBreakIn(r.value.caption)
    ensures r.Some? ==> exists p: nat, m: AddSplit :: LeftmostAdd(t, p, m) && r.value == AddGroups(t, m)
    ensures r.None? ==> forall p: nat, m: AddSplit :: !AddShape(t, p, m)
  {
    match FirstAdd(t, 0)
    case None =>
      FirstAddNone(t);
      None
    case Some(m) =>
      FirstAddLeftmost(t);
      AddGroupsClean(t, m.at, m.split);
      Some(AddGroups(t, m.split))
  }

  /** The groups of any match are a non-empty whitespace-free slug and file id and a
      non-empty one-line caption. */
  lemma AddGroupsClean(t: string, p: nat, m: AddSplit)
    requires AddShape(t, p, m)
    ensures AddGroups(t, m).slug != [] && NoSpaceIn(AddGroups(t, m).slug)
    ensures AddGroups(t, m).fileId != [] && NoSpaceIn(AddGroups(t, m).fileId)
    ensures AddGroups(t, m).caption != [] && NoBreakIn(AddGroups(t, m).caption)
  {
    var a := AddGroups(t, m);
    assert NoSpaceIn(a.slug) by {
      forall k | 0 <= k < |a.slug| ensures !IsSpace(a.slug[k]) {
        assert a.slug[k] == t[m.slug.start + k];
      }
    }
    assert NoSpaceIn(a.fileId) by {
      forall k | 0 <= k < |a.fileId| ensures !IsSpace(a.fileId[k]) {
        assert a.fileId[k] == t[m.fileId.start + k];
      }
    }
    assert NoBreakIn(a.caption) by {
      forall k | 0 <= k < |a.caption| ensures !IsBreak(a.caption[k]) {
        assert a.caption[k] == t[m.caption.start + k];
      }
    }
  }

  /** Whenever the `/add` pattern can match the text anywhere, the recogniser fires, and
      on the leftmost such position. */
  lemma MatchAddComplete(t: string, p: nat, m: AddSplit)
    requires p <= |t|
    requires AddShape(t, p, m)
    ensures MatchAdd(t).Some?
    ensures FirstAdd(t, 0).value.at <= p
  {
    AddSplitComplete(t, p, m);
  }

  /** `p` is where `exec` matches the `/start` pattern: the leftmost `/start`. */
  ghost predicate LeftmostStart(t: string, p: nat) {
    OccursAt(t, "/start", p) && forall q: nat :: q < p ==> !OccursAt(t, "/start", q)
  }

  /** `g` is the optional group `(?:\s+(.+))?` yields at `i`, right after a `/start`:
      absent exactly when `\s+(.+)` cannot match there, otherwise the line a backtracking
      matcher captures. */
  ghost predicate StartGroup(t: string, i: nat, g: Option<string>) {
    && (g.None? ==> forall sp: Span :: !LineGroup(t, i, sp))
    && (g.Some? ==> exists sp: Span :: GreedyLine(t, i, sp) && g.value == Slice(t, sp))
  }

  /** `/\/start(?:\s+(.+))?/.exec(text)`: `None` when the text has no `/start`; otherwise
      the optional group, taken at the leftmost `/start`. The group is never empty and
      never spans a line break. */
  function MatchStart(t: string): (r: Option<Option<string>>)
    ensures r.Some? <==> exists k :: OccursAt(t, "/start", k)
    ensures r.Some? && r.value.Some? ==> r.value.value != [] && NoBreakIn(r.value.value)
    ensures r.Some? ==> exists p: nat :: LeftmostStart(t, p) && StartGroup(t, p + 6, r.value)
  {
    match Find(t, "/start", 0)
    case None => None
    case Some(p) =>
      assert LeftmostStart(t, p);
      Some(OptionalLine(t, p + 6))
  }

  /** `(?:\s+(.+))?` tried at `i`, at the end of a pattern: the captured line, if any. */
  function OptionalLine(t: string, i: nat): (g: Option<string>)
    requires i <= |t|
    ensures StartGroup(t, i, g)
    ensures g.Some? ==> g.value != [] && NoBreakIn(g.value)
  {
    match SpaceLine(t, i)
    case None =>
      SpaceLineNone(t, i);
      None
    case Some(sp) =>
      var s := Slice(t, sp);
      assert GreedyLine(t, i, sp) && s == Slice(t, sp);
      assert NoBreakIn(s) by {
        forall k | 0 <= k < |s| ensures !IsBreak(s[k]) {
          assert s[k] == t[sp.start + k];
        }
      }
      Some(s)
  }

  /** The command line the help text documents, `/add <slug> <file_id> <type> <caption>`,
      with single spaces. */
  function AddCommand(a: AddArgs): string {
    "/add " + a.slug + " " + a.fileId + " " + KindName(a.kind) + " " + a.caption
  }

  /** Arguments that survive being written on one command line: tokens without
      whitespace, and a one-line caption that does not start with whitespace. */
  ghost predicate Writable(a: AddArgs) {
    && a.slug != [] && NoSpaceIn(a.slug)
    && a.fileId != [] && NoSpaceIn(a.fileId)
    && a.caption != [] && NoBreakIn(a.caption) && !IsSpace(a.caption[0])
  }

  /** Where `AddCommand(a)` puts each argument. */
  function AddCommandSplit(a: AddArgs): AddSplit {
    var s1 := 5 + |a.slug|;
    var f1 := s1 + 1 + |a.fileId|;
    var k1 := f1 + 1 + |KindName(a.kind)|;
    AddSplit(Span(5, s1), Span(s1 + 1, f1), Span(f1 + 1, k1), Span(k1 + 1, k1 + 1 + |a.caption|))
  }

  /** The command line holds `/add`, then each argument at its place in the split,
      separated by single spaces, and nothing after the caption. */
  lemma AddCommandLayout(a: AddArgs)
    ensures var t, m := AddCommand(a), AddCommandSplit(a);
      && |t| == m.caption.end
      && t[0..4] == "/add" && t[4] == ' '
      && Slice(t, m.slug) == a.slug && t[m.slug.end] == ' '
      && Slice(t, m.fileId) == a.fileId && t[m.fileId.end] == ' '
      && Slice(t, m.kind) == KindName(a.kind) && t[m.kind.end] == ' '
      && Slice(t, m.caption) == a.caption
  {
    var t, m := AddCommand(a), AddCommandSplit(a);
    assert t[..5] == "/add ";
    assert t[m.slug.start..m.slug.end] == a.slug;
    assert t[m.fileId.start..m.fileId.end] == a.fileId;
    assert t[m.kind.start..m.kind.end] == KindName(a.kind);
    assert t[m.caption.start..m.caption.end] == a.caption;
  }

  /** A span that captures a whitespace-free string has no whitespace in the text. */
  lemma SliceNoSpace(t: string, sp: Span)
    requires sp.start <= sp.end <= |t|
    requires NoSpaceIn(Slice(t, sp))
    ensures NoSpace(t, sp.start, sp.end)
  {
    forall k | sp.start <= k < sp.end ensures !IsSpace(t[k]) {
      assert t[k] == Slice(t, sp)[k - sp.start];
    }
  }

  /** A span that captures a one-line string has no line terminator in the text. */
  lemma SliceNoBreak(t: string, sp: Span)
    requires sp.start <= sp.end <= |t|
    requires NoBreakIn(Slice(t, sp))
    ensures NoBreak(t, sp.start, sp.end)
  {
    forall k | sp.start <= k < sp.end ensures !IsBreak(t[k]) {
      assert t[k] == Slice(t, sp)[k - sp.start];
    }
  }

  /** The command line for writable arguments matches the `/add` pattern at position 0
      with each group on its argument, and the caption's line starts with a non-space. */
  lemma AddCommandShape(a: AddArgs)
    requires Writable(a)
    ensures AddShape(AddCommand(a), 0, AddCommandSplit(a))
    ensures |AddCommand(a)| == AddCommandSplit(a).caption.end
    ensures !IsSpace(AddCommand(a)[AddCommandSplit(a).caption.start])
    ensures AddGroups(AddCommand(a), AddCommandSplit(a)) == a
  {
    var t, m := AddCommand(a), AddCommandSplit(a);
    AddCommandLayout(a);
    KindNameRoundTrip(a.kind);
    SliceNoSpace(t, m.slug);
    SliceNoSpace(t, m.fileId);
    SliceNoBreak(t, m.caption);
    assert t[m.caption.start] == a.caption[0];
  }

  /** Writing a registration as a command line and recognising it gives back exactly the
      same slug, file id, kind and caption. */
  lemma AddCommandRoundTrip(a: AddArgs)
    requires Writable(a)
    ensures MatchAdd(AddCommand(a)) == Some(a)
  {
    var t, m := AddCommand(a), AddCommandSplit(a);
    AddCommandShape(a);
    SpaceLineAt(t, m.kind.end, m.caption);
    AddSplitComplete(t, 0, m);
    assert AddSplitAt(t, 0) == Some(m);
    assert FirstAdd(t, 0) == Some(AddMatch(0, m));
  }

  /** The message a deep link `?start=<slug>` makes Telegram send. */
  function StartCommand(slug: string): string {
    "/start " + slug
  }

  /** A deep link's message is recognised as `/start` with exactly its slug, provided the
      slug is one line and does not start with whitespace. */
  lemma StartCommandRoundTrip(slug: string)
    requires slug != [] && NoBreakIn(slug) && !IsSpace(slug[0])
    ensures MatchStart(StartCommand(slug)) == Some(Some(slug))
  {
    var t := StartCommand(slug);
    assert t[0..6] == "/start";
    assert OccursAt(t, "/start", 0);
    assert Find(t, "/start", 0) == Some(0);
    var sp := Span(7, |t|);
    assert t[7..] == slug;
    assert NoBreak(t, 7, |t|) by {
      forall k | 7 <= k < |t| ensures !IsBreak(t[k]) { assert t[k] == slug[k - 7]; }
    }
    assert t[6] == ' ' && t[7] == slug[0];
    SpaceLineAt(t, 6, sp);
    assert Slice(t, sp) == slug;
  }

  /** `/\/status/.test(text)`. */
  function MatchStatus(t: string): (r: bool)
    ensures r <==> exists k :: OccursAt(t, "/status", k)
  {
    Contains(t, "/status")
  }

  /** `/\/help/.test(text)`. */
  function MatchHelp(t: string): (r: bool)
    ensures r <==> exists k :: OccursAt(t, "/help", k)
  {
    Contains(t, "/help")
  }
}
