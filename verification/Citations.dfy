/** Inline [N] markers in an answer, mapped back to the chunks shown to the model. */
module Citations {
  import opened Prelude
  import opened Text

  datatype Chunk = Chunk(id: string, documentId: string, title: string, content: string)

  datatype Citation = Citation(chunkId: string, documentId: string, title: string, snippet: string)

  const SNIPPET_CHARS: nat := 220

  // ---- Markers ------------------------------------------------------------

  predicate IsDigit(c: char) {
    '0' <= c <= '9'
  }

  /** Length of the run of digits a string starts with. */
  function DigitRun(s: string): (n: nat)
    ensures n <= |s| && (forall k :: 0 <= k < n ==> IsDigit(s[k])) && (n < |s| ==> !IsDigit(s[n]))
  {
    if s != "" && IsDigit(s[0]) then 1 + DigitRun(s[1..]) else 0
  }

  function ParseNat(digits: string): nat
    requires forall k :: 0 <= k < |digits| ==> IsDigit(digits[k])
  {
    if digits == "" then 0
    else
      assert IsDigit(digits[|digits| - 1]);
      ParseNat(digits[..|digits| - 1]) * 10 + (digits[|digits| - 1] as int - '0' as int)
  }

  /** The marker a string starts with: its number and its length. */
  function MarkerAtStart(s: string): (m: Option<(nat, nat)>)
    ensures m.Some? ==> 3 <= m.value.1 <= |s|
  {
    if s == "" || s[0] != '[' then None
    else
      var n := DigitRun(s[1..]);
      if n == 0 || 1 + n == |s| || s[1 + n] != ']' then None
      else Some((ParseNat(s[1..][..n]), n + 2))
  }

  /** A bracketed run of digits, said without reference to any scan. */
  ghost predicate IsMarker(s: string, from: nat, to: nat) {
    && from + 3 <= to <= |s|
    && s[from] == '[' && s[to - 1] == ']'
    && forall k :: from < k < to - 1 ==> IsDigit(s[k])
  }

  /** The numbers of all markers of a string, looked for at every position. */
  function Markers(s: string): seq<nat> {
    if s == "" then []
    else (if MarkerAtStart(s).Some? then [MarkerAtStart(s).value.0] else []) + Markers(s[1..])
  }

  lemma MarkerAtStartMeans(s: string, i: nat, to: nat)
    requires i <= |s|
    ensures MarkerAtStart(s[i..]).Some? && i + MarkerAtStart(s[i..]).value.1 == to <==> IsMarker(s, i, to)
  {
    var t := s[i..];
    if t != "" && t[0] == '[' {
      var n := DigitRun(t[1..]);
      if IsMarker(s, i, to) {
        assert t[1..][to - i - 2] == s[to - 1];
        assert forall k :: 0 <= k < to - i - 2 ==> t[1..][k] == s[i + 1 + k];
        assert n == to - i - 2;
      }
      if MarkerAtStart(t).Some? && i + n + 2 == to {
        forall k | i < k < to - 1
          ensures IsDigit(s[k])
        {
          assert s[k] == t[1..][k - i - 1];
        }
      }
    }
  }

  ghost predicate StartsMarker(s: string, i: nat) {
    exists to: nat :: IsMarker(s, i, to)
  }

  ghost function MarkerPositions(s: string): set<nat> {
    set i: nat | i < |s| && StartsMarker(s, i)
  }

  /** The number read at each position, 0 where no marker starts. */
  ghost function NumbersAt(s: string): seq<nat> {
    seq(|s|, i requires 0 <= i < |s| => if MarkerAtStart(s[i..]).Some? then MarkerAtStart(s[i..]).value.0 else 0)
  }

  lemma StartsMarkerMeans(s: string, i: nat)
    requires i <= |s|
    ensures StartsMarker(s, i) <==> MarkerAtStart(s[i..]).Some?
  {
    if StartsMarker(s, i) {
      var to: nat :| IsMarker(s, i, to);
      MarkerAtStartMeans(s, i, to);
    }
    if MarkerAtStart(s[i..]).Some? {
      MarkerAtStartMeans(s, i, i + MarkerAtStart(s[i..]).value.1);
    }
  }

  lemma {:induction false} StartsOneOn(s: string, i: nat)
    requires i + 1 <= |s|
    ensures StartsMarker(s, i + 1) <==> StartsMarker(s[1..], i)
  {
    assert s[1..][i..] == s[i + 1..];
    StartsMarkerMeans(s, i + 1);
    StartsMarkerMeans(s[1..], i);
  }

  lemma {:induction false} NumbersOneOn(s: string)
    requires s != ""
    ensures NumbersAt(s) == [NumbersAt(s)[0]] + NumbersAt(s[1..])
  {
    assert forall i :: 0 <= i < |s| - 1 ==> s[1..][i..] == s[i + 1..];
  }

  lemma {:induction false} PositionsOneOn(s: string)
    requires s != ""
    ensures MarkerPositions(s) == (if StartsMarker(s, 0) then {0} else {}) + ShiftedUp(MarkerPositions(s[1..]))
  {
    var first, later := if StartsMarker(s, 0) then {0} else {}, ShiftedUp(MarkerPositions(s[1..]));
    forall j: nat
      ensures j in MarkerPositions(s) <==> j in first + later
    {
      if 0 < j < |s| {
        StartsOneOn(s, j - 1);
        assert j - 1 in MarkerPositions(s[1..]) <==> j in MarkerPositions(s);
      }
    }
  }

  /** The markers found are those at every position where one stands, in order. */
  lemma {:induction false} MarkersAreAll(s: string)
    ensures Selection(Markers(s), NumbersAt(s), MarkerPositions(s))
  {
    if s == "" {
      SelectNothing<nat>();
      assert MarkerPositions(s) == {};
    } else {
      MarkersAreAll(s[1..]);
      NumbersOneOn(s);
      PositionsOneOn(s);
      StartsMarkerMeans(s, 0);
      assert s[0..] == s;
      var rest, numbers, at := Markers(s[1..]), NumbersAt(s[1..]), MarkerPositions(s[1..]);
      if StartsMarker(s, 0) {
        TakeFirst(rest, numbers, at, NumbersAt(s)[0]);
      } else {
        SkipFirst(rest, numbers, at, NumbersAt(s)[0]);
        assert {} + ShiftedUp(at) == ShiftedUp(at);
        NothingBefore(rest);
      }
    }
  }

  /** A marker's number is the value of the digits between its brackets. */
  lemma NumberIsBetween(s: string, i: nat, to: nat)
    requires IsMarker(s, i, to)
    ensures NumbersAt(s)[i] == ParseNat(s[i + 1..to - 1])
  {
    MarkerAtStartMeans(s, i, to);
    assert s[i..][1..][..to - i - 2] == s[i + 1..to - 1];
  }

  /** Leading zeros do not count. */
  lemma {:induction false} LeadingZero(digits: string)
    requires forall k :: 0 <= k < |digits| ==> IsDigit(digits[k])
    ensures ParseNat("0" + digits) == ParseNat(digits)
  {
    if digits == "" {
      assert ParseNat("0") == ParseNat("0"[..0]) * 10;
      assert "0" + digits == "0";
    } else {
      var n := |digits| - 1;
      assert ("0" + digits)[..n + 1] == "0" + digits[..n];
      LeadingZero(digits[..n]);
    }
  }

  /** Markers never overlap, so a scan may continue after each match. */
  lemma MarkersNeverOverlap(s: string, a: nat, b: nat, c: nat, d: nat)
    requires IsMarker(s, a, b) && IsMarker(s, c, d) && a < c
    ensures b <= c
  {
  }

  lemma {:induction false} PlainTextHasNoMarkers(plain: string, rest: string)
    requires '[' !in plain
    ensures Markers(plain + rest) == Markers(rest)
  {
    if plain == "" {
      assert plain + rest == rest;
    } else {
      assert (plain + rest)[0] == plain[0] && (plain + rest)[1..] == plain[1..] + rest;
      PlainTextHasNoMarkers(plain[1..], rest);
    }
  }

  lemma {:induction false} SkipMarker(s: string)
    requires MarkerAtStart(s).Some?
    ensures var (v, len) := MarkerAtStart(s).value; Markers(s) == [v] + Markers(s[len..])
  {
    var len := MarkerAtStart(s).value.1;
    var inner := s[1..len];
    assert '[' !in inner by {
      forall k | 0 <= k < |inner|
        ensures inner[k] != '['
      {
        assert inner[k] == s[1..][k];
      }
    }
    assert s[1..] == inner + s[len..];
    PlainTextHasNoMarkers(inner, s[len..]);
  }

  // ---- From markers to citations ------------------------------------------

  /** In-range numbers, each kept where it is first mentioned. */
  function FirstMentions(ms: seq<nat>, n: nat): seq<nat> {
    if ms == [] then []
    else
      var before, m := FirstMentions(ms[..|ms| - 1], n), ms[|ms| - 1];
      if m in before || !(1 <= m <= n) then before else before + [m]
  }

  ghost function FirstIndex(ms: seq<nat>, m: nat): nat
    requires m in ms
  {
    if m in ms[..|ms| - 1] then FirstIndex(ms[..|ms| - 1], m) else |ms| - 1
  }

  lemma {:induction false} FirstIndexIsFirst(ms: seq<nat>, m: nat)
    requires m in ms
    ensures FirstIndex(ms, m) < |ms| && ms[FirstIndex(ms, m)] == m && m !in ms[..FirstIndex(ms, m)]
  {
    var front := ms[..|ms| - 1];
    if m in front {
      FirstIndexIsFirst(front, m);
      assert front[..FirstIndex(front, m)] == ms[..FirstIndex(front, m)];
    }
  }

  /** The kept numbers are exactly the in-range ones, once each, in the order in
      which they are first mentioned. */
  lemma {:induction false} FirstMentionsExactly(ms: seq<nat>, n: nat)
    ensures var r := FirstMentions(ms, n);
            && Distinct(r)
            && (forall m :: m in r <==> m in ms && 1 <= m <= n)
            && (forall a, b :: 0 <= a < b < |r| ==> r[a] in ms && r[b] in ms && FirstIndex(ms, r[a]) < FirstIndex(ms, r[b]))
  {
    if ms != [] {
      var k := |ms| - 1;
      var front := ms[..k];
      var before, r := FirstMentions(front, n), FirstMentions(ms, n);
      FirstMentionsExactly(front, n);
      assert forall m :: m in ms <==> m in front || m == ms[k];
      forall a, b | 0 <= a < b < |r|
        ensures r[a] in ms && r[b] in ms && FirstIndex(ms, r[a]) < FirstIndex(ms, r[b])
      {
        assert r[a] == before[a] && before[a] in before;
        FirstIndexIsFirst(front, r[a]);
        if b < |before| {
          assert r[b] == before[b] && before[b] in before;
        } else {
          assert r[b] == ms[k] && r[b] !in before;
        }
      }
    }
  }

  function BeforeLastSpace(s: string): string {
    if ' ' !in s then s
    else if s[|s| - 1] == ' ' then s[..|s| - 1]
    else BeforeLastSpace(s[..|s| - 1])
  }

  function OneLine(s: string): string {
    seq(|s|, i requires 0 <= i < |s| => if s[i] == '\n' then ' ' else s[i])
  }

  function Snippet(content: string, chars: nat): string {
    var s := OneLine(Strip(content));
    if |s| > chars then BeforeLastSpace(s[..chars]) + ['\U{2026}'] else s
  }

  lemma {:induction false} BeforeLastSpaceIsPrefix(s: string)
    ensures BeforeLastSpace(s) <= s
  {
    if ' ' in s && s[|s| - 1] != ' ' {
      BeforeLastSpaceIsPrefix(s[..|s| - 1]);
    }
  }

  /** The cut is at the last space, if there is one. */
  lemma {:induction false} BeforeLastSpaceCuts(s: string)
    ensures var r := BeforeLastSpace(s);
            r <= s && (' ' in s ==> |r| < |s| && s[|r|] == ' ' && ' ' !in s[|r| + 1..]) && (' ' !in s ==> r == s)
  {
    if ' ' in s && s[|s| - 1] != ' ' {
      var front := s[..|s| - 1];
      assert ' ' in front by {
        var i :| 0 <= i < |s| && s[i] == ' ';
        assert front[i] == ' ';
      }
      BeforeLastSpaceCuts(front);
      var k := |BeforeLastSpace(front)|;
      assert s[k + 1..] == front[k + 1..] + [s[|s| - 1]];
    }
  }

  ghost predicate IsOneLineOf(line: string, text: string) {
    |line| == |text| && forall i :: 0 <= i < |text| ==> line[i] == if text[i] == '\n' then ' ' else text[i]
  }

  /** What a snippet shows, within the limit, of a line of text: all of it, or what
      stands before the last space of the part that fits, and an ellipsis. */
  ghost predicate ShowsLine(snippet: string, line: string, chars: nat) {
    if |line| <= chars then snippet == line
    else
      exists k: nat ::
        && k <= chars && snippet == line[..k] + ['\U{2026}'] && ' ' !in line[k + if k < chars then 1 else 0..chars]
        && (k < chars ==> line[k] == ' ')
  }

  ghost predicate IsSnippet(snippet: string, content: string, chars: nat) {
    exists line :: IsOneLineOf(line, Strip(content)) && ShowsLine(snippet, line, chars)
  }

  lemma {:induction false} SnippetShows(content: string, chars: nat)
    ensures IsSnippet(Snippet(content, chars), content, chars)
  {
    var line := OneLine(Strip(content));
    assert IsOneLineOf(line, Strip(content));
    if |line| > chars {
      var part := line[..chars];
      BeforeLastSpaceCuts(part);
      var k := |BeforeLastSpace(part)|;
      assert part[..k] == line[..k];
      if k < chars {
        assert part[k + 1..] == line[k + 1..chars];
      }
      assert ShowsLine(Snippet(content, chars), line, chars);
    }
  }

  /** A snippet is one line of the chunk's own text: all of it when it fits, and
      otherwise a beginning of it, within the limit, and an ellipsis. */
  lemma {:induction false} SnippetShape(content: string, chars: nat)
    ensures var s, line := Snippet(content, chars), OneLine(Strip(content));
            && '\n' !in s && |s| <= chars + 1
            && (if |line| <= chars then s == line else s[..|s| - 1] <= line && s[|s| - 1] == '\U{2026}')
  {
    var line := OneLine(Strip(content));
    assert '\n' !in line;
    if |line| > chars {
      BeforeLastSpaceIsPrefix(line[..chars]);
    }
  }

  function Cite(c: Chunk): Citation {
    Citation(c.id, c.documentId, c.title, Snippet(c.content, SNIPPET_CHARS))
  }

  function Cited(answer: string, chunks: seq<Chunk>): seq<nat> {
    FirstMentions(Markers(answer), |chunks|)
  }

  lemma {:induction false} CitedInRange(answer: string, chunks: seq<Chunk>)
    ensures forall m :: m in Cited(answer, chunks) ==> 1 <= m <= |chunks|
  {
    FirstMentionsExactly(Markers(answer), |chunks|);
  }

  /** A citation of a chunk: its id, its document's id and title, each in its place,
      and a snippet of its content. */
  ghost predicate Quotes(c: Citation, chunk: Chunk) {
    c.chunkId == chunk.id && c.documentId == chunk.documentId && c.title == chunk.title
    && IsSnippet(c.snippet, chunk.content, 220)
  }

  ghost predicate AreCitationsOf(citations: seq<Citation>, indexes: seq<nat>, chunks: seq<Chunk>) {
    && |citations| == |indexes|
    && forall k :: 0 <= k < |indexes| ==> 1 <= indexes[k] <= |chunks| && citations[k] == Cite(chunks[indexes[k] - 1])
  }

  ghost predicate QuoteChunks(citations: seq<Citation>, indexes: seq<nat>, chunks: seq<Chunk>) {
    && |citations| == |indexes|
    && forall k :: 0 <= k < |indexes| ==> 1 <= indexes[k] <= |chunks| && Quotes(citations[k], chunks[indexes[k] - 1])
  }

  lemma {:induction false} CitationsQuote(citations: seq<Citation>, indexes: seq<nat>, chunks: seq<Chunk>)
    requires AreCitationsOf(citations, indexes, chunks)
    ensures QuoteChunks(citations, indexes, chunks)
  {
    forall k | 0 <= k < |indexes|
      ensures Quotes(citations[k], chunks[indexes[k] - 1])
    {
      SnippetShows(chunks[indexes[k] - 1].content, 220);
    }
  }

  lemma {:induction false} MentionStep(found: seq<nat>, idx: nat, n: nat)
    ensures var before := FirstMentions(found, n);
            FirstMentions(found + [idx], n) == if idx in before || !(1 <= idx <= n) then before else before + [idx]
  {
    assert (found + [idx])[..|found|] == found;
  }

  /** The citations of the numbers in range, one after the other. */
  ghost function CitesFor(kept: seq<nat>, chunks: seq<Chunk>): seq<Citation> {
    if kept == [] then []
    else
      var last := kept[|kept| - 1];
      CitesFor(kept[..|kept| - 1], chunks) + if 1 <= last <= |chunks| then [Cite(chunks[last - 1])] else []
  }

  lemma {:induction false} OneMoreCitation(kept: seq<nat>, idx: nat, chunks: seq<Chunk>)
    requires 1 <= idx <= |chunks|
    ensures CitesFor(kept + [idx], chunks) == CitesFor(kept, chunks) + [Cite(chunks[idx - 1])]
  {
    assert (kept + [idx])[..|kept|] == kept;
  }

  lemma AppendCitation(citations: seq<Citation>, front: seq<nat>, last: nat, chunks: seq<Chunk>)
    requires AreCitationsOf(citations, front, chunks) && 1 <= last <= |chunks|
    ensures AreCitationsOf(citations + [Cite(chunks[last - 1])], front + [last], chunks)
  {
  }

  lemma {:induction false} CiteLast(front: seq<nat>, last: nat, chunks: seq<Chunk>)
    requires AreCitationsOf(CitesFor(front, chunks), front, chunks) && 1 <= last <= |chunks|
    ensures AreCitationsOf(CitesFor(front + [last], chunks), front + [last], chunks)
  {
    OneMoreCitation(front, last, chunks);
    AppendCitation(CitesFor(front, chunks), front, last, chunks);
  }

  lemma {:induction false} CitesAreCitations(kept: seq<nat>, chunks: seq<Chunk>)
    requires forall k :: 0 <= k < |kept| ==> 1 <= kept[k] <= |chunks|
    ensures AreCitationsOf(CitesFor(kept, chunks), kept, chunks)
  {
    if kept != [] {
      var front, last := kept[..|kept| - 1], kept[|kept| - 1];
      CitesAreCitations(front, chunks);
      CiteLast(front, last, chunks);
      Rejoin(kept);
    }
  }

  /** What `finditer` yields: one pass that jumps over each match. */
  method FindMarkers(answer: string) returns (found: seq<nat>)
    ensures found == Markers(answer)
  {
    found := [];
    var rest := answer;
    while rest != ""
      invariant found + Markers(rest) == Markers(answer)
      decreases |rest|
    {
      var m := MarkerAtStart(rest);
      if m.None? {
        assert Markers(rest) == Markers(rest[1..]);
        rest := rest[1..];
      } else {
        var (idx, len) := m.value;
        SkipMarker(rest);
        assert found + ([idx] + Markers(rest[len..])) == found + [idx] + Markers(rest[len..]);
        found := found + [idx];
        rest := rest[len..];
      }
    }
  }

  /** The loop over the numbers read: each one in range is cited at its first mention. */
  method CiteFirstMentions(matches: seq<nat>, chunks: seq<Chunk>) returns (citations: seq<Citation>)
    ensures AreCitationsOf(citations, FirstMentions(matches, |chunks|), chunks)
  {
    var seen: set<nat> := {};
    citations := [];
    ghost var kept: seq<nat> := [];
    for k := 0 to |matches|
      invariant kept == FirstMentions(matches[..k], |chunks|)
      invariant forall m :: m in seen <==> m in kept
      invariant citations == CitesFor(kept, chunks)
    {
      var idx := matches[k];
      TakeOneMore(matches, k);
      MentionStep(matches[..k], idx, |chunks|);
      if idx in seen || !(1 <= idx <= |chunks|) {
        continue;
      }
      OneMoreCitation(kept, idx, chunks);
      seen := seen + {idx};
      citations := citations + [Cite(chunks[idx - 1])];
      kept := kept + [idx];
    }
    assert matches[..|matches|] == matches;
    FirstMentionsExactly(matches, |chunks|);
    assert forall k :: 0 <= k < |kept| ==> kept[k] in kept;
    CitesAreCitations(kept, chunks);
  }

  method ExtractCitations(answer: string, chunks: seq<Chunk>) returns (citations: seq<Citation>)
    ensures AreCitationsOf(citations, Cited(answer, chunks), chunks)
    ensures QuoteChunks(citations, Cited(answer, chunks), chunks)
  {
    var matches := FindMarkers(answer);
    citations := CiteFirstMentions(matches, chunks);
    CitationsQuote(citations, Cited(answer, chunks), chunks);
  }

  // ---- Round trip ---------------------------------------------------------

  function DigitChar(d: nat): char
    requires d < 10
  {
    (d + '0' as int) as char
  }

  function Decimal(n: nat): (s: string)
    ensures s != "" && forall k :: 0 <= k < |s| ==> IsDigit(s[k])
  {
    if n < 10 then [DigitChar(n)] else Decimal(n / 10) + [DigitChar(n % 10)]
  }

  lemma {:induction false} ParseDecimal(n: nat)
    ensures ParseNat(Decimal(n)) == n
  {
    var s := Decimal(n);
    if n < 10 {
      assert s[..0] == "" && ParseNat(s[..0]) == 0;
    } else {
      ParseDecimal(n / 10);
      assert s[..|s| - 1] == Decimal(n / 10);
    }
  }

  /** Text pieces without brackets, each followed by a marker. */
  function Render(pieces: seq<(string, nat)>, tail: string): string {
    if pieces == [] then tail
    else pieces[0].0 + "[" + Decimal(pieces[0].1) + "]" + Render(pieces[1..], tail)
  }

  lemma {:induction false} MarkerReadsBack(n: nat, rest: string)
    ensures MarkerAtStart("[" + Decimal(n) + "]" + rest) == Some((n, |Decimal(n)| + 2))
  {
    var d := Decimal(n);
    var s := "[" + d + "]" + rest;
    var t := s[1..];
    assert t == d + "]" + rest;
    var run := DigitRun(t);
    assert t[|d|] == ']' && forall k :: 0 <= k < |d| ==> t[k] == d[k];
    assert run == |d|;
    assert t[..run] == d && s[1 + run] == ']';
    ParseDecimal(n);
  }

  function Numbers(pieces: seq<(string, nat)>): seq<nat> {
    seq(|pieces|, i requires 0 <= i < |pieces| => pieces[i].1)
  }

  lemma {:induction false} PieceReadsBack(text: string, n: nat, rest: string)
    requires '[' !in text
    ensures Markers(text + "[" + Decimal(n) + "]" + rest) == [n] + Markers(rest)
  {
    var d := Decimal(n);
    var s := "[" + d + "]" + rest;
    assert text + "[" + d + "]" + rest == text + s;
    PlainTextHasNoMarkers(text, s);
    MarkerReadsBack(n, rest);
    SkipMarker(s);
    assert s[|d| + 2..] == rest;
  }

  /** Rendering bracket-free text interleaved with markers and scanning it back
      recovers the markers. */
  lemma {:induction false} ScanReadsBackRendering(pieces: seq<(string, nat)>, tail: string)
    requires '[' !in tail && forall i :: 0 <= i < |pieces| ==> '[' !in pieces[i].0
    ensures Markers(Render(pieces, tail)) == Numbers(pieces)
  {
    if pieces == [] {
      PlainTextHasNoMarkers(tail, "");
      assert tail + "" == tail;
    } else {
      ScanReadsBackRendering(pieces[1..], tail);
      PieceReadsBack(pieces[0].0, pieces[0].1, Render(pieces[1..], tail));
      assert Numbers(pieces) == [pieces[0].1] + Numbers(pieces[1..]);
    }
  }
}
