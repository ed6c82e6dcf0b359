/** Folder paths: splitting, joining, and the server's normalization. */
module FolderPaths {
  import opened Prelude
  import opened Text

  const MAX_FOLDER_LEN: nat := 256

  // ---- Splitting and joining ----------------------------------------------

  function Split(s: string): (r: seq<string>)
    ensures r != []
  {
    if s == "" then [""]
    else
      var rest := Split(s[1..]);
      if s[0] == '/' then [""] + rest else [[s[0]] + rest[0]] + rest[1..]
  }

  lemma {:induction false} SplitHasNoSlash(s: string)
    ensures forall x :: x in Split(s) ==> '/' !in x
  {
    if s != "" {
      SplitHasNoSlash(s[1..]);
    }
  }

  function Join(parts: seq<string>): string {
    if parts == [] then "" else if |parts| == 1 then parts[0] else parts[0] + "/" + Join(parts[1..])
  }

  function Prepend(c: char, parts: seq<string>): seq<string>
    requires parts != []
  {
    if c == '/' then [""] + parts else [[c] + parts[0]] + parts[1..]
  }

  lemma {:induction false} SplitCons(c: char, s: string)
    ensures Split([c] + s) == Prepend(c, Split(s))
  {
    assert ([c] + s)[1..] == s;
  }

  lemma {:induction false} JoinPrepend(c: char, parts: seq<string>)
    requires parts != []
    ensures Join(Prepend(c, parts)) == [c] + Join(parts)
  {
    var r := Prepend(c, parts);
    if c == '/' {
      assert r[1..] == parts && "" + "/" == ['/'];
    } else if |parts| > 1 {
      assert r[1..] == parts[1..];
      assert ([c] + parts[0]) + "/" + Join(parts[1..]) == [c] + (parts[0] + "/" + Join(parts[1..]));
    }
  }

  lemma {:induction false} JoinOfSplit(s: string)
    ensures Join(Split(s)) == s
  {
    if s != "" {
      JoinOfSplit(s[1..]);
      JoinPrepend(s[0], Split(s[1..]));
      assert s == [s[0]] + s[1..];
    }
  }

  lemma {:induction false} SplitOfPlain(s: string)
    requires '/' !in s
    ensures Split(s) == [s]
  {
    if s != "" {
      SplitOfPlain(s[1..]);
      assert [s[0]] + s[1..] == s;
    }
  }

  lemma {:induction false} PrependAppend(c: char, parts: seq<string>, tail: seq<string>)
    requires parts != []
    ensures Prepend(c, parts + tail) == Prepend(c, parts) + tail
  {
  }

  /** A separator between two strings separates their segments. */
  lemma {:induction false} SplitAtSeparator(a: string, b: string)
    ensures Split(a + "/" + b) == Split(a) + Split(b)
  {
    if a == "" {
      SplitCons('/', b);
      assert a + "/" + b == ['/'] + b;
    } else {
      SplitAtSeparator(a[1..], b);
      SplitCons(a[0], a[1..]);
      SplitCons(a[0], a[1..] + "/" + b);
      PrependAppend(a[0], Split(a[1..]), Split(b));
      assert a == [a[0]] + a[1..] && a + "/" + b == [a[0]] + (a[1..] + "/" + b);
    }
  }

  lemma {:induction false} SplitOfJoin(parts: seq<string>)
    requires parts != [] && forall i :: 0 <= i < |parts| ==> '/' !in parts[i]
    ensures Split(Join(parts)) == parts
  {
    SplitOfPlain(parts[0]);
    if |parts| > 1 {
      SplitOfJoin(parts[1..]);
      SplitAtSeparator(parts[0], Join(parts[1..]));
      assert parts == [parts[0]] + parts[1..];
    } else {
      assert parts == [parts[0]];
    }
  }

  lemma {:induction false} JoinAppend(a: seq<string>, b: seq<string>)
    requires a != [] && b != []
    ensures Join(a + b) == Join(a) + "/" + Join(b)
  {
    assert (a + b)[0] == a[0] && (a + b)[1..] == a[1..] + b;
    if |a| > 1 {
      JoinAppend(a[1..], b);
      assert a[0] + "/" + (Join(a[1..]) + "/" + Join(b)) == a[0] + "/" + Join(a[1..]) + "/" + Join(b);
    } else {
      assert a + b == [a[0]] + b && (a + b)[1..] == b;
    }
  }

  /** A folder path as its segments; the root has none. */
  function Segments(folder: string): seq<string> {
    if folder == "" then [] else Split(folder)
  }

  function LastSegment(path: string): string {
    Split(path)[|Split(path)| - 1]
  }

  // ---- Canonical paths ----------------------------------------------------

  function Unslash(s: string): string {
    seq(|s|, i requires 0 <= i < |s| => if s[i] == '\\' then '/' else s[i])
  }

  predicate IsKept(segment: string) {
    segment != "" && segment != "." && segment != ".."
  }

  function CleanSegments(parts: seq<string>): seq<string> {
    if parts == [] then []
    else
      var n := |parts| - 1;
      CleanSegments(parts[..n]) + if IsKept(Strip(parts[n])) then [Strip(parts[n])] else []
  }

  ghost function StrippedAll(parts: seq<string>): seq<string> {
    seq(|parts|, i requires 0 <= i < |parts| => Strip(parts[i]))
  }

  ghost function KeptPositions(parts: seq<string>): set<nat> {
    set i: nat | i < |parts| && Strip(parts[i]) !in ["", ".", ".."]
  }

  lemma {:induction false} KeptOneMore(front: seq<string>, last: string)
    ensures |StrippedAll(front)| == |front| && StrippedAll(front + [last]) == StrippedAll(front) + [Strip(last)]
    ensures KeptPositions(front + [last]) == KeptPositions(front) + if IsKept(Strip(last)) then {|front|} else {}
  {
  }

  lemma {:induction false} CleanOneMore(front: seq<string>, last: string)
    ensures CleanSegments(front + [last]) == CleanSegments(front) + if IsKept(Strip(last)) then [Strip(last)] else []
  {
    assert (front + [last])[..|front|] == front;
  }

  lemma {:induction false} NextSegment(front: seq<string>, last: string)
    requires Selection(CleanSegments(front), StrippedAll(front), KeptPositions(front))
    ensures Selection(CleanSegments(front + [last]), StrippedAll(front + [last]), KeptPositions(front + [last]))
  {
    CleanOneMore(front, last);
    KeptOneMore(front, last);
    SelectNext(CleanSegments(front), StrippedAll(front), KeptPositions(front), Strip(last), IsKept(Strip(last)));
  }

  /** The segments kept are the stripped ones that are neither empty nor dots, in order. */
  lemma {:induction false} CleanSegmentsSelect(parts: seq<string>)
    ensures Selection(CleanSegments(parts), StrippedAll(parts), KeptPositions(parts))
  {
    if parts == [] {
      SelectNothing<string>();
      assert KeptPositions(parts) == {};
    } else {
      CleanSegmentsSelect(parts[..|parts| - 1]);
      NextSegment(parts[..|parts| - 1], parts[|parts| - 1]);
      Rejoin(parts);
    }
  }

  function TrimSlashes(s: string): string {
    if s != "" && s[|s| - 1] == '/' then TrimSlashes(s[..|s| - 1]) else s
  }

  /** None is the root. */
  function NormalizeFolder(raw: Option<string>): Option<string> {
    if raw.None? || raw.value == "" then None
    else
      var cleaned := CleanSegments(Split(Unslash(raw.value)));
      if cleaned == [] then None
      else
        var path := TrimSlashes(Truncate(Join(cleaned), MAX_FOLDER_LEN));
        if path == "" then None else Some(path)
  }

  ghost predicate IsClean(segment: string) {
    IsKept(segment) && IsTrimmed(segment) && '/' !in segment && '\\' !in segment
  }

  ghost predicate AllClean(parts: seq<string>) {
    forall i :: 0 <= i < |parts| ==> IsClean(parts[i])
  }

  lemma {:induction false} CleanSegmentsAreClean(parts: seq<string>)
    requires forall i :: 0 <= i < |parts| ==> '/' !in parts[i] && '\\' !in parts[i]
    ensures AllClean(CleanSegments(parts))
  {
    if parts != [] {
      CleanSegmentsAreClean(parts[..|parts| - 1]);
      StripResult(parts[|parts| - 1]);
    }
  }

  lemma {:induction false} CleanSegmentsKeepClean(parts: seq<string>)
    requires AllClean(parts)
    ensures CleanSegments(parts) == parts
  {
    if parts != [] {
      CleanSegmentsKeepClean(parts[..|parts| - 1]);
      StripResult(parts[|parts| - 1]);
      Rejoin(parts);
    }
  }

  lemma {:induction false} SplitKeepsOut(s: string, c: char)
    requires c !in s
    ensures forall x :: x in Split(s) ==> c !in x
  {
    if s != "" {
      SplitKeepsOut(s[1..], c);
    }
  }

  lemma RawSegmentsAreClean(raw: string)
    ensures AllClean(CleanSegments(Split(Unslash(raw))))
  {
    var s := Unslash(raw);
    SplitHasNoSlash(s);
    SplitKeepsOut(s, '\\');
    forall i | 0 <= i < |Split(s)|
      ensures '/' !in Split(s)[i] && '\\' !in Split(s)[i]
    {
      assert Split(s)[i] in Split(s);
    }
    CleanSegmentsAreClean(Split(s));
  }

  ghost predicate CutsAt(r: seq<string>, full: seq<string>) {
    0 < |r| <= |full| && r[..|r| - 1] == full[..|r| - 1] && r[|r| - 1] <= full[|r| - 1]
  }

  /** Cutting a path cuts its last remaining segment and nothing before it. */
  lemma {:induction false} PrefixSegments(s: string, k: nat)
    requires k <= |s|
    ensures CutsAt(Split(s[..k]), Split(s))
  {
    if k > 0 {
      PrefixSegments(s[1..], k - 1);
      assert s[..k] == [s[0]] + s[1..][..k - 1] && s == [s[0]] + s[1..];
      SplitCons(s[0], s[1..][..k - 1]);
      SplitCons(s[0], s[1..]);
      PrependCuts(s[0], Split(s[1..][..k - 1]), Split(s[1..]));
    } else {
      assert s[..0] == "";
    }
  }

  lemma {:induction false} PrependCuts(c: char, r: seq<string>, full: seq<string>)
    requires CutsAt(r, full)
    ensures CutsAt(Prepend(c, r), Prepend(c, full))
  {
    var r', full' := Prepend(c, r), Prepend(c, full);
    var n := |r| - 1;
    forall i | 0 <= i < n
      ensures r[i] == full[i]
    {
      assert r[..n][i] == full[..n][i];
    }
    if c == '/' {
      assert r'[..n + 1] == [""] + r[..n] && full'[..n + 1] == [""] + full[..n];
    } else if n > 0 {
      assert r'[..n] == [[c] + r[0]] + r[1..n] && full'[..n] == [[c] + full[0]] + full[1..n];
      assert r[1..n] == full[1..n];
    }
  }

  lemma {:induction false} TrailingSlash(s: string)
    requires s != ""
    ensures s[|s| - 1] == '/' ==> Split(s) == Split(s[..|s| - 1]) + [""]
  {
    if s[|s| - 1] == '/' {
      SplitAtSeparator(s[..|s| - 1], "");
      assert s == s[..|s| - 1] + "/" + "";
    }
  }

  lemma {:induction false} JoinIsNonEmpty(parts: seq<string>)
    requires parts != [] && parts[0] != ""
    ensures Join(parts) != "" && Join(parts)[0] == parts[0][0]
  {
  }

  lemma {:induction false} NoTrailingSlash(parts: seq<string>)
    requires parts != [] && AllClean(parts)
    ensures Join(parts) != "" && Join(parts)[|Join(parts)| - 1] != '/'
  {
    JoinIsNonEmpty(parts);
    SplitOfJoin(parts);
    TrailingSlash(Join(parts));
    assert IsClean(parts[|parts| - 1]);
  }

  lemma {:induction false} TrimOneSlash(cut: string, parts: seq<string>)
    requires AllClean(parts) && CutsAt(Split(cut), parts) && cut != "" && cut[0] != '/' && cut[|cut| - 1] == '/'
    ensures var u := cut[..|cut| - 1];
            && TrimSlashes(cut) == u != "" && CutsAt(Split(u), parts)
            && IsClean(LastSegment(u))
  {
    var r, u := Split(cut), cut[..|cut| - 1];
    TrailingSlash(cut);
    var q := Split(u);
    var last := |q| - 1;
    assert q == r[..|r| - 1] == parts[..|r| - 1];
    assert q[last] == parts[last] && IsClean(parts[last]);
    assert q[..last] == parts[..last];
    assert u != "" && u[0] == cut[0];
    TrailingSlash(u);
  }

  /** What truncation and the final trim leave of a clean path: clean segments and
      one last segment, possibly cut short but never empty. */
  lemma {:induction false} TruncatedPath(parts: seq<string>, n: nat)
    requires parts != [] && AllClean(parts) && n > 0
    ensures var path := TrimSlashes(Truncate(Join(parts), n));
            && path != "" && |path| <= n
            && CutsAt(Split(path), parts) && LastSegment(path) != ""
            && (|Join(parts)| <= n ==> path == Join(parts))
  {
    var full := Join(parts);
    var cut := Truncate(full, n);
    JoinIsNonEmpty(parts);
    NoTrailingSlash(parts);
    SplitOfJoin(parts);
    PrefixSegments(full, |cut|);
    assert cut == full[..|cut|] && cut[0] == full[0] == parts[0][0];
    if cut[|cut| - 1] == '/' {
      TrimOneSlash(cut, parts);
    } else {
      LastSegmentEndsPath(cut);
    }
  }

  lemma PrependLast(c: char, parts: seq<string>)
    requires parts != []
    ensures var r, n := Prepend(c, parts), |parts| - 1;
            r[|r| - 1] == if c != '/' && n == 0 then [c] + parts[n] else parts[n]
  {
  }

  lemma {:induction false} LastSegmentEndsPath(s: string)
    requires s != "" && s[|s| - 1] != '/'
    ensures var last := LastSegment(s); last != "" && last[|last| - 1] == s[|s| - 1]
  {
    if |s| == 1 {
      SplitOfPlain(s);
    } else {
      var rest := s[1..];
      assert s == [s[0]] + rest;
      LastSegmentEndsPath(rest);
      SplitCons(s[0], rest);
      PrependLast(s[0], Split(rest));
    }
  }

  function Cleaned(raw: string): seq<string> {
    CleanSegments(Split(Unslash(raw)))
  }

  /** A path of at most 256 characters whose segments are nonempty and, all but the
      last for certain, clean. */
  ghost predicate IsNormalized(path: string) {
    var p := Split(path);
    && 0 < |path| <= MAX_FOLDER_LEN
    && '\\' !in path
    && AllClean(p[..|p| - 1])
    && p[|p| - 1] != ""
  }

  lemma {:induction false} CutIsNormalized(path: string, parts: seq<string>)
    requires 0 < |path| <= MAX_FOLDER_LEN && AllClean(parts) && CutsAt(Split(path), parts)
    requires LastSegment(path) != ""
    ensures IsNormalized(path)
  {
    var p := Split(path);
    var last := |p| - 1;
    forall i | 0 <= i < last
      ensures IsClean(p[..last][i])
    {
      assert p[..last][i] == parts[..last][i] == parts[i];
    }
    BackslashFree(p, last, parts);
    JoinKeepsOut(p, '\\');
    JoinOfSplit(path);
  }

  /** Every folder normalization returns has that shape; when the cleaned path fits
      it is kept whole. */
  lemma {:induction false} NormalizedShape(raw: string, path: string)
    requires NormalizeFolder(Some(raw)) == Some(path)
    ensures IsNormalized(path)
    ensures |Join(Cleaned(raw))| <= MAX_FOLDER_LEN ==> AllClean(Split(path)) && path == Join(Cleaned(raw))
  {
    RawSegmentsAreClean(raw);
    TruncatedPath(Cleaned(raw), MAX_FOLDER_LEN);
    CutIsNormalized(path, Cleaned(raw));
    SplitOfJoin(Cleaned(raw));
  }

  lemma BackslashFree(p: seq<string>, last: nat, cleaned: seq<string>)
    requires CutsAt(p, cleaned) && last == |p| - 1 && AllClean(cleaned)
    ensures forall i :: 0 <= i < |p| ==> '\\' !in p[i]
  {
    assert forall i :: 0 <= i < last ==> p[i] == p[..last][i] == cleaned[..last][i] == cleaned[i];
    assert forall c :: c in p[last] ==> c in cleaned[last];
  }

  lemma {:induction false} JoinKeepsOut(parts: seq<string>, c: char)
    requires c != '/' && forall i :: 0 <= i < |parts| ==> c !in parts[i]
    ensures c !in Join(parts)
  {
    if |parts| > 1 {
      JoinKeepsOut(parts[1..], c);
    }
  }

  lemma UnslashIsIdentity(s: string)
    requires '\\' !in s
    ensures Unslash(s) == s
  {
  }

  lemma {:induction false} CleanPathIsStable(path: string)
    requires 0 < |path| <= MAX_FOLDER_LEN && '\\' !in path && AllClean(Split(path))
    ensures NormalizeFolder(Some(path)) == Some(path)
  {
    UnslashIsIdentity(path);
    CleanSegmentsKeepClean(Split(path));
    JoinOfSplit(path);
    TruncatedPath(Split(path), MAX_FOLDER_LEN);
  }

  lemma {:induction false} TrimOnlyShortens(s: string)
    ensures |TrimSlashes(s)| <= |s|
  {
    if s != "" && s[|s| - 1] == '/' {
      TrimOnlyShortens(s[..|s| - 1]);
    }
  }

  lemma {:induction false} StripShortens(s: string)
    requires !IsClean(s) && '/' !in s && '\\' !in s && IsKept(Strip(s))
    ensures |Strip(s)| < |s|
  {
    StripResult(s);
  }

  lemma {:induction false} JoinLength(front: seq<string>, last: string)
    ensures |Join(front + [last])| == |last| + if front == [] then 0 else |Join(front)| + 1
  {
    if front == [] {
      assert front + [last] == [last];
    } else {
      JoinAppend(front, [last]);
    }
  }

  lemma {:induction false} UncleanLastShrinks(front: seq<string>, last: string)
    requires AllClean(front) && last != "" && !IsClean(last) && '/' !in last && '\\' !in last
    ensures var again := CleanSegments(front + [last]);
            again == [] || |Join(again)| < |Join(front + [last])|
  {
    var kept := Strip(last);
    CleanSegmentsKeepClean(front);
    CleanOneMore(front, last);
    JoinLength(front, last);
    if IsKept(kept) {
      StripShortens(last);
      JoinLength(front, kept);
    } else {
      assert front + [] == front;
    }
  }

  lemma {:induction false} UncleanPathChanges(path: string)
    requires IsNormalized(path) && !IsClean(LastSegment(path))
    ensures NormalizeFolder(Some(path)) != Some(path)
  {
    var p := Split(path);
    var front, last := p[..|p| - 1], p[|p| - 1];
    UnslashIsIdentity(path);
    JoinOfSplit(path);
    SplitHasNoSlash(path);
    SplitKeepsOut(path, '\\');
    assert last in p && p == front + [last];
    UncleanLastShrinks(front, last);
    TrimOnlyShortens(Truncate(Join(CleanSegments(p)), MAX_FOLDER_LEN));
  }

  lemma {:induction false} StableIffLastIsClean(raw: string, path: string)
    requires NormalizeFolder(Some(raw)) == Some(path)
    ensures NormalizeFolder(Some(path)) == Some(path) <==> IsClean(LastSegment(path))
    ensures AllClean(Split(path)) <==> IsClean(LastSegment(path))
    ensures (forall x :: x in Split(path) ==> IsKept(x)) <==> IsKept(LastSegment(path))
  {
    NormalizedShape(raw, path);
    SegmentsBeforeLast(path);
    if IsClean(LastSegment(path)) {
      CleanPathIsStable(path);
    } else {
      UncleanPathChanges(path);
    }
  }

  lemma {:induction false} SegmentsBeforeLast(path: string)
    requires IsNormalized(path)
    ensures AllClean(Split(path)) <==> IsClean(LastSegment(path))
    ensures (forall x :: x in Split(path) ==> IsKept(x)) <==> IsKept(LastSegment(path))
  {
    var p := Split(path);
    assert LastSegment(path) in p;
    forall i | 0 <= i < |p| - 1
      ensures IsClean(p[i])
    {
      assert p[..|p| - 1][i] == p[i];
    }
  }

  /** Where the cut at 256 characters falls, if there is one: on a separator, or in a
      segment that stays one to keep and does not come to end in a space. */
  ghost predicate CutsClean(full: string) {
    CutsKept(full) && (|full| > MAX_FOLDER_LEN ==> !IsSpace(full[MAX_FOLDER_LEN - 1]))
  }

  ghost predicate CutsKept(full: string) {
    || |full| <= MAX_FOLDER_LEN
    || full[MAX_FOLDER_LEN - 1] == '/'
    || IsKept(LastSegment(full[..MAX_FOLDER_LEN]))
  }

  /** A nonempty beginning of a clean segment is clean unless it is dots or ends in a space. */
  lemma BeginningIsClean(cut: string, whole: string)
    requires IsClean(whole) && cut != "" && cut <= whole
    ensures IsClean(cut) <==> IsKept(cut) && !IsSpace(cut[|cut| - 1])
  {
    assert cut[0] == whole[0];
    assert forall c :: c in cut ==> c in whole;
  }

  lemma {:induction false} LastIsCleanIff(parts: seq<string>)
    requires parts != [] && AllClean(parts)
    ensures var path := TrimSlashes(Truncate(Join(parts), MAX_FOLDER_LEN));
            && (IsClean(LastSegment(path)) <==> CutsClean(Join(parts)))
            && (IsKept(LastSegment(path)) <==> CutsKept(Join(parts)))
  {
    var full := Join(parts);
    SplitOfJoin(parts);
    if |full| <= MAX_FOLDER_LEN {
      TruncatedPath(parts, MAX_FOLDER_LEN);
      assert IsClean(parts[|parts| - 1]);
    } else {
      CutLastSegment(parts, full, full[..MAX_FOLDER_LEN]);
    }
  }

  lemma {:induction false} CutLastSegment(parts: seq<string>, full: string, cut: string)
    requires parts != [] && AllClean(parts) && full == Join(parts) && Split(full) == parts
    requires cut != "" && cut <= full
    ensures if cut[|cut| - 1] == '/' then IsClean(LastSegment(TrimSlashes(cut)))
            else TrimSlashes(cut) == cut
                 && (IsClean(LastSegment(cut)) <==> IsKept(LastSegment(cut)) && !IsSpace(cut[|cut| - 1]))
  {
    assert cut == full[..|cut|];
    PrefixSegments(full, |cut|);
    JoinIsNonEmpty(parts);
    if cut[|cut| - 1] == '/' {
      TrimOneSlash(cut, parts);
    } else {
      var k := |Split(cut)| - 1;
      LastSegmentEndsPath(cut);
      BeginningIsClean(LastSegment(cut), parts[k]);
    }
  }

  /** Exactly which inputs come through normalization clean, with every segment as
      the function promises to leave it, and so are unchanged by a second one: those
      whose cleaned path is cut, if at all, on a separator or in a segment that does
      not turn into dots or end in a space. */
  lemma {:induction false} NormalizeStableIff(raw: string, path: string)
    requires NormalizeFolder(Some(raw)) == Some(path)
    ensures var full := Join(Cleaned(raw));
            && (NormalizeFolder(Some(path)) == Some(path) <==> CutsClean(full))
            && (AllClean(Split(path)) <==> CutsClean(full))
            && ((forall x :: x in Split(path) ==> IsKept(x)) <==> CutsKept(full))
  {
    StableIffLastIsClean(raw, path);
    RawSegmentsAreClean(raw);
    LastIsCleanIff(Cleaned(raw));
  }

  /** So truncation can leave a segment the function promises to drop: here the
      cut turns a name that starts with two dots into the parent segment. */
  lemma {:induction false} TruncationCanLeaveDots(front: string, tail: string)
    requires |front| == 253 && IsClean(front) && IsClean(".." + tail)
    ensures NormalizeFolder(Some(front + "/" + (".." + tail))) == Some(front + "/" + "..")
    ensures Split(front + "/" + "..") == [front, ".."] && !IsClean("..")
  {
    var dots := ".." + tail;
    var raw, cut := front + "/" + dots, front + "/" + "..";
    TwoSegments(front, dots);
    TwoSegments(front, "..");
    UnslashIsIdentity(raw);
    CleanSegmentsKeepClean([front, dots]);
    assert Truncate(raw, MAX_FOLDER_LEN) == cut;
    assert TrimSlashes(cut) == cut;
  }

  lemma {:induction false} TwoSegments(a: string, b: string)
    requires '/' !in a && '/' !in b
    ensures Split(a + "/" + b) == [a, b] && Join([a, b]) == a + "/" + b
  {
    SplitAtSeparator(a, b);
    SplitOfPlain(a);
    SplitOfPlain(b);
    assert [a, b][1..] == [b] && [a] + [b] == [a, b];
  }

  function TrimLeadingSlashes(s: string): string {
    if s != "" && s[0] == '/' then TrimLeadingSlashes(s[1..]) else s
  }

  /** The client's reading of a stored folder; "" is the root. */
  function DocFolder(folder: Option<string>): string {
    TrimSlashes(TrimLeadingSlashes(folder.GetOr("")))
  }

  ghost predicate AllSlashes(s: string) {
    forall c :: c in s ==> c == '/'
  }

  lemma {:induction false} TrimsOnlySlashes(s: string)
    ensures |TrimSlashes(s)| <= |s| && TrimSlashes(s) == s[..|TrimSlashes(s)|] && AllSlashes(s[|TrimSlashes(s)|..])
    ensures TrimSlashes(s) != "" ==> TrimSlashes(s)[|TrimSlashes(s)| - 1] != '/'
  {
    if s != "" && s[|s| - 1] == '/' {
      var front := s[..|s| - 1];
      TrimsOnlySlashes(front);
      var k := |TrimSlashes(s)|;
      assert s[k..] == front[k..] + ['/'];
    }
  }

  lemma {:induction false} TrimsOnlyLeadingSlashes(s: string)
    ensures var t := TrimLeadingSlashes(s);
            |t| <= |s| && t == s[|s| - |t|..] && AllSlashes(s[..|s| - |t|]) && (t != "" ==> t[0] != '/')
  {
    if s != "" && s[0] == '/' {
      TrimsOnlyLeadingSlashes(s[1..]);
      var k := |s| - |TrimLeadingSlashes(s)|;
      assert s[..k] == ['/'] + s[1..][..k - 1];
    }
  }

  /** Which folders normalize to the root, and what the others keep: with backslashes
      read as slashes, the stripped segments that are neither empty nor dots, in
      order, as far as 256 characters go. */
  lemma {:induction false} NormalizeKeeps(raw: string)
    ensures var read := seq(|raw|, i requires 0 <= i < |raw| => if raw[i] == '\\' then '/' else raw[i]);
            var parts := Split(read);
            && (NormalizeFolder(Some(raw)).None? <==> KeptPositions(parts) == {})
            && (NormalizeFolder(Some(raw)).Some? ==>
                  exists kept :: Selection(kept, StrippedAll(parts), KeptPositions(parts))
                    && NormalizeFolder(Some(raw)).value <= Join(kept) && CutShort(NormalizeFolder(Some(raw)).value, Join(kept)))
  {
    var parts := Split(Unslash(raw));
    assert Unslash(raw) == seq(|raw|, i requires 0 <= i < |raw| => if raw[i] == '\\' then '/' else raw[i]);
    CleanSegmentsSelect(parts);
    var kept := CleanSegments(parts);
    SelectedIffAny(kept, StrippedAll(parts), KeptPositions(parts));
    RawSegmentsAreClean(raw);
    if raw == "" {
      assert parts == [""] && Strip("") == "";
    } else if kept != [] {
      TruncatedPath(kept, MAX_FOLDER_LEN);
      TrimsOnlySlashes(Truncate(Join(kept), MAX_FOLDER_LEN));
    }
  }

  /** `path` is all of `full`, or its first 256 characters without slashes at the end. */
  ghost predicate CutShort(path: string, full: string) {
    if |full| <= 256 then path == full else |path| <= 256 && path <= full && AllSlashes(full[|path|..256])
  }

  lemma SelectedIffAny<T>(r: seq<T>, s: seq<T>, chosen: set<nat>)
    requires Selection(r, s, chosen)
    ensures r == [] <==> chosen == {}
  {
    var at: seq<nat> :| Picks(r, s, at) && Elements(at) == chosen;
    NonEmptyElements(at);
  }

  /** The client drops slashes at the two ends and nothing else. */
  lemma {:induction false} ClientDropsOnlySlashes(folder: string) returns (i: nat, j: nat)
    ensures i <= j <= |folder| && DocFolder(Some(folder)) == folder[i..j]
    ensures AllSlashes(folder[..i]) && AllSlashes(folder[j..])
    ensures i < j ==> folder[i] != '/' && folder[j - 1] != '/'
  {
    var t := TrimLeadingSlashes(folder);
    TrimsOnlyLeadingSlashes(folder);
    TrimsOnlySlashes(t);
    i := |folder| - |t|;
    j := i + |TrimSlashes(t)|;
    assert folder[j..] == t[|TrimSlashes(t)|..];
  }

  /** The client reads every folder the server normalizes as it is. */
  lemma {:induction false} ClientKeepsNormalizedFolders(raw: string, path: string)
    requires NormalizeFolder(Some(raw)) == Some(path)
    ensures DocFolder(Some(path)) == path
  {
    RawSegmentsAreClean(raw);
    TruncatedPath(Cleaned(raw), MAX_FOLDER_LEN);
    TrailingSlash(path);
  }
}
