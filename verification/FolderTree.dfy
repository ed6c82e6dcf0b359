/** The folder tree the client derives from its documents. */
module FolderTree {
  import opened Prelude
  import opened FolderPaths

  // ---- The derived tree ---------------------------------------------------

  function JoinFolder(base: string, name: string): string {
    if base == "" then name else if name == "" then base else base + "/" + name
  }

  predicate StartsWith(s: string, prefix: string) {
    prefix <= s
  }

  predicate IsUnder(folder: string, full: string) {
    folder == full || StartsWith(folder, full + "/")
  }

  lemma {:induction false} BelowSegments(folder: string, full: string)
    requires full != "" && StartsWith(folder, full + "/")
    ensures Segments(folder) == Segments(full) + Split(folder[|full| + 1..])
  {
    var rest := folder[|full| + 1..];
    assert folder == full + "/" + rest;
    SplitAtSeparator(full, rest);
  }

  lemma {:induction false} SegmentPrefixIsUnder(folder: string, full: string)
    requires full != "" && Segments(full) <= Segments(folder)
    ensures IsUnder(folder, full)
  {
    var c, p := Segments(full), Segments(folder);
    JoinOfSplit(full);
    JoinOfSplit(folder);
    if |c| < |p| {
      var rest := p[|c|..];
      assert p == c + rest;
      JoinAppend(c, rest);
      assert folder[..|full| + 1] == full + "/";
    } else {
      assert p == c;
    }
  }

  /** A text prefix test on paths is a prefix test on segments. */
  lemma {:induction false} IsUnderMeans(folder: string, full: string)
    requires full != ""
    ensures IsUnder(folder, full) <==> Segments(full) <= Segments(folder)
    ensures StartsWith(folder, full + "/") ==>
              Segments(folder) == Segments(full) + Split(folder[|full| + 1..])
  {
    if StartsWith(folder, full + "/") {
      BelowSegments(folder, full);
    }
    if Segments(full) <= Segments(folder) {
      SegmentPrefixIsUnder(folder, full);
    }
  }

  ghost predicate IsAncestor(f: string, folder: string) {
    exists i :: 1 <= i <= |Segments(folder)| && f == Join(Segments(folder)[..i])
  }

  method AddAncestors(all: set<string>, folder: string) returns (r: set<string>)
    ensures forall f :: f in r <==> f in all || IsAncestor(f, folder)
  {
    r := all;
    var parts := Segments(folder);
    if parts == [] {
      return;
    }
    for k := 0 to |parts|
      invariant forall f :: f in r <==> f in all || exists i :: 1 <= i <= k && f == Join(parts[..i])
    {
      var prefix := Join(parts[..k + 1]);
      ghost var before := r;
      r := r + {prefix};
      forall f
        ensures f in r <==> f in all || exists i :: 1 <= i <= k + 1 && f == Join(parts[..i])
      {
        if f in before && f !in all {
          var i :| 1 <= i <= k && f == Join(parts[..i]);
        }
      }
    }
  }

  ghost predicate IsFolderOf(f: string, folders: seq<string>) {
    exists d :: d in folders && IsAncestor(f, d)
  }

  /** Every folder of every document, with all its ancestors, and the pending ones. */
  method AllFolders(folders: seq<string>, pending: seq<string>) returns (all: set<string>)
    ensures forall f :: f in all <==> f in pending || IsFolderOf(f, folders)
  {
    all := {};
    for i := 0 to |folders|
      invariant forall f :: f in all <==> IsFolderOf(f, folders[..i])
    {
      all := AddAncestors(all, folders[i]);
      assert forall d :: d in folders[..i + 1] <==> d in folders[..i] || d == folders[i];
    }
    assert folders[..|folders|] == folders;
    for i := 0 to |pending|
      invariant forall f :: f in all <==> f in pending[..i] || IsFolderOf(f, folders)
    {
      assert pending[..i + 1] == pending[..i] + [pending[i]];
      all := all + {pending[i]};
    }
    assert pending[..|pending|] == pending;
  }

  /** `name` labels a direct child of `cwd` on the way to some folder. */
  ghost predicate IsSubfolder(name: string, cwd: string, all: set<string>) {
    name != "" && exists full :: full in all && Segments(cwd) + [name] <= Segments(full)
  }

  function ChildName(cwd: string, full: string): string {
    if cwd == "" then Split(full)[0]
    else if StartsWith(full, cwd + "/") then Split(full[|cwd| + 1..])[0]
    else ""
  }

  lemma {:induction false} ChildNameMeans(cwd: string, full: string, name: string)
    requires name != ""
    ensures ChildName(cwd, full) == name <==> Segments(cwd) + [name] <= Segments(full)
  {
    var c, p := Segments(cwd), Segments(full);
    if cwd == "" {
      assert c + [name] == [name];
    } else {
      IsUnderMeans(full, cwd);
      if StartsWith(full, cwd + "/") {
        assert p[|c|] == Split(full[|cwd| + 1..])[0];
        assert c + [p[|c|]] <= p;
      } else {
        assert c + [name] <= p ==> c <= p;
      }
    }
  }

  method Subfolders(cwd: string, all: set<string>) returns (names: set<string>)
    ensures forall n :: n in names <==> IsSubfolder(n, cwd, all)
  {
    names := {};
    var left := all;
    while left != {}
      invariant left <= all
      invariant forall n :: n in names <==> n != "" && exists full :: full in all - left && ChildName(cwd, full) == n
      decreases left
    {
      var full :| full in left;
      left := left - {full};
      var name := ChildName(cwd, full);
      if name != "" {
        names := names + {name};
      }
    }
    forall n
      ensures n in names <==> IsSubfolder(n, cwd, all)
    {
      if n != "" {
        forall full | full in all {
          ChildNameMeans(cwd, full, n);
        }
      }
    }
  }

  // ---- Counts -------------------------------------------------------------

  /** The documents, each given by its folder, directly in `cwd`. */
  function FilesHere(folders: seq<string>, cwd: string): nat {
    if folders == [] then 0
    else FilesHere(folders[..|folders| - 1], cwd) + if folders[|folders| - 1] == cwd then 1 else 0
  }

  function FolderFileCount(folders: seq<string>, full: string): nat {
    if folders == [] then 0
    else FolderFileCount(folders[..|folders| - 1], full) + if IsUnder(folders[|folders| - 1], full) then 1 else 0
  }

  ghost function UnderAt(folders: seq<string>, full: string): set<nat> {
    set i: nat | i < |folders| && (folders[i] == full || full + "/" <= folders[i])
  }

  /** The counts are of places in the list: those holding exactly this folder, and
      those holding it or a path that goes on below it. */
  lemma {:induction false} CountsAreOfPlaces(folders: seq<string>, full: string)
    ensures FilesHere(folders, full) == multiset(folders)[full]
    ensures FolderFileCount(folders, full) == |UnderAt(folders, full)|
  {
    if folders == [] {
      assert UnderAt(folders, full) == {};
    } else {
      var front, last := folders[..|folders| - 1], folders[|folders| - 1];
      CountsAreOfPlaces(front, full);
      MultisetFront(folders);
      assert UnderAt(folders, full) == UnderAt(front, full) + if IsUnder(last, full) then {|front|} else {};
    }
  }

  /** Everything at or below `cwd`; below the root that is every document. */
  function SubtreeCount(folders: seq<string>, cwd: string): nat {
    if cwd == "" then |folders| else FolderFileCount(folders, cwd)
  }

  function SumOver(names: seq<string>, folders: seq<string>, cwd: string): nat {
    if names == [] then 0
    else SumOver(names[..|names| - 1], folders, cwd)
         + FolderFileCount(folders, JoinFolder(cwd, names[|names| - 1]))
  }

  /** Documents strictly below `cwd` whose next segment is empty: a doubled slash. */
  ghost predicate IsStranded(folder: string, cwd: string) {
    && Segments(cwd) < Segments(folder)
    && Segments(folder)[|Segments(cwd)|] == ""
  }

  ghost function Stranded(folders: seq<string>, cwd: string): nat {
    Sum(seq(|folders|, i requires 0 <= i < |folders| => StrandedOne(folders[i], cwd)))
  }

  ghost function StrandedOne(folder: string, cwd: string): nat {
    if IsStranded(folder, cwd) then 1 else 0
  }

  lemma {:induction false} JoinFolderSegments(cwd: string, name: string)
    requires name != "" && '/' !in name
    ensures JoinFolder(cwd, name) != "" && Segments(JoinFolder(cwd, name)) == Segments(cwd) + [name]
  {
    SplitOfPlain(name);
    if cwd != "" {
      SplitAtSeparator(cwd, name);
    }
  }

  ghost function Listed(names: seq<string>, f: string, cwd: string): nat {
    if Segments(cwd) < Segments(f) && Segments(f)[|Segments(cwd)|] in names then 1 else 0
  }

  lemma {:induction false} InChildIff(f: string, cwd: string, name: string)
    requires name != "" && '/' !in name
    ensures IsUnder(f, JoinFolder(cwd, name)) <==> Segments(cwd) < Segments(f) && Segments(f)[|Segments(cwd)|] == name
  {
    var c, p := Segments(cwd), Segments(f);
    JoinFolderSegments(cwd, name);
    IsUnderMeans(f, JoinFolder(cwd, name));
    assert c + [name] <= p <==> c < p && p[|c|] == name;
  }

  lemma {:induction false} ListedStep(names: seq<string>, f: string, cwd: string)
    requires AreNames(names) && names != []
    ensures var n := |names| - 1;
            && AreNames(names[..n])
            && Listed(names, f, cwd)
               == Listed(names[..n], f, cwd) + if IsUnder(f, JoinFolder(cwd, names[n])) then 1 else 0
  {
    var n := |names| - 1;
    InChildIff(f, cwd, names[n]);
    Rejoin(names);
  }

  /** What the last document adds to the sum over the listed subfolders. */
  lemma {:induction false} SumStep(names: seq<string>, folders: seq<string>, cwd: string)
    requires AreNames(names) && folders != []
    ensures var n := |folders| - 1;
            SumOver(names, folders, cwd) == SumOver(names, folders[..n], cwd) + Listed(names, folders[n], cwd)
  {
    if names != [] {
      ListedStep(names, folders[|folders| - 1], cwd);
      SumStep(names[..|names| - 1], folders, cwd);
    }
  }

  /** `f` is at or above `cwd`, in one of the named children, or stranded. */
  ghost predicate Fits(names: seq<string>, f: string, cwd: string) {
    Segments(cwd) < Segments(f) ==> (Segments(f)[|Segments(cwd)|] in names <==> !IsStranded(f, cwd))
  }

  ghost predicate AreNames(names: seq<string>) {
    Distinct(names) && forall i :: 0 <= i < |names| ==> names[i] != "" && '/' !in names[i]
  }

  ghost predicate Lists(names: seq<string>, folders: seq<string>, cwd: string) {
    AreNames(names) && forall i :: 0 <= i < |folders| ==> Fits(names, folders[i], cwd)
  }

  lemma {:induction false} SumOverNothing(names: seq<string>, cwd: string)
    ensures SumOver(names, [], cwd) == 0
  {
    if names != [] {
      SumOverNothing(names[..|names| - 1], cwd);
    }
  }

  lemma {:induction false} StrandedStep(folders: seq<string>, cwd: string)
    requires folders != []
    ensures var n := |folders| - 1;
            Stranded(folders, cwd) == Stranded(folders[..n], cwd) + StrandedOne(folders[n], cwd)
  {
    var n := |folders| - 1;
    var flags := seq(|folders|, i requires 0 <= i < |folders| => StrandedOne(folders[i], cwd));
    assert flags[..n] == seq(n, i requires 0 <= i < n => StrandedOne(folders[..n][i], cwd));
  }

  ghost predicate AddsUp(names: seq<string>, folders: seq<string>, cwd: string) {
    SubtreeCount(folders, cwd) == FilesHere(folders, cwd) + SumOver(names, folders, cwd) + Stranded(folders, cwd)
  }

  /** The last document counts on both sides of the sum, or is stranded. */
  lemma {:induction false} LastAddsUp(names: seq<string>, folders: seq<string>, cwd: string)
    requires AreNames(names) && folders != [] && Fits(names, folders[|folders| - 1], cwd)
    requires AddsUp(names, folders[..|folders| - 1], cwd)
    ensures AddsUp(names, folders, cwd)
  {
    StrandedStep(folders, cwd);
    SumStep(names, folders, cwd);
    AtOrBelow(folders[|folders| - 1], cwd);
  }

  lemma {:induction false} CountsAddUp(names: seq<string>, folders: seq<string>, cwd: string)
    requires Lists(names, folders, cwd)
    ensures AddsUp(names, folders, cwd)
  {
    if folders == [] {
      SumOverNothing(names, cwd);
    } else {
      var n := |folders| - 1;
      assert forall i :: 0 <= i < n ==> folders[..n][i] == folders[i];
      CountsAddUp(names, folders[..n], cwd);
      LastAddsUp(names, folders, cwd);
    }
  }

  /** A document at or below `cwd` is in it or strictly below it. */
  lemma {:induction false} AtOrBelow(f: string, cwd: string)
    ensures Segments(cwd) <= Segments(f) <==> f == cwd || Segments(cwd) < Segments(f)
    ensures cwd != "" ==> (IsUnder(f, cwd) <==> Segments(cwd) <= Segments(f))
  {
    if cwd != "" {
      IsUnderMeans(f, cwd);
    }
    if Segments(cwd) == Segments(f) && f != "" && cwd != "" {
      JoinOfSplit(f);
      JoinOfSplit(cwd);
    }
  }

  lemma {:induction false} SubfolderIsPlain(name: string, cwd: string, all: set<string>)
    requires IsSubfolder(name, cwd, all)
    ensures name != "" && '/' !in name
  {
    var full :| full in all && Segments(cwd) + [name] <= Segments(full);
    SplitHasNoSlash(full);
    assert Segments(full)[|Segments(cwd)|] == name;
  }

  lemma {:induction false} ChildIsListed(f: string, folders: seq<string>, all: set<string>, cwd: string)
    requires f in folders && forall g :: IsFolderOf(g, folders) ==> g in all
    requires Segments(cwd) < Segments(f) && Segments(f)[|Segments(cwd)|] != ""
    ensures IsSubfolder(Segments(f)[|Segments(cwd)|], cwd, all)
  {
    var c := Segments(cwd);
    NextStepIsListed(f, folders, all, |c|);
    assert c + [Segments(f)[|c|]] <= Segments(Join(Segments(f)[..|c| + 1]));
  }

  lemma {:induction false} SubfoldersListChildren(names: set<string>, listed: seq<string>, all: set<string>, folders: seq<string>, cwd: string)
    requires forall n :: n in names <==> IsSubfolder(n, cwd, all)
    requires forall f :: IsFolderOf(f, folders) ==> f in all
    requires Distinct(listed) && forall n :: n in listed <==> n in names
    ensures Lists(listed, folders, cwd)
  {
    forall i | 0 <= i < |listed|
      ensures listed[i] != "" && '/' !in listed[i]
    {
      assert listed[i] in listed;
      SubfolderIsPlain(listed[i], cwd, all);
    }
    forall i | 0 <= i < |folders|
      ensures Fits(listed, folders[i], cwd)
    {
      var f, c := folders[i], Segments(cwd);
      if c < Segments(f) && Segments(f)[|c|] != "" {
        ChildIsListed(f, folders, all, cwd);
      }
    }
  }

  lemma {:induction false} NextStepIsListed(f: string, folders: seq<string>, all: set<string>, i: nat)
    requires f in folders && i < |Segments(f)| && Segments(f)[i] != ""
    requires forall g :: IsFolderOf(g, folders) ==> g in all
    ensures var full := Join(Segments(f)[..i + 1]); full in all && Segments(full) == Segments(f)[..i + 1]
  {
    var p := Segments(f);
    var full := Join(p[..i + 1]);
    assert IsAncestor(full, f) && IsFolderOf(full, folders);
    SplitHasNoSlash(f);
    SplitOfJoin(p[..i + 1]);
    assert p[..i + 1][i] == p[i] && Split("") == [""];
  }

  /** At every folder the subtree count is the files directly there plus the
      counts of the subfolders listed, in any order, if and only if no document
      below has an empty segment next. */
  lemma {:induction false} SubtreeCountsAddUpIff(names: set<string>, listed: seq<string>, all: set<string>, folders: seq<string>, cwd: string)
    requires forall n :: n in names <==> IsSubfolder(n, cwd, all)
    requires forall f :: IsFolderOf(f, folders) ==> f in all
    requires Distinct(listed) && forall n :: n in listed <==> n in names
    ensures SubtreeCount(folders, cwd) == FilesHere(folders, cwd) + SumOver(listed, folders, cwd)
       <==> NoneStranded(folders, cwd)
  {
    SubfoldersListChildren(names, listed, all, folders, cwd);
    CountsAddUp(listed, folders, cwd);
    NoneStrandedIff(folders, cwd);
  }

  ghost predicate NoneStranded(folders: seq<string>, cwd: string) {
    forall i :: 0 <= i < |folders| ==> !IsStranded(folders[i], cwd)
  }

  lemma {:induction false} NoneStrandedIff(folders: seq<string>, cwd: string)
    ensures Stranded(folders, cwd) == 0 <==> forall i :: 0 <= i < |folders| ==> StrandedOne(folders[i], cwd) == 0
  {
    var flags := seq(|folders|, i requires 0 <= i < |folders| => StrandedOne(folders[i], cwd));
    SumIsZeroIff(flags);
    assert forall i :: 0 <= i < |folders| ==> flags[i] == StrandedOne(folders[i], cwd);
  }

  // ---- Navigation ---------------------------------------------------------

  /** The folder shown after opening these subfolders from the root, in turn. */
  function FolderAt(names: seq<string>): string {
    if names == [] then "" else JoinFolder(FolderAt(names[..|names| - 1]), names[|names| - 1])
  }

  /** Each name is listed in the folder shown when it is opened. */
  ghost predicate CanOpen(names: seq<string>, all: set<string>) {
    names == [] ||
    var n := |names| - 1;
    CanOpen(names[..n], all) && IsSubfolder(names[n], FolderAt(names[..n]), all)
  }

  ghost predicate IsNavigable(f: string, all: set<string>) {
    exists names :: CanOpen(names, all) && FolderAt(names) == f
  }

  /** The names opened are the segments of the folder reached. */
  lemma {:induction false} OpenedNamesAreSegments(names: seq<string>, all: set<string>)
    requires CanOpen(names, all)
    ensures Segments(FolderAt(names)) == names && "" !in names
  {
    if names != [] {
      var n := |names| - 1;
      OpenedNamesAreSegments(names[..n], all);
      SubfolderIsPlain(names[n], FolderAt(names[..n]), all);
      JoinFolderSegments(FolderAt(names[..n]), names[n]);
      Rejoin(names);
    }
  }

  ghost predicate OpensTo(names: seq<string>, folder: string, all: set<string>) {
    CanOpen(names, all) && FolderAt(names) == folder
  }

  lemma {:induction false} OpenOneMore(names: seq<string>, name: string, all: set<string>)
    requires OpensTo(names, Join(names), all) && Segments(Join(names)) == names && name != ""
    requires var full := Join(names + [name]); full in all && Segments(full) == names + [name]
    ensures OpensTo(names + [name], Join(names + [name]), all)
  {
    assert (names + [name])[..|names|] == names;
    assert Segments(Join(names)) + [name] <= Segments(Join(names + [name]));
    JoinFolderGrows(names, name);
  }

  lemma {:induction false} OpenToPrefix(f: string, folders: seq<string>, all: set<string>, i: nat)
    requires f in folders && "" !in Segments(f) && i <= |Segments(f)|
    requires forall g :: IsFolderOf(g, folders) ==> g in all
    ensures OpensTo(Segments(f)[..i], Join(Segments(f)[..i]), all)
    ensures Segments(Join(Segments(f)[..i])) == Segments(f)[..i]
  {
    var p := Segments(f);
    if i > 0 {
      var k := i - 1;
      OpenToPrefix(f, folders, all, k);
      TakeOneMore(p, k);
      assert p[k] in p;
      NextStepIsListed(f, folders, all, k);
      OpenOneMore(p[..k], p[k], all);
    }
  }

  lemma {:induction false} JoinFolderGrows(parts: seq<string>, name: string)
    requires name != "" && (parts != [] ==> Join(parts) != "")
    ensures JoinFolder(Join(parts), name) == Join(parts + [name])
  {
    if parts == [] {
      assert parts + [name] == [name];
    } else {
      JoinAppend(parts, [name]);
    }
  }

  /** A document can be reached from the root by opening listed subfolders if and
      only if its folder has no empty segment. */
  lemma {:induction false} NavigableIff(f: string, folders: seq<string>, all: set<string>)
    requires f in folders
    requires forall g :: IsFolderOf(g, folders) ==> g in all
    ensures IsNavigable(f, all) <==> "" !in Segments(f)
  {
    if IsNavigable(f, all) {
      var names :| CanOpen(names, all) && FolderAt(names) == f;
      OpenedNamesAreSegments(names, all);
    }
    if "" !in Segments(f) {
      var p := Segments(f);
      OpenToPrefix(f, folders, all, |p|);
      JoinOfSplit(f);
      assert p[..|p|] == p;
      assert CanOpen(p, all) && FolderAt(p) == f;
    }
  }

  lemma {:induction false} NoEmptySegments(f: string)
    requires IsNormalized(f)
    ensures "" !in Segments(f)
  {
    var p := Split(f);
    forall i | 0 <= i < |p|
      ensures p[i] != ""
    {
      if i < |p| - 1 {
        assert p[..|p| - 1][i] == p[i];
      }
    }
  }

  /** Normalized folders are never stranded: on them every count adds up and every
      document can be navigated to. */
  lemma NormalizedFoldersAddUp(names: set<string>, listed: seq<string>, all: set<string>, folders: seq<string>, cwd: string)
    requires forall f :: f in folders ==> f == "" || exists raw :: NormalizeFolder(Some(raw)) == Some(f)
    requires forall n :: n in names <==> IsSubfolder(n, cwd, all)
    requires forall f :: IsFolderOf(f, folders) ==> f in all
    requires Distinct(listed) && forall n :: n in listed <==> n in names
    ensures SubtreeCount(folders, cwd) == FilesHere(folders, cwd) + SumOver(listed, folders, cwd)
    ensures forall f :: f in folders ==> IsNavigable(f, all)
  {
    forall f | f in folders
      ensures "" !in Segments(f) && IsNavigable(f, all)
    {
      if f != "" {
        var raw :| NormalizeFolder(Some(raw)) == Some(f);
        NormalizedShape(raw, f);
        NoEmptySegments(f);
      }
      NavigableIff(f, folders, all);
    }
    forall i | 0 <= i < |folders|
      ensures !IsStranded(folders[i], cwd)
    {
      assert folders[i] in folders;
    }
    SubtreeCountsAddUpIff(names, listed, all, folders, cwd);
  }
}
