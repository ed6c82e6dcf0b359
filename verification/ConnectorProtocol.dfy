/** Web connectors: owner transactions and crawl workers sharing one tenant's
    settings. Each session's read-modify-write is one atomic step. */
module ConnectorProtocol {
  import opened Prelude
  import opened Text

  const MAX_MAX_PAGES: int := 2000
  const DEFAULT_MAX_DEPTH: int := 2
  const MAX_MAX_DEPTH: int := 6
  const RUN_HISTORY_LIMIT: nat := 20
  const WEEK_MINUTES: int := 10080

  /** A configuration as submitted, and as stored after normalization. */
  datatype Config = Config(
    name: string,
    mode: string,
    startUrls: seq<string>,
    urlPrefix: Option<string>,
    includes: seq<string>,
    excludes: seq<string>,
    maxPages: int,
    maxDepth: int,
    docType: Option<string>,
    enabled: bool,
    interval: Option<int>)

  datatype RunRecord = RunRecord(runId: string, status: string, finishedAt: string)

  datatype Connector = Connector(
    id: string,
    createdAt: string,
    config: Config,
    runs: seq<RunRecord>,
    lastRunAt: Option<string>,
    lastRunEpoch: Option<real>)

  // ---- Normalization ------------------------------------------------------

  function Clamp(n: int, lo: int, hi: int): int {
    Max(lo, Min(hi, n))
  }

  function CleanList(values: seq<string>): seq<string> {
    if values == [] then []
    else
      var n := |values| - 1;
      CleanList(values[..n]) + if Strip(values[n]) != "" then [Strip(values[n])] else []
  }

  function NormalizeName(name: string): string {
    Truncate(Strip(if name == "" then "Untitled connector" else name), 128)
  }

  function NonEmpty(s: string): Option<string> {
    if s == "" then None else Some(s)
  }

  function Normalize(raw: Config): Config {
    var mode := Lower(if raw.mode == "" then "crawl" else raw.mode);
    var urls, inc, exc := CleanList(raw.startUrls), CleanList(raw.includes), CleanList(raw.excludes);
    Config(
      NormalizeName(raw.name),
      if mode in ["page", "sitemap", "crawl"] then mode else "crawl",
      urls[..Min(|urls|, 50)],
      if raw.urlPrefix.Some? then NonEmpty(Strip(raw.urlPrefix.value)) else None,
      inc[..Min(|inc|, 50)],
      exc[..Min(|exc|, 50)],
      Clamp(raw.maxPages, 1, MAX_MAX_PAGES),
      Clamp(raw.maxDepth, 0, MAX_MAX_DEPTH),
      if raw.docType.Some? then NormalizeDocType(raw.docType.value) else None,
      raw.enabled,
      if raw.interval.None? || raw.interval == Some(0) then None else Some(Clamp(raw.interval.value, 5, WEEK_MINUTES)))
  }

  ghost predicate CleanUrls(urls: seq<string>) {
    |urls| <= 50 && forall u :: u in urls ==> u != "" && IsTrimmed(u)
  }

  ghost predicate InBounds(c: Config) {
    && 1 <= c.maxPages <= MAX_MAX_PAGES
    && 0 <= c.maxDepth <= MAX_MAX_DEPTH
    && (c.interval.Some? ==> 5 <= c.interval.value <= WEEK_MINUTES)
    && c.mode in ["page", "sitemap", "crawl"]
    && |c.name| <= 128
    && CleanUrls(c.startUrls) && CleanUrls(c.includes) && CleanUrls(c.excludes)
    && (c.docType.Some? ==> 0 < |c.docType.value| <= 64)
    && (c.urlPrefix.Some? ==> c.urlPrefix.value != "" && IsTrimmed(c.urlPrefix.value))
  }

  lemma {:induction false} CleanListResult(values: seq<string>)
    ensures forall u :: u in CleanList(values) ==> u != "" && IsTrimmed(u)
  {
    if values != [] {
      CleanListResult(values[..|values| - 1]);
      StripResult(values[|values| - 1]);
    }
  }

  lemma FirstUrlsAreClean(values: seq<string>)
    ensures var urls := CleanList(values); CleanUrls(urls[..Min(|urls|, 50)])
  {
    CleanListResult(values);
    var urls := CleanList(values);
    assert forall u :: u in urls[..Min(|urls|, 50)] ==> u in urls;
  }

  /** Whatever is submitted, what is stored is bounded and clean. */
  lemma NormalizeBounds(raw: Config)
    ensures InBounds(Normalize(raw))
  {
    FirstUrlsAreClean(raw.startUrls);
    FirstUrlsAreClean(raw.includes);
    FirstUrlsAreClean(raw.excludes);
    if raw.urlPrefix.Some? {
      StripResult(raw.urlPrefix.value);
    }
  }

  lemma {:induction false} CleanListKeepsClean(values: seq<string>)
    requires forall i :: 0 <= i < |values| ==> values[i] != "" && IsTrimmed(values[i])
    ensures CleanList(values) == values
  {
    if values != [] {
      var n := |values| - 1;
      CleanListKeepsClean(values[..n]);
      StripResult(values[n]);
      Rejoin(values);
    }
  }

  lemma CleanUrlsAreKept(urls: seq<string>)
    requires CleanUrls(urls)
    ensures var kept := CleanList(urls); kept[..Min(|kept|, 50)] == urls
  {
    forall i | 0 <= i < |urls|
      ensures urls[i] != "" && IsTrimmed(urls[i])
    {
      assert urls[i] in urls;
    }
    CleanListKeepsClean(urls);
  }

  // ---- What is stored, field by field -------------------------------------

  ghost function Stripped(values: seq<string>): seq<string> {
    seq(|values|, i requires 0 <= i < |values| => Strip(values[i]))
  }

  ghost function NonBlank(values: seq<string>): set<nat> {
    set i: nat | i < |values| && Strip(values[i]) != ""
  }

  lemma {:induction false} CleanListSelects(values: seq<string>)
    ensures Selection(CleanList(values), Stripped(values), NonBlank(values))
  {
    if values == [] {
      SelectNothing<string>();
      assert NonBlank(values) == {};
    } else {
      var front, last := values[..|values| - 1], values[|values| - 1];
      CleanListSelects(front);
      NextEntry(front, last);
      Rejoin(values);
    }
  }

  lemma StrippedOneMore(front: seq<string>, last: string)
    ensures Stripped(front + [last]) == Stripped(front) + [Strip(last)]
    ensures NonBlank(front + [last]) == NonBlank(front) + if Strip(last) != "" then {|front|} else {}
  {
  }

  lemma {:induction false} NextEntry(front: seq<string>, last: string)
    requires Selection(CleanList(front), Stripped(front), NonBlank(front))
    ensures Selection(CleanList(front + [last]), Stripped(front + [last]), NonBlank(front + [last]))
  {
    var kept := CleanList(front);
    assert (front + [last])[..|front|] == front;
    StrippedOneMore(front, last);
    if Strip(last) != "" {
      SelectTake(kept, Stripped(front), NonBlank(front), Strip(last));
    } else {
      SelectSkip(kept, Stripped(front), NonBlank(front), "");
      assert kept + [] == kept;
    }
  }

  /** The stored list is the submitted one without its blank entries, the others
      stripped and in order, cut after the fiftieth. */
  ghost predicate StoresList(stored: seq<string>, submitted: seq<string>) {
    exists all :: Selection(all, Stripped(submitted), NonBlank(submitted))
                  && stored == if |all| <= 50 then all else all[..50]
  }

  /** The number itself when it is in range, and the nearest bound when it is not. */
  ghost predicate StoresNumber(stored: int, submitted: int, lo: int, hi: int) {
    && (lo <= submitted <= hi ==> stored == submitted)
    && (submitted < lo ==> stored == lo)
    && (submitted > hi ==> stored == hi)
  }

  ghost predicate StoresMode(stored: string, submitted: string) {
    if Lower(submitted) == "page" then stored == "page"
    else if Lower(submitted) == "sitemap" then stored == "sitemap"
    else stored == "crawl"
  }

  /** The stripped text, or the beginning of it that fits. */
  ghost predicate StoresText(stored: string, submitted: string, limit: nat) {
    stored <= Strip(submitted)
    && |stored| == if |Strip(submitted)| <= limit then |Strip(submitted)| else limit
  }

  ghost predicate StoresTexts(c: Config, raw: Config) {
    && StoresText(c.name, if raw.name == "" then "Untitled connector" else raw.name, 128)
    && (c.urlPrefix.None? <==> raw.urlPrefix.None? || Strip(raw.urlPrefix.value) == "")
    && (c.urlPrefix.Some? ==> c.urlPrefix.value == Strip(raw.urlPrefix.value))
    && (c.docType.None? <==> raw.docType.None? || Strip(raw.docType.value) == "")
    && (c.docType.Some? ==> |c.docType.value| == Min(64, |Strip(raw.docType.value)|)
                            && c.docType.value <= Lower(Strip(raw.docType.value)))
  }

  ghost predicate StoresSchedule(c: Config, raw: Config) {
    && c.enabled == raw.enabled
    && (c.interval.None? <==> raw.interval.None? || raw.interval.value == 0)
    && (c.interval.Some? ==> StoresNumber(c.interval.value, raw.interval.value, 5, 10080))
  }

  /** How every field of a submission is stored, each from its own. */
  ghost predicate IsStoredForm(c: Config, raw: Config) {
    && StoresTexts(c, raw) && StoresMode(c.mode, raw.mode) && StoresSchedule(c, raw)
    && StoresList(c.startUrls, raw.startUrls)
    && StoresList(c.includes, raw.includes)
    && StoresList(c.excludes, raw.excludes)
    && StoresNumber(c.maxPages, raw.maxPages, 1, 2000)
    && StoresNumber(c.maxDepth, raw.maxDepth, 0, 6)
  }

  lemma {:induction false} FirstFifty(values: seq<string>)
    ensures var urls := CleanList(values); StoresList(urls[..Min(|urls|, 50)], values)
  {
    CleanListSelects(values);
    assert CleanList(values)[..|CleanList(values)|] == CleanList(values);
  }

  lemma {:induction false} ModeIsStored(raw: Config)
    ensures StoresMode(Normalize(raw).mode, raw.mode)
  {
    if raw.mode == "" {
      assert Lower(raw.mode) == "";
      ModeIsKept("crawl");
    }
  }

  lemma {:induction false} TextsAreStored(raw: Config)
    ensures StoresTexts(Normalize(raw), raw)
  {
  }

  lemma {:induction false} NormalizeStores(raw: Config)
    ensures IsStoredForm(Normalize(raw), raw)
  {
    TextsAreStored(raw);
    ModeIsStored(raw);
    FirstFifty(raw.startUrls);
    FirstFifty(raw.includes);
    FirstFifty(raw.excludes);
  }

  /** A submission already within bounds and clean is stored as it is. */
  lemma {:induction false} CleanSubmissionIsKept(raw: Config)
    requires InBounds(raw) && raw.name != "" && IsTrimmed(raw.name)
    requires raw.docType.Some? ==> IsTrimmed(raw.docType.value) && Lower(raw.docType.value) == raw.docType.value
    ensures Normalize(raw) == raw
  {
    StripResult(raw.name);
    CleanUrlsAreKept(raw.startUrls);
    CleanUrlsAreKept(raw.includes);
    CleanUrlsAreKept(raw.excludes);
    ModeIsKept(raw.mode);
    if raw.docType.Some? {
      StripResult(raw.docType.value);
    }
    if raw.urlPrefix.Some? {
      StripResult(raw.urlPrefix.value);
    }
  }

  /** Cutting `t` after `n` characters does not leave a space at its end. */
  ghost predicate CutsClean(t: string, n: nat)
    requires n > 0
  {
    |t| <= n || !IsSpace(t[n - 1])
  }

  lemma {:induction false} CutOfTrimmed(t: string, n: nat)
    requires n > 0 && IsTrimmed(t)
    ensures Strip(Truncate(t, n)) == Truncate(t, n) <==> CutsClean(t, n)
  {
    StripResult(Truncate(t, n));
    if |t| <= n {
      StripResult(t);
    }
  }

  /** Stripping comes before truncation, so a name survives a second normalization
      if and only if stripping leaves something and the cut, if there is one, does
      not fall just after a space. A submitted name has at most 128 characters, so
      through the routes only an all-space one fails. */
  lemma {:induction false} NameStableIff(raw: string)
    ensures var n, t := NormalizeName(raw), Strip(if raw == "" then "Untitled connector" else raw);
            && (NormalizeName(n) == n <==> t != "" && CutsClean(t, 128))
            && (|raw| <= 128 ==> CutsClean(t, 128))
  {
    var t := Strip(if raw == "" then "Untitled connector" else raw);
    StripResult(if raw == "" then "Untitled connector" else raw);
    CutOfTrimmed(t, 128);
    StripResult(Truncate(t, 128));
    if t == "" {
      var untitled := "Untitled connector";
      assert |untitled| == 18 && IsTrimmed(untitled);
      StripResult(untitled);
    }
  }

  function NormalizeDocType(d: string): Option<string> {
    NonEmpty(Truncate(Lower(Strip(d)), 64))
  }

  lemma LowerKeepsShape(t: string)
    requires IsTrimmed(t)
    ensures IsTrimmed(Lower(t)) && (CutsClean(Lower(t), 64) <==> CutsClean(t, 64))
    ensures Lower(Truncate(Lower(t), 64)) == Truncate(Lower(t), 64)
  {
    var cut := Truncate(Lower(t), 64);
    assert forall i :: 0 <= i < |cut| ==> LowerChar(cut[i]) == cut[i];
  }

  /** The same of a document type, which the routes do not limit. */
  lemma {:induction false} DocTypeStableIff(raw: string)
    requires NormalizeDocType(raw).Some?
    ensures var d := NormalizeDocType(raw).value;
            NormalizeDocType(d) == Some(d) <==> CutsClean(Strip(raw), 64)
  {
    var t, d := Strip(raw), NormalizeDocType(raw).value;
    StripResult(raw);
    LowerKeepsShape(t);
    CutOfTrimmed(Lower(t), 64);
    StripResult(d);
    assert |Lower(Strip(d))| == |Strip(d)| <= |d| <= 64;
  }

  /** Normalizing a stored configuration again changes nothing if and only if the
      submitted name is not all spaces and neither the name nor the document type
      is cut just after a space. */
  lemma {:induction false} NormalizeStableIff(raw: Config)
    ensures var c, name := Normalize(raw), Strip(if raw.name == "" then "Untitled connector" else raw.name);
            Normalize(c) == c
            <==> name != "" && CutsClean(name, 128) && (raw.docType.Some? ==> CutsClean(Strip(raw.docType.value), 64))
  {
    var c := Normalize(raw);
    NormalizeBounds(raw);
    NameStableIff(raw.name);
    if c.docType.Some? {
      DocTypeStableIff(raw.docType.value);
    }
    CleanUrlsAreKept(c.startUrls);
    CleanUrlsAreKept(c.includes);
    CleanUrlsAreKept(c.excludes);
    ModeIsKept(c.mode);
    if c.urlPrefix.Some? {
      StripResult(c.urlPrefix.value);
    }
  }

  /** Two inputs the routes accept that a second normalization changes: an all-space
      name, and a document type of 65 characters with a space before the last. */
  lemma {:induction false} NormalizeTwiceDiffers(raw: Config)
    ensures var spaces := raw.(name := " ");
            Normalize(spaces).name == "" && Normalize(Normalize(spaces)).name == "Untitled connector"
    ensures var word := seq(63, _ => 'x');
            NormalizeDocType(word + " x") == Some(word + " ") && NormalizeDocType(word + " ") == Some(word)
  {
    var untitled, word := "Untitled connector", seq(63, _ => 'x');
    assert Strip(" ") == "" by {
      assert " "[1..] == "";
    }
    assert |untitled| == 18 && IsTrimmed(untitled);
    StripResult(untitled);
    StripResult(word);
    var long := word + " x";
    assert |long| == 65 && IsTrimmed(long);
    StripResult(long);
    assert Lower(long) == long && Truncate(long, 64) == word + " ";
    assert TrimRight(word + " ") == TrimRight(word) by {
      assert (word + " ")[..63] == word;
    }
    assert TrimLeft(word + " ") == word + " ";
    assert Strip(word + " ") == word && Lower(word) == word;
  }

  lemma ModeIsKept(mode: string)
    requires mode in ["page", "sitemap", "crawl"]
    ensures mode != "" && Lower(mode) == mode
  {
    if mode == "page" {
      assert |Lower(mode)| == 4;
    } else if mode == "sitemap" {
      assert |Lower(mode)| == 7;
    } else {
      assert |Lower(mode)| == 5;
    }
  }

  // ---- Stored lists -------------------------------------------------------

  function Find(items: seq<Connector>, id: string): Option<Connector> {
    if items == [] then None
    else if items[0].id == id then Some(items[0])
    else Find(items[1..], id)
  }

  ghost predicate Has(items: seq<Connector>, id: string) {
    exists i :: 0 <= i < |items| && items[i].id == id
  }

  function Replaced(items: seq<Connector>, c: Connector): seq<Connector> {
    seq(|items|, i requires 0 <= i < |items| => if items[i].id == c.id then c else items[i])
  }

  ghost function Upserted(items: seq<Connector>, c: Connector): seq<Connector> {
    if Has(items, c.id) then Replaced(items, c) else items + [c]
  }

  function Removed(items: seq<Connector>, id: string): seq<Connector> {
    if items == [] then []
    else if items[0].id == id then Removed(items[1..], id)
    else [items[0]] + Removed(items[1..], id)
  }

  method UpsertConnector(items: seq<Connector>, c: Connector) returns (out: seq<Connector>)
    ensures out == Upserted(items, c)
  {
    var replaced := false;
    out := [];
    for i := 0 to |items|
      invariant replaced <==> Has(items[..i], c.id)
      invariant out == Replaced(items[..i], c)
    {
      assert items[..i + 1] == items[..i] + [items[i]];
      assert Has(items[..i + 1], c.id) <==> Has(items[..i], c.id) || items[i].id == c.id by {
        assert forall k :: 0 <= k < i ==> items[..i + 1][k] == items[..i][k];
        assert items[..i + 1][i] == items[i];
      }
      if items[i].id == c.id {
        out := out + [c];
        replaced := true;
      } else {
        out := out + [items[i]];
      }
    }
    assert items[..|items|] == items;
    if !replaced {
      assert Replaced(items, c) == items;
      out := out + [c];
    }
  }

  function AppendRun(c: Connector, run: RunRecord): Connector {
    var runs := [run] + c.runs;
    c.(runs := runs[..Min(|runs|, RUN_HISTORY_LIMIT)], lastRunAt := Some(run.finishedAt))
  }

  predicate IsDue(c: Connector, now: real) {
    c.config.enabled && c.config.interval.Some? && c.config.interval.value != 0
    && (c.lastRunEpoch.Some? ==> now - c.lastRunEpoch.value >= c.config.interval.value as real * 60.0)
  }

  // ---- The tenant's settings ----------------------------------------------

  /** A settings value: an object, a list of connectors, or anything else. */
  datatype Json = Object(fields: map<string, Json>) | Connectors(items: seq<Connector>) | Other(text: string, truthy: bool)

  type Settings = map<string, Json>

  const CONNECTORS: string := "connectors"
  const ITEMS: string := "items"

  predicate Truthy(j: Json) {
    match j
    case Object(fields) => fields != map[]
    case Connectors(items) => items != []
    case Other(_, truthy) => truthy
  }

  /** What sits under "connectors"; a value that is no object reads as empty. */
  function Block(settings: Settings): Settings {
    if CONNECTORS in settings && settings[CONNECTORS].Object? then settings[CONNECTORS].fields else map[]
  }

  function ListConnectors(settings: Settings): seq<Connector> {
    var block := Block(settings);
    if ITEMS in block && block[ITEMS].Connectors? then block[ITEMS].items else []
  }

  /** Copying the block into a dictionary raises when it is there and is not one. */
  predicate Writable(settings: Settings) {
    CONNECTORS in settings && Truthy(settings[CONNECTORS]) ==> settings[CONNECTORS].Object?
  }

  function SaveItems(settings: Settings, items: seq<Connector>): Option<Settings> {
    if Writable(settings) then Some(settings[CONNECTORS := Object(Block(settings)[ITEMS := Connectors(items)])]) else None
  }

  /** Every key of the settings but "connectors", and every key of that block but
      "items", holds what it held. */
  ghost predicate SameElsewhere(settings: Settings, settings': Settings) {
    settings' - {CONNECTORS} == settings - {CONNECTORS} && Block(settings') - {ITEMS} == Block(settings) - {ITEMS}
  }

  lemma SaveReadsBack(settings: Settings, items: seq<Connector>)
    requires Writable(settings)
    ensures var saved := SaveItems(settings, items).value;
            ListConnectors(saved) == items && Writable(saved) && SameElsewhere(settings, saved)
  {
  }

  lemma FoundMeansWritable(settings: Settings, id: string)
    requires Find(ListConnectors(settings), id).Some?
    ensures Writable(settings)
  {
  }

  // ---- The protocol -------------------------------------------------------

  /** `workers` are the crawls in flight with the configuration each one loaded,
      `issued` every id handed out so far. */
  datatype State = State(settings: Settings, workers: map<nat, (string, Config)>, issued: set<string>)

  function Items(s: State): seq<Connector> {
    ListConnectors(s.settings)
  }

  /** The state once `items` are saved; a save that raises is rolled back. */
  function Saved(s: State, items: seq<Connector>): State {
    s.(settings := SaveItems(s.settings, items).GetOr(s.settings))
  }

  datatype Action =
    | Create(newId: string, body: Config, createdAt: string)
    | Update(id: string, body: Config)
    | Delete(id: string)
    | Load(worker: nat, id: string)
    | Finish(worker: nat, run: RunRecord, epoch: real)

  /** Fields the edit route keeps. It also copies `last_run_epoch`, but the
      normalization that follows does not. */
  function Edited(c: Connector, body: Config): Connector {
    Connector(c.id, c.createdAt, Normalize(body), c.runs, c.lastRunAt, None)
  }

  ghost function Step(s: State, a: Action): State {
    match a
    case Create(newId, body, createdAt) =>
      if newId in s.issued then s  // a random id never repeats
      else Saved(s, Upserted(Items(s), Connector(newId, createdAt, Normalize(body), [], None, None)))
           .(issued := s.issued + {newId})
    case Update(id, body) =>
      var c := Find(Items(s), id);
      if c.None? then s else Saved(s, Upserted(Items(s), Edited(c.value, body)))
    case Delete(id) =>
      if Find(Items(s), id).None? then s else Saved(s, Removed(Items(s), id))
    case Load(worker, id) =>
      var c := Find(Items(s), id);
      if c.None? then s else s.(workers := s.workers[worker := (id, c.value.config)])
    case Finish(worker, run, epoch) =>
      if worker !in s.workers then s
      else
        var c := Find(Items(s), s.workers[worker].0);
        var s' := s.(workers := s.workers - {worker});
        if c.None? then s'
        else Saved(s', Upserted(Items(s'), AppendRun(c.value, run).(lastRunEpoch := Some(epoch))))
  }

  ghost function Exec(s: State, actions: seq<Action>): State {
    if actions == [] then s
    else Step(Exec(s, actions[..|actions| - 1]), actions[|actions| - 1])
  }

  /** The unbounded log of runs recorded for a connector, newest first. */
  ghost function RunLog(s: State, actions: seq<Action>, id: string): seq<RunRecord> {
    if actions == [] then []
    else
      var n := |actions| - 1;
      var before, a, rest := Exec(s, actions[..n]), actions[n], RunLog(s, actions[..n], id);
      if a.Finish? && a.worker in before.workers && before.workers[a.worker].0 == id && Find(Items(before), id).Some?
      then [a.run] + rest else rest
  }

  // ---- The settings row as the handlers change it -------------------------

  class Tenant {
    var settings: Settings
    var workers: map<nat, (string, Config)>
    ghost var issued: set<string>

    constructor (settings: Settings)
      ensures Now() == State(settings, map[], {})
    {
      this.settings, workers, issued := settings, map[], {};
    }

    ghost function Now(): State
      reads this
    {
      State(settings, workers, issued)
    }

    /** Copy the block, put the items in, and put the block back. */
    method Save(items: seq<Connector>) returns (ok: bool)
      modifies this`settings
      ensures Now() == Saved(old(Now()), items)
      ensures ok <==> Writable(old(settings))
    {
      var block: Settings := map[];
      if CONNECTORS in settings && Truthy(settings[CONNECTORS]) {
        if !settings[CONNECTORS].Object? {
          return false;
        }
        block := settings[CONNECTORS].fields;
      }
      assert block == Block(settings);
      block := block[ITEMS := Connectors(items)];
      settings := settings[CONNECTORS := Object(block)];
      return true;
    }

    /** None when the settings hold something else under "connectors". */
    method CreateConnector(newId: string, body: Config, createdAt: string) returns (r: Option<Connector>)
      requires newId !in issued
      modifies this
      ensures Now() == Step(old(Now()), Create(newId, body, createdAt))
      ensures r.Some? <==> Writable(old(settings))
      ensures r.Some? ==> var c := r.value;
                && c.id == newId && c.createdAt == createdAt && IsStoredForm(c.config, body)
                && c.runs == [] && c.lastRunAt == None && c.lastRunEpoch == None
                && Find(ListConnectors(settings), newId) == Some(c)
      ensures "connectors" in old(settings) && old(settings)["connectors"] == Other("text", true) ==>
                r.None? && settings == old(settings)
    {
      NormalizeStores(body);
      var c := Connector(newId, createdAt, Normalize(body), [], None, None);
      var items := UpsertConnector(ListConnectors(settings), c);
      FindAfterUpsert(ListConnectors(settings), c, newId);
      if Writable(settings) {
        SaveReadsBack(settings, items);
      }
      var ok := Save(items);
      issued := issued + {newId};
      return if ok then Some(c) else None;
    }

    method UpdateConnector(id: string, body: Config) returns (r: Option<Connector>)
      modifies this
      ensures Now() == Step(old(Now()), Update(id, body))
      ensures r.None? <==> Find(ListConnectors(old(settings)), id).None?
      ensures r.Some? ==> var c, was := r.value, Find(ListConnectors(old(settings)), id).value;
                && c.id == was.id && c.createdAt == was.createdAt && IsStoredForm(c.config, body)
                && c.runs == was.runs && c.lastRunAt == was.lastRunAt && c.lastRunEpoch == None
                && Find(ListConnectors(settings), id) == Some(c)
    {
      NormalizeStores(body);
      var existing := Find(ListConnectors(settings), id);
      if existing.None? {
        return None;
      }
      var c := Edited(existing.value, body);
      var items := UpsertConnector(ListConnectors(settings), c);
      FindMeans(ListConnectors(settings), id);
      FindAfterUpsert(ListConnectors(settings), c, id);
      FoundMeansWritable(settings, id);
      SaveReadsBack(settings, items);
      var _ := Save(items);
      return Some(c);
    }

    method DeleteConnector(id: string) returns (ok: bool)
      modifies this
      ensures Now() == Step(old(Now()), Delete(id))
      ensures ok <==> Find(ListConnectors(old(settings)), id).Some?
    {
      ok := Find(ListConnectors(settings), id).Some?;
      if ok {
        var _ := Save(Removed(ListConnectors(settings), id));
      }
    }

    method LoadConnector(worker: nat, id: string) returns (ok: bool)
      modifies this
      ensures Now() == Step(old(Now()), Load(worker, id))
      ensures ok <==> Find(ListConnectors(settings), id).Some?
    {
      var c := Find(ListConnectors(settings), id);
      ok := c.Some?;
      if ok {
        workers := workers[worker := (id, c.value.config)];
      }
    }

    method FinishRun(worker: nat, run: RunRecord, epoch: real)
      requires worker in workers
      modifies this
      ensures Now() == Step(old(Now()), Finish(worker, run, epoch))
    {
      var current := Find(ListConnectors(settings), workers[worker].0);
      workers := workers - {worker};
      if current.Some? {
        var updated := AppendRun(current.value, run).(lastRunEpoch := Some(epoch));
        var items := UpsertConnector(ListConnectors(settings), updated);
        var _ := Save(items);
      }
    }
  }

  // ---- What every step keeps ----------------------------------------------

  ghost predicate ItemsInv(items: seq<Connector>, issued: set<string>) {
    && (forall i, j :: 0 <= i < j < |items| ==> items[i].id != items[j].id)
    && (forall i :: 0 <= i < |items| ==> items[i].id in issued && InBounds(items[i].config))
  }

  ghost predicate WorkersInv(workers: map<nat, (string, Config)>, issued: set<string>) {
    forall w :: w in workers ==> workers[w].0 in issued && InBounds(workers[w].1)
  }

  ghost predicate Inv(s: State) {
    ItemsInv(Items(s), s.issued) && WorkersInv(s.workers, s.issued)
  }

  lemma {:induction false} FindMeans(items: seq<Connector>, id: string)
    ensures Find(items, id).Some? <==> Has(items, id)
    ensures Find(items, id).Some? ==> Find(items, id).value in items && Find(items, id).value.id == id
  {
    if items != [] && items[0].id != id {
      FindMeans(items[1..], id);
      if Has(items, id) {
        var i :| 0 <= i < |items| && items[i].id == id;
        assert items[1..][i - 1].id == id;
      }
      if Has(items[1..], id) {
        var i :| 0 <= i < |items[1..]| && items[1..][i].id == id;
        assert items[i + 1].id == id;
      }
    }
  }

  lemma {:induction false} FindAfterUpsert(items: seq<Connector>, c: Connector, id: string)
    ensures Find(Upserted(items, c), id) == if id == c.id then Some(c) else Find(items, id)
  {
    if items == [] {
      assert Upserted(items, c) == [c];
    } else {
      var rest := items[1..];
      FindAfterUpsert(rest, c, id);
      if items[0].id != c.id {
        assert Has(items, c.id) <==> Has(rest, c.id) by {
          FindMeans(items, c.id);
          FindMeans(rest, c.id);
        }
        assert Upserted(items, c)[1..] == Upserted(rest, c) && Upserted(items, c)[0] == items[0];
      } else {
        assert Upserted(items, c)[0] == c && Upserted(items, c)[1..] == Replaced(rest, c);
        if id != c.id {
          FindAfterReplace(rest, c, id);
        }
      }
    }
  }

  lemma {:induction false} FindAfterReplace(items: seq<Connector>, c: Connector, id: string)
    requires id != c.id
    ensures Find(Replaced(items, c), id) == Find(items, id)
  {
    if items != [] {
      assert Replaced(items, c)[1..] == Replaced(items[1..], c);
      FindAfterReplace(items[1..], c, id);
    }
  }

  lemma {:induction false} FindAfterRemove(items: seq<Connector>, gone: string, id: string)
    ensures Find(Removed(items, gone), id) == if id == gone then None else Find(items, id)
  {
    if items != [] {
      FindAfterRemove(items[1..], gone, id);
    }
  }

  lemma {:induction false} RemovedExactly(items: seq<Connector>, gone: string, c: Connector)
    ensures c in Removed(items, gone) <==> c in items && c.id != gone
  {
    if items != [] {
      RemovedExactly(items[1..], gone, c);
    }
  }

  lemma {:induction false} RemovedKeepsInv(items: seq<Connector>, gone: string, issued: set<string>)
    requires ItemsInv(items, issued)
    ensures ItemsInv(Removed(items, gone), issued)
  {
    if items != [] {
      var rest := Removed(items[1..], gone);
      RemovedKeepsInv(items[1..], gone, issued);
      forall i | 0 <= i < |rest|
        ensures rest[i].id != items[0].id
      {
        RemovedExactly(items[1..], gone, rest[i]);
      }
    }
  }

  lemma ReplacedKeepsInv(items: seq<Connector>, issued: set<string>, c: Connector)
    requires ItemsInv(items, issued) && c.id in issued && InBounds(c.config)
    ensures ItemsInv(Replaced(items, c), issued)
  {
    assert forall i :: 0 <= i < |items| ==> Replaced(items, c)[i].id == items[i].id;
  }

  lemma AppendedKeepsInv(items: seq<Connector>, issued: set<string>, c: Connector)
    requires ItemsInv(items, issued) && !Has(items, c.id) && c.id in issued && InBounds(c.config)
    ensures ItemsInv(items + [c], issued)
  {
  }

  lemma UpsertKeepsInv(items: seq<Connector>, issued: set<string>, c: Connector)
    requires ItemsInv(items, issued) && c.id in issued && InBounds(c.config)
    ensures ItemsInv(Upserted(items, c), issued)
  {
    if Has(items, c.id) {
      ReplacedKeepsInv(items, issued, c);
    } else {
      AppendedKeepsInv(items, issued, c);
    }
  }

  /** A save, whether it goes through or raises, touches nothing but the items. */
  lemma SaveKeepsInv(s: State, items: seq<Connector>)
    requires Inv(s) && ItemsInv(items, s.issued)
    ensures Inv(Saved(s, items)) && Outside(s, Saved(s, items))
    ensures Items(Saved(s, items)) == if Writable(s.settings) then items else Items(s)
  {
    if Writable(s.settings) {
      SaveReadsBack(s.settings, items);
    }
  }

  lemma FoundIsBounded(s: State, id: string)
    requires Inv(s) && Find(Items(s), id).Some?
    ensures var c := Find(Items(s), id).value; c.id == id && id in s.issued && InBounds(c.config)
    ensures Writable(s.settings)
  {
    FindMeans(Items(s), id);
    FoundMeansWritable(s.settings, id);
  }

  lemma MoreIssued(s: State, newId: string)
    requires Inv(s)
    ensures Inv(s.(issued := s.issued + {newId}))
  {
  }

  lemma FewerWorkers(s: State, worker: nat)
    requires Inv(s)
    ensures Inv(s.(workers := s.workers - {worker}))
  {
  }

  ghost predicate Outside(s: State, s': State) {
    SameElsewhere(s.settings, s'.settings) && s.issued <= s'.issued
  }

  /** One step keeps the invariant and every other setting, on both levels. */
  lemma StepKeepsInv(s: State, a: Action)
    requires Inv(s)
    ensures Inv(Step(s, a)) && Outside(s, Step(s, a))
  {
    match a
    case Create(newId, body, createdAt) =>
      if newId !in s.issued {
        var c := Connector(newId, createdAt, Normalize(body), [], None, None);
        var s' := s.(issued := s.issued + {newId});
        NormalizeBounds(body);
        MoreIssued(s, newId);
        UpsertKeepsInv(Items(s), s'.issued, c);
        SaveKeepsInv(s', Upserted(Items(s), c));
      }
    case Update(id, body) =>
      if Find(Items(s), id).Some? {
        var c := Edited(Find(Items(s), id).value, body);
        NormalizeBounds(body);
        FoundIsBounded(s, id);
        UpsertKeepsInv(Items(s), s.issued, c);
        SaveKeepsInv(s, Upserted(Items(s), c));
      }
    case Delete(id) =>
      RemovedKeepsInv(Items(s), id, s.issued);
      SaveKeepsInv(s, Removed(Items(s), id));
    case Load(worker, id) =>
      if Find(Items(s), id).Some? {
        FoundIsBounded(s, id);
      }
    case Finish(worker, run, epoch) =>
      FewerWorkers(s, worker);
      if worker in s.workers && Find(Items(s), s.workers[worker].0).Some? {
        var id := s.workers[worker].0;
        var c := AppendRun(Find(Items(s), id).value, run).(lastRunEpoch := Some(epoch));
        FoundIsBounded(s, id);
        UpsertKeepsInv(Items(s), s.issued, c);
        SaveKeepsInv(s.(workers := s.workers - {worker}), Upserted(Items(s), c));
      }
  }

  lemma OutsideOn(a: State, b: State, c: State)
    requires Outside(a, b) && Outside(b, c)
    ensures Outside(a, c)
  {
  }

  /** Over every interleaving: ids stay unique, every stored or running
      configuration is within bounds, and every other key of the settings and of
      the connectors block holds what it held. */
  lemma {:induction false} EveryInterleavingKeepsInv(s: State, actions: seq<Action>)
    requires Inv(s)
    ensures Inv(Exec(s, actions)) && Outside(s, Exec(s, actions))
  {
    if actions != [] {
      var n := |actions| - 1;
      var before := Exec(s, actions[..n]);
      EveryInterleavingKeepsInv(s, actions[..n]);
      StepKeepsInv(before, actions[n]);
      OutsideOn(s, before, Exec(s, actions));
    }
  }

  /** What one step does to one connector. */
  lemma StepOnConnector(s: State, a: Action, id: string)
    requires Inv(s)
    ensures var c, c' := Find(Items(s), id), Find(Items(Step(s, a)), id);
            if a.Create? && a.newId == id && id !in s.issued && Writable(s.settings)
              then c' == Some(Connector(id, a.createdAt, Normalize(a.body), [], None, None))
            else if a.Update? && a.id == id && c.Some? then c' == Some(Edited(c.value, a.body))
            else if a.Delete? && a.id == id then c' == None
            else if a.Finish? && a.worker in s.workers && s.workers[a.worker].0 == id && c.Some?
              then c' == Some(AppendRun(c.value, a.run).(lastRunEpoch := Some(a.epoch)))
            else c' == c
  {
    match a
    case Create(newId, body, createdAt) =>
      SaveThenFind(s, Connector(newId, createdAt, Normalize(body), [], None, None), id);
    case Update(x, body) =>
      if Find(Items(s), x).Some? {
        FoundIsBounded(s, x);
        SaveThenFind(s, Edited(Find(Items(s), x).value, body), id);
      }
    case Delete(x) =>
      FindAfterRemove(Items(s), x, id);
      if Find(Items(s), x).Some? {
        FoundIsBounded(s, x);
        SaveReadsBack(s.settings, Removed(Items(s), x));
      }
    case Load(worker, x) =>
    case Finish(worker, run, epoch) =>
      if worker in s.workers && Find(Items(s), s.workers[worker].0).Some? {
        var x := s.workers[worker].0;
        FoundIsBounded(s, x);
        SaveThenFind(s.(workers := s.workers - {worker}),
                     AppendRun(Find(Items(s), x).value, run).(lastRunEpoch := Some(epoch)), id);
      }
  }

  lemma SaveThenFind(s: State, c: Connector, id: string)
    ensures Find(Items(Saved(s, Upserted(Items(s), c))), id)
         == if id == c.id && Writable(s.settings) then Some(c) else Find(Items(s), id)
  {
    FindAfterUpsert(Items(s), c, id);
    if Writable(s.settings) {
      SaveReadsBack(s.settings, Upserted(Items(s), c));
    }
  }

  /** A deleted connector is never brought back, by a finishing crawl or otherwise. */
  lemma {:induction false} DeletedStaysDeleted(s: State, actions: seq<Action>, id: string)
    requires Inv(s) && id in s.issued && Find(Items(s), id).None?
    ensures Find(Items(Exec(s, actions)), id).None?
  {
    if actions != [] {
      var n := |actions| - 1;
      DeletedStaysDeleted(s, actions[..n], id);
      EveryInterleavingKeepsInv(s, actions[..n]);
      StepOnConnector(Exec(s, actions[..n]), actions[n], id);
    }
  }

  ghost predicate Configured(c: Option<Connector>, config: Config, createdAt: string) {
    c.Some? && c.value.config == config && c.value.createdAt == createdAt
  }

  lemma StepKeepsConfiguration(s: State, a: Action, id: string, config: Config, createdAt: string)
    requires Inv(s) && Configured(Find(Items(s), id), config, createdAt)
    requires !(a.Update? && a.id == id) && !(a.Delete? && a.id == id)
    ensures Configured(Find(Items(Step(s, a)), id), config, createdAt)
  {
    FoundIsBounded(s, id);
    StepOnConnector(s, a, id);
  }

  lemma {:induction false} RunKeepsConfiguration(s: State, actions: seq<Action>, id: string, config: Config,
                                                 createdAt: string)
    requires Inv(s) && Configured(Find(Items(s), id), config, createdAt)
    requires forall a :: a in actions ==> !(a.Update? && a.id == id) && !(a.Delete? && a.id == id)
    ensures Configured(Find(Items(Exec(s, actions)), id), config, createdAt)
  {
    if actions != [] {
      var n := |actions| - 1;
      assert actions[n] in actions && forall a :: a in actions[..n] ==> a in actions;
      RunKeepsConfiguration(s, actions[..n], id, config, createdAt);
      EveryInterleavingKeepsInv(s, actions[..n]);
      StepKeepsConfiguration(Exec(s, actions[..n]), actions[n], id, config, createdAt);
    }
  }

  /** An edit survives every crawl that was loaded before it and finishes after:
      until the next edit or deletion the configuration is the edited one. */
  lemma {:induction false} EditSurvivesRunningCrawls(s: State, body: Config, actions: seq<Action>, id: string)
    requires Inv(s) && Find(Items(s), id).Some?
    requires forall a :: a in actions ==> !(a.Update? && a.id == id) && !(a.Delete? && a.id == id)
    ensures Configured(Find(Items(Exec(Step(s, Update(id, body)), actions)), id), Normalize(body),
                       Find(Items(s), id).value.createdAt)
  {
    StepOnConnector(s, Update(id, body), id);
    StepKeepsInv(s, Update(id, body));
    RunKeepsConfiguration(Step(s, Update(id, body)), actions, id, Normalize(body), Find(Items(s), id).value.createdAt);
  }

  ghost predicate ShowsLog(c: Connector, log: seq<RunRecord>) {
    && c.runs == log[..Min(|log|, 20)]
    && c.lastRunAt == if log == [] then None else Some(log[0].finishedAt)
  }

  lemma AppendRunShowsLog(c: Connector, log: seq<RunRecord>, run: RunRecord, epoch: real)
    requires ShowsLog(c, log)
    ensures ShowsLog(AppendRun(c, run).(lastRunEpoch := Some(epoch)), [run] + log)
  {
  }

  /** From empty settings, a stored connector's history is the 20 most recent
      entries of its unbounded run log, newest first. */
  lemma {:induction false} HistoryIsRecentLog(s: State, actions: seq<Action>, id: string)
    requires Inv(s) && Items(s) == []
    ensures var end, log := Exec(s, actions), RunLog(s, actions, id);
            && (id !in end.issued ==> log == [])
            && (Find(Items(end), id).Some? ==> ShowsLog(Find(Items(end), id).value, log))
  {
    if actions != [] {
      var n := |actions| - 1;
      var before, a, log := Exec(s, actions[..n]), actions[n], RunLog(s, actions[..n], id);
      HistoryIsRecentLog(s, actions[..n], id);
      EveryInterleavingKeepsInv(s, actions[..n]);
      HistoryStep(before, a, id, log);
    }
  }

  lemma HistoryStep(before: State, a: Action, id: string, log: seq<RunRecord>)
    requires Inv(before)
    requires id !in before.issued ==> log == []
    requires Find(Items(before), id).Some? ==> ShowsLog(Find(Items(before), id).value, log)
    ensures var after := Step(before, a);
            var recorded := a.Finish? && a.worker in before.workers && before.workers[a.worker].0 == id
                            && Find(Items(before), id).Some?;
            var log' := if recorded then [a.run] + log else log;
            && (id !in after.issued ==> log' == [])
            && (Find(Items(after), id).Some? ==> ShowsLog(Find(Items(after), id).value, log'))
  {
    StepOnConnector(before, a, id);
    if Find(Items(before), id).Some? {
      FoundIsBounded(before, id);
      if a.Finish? {
        AppendRunShowsLog(Find(Items(before), id).value, log, a.run, a.epoch);
      }
    }
  }

  // ---- Schedules and crawl depth ------------------------------------------

  /** The edit route means to keep the last run, but the epoch the scheduler reads
      is dropped: an edit leaves due times as they were if and only if the edited
      connector has no live schedule or had never run. */
  lemma EditKeepsDueTimesIff(c: Connector, body: Config)
    ensures var kept, edited := c.(config := Normalize(body)), Edited(c, body);
            (forall now :: IsDue(edited, now) == IsDue(kept, now))
            <==> !kept.config.enabled || kept.config.interval.None? || c.lastRunEpoch.None?
  {
    var kept, edited := c.(config := Normalize(body)), Edited(c, body);
    NormalizeBounds(body);
    if kept.config.enabled && kept.config.interval.Some? && c.lastRunEpoch.Some? {
      var now := c.lastRunEpoch.value;
      assert IsDue(edited, now) && !IsDue(kept, now);
    }
  }

  /** A connector falls due for the first time its interval, in minutes, after its
      last run, at once if it never ran, and stays due from then on. */
  lemma DueFromInterval(c: Connector, minutes: nat, now: real)
    requires c.config.interval == Some(minutes) && minutes > 0
    ensures IsDue(c, now)
       <==> (c.config.enabled && (c.lastRunEpoch == None || now >= c.lastRunEpoch.value + 60.0 * minutes as real))
  {
  }

  function CrawlDepth(c: Config): int {
    if c.maxDepth == 0 then DEFAULT_MAX_DEPTH else c.maxDepth
  }

  /** A crawl respects its stored depth if and only if that depth is not zero;
      it always respects the overall bound. */
  lemma CrawlRespectsDepthIff(raw: Config)
    ensures var c := Normalize(raw);
            && (CrawlDepth(c) <= c.maxDepth <==> raw.maxDepth > 0)
            && 1 <= CrawlDepth(c) <= MAX_MAX_DEPTH
            && CrawlDepth(c) == if raw.maxDepth <= 0 then 2 else if raw.maxDepth <= 6 then raw.maxDepth else 6
  {
  }

  // ---- Counting a crawl's results -----------------------------------------

  datatype PageResult = Stored | Unchanged | Errored

  ghost function Count(results: seq<PageResult>, kind: PageResult): nat {
    multiset(results)[kind]
  }

  method TallyRun(results: seq<PageResult>) returns (pages: nat, ingested: nat, skipped: nat, failed: nat)
    ensures pages == |results| == ingested + skipped + failed
    ensures ingested == Count(results, Stored) && skipped == Count(results, Unchanged) && failed == Count(results, Errored)
  {
    pages, ingested, skipped, failed := 0, 0, 0, 0;
    for i := 0 to |results|
      invariant pages == i == ingested + skipped + failed
      invariant ingested == Count(results[..i], Stored)
      invariant skipped == Count(results[..i], Unchanged)
      invariant failed == Count(results[..i], Errored)
    {
      assert results[..i + 1] == results[..i] + [results[i]];
      pages := pages + 1;
      match results[i]
      case Errored => failed := failed + 1;
      case Unchanged => skipped := skipped + 1;
      case Stored => ingested := ingested + 1;
    }
    assert results[..|results|] == results;
  }
}
