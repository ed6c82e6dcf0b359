/** One tenant's ingestion pipeline: documents, chunks and jobs in a
    transactional database; object storage and the vector store outside it. */
module IngestPipeline {
  import opened Prelude

  type Bytes = seq<bv8>
  type Vector = seq<real>

  /** Absent strings are empty. */
  datatype Source = Source(uri: string, data: Bytes, filename: string, title: string)

  /** What parsing and chunking a source yields: the cleaned title it offers,
      whether it reads as superseded, and the chunk texts. */
  datatype Parsed = Parsed(title: string, superseded: bool, texts: seq<string>)

  datatype Tools = Tools(digest: Bytes -> string, parse: Source -> Parsed, embed: string -> Vector, dim: nat)

  datatype Row = Row(content: string, embedding: Vector)

  datatype Doc = Doc(id: nat, uri: string, title: string, hash: string, size: nat, storageKey: nat, active: bool)

  datatype Status = Running | Success | Skipped | Failed

  datatype Job = Job(uri: string, status: Status, doc: Option<nat>)

  const EMBED_BATCH_SIZE: nat := 64

  // ---- Chunk rows ---------------------------------------------------------

  const NUL: char := '\0'

  function StripNul(s: string): (r: string)
    ensures NUL !in r
    ensures NUL !in s ==> r == s
  {
    if s == [] then [] else if s[0] == NUL then StripNul(s[1..]) else [s[0]] + StripNul(s[1..])
  }

  function RowFor(t: Tools, text: string): Row {
    var content := StripNul(text);
    Row(content, t.embed(content))
  }

  function RowsFor(t: Tools, texts: seq<string>): seq<Row> {
    seq(|texts|, i requires 0 <= i < |texts| => RowFor(t, texts[i]))
  }

  /** Where the characters that can be stored stand. */
  ghost function Storable(text: string): set<nat> {
    set i: nat | i < |text| && text[i] != '\0'
  }

  /** The rows hold the texts: one each, with every character but the NULs, in order,
      and the embedding of what is stored. */
  ghost predicate HoldsTexts(t: Tools, rows: seq<Row>, texts: seq<string>) {
    && |rows| == |texts|
    && forall k :: 0 <= k < |rows| ==> HoldsText(t, rows[k], texts[k])
  }

  ghost predicate HoldsText(t: Tools, row: Row, text: string) {
    && Selection(row.content, text, Storable(text))
    && ('\0' !in text ==> row.content == text)
    && row.embedding == t.embed(row.content)
  }

  lemma {:induction false} StripOneMore(s: string, c: char)
    ensures StripNul(s + [c]) == StripNul(s) + if c == NUL then [] else [c]
  {
    if s == "" {
      assert s + [c] == [c] && [c][1..] == "" && StripNul("") == "";
    } else {
      assert (s + [c])[1..] == s[1..] + [c];
      StripOneMore(s[1..], c);
    }
  }

  lemma StorableOneMore(s: string, c: char)
    ensures Storable(s + [c]) == Storable(s) + if c == '\0' then {} else {|s|}
  {
  }

  lemma {:induction false} StripNulSelects(text: string)
    ensures Selection(StripNul(text), text, Storable(text))
  {
    if text == "" {
      SelectNothing<char>();
      assert Storable(text) == {};
    } else {
      var front, c := text[..|text| - 1], text[|text| - 1];
      StripNulSelects(front);
      NextChar(StripNul(front), front, c);
      StripOneMore(front, c);
      Rejoin(text);
    }
  }

  lemma NextChar(kept: string, s: string, c: char)
    requires Selection(kept, s, Storable(s))
    ensures Selection(kept + if c == NUL then [] else [c], s + [c], Storable(s + [c]))
  {
    StorableOneMore(s, c);
    if c == NUL {
      SelectSkip(kept, s, Storable(s), c);
      assert kept + [] == kept && Storable(s) + {} == Storable(s);
    } else {
      SelectTake(kept, s, Storable(s), c);
    }
  }

  lemma {:induction false} RowsHoldTexts(t: Tools, texts: seq<string>)
    ensures HoldsTexts(t, RowsFor(t, texts), texts)
  {
    forall k | 0 <= k < |texts|
      ensures HoldsText(t, RowsFor(t, texts)[k], texts[k])
    {
      StripNulSelects(texts[k]);
    }
  }

  /** One batch: embed the contents together, then hand each row its vector. */
  method FillBatch(t: Tools, rows: array<Row>, from: nat, to: nat)
    requires from <= to <= rows.Length
    modifies rows
    ensures forall k :: 0 <= k < rows.Length ==> rows[k].content == old(rows[k].content)
    ensures forall k :: 0 <= k < rows.Length ==>
              rows[k].embedding == if from <= k < to then t.embed(rows[k].content) else old(rows[k].embedding)
  {
    var batch := rows[from..to];
    var vectors := seq(|batch|, k requires 0 <= k < |batch| => t.embed(batch[k].content));
    for j := from to to
      invariant forall k :: 0 <= k < rows.Length ==> rows[k].content == old(rows[k].content)
      invariant forall k :: 0 <= k < rows.Length ==>
                  rows[k].embedding == if from <= k < j then t.embed(rows[k].content) else old(rows[k].embedding)
    {
      rows[j] := rows[j].(embedding := vectors[j - from]);
    }
  }

  /** Rows are inserted with a placeholder embedding and filled in place, one
      batch of `batchSize` at a time. */
  method WriteChunks(t: Tools, texts: seq<string>, batchSize: nat) returns (written: seq<Row>)
    requires batchSize > 0
    ensures written == RowsFor(t, texts)
    ensures HoldsTexts(t, written, texts)
  {
    RowsHoldTexts(t, texts);
    var n := |texts|;
    var contents := seq(n, i requires 0 <= i < n => StripNul(texts[i]));
    var rows := new Row[n](i requires 0 <= i < n => Row(contents[i], seq(t.dim, _ => 0.0)));
    var i := 0;
    while i < n
      invariant 0 <= i
      invariant forall k :: 0 <= k < n ==> rows[k].content == contents[k]
      invariant forall k :: 0 <= k < Min(i, n) ==> rows[k].embedding == t.embed(contents[k])
    {
      FillBatch(t, rows, i, Min(i + batchSize, n));
      i := i + batchSize;
    }
    written := rows[..];
  }

  /** Every row carries the embedding of its own, NUL-free content, and a batch
      boundary leaves no trace: rows of a concatenation are concatenated rows. */
  lemma RowsAreOneMap(t: Tools, a: seq<string>, b: seq<string>)
    ensures RowsFor(t, a + b) == RowsFor(t, a) + RowsFor(t, b)
    ensures forall r :: r in RowsFor(t, a) ==> NUL !in r.content && r.embedding == t.embed(r.content)
  {
    assert forall i :: 0 <= i < |a| ==> (a + b)[i] == a[i];
    assert forall i :: 0 <= i < |b| ==> (a + b)[|a| + i] == b[i];
  }

  // ---- The world, and one attempt as a function ---------------------------

  datatype World = World(
    docs: seq<Doc>,
    chunks: map<nat, seq<Row>>,
    jobs: map<nat, Job>,
    storage: map<nat, Bytes>,
    nextId: nat)

  /** The places an attempt can raise, in program order. */
  datatype Step = Open | Upsert | VectorDelete | ChunkDelete | Put | Parse | Embed | Commit | Close | Enrich

  function Rank(s: Step): nat {
    match s
    case Open => 0 case Upsert => 1 case VectorDelete => 2 case ChunkDelete => 3 case Put => 4
    case Parse => 5 case Embed => 6 case Commit => 7 case Close => 8 case Enrich => 9
  }

  /** `landed` says whether a failing call outside the database had taken effect
      before it raised. `recorded` says whether marking the job failed works, which
      it can only before the commit: from then on the job belongs to the open
      session and the fresh one refuses it. */
  datatype Fault = NoFault | Fault(step: Step, landed: bool, recorded: bool)

  datatype Outcome = Ingested(doc: nat, written: nat) | UpToDate | Raised

  function Find(docs: seq<Doc>, uri: string): (r: Option<nat>)
    ensures r.Some? ==> r.value < |docs| && docs[r.value].uri == uri
    ensures r.None? ==> forall i :: 0 <= i < |docs| ==> docs[i].uri != uri
  {
    if docs == [] then None
    else if docs[|docs| - 1].uri == uri then Some(|docs| - 1)
    else Find(docs[..|docs| - 1], uri)
  }

  predicate IsPlaceholder(title: string, s: Source) {
    title == "" || title == s.filename || title == s.uri
  }

  function Existing(docs: seq<Doc>, uri: string): Option<Doc> {
    var at := Find(docs, uri);
    if at.Some? then Some(docs[at.value]) else None
  }

  /** What decides the path an attempt takes: the stored hash already matches,
      there is a document to update, there is text to embed. */
  datatype Path = Path(current: bool, update: bool, hasText: bool)

  function PathOf(t: Tools, w: World, s: Source): Path {
    var e := Existing(w.docs, s.uri);
    Path(e.Some? && e.value.hash == t.digest(s.data), e.Some?, t.parse(s).texts != [])
  }

  predicate IsCurrent(t: Tools, w: World, s: Source) {
    PathOf(t, w, s).current
  }

  /** Whether an attempt on this path executes a step at all. */
  predicate Runs(p: Path, step: Step) {
    match step
    case Open => true
    case Upsert => true
    case Close => true
    case VectorDelete => !p.current && p.update
    case ChunkDelete => !p.current && p.update
    case Put => !p.current
    case Parse => !p.current
    case Commit => !p.current
    case Embed => !p.current && p.hasText
    case Enrich => !p.current && p.hasText
  }

  predicate Fails(p: Path, f: Fault) {
    f.Fault? && Runs(p, f.step)
  }

  /** Whether the effect of a step outside the database happened. */
  predicate Landed(p: Path, f: Fault, step: Step) {
    Runs(p, step) && (Fails(p, f) ==> Rank(step) < Rank(f.step) || (step == f.step && f.landed))
  }

  predicate Commits(p: Path, f: Fault) {
    !p.current && (Fails(p, f) ==> Rank(Commit) < Rank(f.step))
  }

  function UpsertedTitle(existing: Option<Doc>, s: Source): string {
    if existing.None? then (if s.title != "" then s.title else if s.filename != "" then s.filename else s.uri)
    else if s.title != "" && IsPlaceholder(existing.value.title, s) then s.title
    else existing.value.title
  }

  /** The document an attempt commits; `newId` is the id of one not seen before. */
  function NewDoc(t: Tools, existing: Option<Doc>, newId: nat, s: Source): Doc {
    var parsed, title := t.parse(s), UpsertedTitle(existing, s);
    var id := if existing.Some? then existing.value.id else newId;
    Doc(id, s.uri,
        if IsPlaceholder(title, s) && parsed.title != "" then parsed.title else title,
        t.digest(s.data), |s.data|, id,
        (existing.Some? ==> existing.value.active) && !parsed.superseded)
  }

  function JobsAfter(p: Path, jobs: map<nat, Job>, job: nat, uri: string, doc: nat, f: Fault): map<nat, Job> {
    if !Fails(p, f) then jobs[job := if p.current then Job(uri, Skipped, None) else Job(uri, Success, Some(doc))]
    else if Commits(p, f) then
      jobs[job := if f.step == Enrich then Job(uri, Success, Some(doc)) else Job(uri, Running, None)]
    else if f.step != Open && f.recorded then jobs[job := Job(uri, Failed, None)]
    else jobs
  }

  function Placed(docs: seq<Doc>, doc: Doc): seq<Doc> {
    var at := Find(docs, doc.uri);
    if at.Some? then docs[at.value := doc] else docs + [doc]
  }

  /** What an attempt that prepared `doc` leaves behind, given which of its effects
      came about: the commit, the cleared chunks, the stored bytes. */
  function Leave(w: World, doc: Doc, rows: seq<Row>, data: Bytes, commits: bool, cleared: bool, stored: bool,
                 jobs: map<nat, Job>): World {
    World(
      if commits then Placed(w.docs, doc) else w.docs,
      if commits then w.chunks[doc.id := rows] else if cleared then w.chunks[doc.id := []] else w.chunks,
      jobs,
      if stored then w.storage[doc.id := data] else w.storage,
      w.nextId + 2)
  }

  function Ingest(t: Tools, w: World, s: Source, f: Fault): World {
    var p, doc := PathOf(t, w, s), Prepared(t, w, s);
    Leave(w, doc, RowsFor(t, t.parse(s).texts), s.data, Commits(p, f), Landed(p, f, VectorDelete), Landed(p, f, Put),
          JobsAfter(p, w.jobs, w.nextId, s.uri, doc.id, f))
  }

  /** The document an attempt on `s` would commit; its job takes the id before. */
  function Prepared(t: Tools, w: World, s: Source): Doc {
    NewDoc(t, Existing(w.docs, s.uri), w.nextId + 1, s)
  }

  function OutcomeOf(t: Tools, w: World, s: Source, f: Fault): Outcome {
    var p := PathOf(t, w, s);
    if Fails(p, f) then Raised
    else if p.current then UpToDate
    else Ingested(Prepared(t, w, s).id, |t.parse(s).texts|)
  }

  // ---- The attempt as it runs ---------------------------------------------

  class Pipeline {
    const tools: Tools
    var docs: seq<Doc>
    var chunks: map<nat, seq<Row>>
    var jobs: map<nat, Job>
    var storage: map<nat, Bytes>
    var nextId: nat

    constructor (tools: Tools)
      ensures this.tools == tools && State() == World([], map[], map[], map[], 0)
    {
      this.tools := tools;
      docs, chunks, jobs, storage, nextId := [], map[], map[], map[], 0;
    }

    ghost function State(): World
      reads this
    {
      World(docs, chunks, jobs, storage, nextId)
    }

    method UpsertDocument(s: Source, existing: Option<Doc>, newId: nat) returns (doc: Doc)
      ensures doc == Doc(if existing.Some? then existing.value.id else newId,
                         if existing.Some? then existing.value.uri else s.uri,
                         UpsertedTitle(existing, s), tools.digest(s.data), |s.data|, doc.id,
                         existing.Some? ==> existing.value.active)
    {
      if existing.None? {
        var title := if s.title != "" then s.title else if s.filename != "" then s.filename else s.uri;
        doc := Doc(newId, s.uri, title, "", 0, newId, true);
      } else {
        doc := existing.value;
        if s.title != "" && IsPlaceholder(doc.title, s) {
          doc := doc.(title := s.title);
        }
      }
      doc := doc.(hash := tools.digest(s.data), size := |s.data|, storageKey := doc.id);
    }

    /** Clear the old chunks and store the bytes: the two calls whose effect does
        not wait for the commit. */
    method WriteOutside(s: Source, f: Fault, update: bool, doc: nat, ghost p: Path) returns (ok: bool)
      requires !p.current && update == p.update && (f.Fault? ==> Rank(f.step) >= Rank(VectorDelete))
      modifies this`chunks, this`storage
      ensures ok <==> !(Fails(p, f) && Rank(f.step) <= Rank(Put))
      ensures chunks == if Landed(p, f, VectorDelete) then old(chunks)[doc := []] else old(chunks)
      ensures storage == if Landed(p, f, Put) then old(storage)[doc := s.data] else old(storage)
    {
      ok := false;
      if update {
        if f.Fault? && f.step == VectorDelete && !f.landed { return; }
        chunks := chunks[doc := []];
        if f.Fault? && (f.step == VectorDelete || f.step == ChunkDelete) { return; }
      }
      if f.Fault? && f.step == Put && !f.landed { return; }
      storage := storage[doc := s.data];
      if f.Fault? && f.step == Put { return; }
      ok := true;
    }

    /** After the rollback: mark the job failed in a session of its own. */
    method FailJob(uri: string, job: nat, recorded: bool)
      modifies this`jobs
      ensures jobs == if recorded then old(jobs)[job := Job(uri, Failed, None)] else old(jobs)
    {
      if recorded {
        jobs := jobs[job := Job(uri, Failed, None)];
      }
    }

    /** What an attempt does before it knows that there is work: None to go on. */
    method Precheck(s: Source, f: Fault, job: nat, current: bool, ghost p: Path, ghost doc: nat)
      returns (o: Option<Outcome>)
      requires current == p.current
      modifies this`jobs
      ensures o.None? <==> !p.current && (f.Fault? ==> Rank(f.step) > Rank(Upsert))
      ensures o.Some? ==> jobs == JobsAfter(p, old(jobs), job, s.uri, doc, f)
      ensures o.Some? ==> o.value == if Fails(p, f) then Raised else UpToDate
      ensures o.None? ==> jobs == old(jobs)
    {
      if f.Fault? && f.step == Open {
        return Some(Raised);
      }
      if f.Fault? && f.step == Upsert {
        FailJob(s.uri, job, f.recorded);
        return Some(Raised);
      }
      if !current {
        return None;
      }
      if f.Fault? && f.step == Close {
        FailJob(s.uri, job, f.recorded);
        return Some(Raised);
      }
      jobs := jobs[job := Job(s.uri, Skipped, None)];
      return Some(UpToDate);
    }

    method IngestOne(s: Source, f: Fault) returns (o: Outcome)
      modifies this
      ensures State() == Ingest(tools, old(State()), s, f)
      ensures o == OutcomeOf(tools, old(State()), s, f)
      ensures Inv(old(State())) && o.Ingested? ==> Stores(tools, State(), s, o.doc) && o.written == |tools.parse(s).texts|
    {
      ghost var before := State();
      o := Attempt(s, f);
      if Inv(before) && o.Ingested? {
        IngestedIsStored(tools, before, s, f);
      }
    }

    /** The fields are what is committed; the document and rows prepared by the
        session reach them only through the commit. */
    method Attempt(s: Source, f: Fault) returns (o: Outcome)
      modifies this
      ensures State() == Ingest(tools, old(State()), s, f)
      ensures o == OutcomeOf(tools, old(State()), s, f)
    {
      var job := nextId;
      var existing := Existing(docs, s.uri);
      var current := existing.Some? && existing.value.hash == tools.digest(s.data);
      ghost var p := PathOf(tools, State(), s);
      nextId := nextId + 2;
      var early := Precheck(s, f, job, current, p, NewDoc(tools, existing, job + 1, s).id);
      if early.Some? {
        assert !Commits(p, f) && !Landed(p, f, VectorDelete) && !Landed(p, f, Put);
        return early.value;
      }
      o := IndexDocument(s, f, job, existing, p);
    }

    /** Everything up to the commit. */
    method Stage(s: Source, f: Fault, existing: Option<Doc>, newId: nat, ghost p: Path)
      returns (ok: bool, doc: Doc)
      requires !p.current && (f.Fault? ==> Rank(f.step) >= Rank(VectorDelete))
      requires p.update == existing.Some? && p.hasText == (tools.parse(s).texts != [])
      requires existing.Some? ==> existing.value.uri == s.uri
      modifies this`chunks, this`storage
      ensures ok <==> !(Fails(p, f) && Rank(f.step) <= Rank(Commit))
      ensures ok ==> doc == NewDoc(tools, existing, newId, s)
      ensures doc.id == NewDoc(tools, existing, newId, s).id
      ensures chunks == if Landed(p, f, VectorDelete) then old(chunks)[doc.id := []] else old(chunks)
      ensures storage == if Landed(p, f, Put) then old(storage)[doc.id := s.data] else old(storage)
    {
      doc := UpsertDocument(s, existing, newId);
      ok := WriteOutside(s, f, existing.Some?, doc.id, p);
      if !ok || (f.Fault? && f.step == Parse) {
        ok := false;
        return;
      }
      var parsed := tools.parse(s);
      if IsPlaceholder(doc.title, s) && parsed.title != "" {
        doc := doc.(title := parsed.title);
      }
      if parsed.superseded {
        doc := doc.(active := false);
      }
      ok := !(f.Fault? && ((f.step == Embed && parsed.texts != []) || f.step == Commit));
    }

    /** A document that is not current, from its staging to the end of its job. */
    method IndexDocument(s: Source, f: Fault, job: nat, existing: Option<Doc>, ghost p: Path) returns (o: Outcome)
      requires existing == Existing(docs, s.uri) && (f.Fault? ==> Rank(f.step) >= Rank(VectorDelete))
      requires p == Path(false, existing.Some?, tools.parse(s).texts != [])
      modifies this`docs, this`chunks, this`jobs, this`storage
      ensures var doc := NewDoc(tools, existing, job + 1, s);
              && docs == (if Commits(p, f) then Placed(old(docs), doc) else old(docs))
              && chunks == (if Commits(p, f) then old(chunks)[doc.id := RowsFor(tools, tools.parse(s).texts)]
                            else if Landed(p, f, VectorDelete) then old(chunks)[doc.id := []]
                            else old(chunks))
              && jobs == JobsAfter(p, old(jobs), job, s.uri, doc.id, f)
              && storage == (if Landed(p, f, Put) then old(storage)[doc.id := s.data] else old(storage))
              && o == (if Fails(p, f) then Raised else Ingested(doc.id, |tools.parse(s).texts|))
    {
      var ok, doc := Stage(s, f, existing, job + 1, p);
      if !ok {
        FailJob(s.uri, job, f.recorded);
        return Raised;
      }
      var parsed := tools.parse(s);
      var rows := WriteChunks(tools, parsed.texts, EMBED_BATCH_SIZE);
      o := CommitAndClose(s.uri, f, job, doc, rows);
      assert chunks == old(chunks)[doc.id := rows];
    }

    method CommitAndClose(uri: string, f: Fault, job: nat, doc: Doc, rows: seq<Row>) returns (o: Outcome)
      requires f.Fault? ==> f.step == Close || f.step == Enrich || (f.step == Embed && rows == [])
                            || ((f.step == VectorDelete || f.step == ChunkDelete) && Find(docs, doc.uri).None?)
      modifies this`docs, this`chunks, this`jobs
      ensures docs == Placed(old(docs), doc) && chunks == old(chunks)[doc.id := rows]
      ensures var p := Path(false, Find(old(docs), doc.uri).Some?, rows != []);
              && jobs == JobsAfter(p, old(jobs), job, uri, doc.id, f)
              && o == if Fails(p, f) then Raised else Ingested(doc.id, |rows|)
    {
      ghost var p := Path(false, Find(docs, doc.uri).Some?, rows != []);
      docs := Placed(docs, doc);
      chunks := chunks[doc.id := rows];
      o := CloseJob(p, uri, f, job, doc.id, |rows|);
    }

    /** The commit has made the job row visible as running, and a fault from here on
        leaves the row as it is. */
    method CloseJob(ghost p: Path, uri: string, f: Fault, job: nat, doc: nat, written: nat) returns (o: Outcome)
      requires !p.current && p.hasText == (written > 0)
      requires f.Fault? ==> f.step == Close || f.step == Enrich || !Runs(p, f.step)
      modifies this`jobs
      ensures jobs == JobsAfter(p, old(jobs), job, uri, doc, f)
      ensures o == if Fails(p, f) then Raised else Ingested(doc, written)
    {
      jobs := jobs[job := Job(uri, Running, None)];
      if f.Fault? && f.step == Close {
        return Raised;
      }
      jobs := jobs[job := Job(uri, Success, Some(doc))];
      if written > 0 && f.Fault? && f.step == Enrich {
        return Raised;
      }
      return Ingested(doc, written);
    }
  }

  // ---- What every attempt keeps -------------------------------------------

  ghost predicate DocsInv(docs: seq<Doc>, nextId: nat) {
    && (forall i, j :: 0 <= i < j < |docs| ==> docs[i].uri != docs[j].uri && docs[i].id != docs[j].id)
    && (forall i :: 0 <= i < |docs| ==> docs[i].id < nextId && docs[i].storageKey == docs[i].id)
  }

  ghost predicate IsDocId(docs: seq<Doc>, id: nat) {
    exists i :: 0 <= i < |docs| && docs[i].id == id
  }

  ghost predicate ChunksInv(docs: seq<Doc>, chunks: map<nat, seq<Row>>) {
    forall id :: id in chunks ==> IsDocId(docs, id)
  }

  ghost predicate JobsInv(jobs: map<nat, Job>, nextId: nat) {
    forall j :: j in jobs ==> j < nextId
  }

  /** One document per URI, one URI per id, every chunk belongs to a document, and
      every id handed out is behind the counter. */
  ghost predicate Inv(w: World) {
    DocsInv(w.docs, w.nextId) && ChunksInv(w.docs, w.chunks) && JobsInv(w.jobs, w.nextId)
  }

  /** Every document keeps its place, URI and id. */
  ghost predicate Continues(docs: seq<Doc>, docs': seq<Doc>) {
    |docs| <= |docs'| && forall i :: 0 <= i < |docs| ==> docs'[i].uri == docs[i].uri && docs'[i].id == docs[i].id
  }

  lemma FindIsUnique(docs: seq<Doc>, i: nat)
    requires i < |docs| && forall j, k :: 0 <= j < k < |docs| ==> docs[j].uri != docs[k].uri
    ensures Find(docs, docs[i].uri) == Some(i)
  {
    var at := Find(docs, docs[i].uri);
    assert at.Some?;
  }

  /** `doc` updates the document of its URI, or is new with the next document id. */
  ghost predicate Fits(docs: seq<Doc>, nextId: nat, doc: Doc) {
    var at := Find(docs, doc.uri);
    doc.storageKey == doc.id && doc.id == if at.Some? then docs[at.value].id else nextId + 1
  }

  lemma UpdateKeepsInv(docs: seq<Doc>, nextId: nat, i: nat, doc: Doc)
    requires DocsInv(docs, nextId) && i < |docs|
    requires doc.uri == docs[i].uri && doc.id == doc.storageKey == docs[i].id
    ensures DocsInv(docs[i := doc], nextId + 2) && Continues(docs, docs[i := doc])
  {
  }

  lemma AppendKeepsInv(docs: seq<Doc>, nextId: nat, doc: Doc)
    requires DocsInv(docs, nextId) && forall i :: 0 <= i < |docs| ==> docs[i].uri != doc.uri
    requires doc.id == doc.storageKey == nextId + 1
    ensures DocsInv(docs + [doc], nextId + 2) && Continues(docs, docs + [doc])
  {
  }

  lemma PlacedKeepsInv(docs: seq<Doc>, nextId: nat, doc: Doc)
    requires DocsInv(docs, nextId) && Fits(docs, nextId, doc)
    ensures var docs' := Placed(docs, doc);
            && DocsInv(docs', nextId + 2) && Continues(docs, docs') && IsDocId(docs', doc.id)
            && Existing(docs', doc.uri) == Some(doc)
  {
    var docs', at := Placed(docs, doc), Find(docs, doc.uri);
    var i := if at.Some? then at.value else |docs|;
    if at.Some? {
      UpdateKeepsInv(docs, nextId, i, doc);
    } else {
      AppendKeepsInv(docs, nextId, doc);
    }
    assert docs'[i] == doc;
    FindIsUnique(docs', i);
  }

  lemma IdStays(docs: seq<Doc>, docs': seq<Doc>, id: nat)
    requires Continues(docs, docs') && IsDocId(docs, id)
    ensures IsDocId(docs', id)
  {
    var i :| 0 <= i < |docs| && docs[i].id == id;
    assert docs'[i].id == id;
  }

  lemma LeaveKeepsInv(w: World, doc: Doc, rows: seq<Row>, data: Bytes, commits: bool, cleared: bool, stored: bool,
                      jobs: map<nat, Job>)
    requires Inv(w) && Fits(w.docs, w.nextId, doc) && (cleared ==> Find(w.docs, doc.uri).Some?)
    requires jobs.Keys <= w.jobs.Keys + {w.nextId}
    ensures var w' := Leave(w, doc, rows, data, commits, cleared, stored, jobs);
            Inv(w') && Continues(w.docs, w'.docs)
  {
    var w' := Leave(w, doc, rows, data, commits, cleared, stored, jobs);
    if commits {
      PlacedKeepsInv(w.docs, w.nextId, doc);
    }
    forall id | id in w'.chunks
      ensures IsDocId(w'.docs, id)
    {
      if id in w.chunks {
        IdStays(w.docs, w'.docs, id);
      }
    }
  }

  lemma PreparedFits(t: Tools, w: World, s: Source)
    ensures var doc := Prepared(t, w, s);
            doc.uri == s.uri && doc.hash == t.digest(s.data) && Fits(w.docs, w.nextId, doc)
  {
  }

  lemma OneRowWritten(p: Path, jobs: map<nat, Job>, job: nat, uri: string, doc: nat, f: Fault)
    ensures var jobs' := JobsAfter(p, jobs, job, uri, doc, f);
            jobs'.Keys <= jobs.Keys + {job} && forall j :: j in jobs && j != job ==> j in jobs' && jobs'[j] == jobs[j]
  {
  }

  lemma IngestKeepsInv(t: Tools, w: World, s: Source, f: Fault)
    requires Inv(w)
    ensures Inv(Ingest(t, w, s, f)) && Continues(w.docs, Ingest(t, w, s, f).docs)
  {
    var p, doc := PathOf(t, w, s), Prepared(t, w, s);
    PreparedFits(t, w, s);
    OneRowWritten(p, w.jobs, w.nextId, s.uri, doc.id, f);
    LeaveKeepsInv(w, doc, RowsFor(t, t.parse(s).texts), s.data, Commits(p, f), Landed(p, f, VectorDelete),
                  Landed(p, f, Put), JobsAfter(p, w.jobs, w.nextId, s.uri, doc.id, f));
  }

  /** Documents of other URIs are untouched: row, chunks and stored bytes. */
  lemma OthersUntouched(t: Tools, w: World, s: Source, f: Fault, i: nat)
    requires Inv(w) && i < |w.docs| && w.docs[i].uri != s.uri
    ensures var w', id := Ingest(t, w, s, f), w.docs[i].id;
            && Existing(w'.docs, w.docs[i].uri) == Some(w.docs[i])
            && ChunksOf(w', id) == ChunksOf(w, id)
            && (id in w'.storage <==> id in w.storage) && (id in w.storage ==> w'.storage[id] == w.storage[id])
  {
    var w' := Ingest(t, w, s, f);
    assert Existing(w'.docs, w.docs[i].uri) == Some(w.docs[i]) by {
      IngestKeepsInv(t, w, s, f);
      assert w'.docs[i] == w.docs[i];
      FindIsUnique(w'.docs, i);
    }
    assert Prepared(t, w, s).id != w.docs[i].id;
  }

  function ChunksOf(w: World, id: nat): seq<Row> {
    if id in w.chunks then w.chunks[id] else []
  }

  // ---- Runs of attempts ---------------------------------------------------

  datatype Attempt = Attempt(source: Source, fault: Fault)

  function Run(t: Tools, w: World, attempts: seq<Attempt>): World {
    if attempts == [] then w
    else
      var n := |attempts| - 1;
      Ingest(t, Run(t, w, attempts[..n]), attempts[n].source, attempts[n].fault)
  }

  lemma ContinuesOn(a: seq<Doc>, b: seq<Doc>, c: seq<Doc>)
    requires Continues(a, b) && Continues(b, c)
    ensures Continues(a, c)
  {
  }

  /** Over any run, wherever its attempts fail: at most one document per URI, and
      a document once there keeps its place, URI and id. */
  lemma {:induction false} RunKeepsIdentity(t: Tools, w: World, attempts: seq<Attempt>)
    requires Inv(w)
    ensures Inv(Run(t, w, attempts)) && Continues(w.docs, Run(t, w, attempts).docs)
  {
    if attempts != [] {
      var n := |attempts| - 1;
      var v := Run(t, w, attempts[..n]);
      RunKeepsIdentity(t, w, attempts[..n]);
      IngestKeepsInv(t, v, attempts[n].source, attempts[n].fault);
      ContinuesOn(w.docs, v.docs, Run(t, w, attempts).docs);
    }
  }

  /** Some attempt on the document's URI offered this title: its source's own, or
      the one parsed from it. */
  ghost predicate Offered(t: Tools, attempts: seq<Attempt>, uri: string, title: string) {
    exists a :: a in attempts && a.source.uri == uri
                && title != "" && (title == a.source.title || title == t.parse(a.source).title)
  }

  lemma AttemptKeepsTitleAndRetirement(t: Tools, w: World, s: Source, f: Fault, i: nat)
    requires Inv(w) && i < |w.docs|
    ensures var docs, uri, title := Ingest(t, w, s, f).docs, w.docs[i].uri, w.docs[i].title;
            && i < |docs|
            && (!w.docs[i].active ==> !docs[i].active)
            && (docs[i].title != title ==>
                  s.uri == uri && IsPlaceholder(title, s) && docs[i].title != ""
                  && (docs[i].title == s.title || docs[i].title == t.parse(s).title))
  {
    if w.docs[i].uri == s.uri {
      FindIsUnique(w.docs, i);
    }
  }

  /** Over any run a superseded document is never reactivated, a title that is
      nobody's placeholder is never replaced, and one that is replaced is replaced
      by a title some attempt offered. */
  lemma {:induction false} RunKeepsTitleAndRetirement(t: Tools, w: World, attempts: seq<Attempt>, i: nat)
    requires Inv(w) && i < |w.docs|
    ensures var docs, uri, title := Run(t, w, attempts).docs, w.docs[i].uri, w.docs[i].title;
            && i < |docs|
            && (!w.docs[i].active ==> !docs[i].active)
            && ((forall a :: a in attempts && a.source.uri == uri ==> !IsPlaceholder(title, a.source)) ==> docs[i].title == title)
            && (docs[i].title != title ==> Offered(t, attempts, uri, docs[i].title))
  {
    if attempts != [] {
      var n := |attempts| - 1;
      var v, a := Run(t, w, attempts[..n]), attempts[n];
      RunKeepsTitleAndRetirement(t, w, attempts[..n], i);
      RunKeepsIdentity(t, w, attempts[..n]);
      AttemptKeepsTitleAndRetirement(t, v, a.source, a.fault, i);
      assert a in attempts && forall b :: b in attempts[..n] ==> b in attempts;
    }
  }

  // ---- Failure ------------------------------------------------------------

  /** The stored version of `s.uri` is `s`: hash, chunks and original bytes. */
  ghost predicate Holds(t: Tools, w: World, s: Source) {
    var e := Existing(w.docs, s.uri);
    && e.Some?
    && e.value.hash == t.digest(s.data) && e.value.size == |s.data|
    && ChunksOf(w, e.value.id) == RowsFor(t, t.parse(s).texts)
    && e.value.id in w.storage && w.storage[e.value.id] == s.data
  }

  /** The documents moved on to hold `s`, and a retry would be skipped. */
  ghost predicate MovedOn(t: Tools, w: World, s: Source, w': World) {
    w'.docs != w.docs && Holds(t, w', s) && OutcomeOf(t, w', s, NoFault) == UpToDate
  }

  /** What a job row says of the attempt that took `w` to `w'`: under success and
      running the content is stored, under the rest nothing moved; the attempt
      raised if the row is running, failed or missing. */
  ghost predicate RowTells(t: Tools, w: World, s: Source, f: Fault, w': World, row: Option<Job>) {
    match row
    case Some(Job(uri, Success, doc)) => MovedOn(t, w, s, w') && uri == s.uri && IsDocument(w'.docs, s.uri, doc)
    case Some(Job(uri, Running, doc)) => MovedOn(t, w, s, w') && uri == s.uri && doc.None? && OutcomeOf(t, w, s, f) == Raised
    case Some(Job(uri, Skipped, doc)) =>
      OutcomeOf(t, w, s, f) == UpToDate && uri == s.uri && doc.None?
      && w'.docs == w.docs && w'.chunks == w.chunks && w'.storage == w.storage
    case Some(Job(uri, Failed, doc)) => OutcomeOf(t, w, s, f) == Raised && uri == s.uri && doc.None? && w'.docs == w.docs
    case None => OutcomeOf(t, w, s, f) == Raised && w'.docs == w.docs
  }

  ghost predicate IsDocument(docs: seq<Doc>, uri: string, id: Option<nat>) {
    exists d :: d in docs && d.uri == uri && Some(d.id) == id
  }

  function RowOf(w: World, job: nat): Option<Job> {
    if job in w.jobs then Some(w.jobs[job]) else None
  }

  /** Each attempt writes at most its own job row, and that row tells the truth. */
  lemma JobsTellTheTruth(t: Tools, w: World, s: Source, f: Fault)
    requires Inv(w)
    ensures var w', job := Ingest(t, w, s, f), w.nextId;
            && w'.nextId == job + 2 && w'.jobs.Keys <= w.jobs.Keys + {job}
            && (forall j :: j in w.jobs ==> RowOf(w', j) == RowOf(w, j))
            && RowTells(t, w, s, f, w', RowOf(w', job))
  {
    OneRowWritten(PathOf(t, w, s), w.jobs, w.nextId, s.uri, Prepared(t, w, s).id, f);
    if Commits(PathOf(t, w, s), f) {
      CommitHolds(t, w, s, f);
      PreparedFits(t, w, s);
      PlacedKeepsInv(w.docs, w.nextId, Prepared(t, w, s));
      ExistingIsThere(Ingest(t, w, s, f).docs, s.uri);
    }
  }

  /** An attempt that raises moves the documents on if and only if it got past the
      commit, so failed closing its job or deciding on enrichment. Its row is then
      left running or says success, never failed: failed means nothing is stored. */
  lemma RaisedAttemptAdvancesIff(t: Tools, w: World, s: Source, f: Fault)
    requires Inv(w) && OutcomeOf(t, w, s, f) == Raised
    ensures var w', row := Ingest(t, w, s, f), RowOf(Ingest(t, w, s, f), w.nextId);
            && (w'.docs != w.docs <==> !IsCurrent(t, w, s) && (f.step == Close || f.step == Enrich))
            && (w'.docs != w.docs ==> Holds(t, w', s) && OutcomeOf(t, w', s, NoFault) == UpToDate
                                      && row.Some? && row.value.status == if f.step == Close then Running else Success)
            && (w'.docs == w.docs ==> row == if f.recorded && f.step != Open then Some(Job(s.uri, Failed, None)) else None)
  {
    JobsTellTheTruth(t, w, s, f);
  }

  lemma CommitHolds(t: Tools, w: World, s: Source, f: Fault)
    requires Inv(w) && Commits(PathOf(t, w, s), f)
    ensures Holds(t, Ingest(t, w, s, f), s) && Ingest(t, w, s, f).docs != w.docs
  {
    PreparedFits(t, w, s);
    PlacedKeepsInv(w.docs, w.nextId, Prepared(t, w, s));
    assert Landed(PathOf(t, w, s), f, Put);
  }

  /** What an ingested source leaves under the document's id: the row with its URI,
      digest and size, its texts embedded, its bytes. */
  ghost predicate Stores(t: Tools, w: World, s: Source, id: nat) {
    && (exists d :: d in w.docs && d.id == id && d.uri == s.uri && d.hash == t.digest(s.data)
                    && d.size == |s.data| && d.storageKey == id)
    && id in w.chunks && HoldsTexts(t, w.chunks[id], t.parse(s).texts)
    && id in w.storage && w.storage[id] == s.data
  }

  lemma IngestedIsStored(t: Tools, w: World, s: Source, f: Fault)
    requires Inv(w) && OutcomeOf(t, w, s, f).Ingested?
    ensures Stores(t, Ingest(t, w, s, f), s, OutcomeOf(t, w, s, f).doc)
  {
    var w', doc := Ingest(t, w, s, f), Prepared(t, w, s);
    PreparedFits(t, w, s);
    PlacedKeepsInv(w.docs, w.nextId, doc);
    RowsHoldTexts(t, t.parse(s).texts);
    assert Landed(PathOf(t, w, s), f, Put);
    ExistingIsThere(w'.docs, s.uri);
  }

  lemma ExistingIsThere(docs: seq<Doc>, uri: string)
    ensures Existing(docs, uri).Some? ==> Existing(docs, uri).value in docs
  {
  }

  ghost predicate RecordsHash(docs: seq<Doc>, uri: string, hash: string) {
    exists d :: d in docs && d.uri == uri && d.hash == hash
  }

  /** Left alone, an ingest is skipped if and only if the document of that URI records
      the digest of that content, and otherwise goes through. */
  lemma SkippedIffRecorded(t: Tools, w: World, s: Source)
    requires Inv(w)
    ensures OutcomeOf(t, w, s, NoFault) == UpToDate <==> RecordsHash(w.docs, s.uri, t.digest(s.data))
    ensures OutcomeOf(t, w, s, NoFault).Ingested? <==> !RecordsHash(w.docs, s.uri, t.digest(s.data))
    ensures IsCurrent(t, w, s) <==> RecordsHash(w.docs, s.uri, t.digest(s.data))
  {
    ExistingIsThere(w.docs, s.uri);
    if RecordsHash(w.docs, s.uri, t.digest(s.data)) {
      var d :| d in w.docs && d.uri == s.uri && d.hash == t.digest(s.data);
      var i :| 0 <= i < |w.docs| && w.docs[i] == d;
      FindIsUnique(w.docs, i);
    }
  }

  /** The title that wins. One that nobody takes for a placeholder stays; else the
      source's own is taken, else the parsed one; else what there is of title, file
      name and URI. */
  ghost predicate HasWinningTitle(t: Tools, before: Option<Doc>, s: Source, title: string) {
    var placeholders := ["", s.filename, s.uri];
    if before.Some? && before.value.title !in placeholders then title == before.value.title
    else if s.title !in placeholders then title == s.title
    else if t.parse(s).title != "" then title == t.parse(s).title
    else if s.title != "" then title == s.title
    else if before.Some? then title == before.value.title
    else title == if s.filename != "" then s.filename else s.uri
  }

  lemma PreparedTitle(t: Tools, existing: Option<Doc>, newId: nat, s: Source)
    ensures HasWinningTitle(t, existing, s, NewDoc(t, existing, newId, s).title)
  {
  }

  /** `before` is the document of a URI among `docs`, if there is one. */
  ghost predicate IsDocOf(docs: seq<Doc>, uri: string, before: Option<Doc>) {
    if before.Some? then before.value in docs && before.value.uri == uri else forall d :: d in docs ==> d.uri != uri
  }

  lemma ExistingIsDocOf(docs: seq<Doc>, nextId: nat, uri: string, before: Option<Doc>)
    requires DocsInv(docs, nextId) && IsDocOf(docs, uri, before)
    ensures Existing(docs, uri) == before
  {
    if before.Some? {
      OnlyOne(docs, nextId, before.value);
    } else {
      ExistingIsThere(docs, uri);
    }
  }

  /** The document a successful attempt leaves keeps its id, has the winning title and
      is active unless it was retired before or reads as superseded now. */
  lemma CommittedDocument(t: Tools, w: World, s: Source, f: Fault, before: Option<Doc>, d: Doc)
    requires Inv(w) && OutcomeOf(t, w, s, f).Ingested? && IsDocOf(w.docs, s.uri, before)
    requires d in Ingest(t, w, s, f).docs && d.uri == s.uri
    ensures HasWinningTitle(t, before, s, d.title)
    ensures before.Some? ==> d.id == before.value.id
    ensures d.active <==> (before.Some? ==> before.value.active) && !t.parse(s).superseded
  {
    var docs' := Ingest(t, w, s, f).docs;
    ExistingIsDocOf(w.docs, w.nextId, s.uri, before);
    PreparedTitle(t, before, w.nextId + 1, s);
    PreparedFits(t, w, s);
    PlacedKeepsInv(w.docs, w.nextId, Prepared(t, w, s));
    OnlyOne(docs', w.nextId + 2, d);
  }

  lemma OnlyOne(docs: seq<Doc>, nextId: nat, d: Doc)
    requires DocsInv(docs, nextId) && d in docs
    ensures Existing(docs, d.uri) == Some(d)
  {
    var i :| 0 <= i < |docs| && docs[i] == d;
    FindIsUnique(docs, i);
  }

  /** Content already current is left alone, however often and with whatever
      faults it is ingested again. */
  lemma {:induction false} CurrentIsNeverReindexed(t: Tools, w: World, s: Source, again: seq<Attempt>)
    requires Inv(w) && IsCurrent(t, w, s)
    requires forall a :: a in again ==> a.source.uri == s.uri && t.digest(a.source.data) == t.digest(s.data)
    ensures var w' := Run(t, w, again);
            w'.docs == w.docs && w'.chunks == w.chunks && w'.storage == w.storage
  {
    if again != [] {
      var n := |again| - 1;
      assert again[n] in again && forall a :: a in again[..n] ==> a in again;
      CurrentIsNeverReindexed(t, w, s, again[..n]);
    }
  }

  /** After any run of attempts at all, one that succeeds leaves exactly its
      content stored, and ingesting that content again changes nothing. */
  lemma SuccessAfterAnyRun(t: Tools, w: World, attempts: seq<Attempt>, s: Source, f: Fault, again: seq<Attempt>)
    requires Inv(w) && OutcomeOf(t, Run(t, w, attempts), s, f).Ingested?
    requires forall a :: a in again ==> a.source.uri == s.uri && t.digest(a.source.data) == t.digest(s.data)
    ensures var done := Ingest(t, Run(t, w, attempts), s, f);
            var later := Run(t, done, again);
            && Holds(t, done, s) && Holds(t, later, s)
            && later.docs == done.docs && later.chunks == done.chunks && later.storage == done.storage
            && OutcomeOf(t, later, s, NoFault) == UpToDate
  {
    RunKeepsIdentity(t, w, attempts);
    var before := Run(t, w, attempts);
    CommitHolds(t, before, s, f);
    IngestKeepsInv(t, before, s, f);
    CurrentIsNeverReindexed(t, Ingest(t, before, s, f), s, again);
  }

  /** A failed update leaves the previous version intact if and only if it failed
      before its calls outside the database took effect. */
  lemma FailedUpdateKeepsPreviousIff(t: Tools, w: World, prior: Source, s: Source, f: Fault)
    requires Inv(w) && Holds(t, w, prior) && s.uri == prior.uri
    requires !IsCurrent(t, w, s) && !Commits(PathOf(t, w, s), f)
    ensures var p := PathOf(t, w, s);
            Holds(t, Ingest(t, w, s, f), prior)
            <==> !Landed(p, f, Put) && (Landed(p, f, VectorDelete) ==> t.parse(prior).texts == [])
  {
    assert s.data != prior.data;
  }

  /** Otherwise the previous version is lost in silence: its hash stays, so every
      later ingest of it is skipped, and its chunks never come back. */
  lemma LostChunksStayLost(t: Tools, w: World, prior: Source, s: Source, f: Fault, again: seq<Attempt>)
    requires Inv(w) && Holds(t, w, prior) && s.uri == prior.uri && t.parse(prior).texts != []
    requires !IsCurrent(t, w, s) && !Commits(PathOf(t, w, s), f) && Landed(PathOf(t, w, s), f, VectorDelete)
    requires forall a :: a in again ==> a.source == prior
    ensures var later := Run(t, Ingest(t, w, s, f), again);
            && !Holds(t, later, prior)
            && OutcomeOf(t, later, prior, NoFault) == UpToDate
            && ChunksOf(later, Existing(w.docs, s.uri).value.id) == []
  {
    FailedUpdateKeepsPreviousIff(t, w, prior, s, f);
    IngestKeepsInv(t, w, s, f);
    CurrentIsNeverReindexed(t, Ingest(t, w, s, f), prior, again);
  }

  /** Only an ingest of different content repairs it. */
  lemma DifferentContentRepairs(t: Tools, w: World, s: Source, f: Fault)
    requires Inv(w) && !IsCurrent(t, w, s) && !Fails(PathOf(t, w, s), f)
    ensures OutcomeOf(t, w, s, f).Ingested? && Holds(t, Ingest(t, w, s, f), s)
  {
    CommitHolds(t, w, s, f);
  }

  // ---- When the stored version is whole -----------------------------------

  const EMPTY: World := World([], map[], map[], map[], 0)

  /** The source last committed for a URI. */
  ghost function LastStored(t: Tools, attempts: seq<Attempt>, uri: string): Option<Source> {
    if attempts == [] then None
    else
      var n := |attempts| - 1;
      var w, s, f := Run(t, EMPTY, attempts[..n]), attempts[n].source, attempts[n].fault;
      if s.uri == uri && Commits(PathOf(t, w, s), f) then Some(s) else LastStored(t, attempts[..n], uri)
  }

  /** Since that commit some attempt failed after one of its calls outside the
      database had an effect on the version stored. */
  ghost predicate Damaged(t: Tools, attempts: seq<Attempt>, uri: string) {
    if attempts == [] then false
    else
      var n := |attempts| - 1;
      var w, s, f := Run(t, EMPTY, attempts[..n]), attempts[n].source, attempts[n].fault;
      var p, last := PathOf(t, w, s), LastStored(t, attempts[..n], uri);
      if s.uri != uri then Damaged(t, attempts[..n], uri)
      else if Commits(p, f) then false
      else Damaged(t, attempts[..n], uri)
           || (last.Some? && (Landed(p, f, Put) || (Landed(p, f, VectorDelete) && t.parse(last.value).texts != [])))
  }

  /** The stored version of `s.uri` is recorded as `s`; its chunks are all there or
      all gone, its bytes are there or overwritten by others, and nothing is amiss
      unless `damaged`. */
  ghost predicate Recorded(t: Tools, w: World, s: Source, damaged: bool) {
    var e := Existing(w.docs, s.uri);
    && e.Some? && e.value.hash == t.digest(s.data)
    && ChunksOf(w, e.value.id) in [RowsFor(t, t.parse(s).texts), []]
    && (Holds(t, w, s) <==> !damaged)
  }

  lemma {:induction false} UncommittedStep(t: Tools, w: World, last: Source, s: Source, f: Fault, damaged: bool)
    requires Inv(w) && s.uri == last.uri && Recorded(t, w, last, damaged) && !Commits(PathOf(t, w, s), f)
    ensures var p := PathOf(t, w, s);
            Recorded(t, Ingest(t, w, s, f), last,
                     damaged || Landed(p, f, Put) || (Landed(p, f, VectorDelete) && t.parse(last).texts != []))
  {
    var p := PathOf(t, w, s);
    assert !p.current ==> s.data != last.data;
    assert RowsFor(t, t.parse(last).texts) == [] <==> t.parse(last).texts == [];
  }

  lemma {:induction false} ElsewhereStep(t: Tools, w: World, last: Source, s: Source, f: Fault, damaged: bool)
    requires Inv(w) && s.uri != last.uri && Recorded(t, w, last, damaged)
    ensures Recorded(t, Ingest(t, w, s, f), last, damaged)
  {
    var at := Find(w.docs, last.uri);
    OthersUntouched(t, w, s, f, at.value);
  }

  lemma {:induction false} StaysAbsent(t: Tools, w: World, s: Source, f: Fault, uri: string)
    requires Existing(w.docs, uri).None? && !(s.uri == uri && Commits(PathOf(t, w, s), f))
    ensures Existing(Ingest(t, w, s, f).docs, uri).None?
  {
    var docs := Ingest(t, w, s, f).docs;
    assert forall i :: 0 <= i < |w.docs| ==> docs[i].uri == w.docs[i].uri;
  }

  /** Over every run from an empty tenant: a URI has a document exactly when some
      attempt on it committed, the document records the last content committed,
      and that content is stored whole, chunks and bytes, if and only if no later
      failed attempt got as far as an effect outside the database. */
  lemma {:induction false} StoredWholeIffUndamaged(t: Tools, attempts: seq<Attempt>, uri: string)
    ensures var w, last := Run(t, EMPTY, attempts), LastStored(t, attempts, uri);
            && Inv(w)
            && (last.None? ==> Existing(w.docs, uri).None?)
            && (last.Some? ==> last.value.uri == uri && Recorded(t, w, last.value, Damaged(t, attempts, uri)))
  {
    if attempts != [] {
      var n := |attempts| - 1;
      StoredWholeIffUndamaged(t, attempts[..n], uri);
      var w, s, f := Run(t, EMPTY, attempts[..n]), attempts[n].source, attempts[n].fault;
      var last := LastStored(t, attempts[..n], uri);
      IngestKeepsInv(t, w, s, f);
      if s.uri == uri && Commits(PathOf(t, w, s), f) {
        CommitHolds(t, w, s, f);
      } else if last.None? {
        StaysAbsent(t, w, s, f, uri);
      } else if s.uri != uri {
        ElsewhereStep(t, w, last.value, s, f, Damaged(t, attempts[..n], uri));
      } else {
        UncommittedStep(t, w, last.value, s, f, Damaged(t, attempts[..n], uri));
      }
    }
  }

  /** Ids go out in pairs, the job's first. */
  function JobId(k: nat): nat {
    2 * k
  }

  ghost predicate Numbered(w: World, k: nat) {
    w.nextId == JobId(k) && forall j :: j in w.jobs ==> exists i: nat :: i < k && j == JobId(i)
  }

  lemma NumberedOn(w: World, w': World, k: nat)
    requires Numbered(w, k) && w'.nextId == w.nextId + 2 && w'.jobs.Keys <= w.jobs.Keys + {w.nextId}
    ensures Numbered(w', k + 1)
  {
    forall j | j in w'.jobs
      ensures exists i: nat :: i < k + 1 && j == JobId(i)
    {
      if j in w.jobs {
        var i: nat :| i < k && j == JobId(i);
      } else {
        assert j == JobId(k);
      }
    }
  }

  lemma {:induction false} JobsAreNumbered(t: Tools, attempts: seq<Attempt>)
    ensures Inv(Run(t, EMPTY, attempts)) && Numbered(Run(t, EMPTY, attempts), |attempts|)
  {
    if attempts != [] {
      var n := |attempts| - 1;
      var w, a := Run(t, EMPTY, attempts[..n]), attempts[n];
      JobsAreNumbered(t, attempts[..n]);
      IngestKeepsInv(t, w, a.source, a.fault);
      JobsTellTheTruth(t, w, a.source, a.fault);
      NumberedOn(w, Ingest(t, w, a.source, a.fault), n);
    }
  }

  /** In world `w` the row of each attempt of a run from an empty tenant tells the
      truth about that attempt. */
  ghost predicate LogTells(t: Tools, attempts: seq<Attempt>, w: World) {
    attempts == [] ||
    var n := |attempts| - 1;
    && LogTells(t, attempts[..n], w)
    && RowTells(t, Run(t, EMPTY, attempts[..n]), attempts[n].source, attempts[n].fault, Run(t, EMPTY, attempts),
                RowOf(w, JobId(n)))
  }

  ghost predicate SameRows(w: World, w': World, n: nat) {
    forall k: nat :: k < n ==> RowOf(w', JobId(k)) == RowOf(w, JobId(k))
  }

  lemma {:induction false} LogStillTells(t: Tools, attempts: seq<Attempt>, w: World, w': World)
    requires LogTells(t, attempts, w) && SameRows(w, w', |attempts|)
    ensures LogTells(t, attempts, w')
  {
    if attempts != [] {
      LogStillTells(t, attempts[..|attempts| - 1], w, w');
    }
  }

  lemma EarlierRowsStay(w: World, w': World, n: nat)
    requires w.nextId == JobId(n) && w'.jobs.Keys <= w.jobs.Keys + {w.nextId}
    requires forall j :: j in w.jobs ==> RowOf(w', j) == RowOf(w, j)
    ensures SameRows(w, w', n)
  {
  }

  /** Over every run from an empty tenant each attempt's row, once written, is never
      touched again and tells the truth about that attempt; there are no others. */
  lemma {:induction false} JobLogTellsTheTruth(t: Tools, attempts: seq<Attempt>)
    ensures LogTells(t, attempts, Run(t, EMPTY, attempts))
    ensures Numbered(Run(t, EMPTY, attempts), |attempts|)
  {
    JobsAreNumbered(t, attempts);
    if attempts != [] {
      var n := |attempts| - 1;
      var w, a := Run(t, EMPTY, attempts[..n]), attempts[n];
      JobLogTellsTheTruth(t, attempts[..n]);
      JobsAreNumbered(t, attempts[..n]);
      JobsTellTheTruth(t, w, a.source, a.fault);
      EarlierRowsStay(w, Run(t, EMPTY, attempts), n);
      LogStillTells(t, attempts[..n], w, Run(t, EMPTY, attempts));
    }
  }
}
