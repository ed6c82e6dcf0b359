/** A question answered in one piece or streamed token by token: two paths that
    must leave the same turn behind. */
module AskService {
  import opened Prelude
  import opened Citations
  import opened ChatMemory

  datatype Request = Request(tenant: string, user: string, question: string, sessionId: Option<nat>, newId: nat)

  datatype AskOutcome = AskOutcome(answer: string, citations: seq<Citation>, sessionId: nat)

  datatype Event =
    | Retrieve(chunks: nat)
    | Token(text: string)
    | Done(sessionId: nat, citations: seq<Citation>)

  const REFUSAL_NO_CONTEXT: string := 
    "I don't have any indexed material that answers this. Try a different phrasing, or ingest the relevant document into AskAi first."

  function Join(tokens: seq<string>): string {
    if tokens == [] then "" else Join(tokens[..|tokens| - 1]) + tokens[|tokens| - 1]
  }

  function CiteAll(indexes: seq<nat>, hits: seq<Chunk>): seq<Citation>
    requires forall k :: 0 <= k < |indexes| ==> 1 <= indexes[k] <= |hits|
  {
    seq(|indexes|, k requires 0 <= k < |indexes| => Cite(hits[indexes[k] - 1]))
  }

  function CitationsIn(answer: string, hits: seq<Chunk>): seq<Citation> {
    CitedInRange(answer, hits);
    assert forall k :: 0 <= k < |Cited(answer, hits)| ==> Cited(answer, hits)[k] in Cited(answer, hits);
    CiteAll(Cited(answer, hits), hits)
  }

  function SessionOf(r: Request): nat {
    r.sessionId.GetOr(r.newId)
  }

  /** What an answer leaves in the session rows; None if they reject it. */
  function Persisted(maxTurns: int, rows: Sessions, r: Request, hits: seq<Chunk>, answer: string): Option<Sessions> {
    Append(maxTurns, rows, r.tenant, SessionOf(r), r.user, Turn(r.question, answer, CitationsIn(answer, hits)))
  }

  /** The blocking path's answer; `generated` is None when the gateway raises. */
  function BlockingAnswer(hits: seq<Chunk>, generated: Option<string>): Option<string> {
    if hits != [] then generated else Some(REFUSAL_NO_CONTEXT)
  }

  /** The tokens yielded: the gateway's, or the refusal as a single one. */
  function Streamed(hits: seq<Chunk>, tokens: seq<string>): seq<string> {
    if hits != [] then tokens else [REFUSAL_NO_CONTEXT]
  }

  function TokenEvents(tokens: seq<string>): seq<Event> {
    seq(|tokens|, i requires 0 <= i < |tokens| => Token(tokens[i]))
  }

  /** The turn is persisted once the caller asks for more than every token. */
  predicate Reaches(hits: seq<Chunk>, tokens: seq<string>, raises: bool, pulls: nat) {
    pulls > |Streamed(hits, tokens)| + 1 && !(hits != [] && raises)
  }

  /** What a caller who never goes away is sent. */
  function AllEvents(maxTurns: int, rows: Sessions, r: Request, hits: seq<Chunk>, tokens: seq<string>, raises: bool)
    : seq<Event>
  {
    var answer := Join(Streamed(hits, tokens));
    var ends := !(hits != [] && raises) && Persisted(maxTurns, rows, r, hits, answer).Some?;
    Opening(hits, tokens)
    + if ends then [Done(SessionOf(r), CitationsIn(answer, hits))] else []
  }

  /** What is sent before the turn is persisted. */
  function Opening(hits: seq<Chunk>, tokens: seq<string>): seq<Event> {
    [Retrieve(|hits|)] + TokenEvents(Streamed(hits, tokens))
  }

  function AskRows(maxTurns: int, rows: Sessions, r: Request, hits: seq<Chunk>, generated: Option<string>): Sessions {
    match BlockingAnswer(hits, generated)
    case None => rows
    case Some(answer) => Persisted(maxTurns, rows, r, hits, answer).GetOr(rows)
  }

  function AskResult(maxTurns: int, rows: Sessions, r: Request, hits: seq<Chunk>, generated: Option<string>)
    : Option<AskOutcome>
  {
    match BlockingAnswer(hits, generated)
    case None => None
    case Some(answer) =>
      if Persisted(maxTurns, rows, r, hits, answer).None? then None
      else Some(AskOutcome(answer, CitationsIn(answer, hits), SessionOf(r)))
  }

  /** The rows a stream leaves when its caller takes at most `pulls` events. */
  function StreamRows(maxTurns: int, rows: Sessions, r: Request, hits: seq<Chunk>, tokens: seq<string>, raises: bool,
                      pulls: nat): Sessions {
    if Reaches(hits, tokens, raises, pulls)
    then Persisted(maxTurns, rows, r, hits, Join(Streamed(hits, tokens))).GetOr(rows)
    else rows
  }

  function StreamEvents(maxTurns: int, rows: Sessions, r: Request, hits: seq<Chunk>, tokens: seq<string>, raises: bool,
                        pulls: nat): seq<Event> {
    var all := AllEvents(maxTurns, rows, r, hits, tokens, raises);
    all[..Min(pulls, |all|)]
  }

  /** After an answer: its session belongs to the asking tenant and to its first asker
      and ends in the question and that answer with its citations, which quote the
      hits it names; the other sessions are what they were. */
  ghost predicate Remembers(maxTurns: int, was: Sessions, rows: Sessions, r: Request, hits: seq<Chunk>, answer: string,
                            citations: seq<Citation>) {
    var id := match r.sessionId case Some(given) => given case None => r.newId;
    && id in rows && rows[id].tenant == r.tenant && rows - {id} == was - {id}
    && rows[id].user == (if id in was then was[id].user else r.user)
    && (maxTurns >= 1 ==> EndsInTurn(rows[id], r.question, answer, citations))
    && QuoteChunks(citations, Cited(answer, hits), hits)
  }

  /** The answer is the gateway's text, or the refusal when there are no hits, and
      the turn is remembered under the session named. */
  ghost predicate Answers(maxTurns: int, was: Sessions, rows: Sessions, r: Request, hits: seq<Chunk>, generated: Option<string>,
                          o: AskOutcome) {
    && o.sessionId == (match r.sessionId case Some(given) => given case None => r.newId)
    && (hits != [] ==> generated == Some(o.answer))
    && (hits == [] ==> o.answer == REFUSAL_NO_CONTEXT)
    && Remembers(maxTurns, was, rows, r, hits, o.answer, o.citations)
  }

  lemma {:induction false} CitationsInQuote(answer: string, hits: seq<Chunk>)
    ensures QuoteChunks(CitationsIn(answer, hits), Cited(answer, hits), hits)
  {
    var cited := Cited(answer, hits);
    CitedInRange(answer, hits);
    assert forall k :: 0 <= k < |cited| ==> cited[k] in cited;
    CitationsQuote(CitationsIn(answer, hits), cited, hits);
  }

  lemma {:induction false} PersistedIsRemembered(maxTurns: int, rows: Sessions, r: Request, hits: seq<Chunk>, answer: string)
    ensures var p := Persisted(maxTurns, rows, r, hits, answer);
            p.Some? ==> Remembers(maxTurns, rows, p.value, r, hits, answer, CitationsIn(answer, hits))
  {
    CitationsInQuote(answer, hits);
    AppendMeans(maxTurns, rows, r.tenant, SessionOf(r), r.user, Turn(r.question, answer, CitationsIn(answer, hits)));
  }

  lemma OpeningSoFar(hits: seq<Chunk>, tokens: seq<string>, pulls: nat)
    requires pulls > 0
    ensures var opening, sent := Opening(hits, tokens), TokenEvents(Streamed(hits, tokens));
            && [Retrieve(|hits|)] + sent[..Min(pulls - 1, |sent|)] == opening[..Min(pulls, |opening|)]
            && (pulls > |sent| ==> opening[..Min(pulls, |opening|)] == opening)
  {
  }

  class AskAiService {
    const memory: SessionMemory

    constructor (memory: SessionMemory)
      ensures this.memory == memory
    {
      this.memory := memory;
    }

    /** Both paths end here: extract the citations, then append the turn. None
        when the session rows reject it. */
    method Persist(r: Request, hits: seq<Chunk>, answer: string, id: nat) returns (o: Option<seq<Citation>>)
      requires id == SessionOf(r)
      modifies memory
      ensures var rows := Persisted(memory.maxTurns, old(memory.rows), r, hits, answer);
              && memory.rows == rows.GetOr(old(memory.rows))
              && o == (if rows.Some? then Some(CitationsIn(answer, hits)) else None)
      ensures o.Some? ==> Remembers(memory.maxTurns, old(memory.rows), memory.rows, r, hits, answer, o.value)
    {
      PersistedIsRemembered(memory.maxTurns, memory.rows, r, hits, answer);
      var citations := ExtractCitations(answer, hits);
      assert citations == CitationsIn(answer, hits);
      var ok := memory.AppendTurn(r.tenant, id, r.user, Turn(r.question, answer, citations));
      return if ok then Some(citations) else None;
    }

    /** `generated` is None when the gateway raises. */
    method Ask(r: Request, hits: seq<Chunk>, generated: Option<string>) returns (o: Option<AskOutcome>)
      modifies memory
      ensures memory.rows == AskRows(memory.maxTurns, old(memory.rows), r, hits, generated)
      ensures o == AskResult(memory.maxTurns, old(memory.rows), r, hits, generated)
      ensures o.Some? ==> Answers(memory.maxTurns, old(memory.rows), memory.rows, r, hits, generated, o.value)
    {
      var id, history := memory.LoadHistory(r.tenant, r.sessionId, r.newId);
      var answer := REFUSAL_NO_CONTEXT;
      if hits != [] {
        if generated.None? {
          return None;
        }
        answer := generated.value;
      }
      assert BlockingAnswer(hits, generated) == Some(answer);
      var citations := Persist(r, hits, answer, id);
      return if citations.Some? then Some(AskOutcome(answer, citations.value, id)) else None;
    }

    /** Collect and yield tokens until they run out or the caller, who asks for at
        most `pulls` of them, goes away. */
    method YieldTokens(tokens: seq<string>, pulls: nat) returns (events: seq<Event>, collected: seq<string>, open: bool)
      ensures open <==> pulls > |tokens|
      ensures events == TokenEvents(tokens)[..Min(pulls, |tokens|)]
      ensures open ==> collected == tokens
    {
      events, collected, open := [], [], pulls > 0;
      for i := 0 to |tokens|
        invariant open <==> pulls > i
        invariant pulls >= i && collected == tokens[..i] && events == TokenEvents(tokens)[..i]
      {
        if pulls == i {
          return;
        }
        collected := collected + [tokens[i]];
        events := events + [Token(tokens[i])];
        open := pulls > i + 1;
      }
    }

    /** `tokens` are what the gateway streams before it stops or, with `raises`,
        fails. The caller asks for at most `pulls` events and then goes away, which
        closes the generator at the yield it is suspended on. */
    method StreamAsk(r: Request, hits: seq<Chunk>, tokens: seq<string>, raises: bool, pulls: nat)
      returns (events: seq<Event>)
      modifies memory
      ensures memory.rows == StreamRows(memory.maxTurns, old(memory.rows), r, hits, tokens, raises, pulls)
      ensures events == StreamEvents(memory.maxTurns, old(memory.rows), r, hits, tokens, raises, pulls)
    {
      events := [];
      if pulls == 0 {
        return;
      }
      var id, history := memory.LoadHistory(r.tenant, r.sessionId, r.newId);
      events := [Retrieve(|hits|)];
      var sent := if hits == [] then [REFUSAL_NO_CONTEXT] else tokens;
      var yielded, collected, open := YieldTokens(sent, pulls - 1);
      events := events + yielded;
      ghost var opening := Opening(hits, tokens);
      OpeningSoFar(hits, tokens, pulls);
      if !open || (hits != [] && raises) {
        CutStream(memory.maxTurns, memory.rows, r, hits, tokens, raises, pulls);
        return;
      }
      var citations := Persist(r, hits, Join(collected), id);
      if citations.Some? {
        events := events + [Done(id, citations.value)];
      }
    }
  }

  /** The number of hits, then the texts one by one, then perhaps a Done. */
  ghost predicate Sends(events: seq<Event>, hits: nat, texts: seq<string>) {
    && (events != [] ==> events[0] == Retrieve(hits))
    && (forall k :: 1 <= k < |events| ==> if k <= |texts| then events[k] == Token(texts[k - 1]) else events[k].Done?)
    && |events| <= |texts| + 2
  }

  /** What a stream sends, in the caller's terms: without hits its only text is the
      refusal. Only a caller who asks for nothing gets nothing. */
  lemma {:induction false} StreamSends(maxTurns: int, rows: Sessions, r: Request, hits: seq<Chunk>, tokens: seq<string>,
                                       raises: bool, pulls: nat)
    ensures var events := StreamEvents(maxTurns, rows, r, hits, tokens, raises, pulls);
            && Sends(events, |hits|, if hits == [] then [REFUSAL_NO_CONTEXT] else tokens)
            && (events == [] <==> pulls == 0)
            && |events| <= pulls
  {
    assert |AllEvents(maxTurns, rows, r, hits, tokens, raises)| > 0;
  }

  /** A stream that is cut short, or fails, has sent part of its opening. */
  lemma {:induction false} CutStream(maxTurns: int, rows: Sessions, r: Request, hits: seq<Chunk>, tokens: seq<string>,
                                     raises: bool, pulls: nat)
    requires !Reaches(hits, tokens, raises, pulls)
    ensures var opening := Opening(hits, tokens);
            StreamEvents(maxTurns, rows, r, hits, tokens, raises, pulls) == opening[..Min(pulls, |opening|)]
  {
    var opening, all := Opening(hits, tokens), AllEvents(maxTurns, rows, r, hits, tokens, raises);
    if hits != [] && raises {
      assert all == opening;
    } else {
      assert all[..|opening|] == opening && Min(pulls, |all|) <= |opening|;
    }
  }

  // ---- The two paths ------------------------------------------------------

  function Texts(events: seq<Event>): seq<string> {
    if events == [] then []
    else
      var last := events[|events| - 1];
      Texts(events[..|events| - 1]) + if last.Token? then [last.text] else []
  }

  lemma {:induction false} TextsOfTokens(head: Event, tokens: seq<string>)
    requires !head.Token?
    ensures Texts([head] + TokenEvents(tokens)) == tokens
  {
    var all := [head] + TokenEvents(tokens);
    if tokens == [] {
      assert all == [head] && all[..0] == [];
    } else {
      var n := |tokens| - 1;
      assert all[..|all| - 1] == [head] + TokenEvents(tokens[..n]);
      TextsOfTokens(head, tokens[..n]);
    }
  }

  /** The token events of a complete stream spell the answer that was persisted. */
  lemma {:induction false} ClientReadsThePersistedAnswer(hits: seq<Chunk>, tokens: seq<string>, end: Event)
    requires !end.Token?
    ensures Join(Texts(Opening(hits, tokens) + [end])) == Join(Streamed(hits, tokens))
  {
    var all := Opening(hits, tokens);
    TextsOfTokens(Retrieve(|hits|), Streamed(hits, tokens));
    var full := all + [end];
    assert full[..|full| - 1] == all && Texts(full) == Texts(all) + [];
    assert Texts(full) == Streamed(hits, tokens);
  }

  lemma {:induction false} JoinAppends(a: seq<string>, b: seq<string>)
    ensures Join(a + b) == Join(a) + Join(b)
  {
    if b == [] {
      assert a + b == a;
    } else {
      var front, last := b[..|b| - 1], b[|b| - 1];
      assert (a + b)[..|a + b| - 1] == a + front;
      JoinAppends(a, front);
      assert Join(a) + Join(front) + last == Join(a) + (Join(front) + last);
    }
  }

  lemma {:induction false} SameAnswer(hits: seq<Chunk>, text: string, tokens: seq<string>)
    requires Join(tokens) == text
    ensures BlockingAnswer(hits, Some(text)) == Some(Join(Streamed(hits, tokens)))
  {
    JoinOne(REFUSAL_NO_CONTEXT);
  }

  /** However the text is cut into tokens, inside a marker or not: from the same rows
      the stream leaves the rows the blocking call leaves if and only if its caller
      asks for more than every token of a stream that does not fail, or the turn
      would have left the rows as they are. */
  lemma {:induction false} StreamPersistsWhatAskDoesIff(maxTurns: int, rows: Sessions, r: Request, hits: seq<Chunk>,
                                                        text: string, tokens: seq<string>, raises: bool, pulls: nat)
    requires Join(tokens) == text
    ensures var asked := AskRows(maxTurns, rows, r, hits, Some(text));
            StreamRows(maxTurns, rows, r, hits, tokens, raises, pulls) == asked
            <==> Reaches(hits, tokens, raises, pulls) || asked == rows
  {
    SameAnswer(hits, text, tokens);
  }

  ghost predicate EndsInDone(events: seq<Event>, o: AskOutcome) {
    && events != [] && events[|events| - 1] == Done(o.sessionId, o.citations)
    && Join(Texts(events)) == o.answer
  }

  ghost predicate HasDone(events: seq<Event>) {
    exists e :: e in events && e.Done?
  }

  lemma AppendEnd(opening: seq<Event>, end: Event)
    requires forall e :: e in opening ==> !e.Done?
    ensures !HasDone(opening) && (end.Done? ==> HasDone(opening + [end]))
    ensures forall n: nat :: n <= |opening| ==> !HasDone(opening[..n])
  {
    assert (opening + [end])[|opening|] == end;
  }

  lemma OpeningIsNotDone(hits: seq<Chunk>, tokens: seq<string>)
    ensures forall e :: e in Opening(hits, tokens) ==> !e.Done?
  {
  }

  lemma {:induction false} WholeStreamEnds(hits: seq<Chunk>, tokens: seq<string>, o: AskOutcome)
    requires Join(Streamed(hits, tokens)) == o.answer
    ensures EndsInDone(Opening(hits, tokens) + [Done(o.sessionId, o.citations)], o)
  {
    ClientReadsThePersistedAnswer(hits, tokens, Done(o.sessionId, o.citations));
  }

  lemma {:induction false} WholeStream(maxTurns: int, rows: Sessions, r: Request, hits: seq<Chunk>, tokens: seq<string>,
                                       raises: bool, pulls: nat)
    requires Reaches(hits, tokens, raises, pulls)
    ensures var answer := Join(Streamed(hits, tokens));
            StreamEvents(maxTurns, rows, r, hits, tokens, raises, pulls)
            == if Persisted(maxTurns, rows, r, hits, answer).Some?
               then Opening(hits, tokens) + [Done(SessionOf(r), CitationsIn(answer, hits))]
               else Opening(hits, tokens)
  {
    var all := AllEvents(maxTurns, rows, r, hits, tokens, raises);
    assert |all| <= pulls && all[..|all|] == all;
    assert Opening(hits, tokens) + [] == Opening(hits, tokens);
  }

  ghost predicate DoneMatches(events: seq<Event>, o: Option<AskOutcome>) {
    (HasDone(events) <==> o.Some?) && (o.Some? ==> EndsInDone(events, o.value))
  }

  lemma {:induction false} FollowedStream(maxTurns: int, rows: Sessions, r: Request, hits: seq<Chunk>, text: string,
                                          tokens: seq<string>, raises: bool, pulls: nat)
    requires BlockingAnswer(hits, Some(text)) == Some(Join(Streamed(hits, tokens))) && Reaches(hits, tokens, raises, pulls)
    ensures DoneMatches(StreamEvents(maxTurns, rows, r, hits, tokens, raises, pulls),
                        AskResult(maxTurns, rows, r, hits, Some(text)))
  {
    var opening, o := Opening(hits, tokens), AskResult(maxTurns, rows, r, hits, Some(text));
    WholeStream(maxTurns, rows, r, hits, tokens, raises, pulls);
    OpeningIsNotDone(hits, tokens);
    if o.Some? {
      AppendEnd(opening, Done(o.value.sessionId, o.value.citations));
      WholeStreamEnds(hits, tokens, o.value);
    } else {
      AppendEnd(opening, Retrieve(0));
    }
  }

  lemma {:induction false} CutStreamHasNoDone(maxTurns: int, rows: Sessions, r: Request, hits: seq<Chunk>,
                                              tokens: seq<string>, raises: bool, pulls: nat)
    requires !Reaches(hits, tokens, raises, pulls)
    ensures !HasDone(StreamEvents(maxTurns, rows, r, hits, tokens, raises, pulls))
  {
    CutStream(maxTurns, rows, r, hits, tokens, raises, pulls);
    OpeningIsNotDone(hits, tokens);
    AppendEnd(Opening(hits, tokens), Retrieve(0));
  }

  /** A stream followed to its end sends Done exactly when the blocking call would
      have answered: Done comes last, carries that answer's session and citations,
      and the tokens before it spell its text. A stream cut short or failing sends
      none. */
  lemma {:induction false} DoneCarriesTheAnswer(maxTurns: int, rows: Sessions, r: Request, hits: seq<Chunk>,
                                                text: string, tokens: seq<string>, raises: bool, pulls: nat)
    requires Join(tokens) == text
    ensures var events := StreamEvents(maxTurns, rows, r, hits, tokens, raises, pulls);
            if Reaches(hits, tokens, raises, pulls)
            then DoneMatches(events, AskResult(maxTurns, rows, r, hits, Some(text)))
            else !HasDone(events)
  {
    SameAnswer(hits, text, tokens);
    if Reaches(hits, tokens, raises, pulls) {
      FollowedStream(maxTurns, rows, r, hits, text, tokens, raises, pulls);
    } else {
      CutStreamHasNoDone(maxTurns, rows, r, hits, tokens, raises, pulls);
    }
  }

  /** Cutting one token in two costs the caller one more event and changes nothing
      that is kept. */
  lemma {:induction false} RecutIsInvisible(maxTurns: int, rows: Sessions, r: Request, hits: seq<Chunk>, before: seq<string>,
                         token: string, at: nat, after: seq<string>, raises: bool, pulls: nat)
    requires hits != [] && at <= |token|
    ensures var whole, cut := before + [token] + after, before + [token[..at], token[at..]] + after;
            && Join(whole) == Join(cut)
            && StreamRows(maxTurns, rows, r, hits, cut, raises, pulls + 1)
            == StreamRows(maxTurns, rows, r, hits, whole, raises, pulls)
  {
    JoinRecut(before, token, at, after);
  }

  lemma {:induction false} JoinRecut(before: seq<string>, token: string, at: nat, after: seq<string>)
    requires at <= |token|
    ensures Join(before + [token] + after) == Join(before + [token[..at], token[at..]] + after)
  {
    JoinAppends(before + [token], after);
    JoinAppends(before, [token]);
    JoinAppends(before + [token[..at], token[at..]], after);
    JoinAppends(before, [token[..at], token[at..]]);
    JoinAppends([token[..at]], [token[at..]]);
    assert [token[..at]] + [token[at..]] == [token[..at], token[at..]];
    JoinOne(token);
    JoinOne(token[..at]);
    JoinOne(token[at..]);
    assert token[..at] + token[at..] == token;
    assert Join(before) + (token[..at] + token[at..]) == Join(before) + token;
  }

  lemma JoinOne(t: string)
    ensures Join([t]) == t
  {
    assert [t][..0] == [];
  }

  /** A marker straddling two tokens is seen in neither of them, only in their
      join: extraction must run on the joined answer, as it does. */
  lemma {:induction false} MarkerAcrossTokens(n: nat)
    ensures Markers("[" + Decimal(n)) == [] && Markers("]") == []
    ensures Markers(Join(["[" + Decimal(n), "]"])) == [n]
  {
    var d := Decimal(n);
    assert ("[" + d)[1..] == d;
    assert DigitRun(d) == |d|;
    PlainTextHasNoMarkers(d, "");
    assert d + "" == d;
    PlainTextHasNoMarkers("]", "");
    assert "]" + "" == "]";
    JoinAppends(["[" + d], ["]"]);
    JoinOne("[" + d);
    JoinOne("]");
    assert ["[" + d] + ["]"] == ["[" + d, "]"];
    MarkerReadsBack(n, "");
    var s := "[" + d + "]" + "";
    SkipMarker(s);
    assert s == "[" + d + "]" && s[|d| + 2..] == "";
  }
}
