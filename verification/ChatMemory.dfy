/** Session memory: each session's history capped to its last turns. */
module ChatMemory {
  import opened Prelude
  import opened Text
  import Citations

  datatype Turn = Turn(question: string, answer: string, citations: seq<Citations.Citation>)

  datatype Message = User(content: string) | Assistant(content: string, citations: seq<Citations.Citation>)

  datatype Session = Session(tenant: string, user: string, title: string, history: seq<Message>)

  type Sessions = map<nat, Session>

  /** Python's `s[from:]`, where a negative start counts from the end. */
  function From<T>(s: seq<T>, from: int): seq<T> {
    if from < 0 then s[Max(|s| + from, 0)..] else s[Min(from, |s|)..]
  }

  function TurnMessages(t: Turn): seq<Message> {
    [User(t.question), Assistant(t.answer, t.citations)]
  }

  /** The row after one more turn. */
  function Appended(maxTurns: int, s: Session, t: Turn): Session {
    s.(history := From(s.history + TurnMessages(t), -maxTurns * 2))
  }

  /** One append: a missing session is created; an id held by another tenant is
      not found by the lookup and then rejected by the primary key. */
  function Append(maxTurns: int, rows: Sessions, tenant: string, id: nat, user: string, t: Turn): Option<Sessions> {
    if id !in rows then
      Some(rows[id := Appended(maxTurns, Session(tenant, user, Truncate(t.question, 200), []), t)])
    else if rows[id].tenant != tenant then None
    else Some(rows[id := Appended(maxTurns, rows[id], t)])
  }

  /** The session ends in this turn: the question as the user's message, the answer
      with its citations as the assistant's. */
  ghost predicate EndsInTurn(s: Session, question: string, answer: string, citations: seq<Citations.Citation>) {
    var n := |s.history|;
    n >= 2 && s.history[n - 2] == User(question) && s.history[n - 1] == Assistant(answer, citations)
  }

  /** What one append does: a new session gets its owner and the beginning of the first
      question as title, an old one keeps them; no other session changes. */
  lemma {:induction false} AppendMeans(maxTurns: int, rows: Sessions, tenant: string, id: nat, user: string, t: Turn)
    ensures var r := Append(maxTurns, rows, tenant, id, user, t);
            && (r.None? <==> id in rows && rows[id].tenant != tenant)
            && (r.Some? ==>
                  && id in r.value && r.value - {id} == rows - {id} && r.value[id].tenant == tenant
                  && (id in rows ==> r.value[id].user == rows[id].user && r.value[id].title == rows[id].title)
                  && (id !in rows ==> r.value[id].user == user)
                  && (id !in rows ==> r.value[id].title == if |t.question| <= 200 then t.question else t.question[..200])
                  && (maxTurns >= 1 ==> EndsInTurn(r.value[id], t.question, t.answer, t.citations)))
  {
    var before := if id in rows then rows[id] else Session(tenant, user, Truncate(t.question, 200), []);
    var all := before.history + TurnMessages(t);
    if maxTurns >= 1 {
      var kept := From(all, -maxTurns * 2);
      assert |kept| >= 2 && kept[|kept| - 1] == all[|all| - 1] && kept[|kept| - 2] == all[|all| - 2];
    }
  }

  class SessionMemory {
    const maxTurns: int
    var rows: Sessions

    constructor (maxTurns: int)
      ensures this.maxTurns == maxTurns && rows == map[]
    {
      this.maxTurns := maxTurns;
      rows := map[];
    }

    /** `newId` is the id a session without one would get. */
    method LoadHistory(tenant: string, sessionId: Option<nat>, newId: nat) returns (id: nat, history: seq<Message>)
      ensures id == sessionId.GetOr(newId)
      ensures history == History(rows, tenant, sessionId)
    {
      if sessionId.None? {
        return newId, [];
      }
      id := sessionId.value;
      history := if id in rows && rows[id].tenant == tenant then rows[id].history else [];
    }

    method AppendTurn(tenant: string, id: nat, user: string, t: Turn) returns (ok: bool)
      modifies this
      ensures var r := Append(maxTurns, old(rows), tenant, id, user, t);
              && ok == r.Some?
              && rows == if r.Some? then r.value else old(rows)
      ensures ok && maxTurns >= 1 ==> id in rows && EndsInTurn(rows[id], t.question, t.answer, t.citations)
      ensures rows - {id} == old(rows) - {id}
    {
      AppendMeans(maxTurns, rows, tenant, id, user, t);
      var row;
      if id in rows && rows[id].tenant == tenant {
        row := rows[id];
      } else if id in rows {
        return false;
      } else {
        row := Session(tenant, user, Truncate(t.question, 200), []);
      }
      var messages := row.history;
      messages := messages + [User(t.question)];
      messages := messages + [Assistant(t.answer, t.citations)];
      assert messages == row.history + TurnMessages(t);
      rows := rows[id := row.(history := From(messages, -maxTurns * 2))];
      return true;
    }
  }

  function History(rows: Sessions, tenant: string, sessionId: Option<nat>): seq<Message> {
    if sessionId.Some? && sessionId.value in rows && rows[sessionId.value].tenant == tenant
    then rows[sessionId.value].history else []
  }

  // ---- Any sequence of appends --------------------------------------------

  datatype Entry = Entry(tenant: string, id: nat, user: string, turn: Turn)

  function AppendAll(maxTurns: int, log: seq<Entry>): Sessions {
    if log == [] then map[]
    else
      var rows, e := AppendAll(maxTurns, log[..|log| - 1]), log[|log| - 1];
      var r := Append(maxTurns, rows, e.tenant, e.id, e.user, e.turn);
      if r.Some? then r.value else rows
  }

  /** The unbounded log of one session: the turns its owner, the first tenant to
      write to it, has added. */
  ghost function TurnsOf(log: seq<Entry>, id: nat): (Option<string>, seq<Turn>) {
    if log == [] then (None, [])
    else
      var (owner, turns) := TurnsOf(log[..|log| - 1], id);
      var e := log[|log| - 1];
      if e.id != id || (owner.Some? && owner.value != e.tenant) then (owner, turns)
      else (Some(e.tenant), turns + [e.turn])
  }

  ghost function AllMessages(turns: seq<Turn>): seq<Message> {
    if turns == [] then [] else AllMessages(turns[..|turns| - 1]) + TurnMessages(turns[|turns| - 1])
  }

  ghost function Last<T>(s: seq<T>, n: nat): seq<T> {
    s[|s| - Min(|s|, n)..]
  }

  lemma {:induction false} MessagesOfSuffix(turns: seq<Turn>, k: nat)
    requires k <= |turns|
    ensures |AllMessages(turns)| == 2 * |turns| && AllMessages(turns[k..]) == AllMessages(turns)[2 * k..]
  {
    if turns != [] {
      var front, n := turns[..|turns| - 1], |turns| - 1;
      if k < |turns| {
        MessagesOfSuffix(front, k);
        assert turns[k..][..|turns[k..]| - 1] == front[k..] && turns[k..][|turns[k..]| - 1] == turns[n];
        assert AllMessages(turns)[2 * k..] == AllMessages(front)[2 * k..] + TurnMessages(turns[n]);
      } else {
        MessagesOfSuffix(front, n);
        assert turns[k..] == [];
      }
    }
  }

  /** Capping after each turn keeps the last turns of what capping once would. */
  lemma {:induction false} CapStep(turns: seq<Turn>, t: Turn, m: int)
    requires m >= 1
    ensures From(AllMessages(Last(turns, m)) + TurnMessages(t), -m * 2) == AllMessages(Last(turns + [t], m))
  {
    var all := turns + [t];
    var kept := Last(turns, m) + [t];
    assert kept[..|kept| - 1] == Last(turns, m);
    assert AllMessages(kept) == AllMessages(Last(turns, m)) + TurnMessages(t);
    var k := |kept| - Min(|kept|, m);
    MessagesOfSuffix(kept, k);
    assert kept[k..] == Last(all, m);
  }

  ghost predicate Agrees(maxTurns: int, rows: Sessions, id: nat, owner: Option<string>, turns: seq<Turn>) {
    && (id in rows <==> owner.Some?)
    && (owner.None? ==> turns == [])
    && (owner.Some? ==> rows[id].tenant == owner.value
                        && maxTurns >= 0 && rows[id].history == AllMessages(Last(turns, maxTurns)))
  }

  lemma {:induction false} AppendAgrees(maxTurns: int, rows: Sessions, id: nat, owner: Option<string>,
                                        turns: seq<Turn>, e: Entry)
    requires maxTurns >= 1 && Agrees(maxTurns, rows, id, owner, turns)
    ensures var r := Append(maxTurns, rows, e.tenant, e.id, e.user, e.turn);
            var rows' := if r.Some? then r.value else rows;
            if e.id != id || (owner.Some? && owner.value != e.tenant) then Agrees(maxTurns, rows', id, owner, turns)
            else Agrees(maxTurns, rows', id, Some(e.tenant), turns + [e.turn])
  {
    if e.id == id && (owner.Some? ==> owner.value == e.tenant) {
      CapStep(turns, e.turn, maxTurns);
      if owner.None? {
        assert Last(turns, maxTurns) == [] && AllMessages([]) == [];
      }
    }
  }

  /** After any sequence of appends, over any sessions and tenants, each stored
      history is exactly the last `maxTurns` turns of its session's full log. */
  lemma {:induction false} HistoryIsLastTurns(maxTurns: int, log: seq<Entry>, id: nat)
    requires maxTurns >= 1
    ensures Agrees(maxTurns, AppendAll(maxTurns, log), id, TurnsOf(log, id).0, TurnsOf(log, id).1)
  {
    if log != [] {
      var n := |log| - 1;
      HistoryIsLastTurns(maxTurns, log[..n], id);
      var (owner, turns) := TurnsOf(log[..n], id);
      AppendAgrees(maxTurns, AppendAll(maxTurns, log[..n]), id, owner, turns, log[n]);
    }
  }

  /** Histories alternate strictly, question first, and turn by turn hold the question
      and the answer with its citations. */
  lemma {:induction false} HistoryAlternates(turns: seq<Turn>, i: nat)
    requires i < |AllMessages(turns)|
    ensures i / 2 < |turns| && var t := turns[i / 2];
            AllMessages(turns)[i] == if i % 2 == 0 then User(t.question) else Assistant(t.answer, t.citations)
  {
    var n := |turns| - 1;
    MessagesOfSuffix(turns[..n], 0);
    if i < 2 * n {
      HistoryAlternates(turns[..n], i);
    }
  }

  /** With `maxTurns` 0 the slice starts at -0, which is the beginning: nothing is
      ever dropped. So for every cap of 0 or more the history of each log stays
      within the cap if and only if the cap is at least one turn. */
  lemma {:induction false} CapHoldsIffPositive(maxTurns: nat)
    ensures (forall s: Session, t: Turn :: |s.history| <= 2 * maxTurns ==> |Appended(maxTurns, s, t).history| <= 2 * maxTurns)
       <==> maxTurns >= 1
    ensures forall s: Session, t: Turn :: Appended(0, s, t).history == s.history + TurnMessages(t)
  {
    forall s: Session, t: Turn
      ensures Appended(0, s, t).history == s.history + TurnMessages(t)
    {
      assert -0 * 2 == 0;
    }
    if maxTurns == 0 {
      var s, t := Session("", "", "", []), Turn("", "", []);
      assert |Appended(0, s, t).history| == 2;
    }
  }
}
