/**
 * The chat endpoint's session table: a map from session id to the conversation's
 * turns, validated, appended to and truncated by each chat request, and cleared by
 * a reset request.
 */
module Sessions {
  import opened Wrappers
  import opened Text
  import opened Router
  import opened Pipeline
  import opened Inquiry

  datatype Role = User | Assistant

  datatype Turn = Turn(role: Role, content: string)

  type Table = map<string, seq<Turn>>

  /** The most turns a session keeps. */
  const MaxTurns := 20

  const DefaultSession := "default"
  const BadRequestStatus := 400
  const EmptyMessageReply := "Please enter a message."
  const ResetReply := "session reset"
  const ServerErrorStatus := 500
  const ServerErrorReply := "Sorry, I encountered an error. Please try again."

  /** A chat request body; either field may be missing. */
  datatype ChatRequest = ChatRequest(message: Option<string>, sessionId: Option<string>)

  datatype ChatReply =
    | BadRequest(status: nat, response: string)
    | ServerError(status: nat, response: string, error: string)
    | Reply(response: string, metadata: Metadata, sessionId: string)

  /** The session id a request addresses. */
  function SessionOf(sessionId: Option<string>): string {
    sessionId.GetOr(DefaultSession)
  }

  /** The stored transcript after an append: everything, or only the newest `MaxTurns`. */
  function KeepRecent(h: seq<Turn>): (r: seq<Turn>)
    ensures |r| == if |h| <= MaxTurns then |h| else MaxTurns
    ensures r == h[|h| - |r|..]
  {
    if |h| > MaxTurns then h[|h| - MaxTurns..] else h
  }

  /** How the endpoint answers a message. The routed processor it is wired to does not
      consult the conversation history, so it is a function of the message alone. */
  type Processor = string -> InquiryResult

  /** The endpoint's wiring: the fast routed variant over a completion service. */
  function FastProcessor(complete: Completion): Processor {
    message => ProcessFast(message, complete)
  }

  /** Wired to the fast variant, a non-blank message is answered with the route the
      router picks and the two agents of its crew, or with a failure, which happens
      exactly when that crew's run fails. */
  lemma FastChatReportsRoute(table: Table, req: ChatRequest, complete: Completion)
    requires !IsBlank(req.message.GetOr(""))
    ensures var message := req.message.GetOr("");
      var r := Chat(table, req, FastProcessor(complete));
      && r.1.Reply?
      && (r.1.metadata == Routed(Route(message), 2) || r.1.metadata.Failed?)
      && (r.1.metadata.Failed? <==> Execute(FastPipeline(Route(message)), message, "", complete).result.Err?)
  {
    var message := req.message.GetOr("");
    var process := FastProcessor(complete);
    FastAnswerReportsRoute(message, complete);
    FastProcessorAnswers(message, complete);
    ChatAnswersWith(table, req, process);
  }

  /** The wired processor answers each message as the fast variant does. */
  lemma FastProcessorAnswers(message: string, complete: Completion)
    ensures FastProcessor(complete)(message) == ProcessFast(message, complete)
  {
  }

  /** A non-blank message's reply carries the processor's metadata. */
  lemma ChatAnswersWith(table: Table, req: ChatRequest, process: Processor)
    requires !IsBlank(req.message.GetOr(""))
    ensures var r := Chat(table, req, process);
      r.1.Reply? && r.1.metadata == process(req.message.GetOr("")).metadata
  {
  }

  /** The fast variant reports the router's route and two agents, or a failure exactly
      when the routed crew fails. */
  lemma FastAnswerReportsRoute(message: string, complete: Completion)
    ensures var m := ProcessFast(message, complete).metadata;
      && (m == Routed(Route(message), 2) || m.Failed?)
      && (m.Failed? <==> Execute(FastPipeline(Route(message)), message, "", complete).result.Err?)
  {
  }

  /** The two turns one answered message adds: the user's message, then the reply. */
  function Exchange(message: string, process: Processor): (r: seq<Turn>)
    ensures |r| == 2 && r[0] == Turn(User, message) && r[1] == Turn(Assistant, process(message).response)
  {
    [Turn(User, message), Turn(Assistant, process(message).response)]
  }

  /** A chat request. A blank message is refused before the table is touched; otherwise
      the session is created if new, the user turn is appended, the processor answers,
      the assistant turn is appended, and the session is cut back to its newest turns. */
  function Chat(table: Table, req: ChatRequest, process: Processor): (r: (Table, ChatReply))
    ensures var message := req.message.GetOr("");
      IsBlank(message) <==> r.1.BadRequest?
    ensures !r.1.ServerError?
    ensures r.1.BadRequest? ==> r.0 == table && r.1 == BadRequest(BadRequestStatus, EmptyMessageReply)
    ensures r.1.Reply? ==>
      var message, id := req.message.GetOr(""), SessionOf(req.sessionId);
      var before := if id in table then table[id] else [];
      var answer := process(message);
      && r.1 == Reply(answer.response, answer.metadata, id)
      && r.0.Keys == table.Keys + {id}
      && (forall k :: k in table && k != id ==> r.0[k] == table[k])
      && r.0[id] == KeepRecent(before + Exchange(message, process))
      && |r.0[id]| <= MaxTurns
  {
    var message := req.message.GetOr("");
    var id := SessionOf(req.sessionId);
    StripEmptyIffBlank(message);
    if Strip(message) == [] then
      (table, BadRequest(BadRequestStatus, EmptyMessageReply))
    else
      var history := if id in table then table[id] else [];
      var withQuestion := history + [Turn(User, message)];
      var result := process(message);
      var withAnswer := withQuestion + [Turn(Assistant, result.response)];
      var stored := if |withAnswer| > MaxTurns then withAnswer[|withAnswer| - MaxTurns..] else withAnswer;
      assert withAnswer == history + Exchange(message, process);
      assert stored == KeepRecent(withAnswer);
      (table[id := stored], Reply(result.response, result.metadata, id))
  }

  /** A chat request that raises after its user turn is appended and before the reply is
      appended (console output of an unencodable message, say). The outer handler answers
      with a server error carrying the exception text; the session keeps the unanswered
      user turn, and no cut-back happens. */
  function ChatInterrupted(table: Table, req: ChatRequest, error: string): (r: (Table, ChatReply))
    ensures var message := req.message.GetOr("");
      IsBlank(message) <==> r.1.BadRequest?
    ensures !r.1.BadRequest? ==> r.1.ServerError?
    ensures r.1.BadRequest? ==> r.0 == table && r.1 == BadRequest(BadRequestStatus, EmptyMessageReply)
    ensures r.1.ServerError? ==>
      var message, id := req.message.GetOr(""), SessionOf(req.sessionId);
      var before := if id in table then table[id] else [];
      && r.1 == ServerError(ServerErrorStatus, ServerErrorReply, error)
      && r.0.Keys == table.Keys + {id}
      && (forall k :: k in table && k != id ==> r.0[k] == table[k])
      && r.0[id] == before + [Turn(User, message)]
  {
    var message := req.message.GetOr("");
    var id := SessionOf(req.sessionId);
    StripEmptyIffBlank(message);
    if Strip(message) == [] then
      (table, BadRequest(BadRequestStatus, EmptyMessageReply))
    else
      var history := if id in table then table[id] else [];
      (table[id := history + [Turn(User, message)]], ServerError(ServerErrorStatus, ServerErrorReply, error))
  }

  /** An interrupted request breaks the pairing of turns: a fresh session interrupted once
      and then answered once holds user, user, assistant. */
  lemma InterruptedChatBreaksAlternation(req: ChatRequest, error: string, process: Processor)
    requires !IsBlank(req.message.GetOr(""))
    ensures var id := SessionOf(req.sessionId);
      var t := Chat(ChatInterrupted(map[], req, error).0, req, process).0;
      && id in t
      && |t[id]| == 3
      && t[id][0].role == User && t[id][1].role == User && t[id][2].role == Assistant
      && !Alternates(t[id])
  {
    var id := SessionOf(req.sessionId);
    var message := req.message.GetOr("");
    var empty: Table := map[];
    var t1 := ChatInterrupted(empty, req, error);
    assert t1.1.ServerError?;
    assert id !in empty;
    assert [] + [Turn(User, message)] == [Turn(User, message)];
    assert id in t1.0 && t1.0[id] == [Turn(User, message)];
    var t2 := Chat(t1.0, req, process);
    assert t2.1.Reply?;
    var h := [Turn(User, message)] + Exchange(message, process);
    assert |h| == 3;
    assert KeepRecent(h) == h;
    assert t2.0[id] == h;
    assert h[1] == Turn(User, message);
  }

  /** A reset request: the addressed session is dropped, if present; the reply is the same
      either way. */
  function Reset(table: Table, sessionId: Option<string>): (r: (Table, string))
    ensures var id := SessionOf(sessionId);
      && id !in r.0
      && (forall k :: k != id ==> (k in r.0 <==> k in table))
      && (forall k :: k in r.0 ==> r.0[k] == table[k])
      && (id !in table ==> r.0 == table)
      && r.1 == ResetReply
  {
    var id := SessionOf(sessionId);
    if id in table then (table - {id}, ResetReply) else (table, ResetReply)
  }

  /** Resetting twice is resetting once. */
  lemma ResetIdempotent(table: Table, sessionId: Option<string>)
    ensures Reset(Reset(table, sessionId).0, sessionId) == Reset(table, sessionId)
  {
  }

  /** After a reset, the next message on that session starts a fresh conversation. */
  lemma ChatAfterReset(table: Table, req: ChatRequest, process: Processor)
    requires !IsBlank(req.message.GetOr(""))
    ensures var r := Chat(Reset(table, req.sessionId).0, req, process);
      r.0[SessionOf(req.sessionId)] == Exchange(req.message.GetOr(""), process)
  {
    var r := Chat(Reset(table, req.sessionId).0, req, process);
    assert r.1.Reply?;
    assert [] + Exchange(req.message.GetOr(""), process) == Exchange(req.message.GetOr(""), process);
  }

  /** Turns alternate user, assistant, user, ... and come in complete pairs. */
  ghost predicate Alternates(h: seq<Turn>) {
    && |h| % 2 == 0
    && forall i :: 0 <= i < |h| ==> h[i].role == (if i % 2 == 0 then User else Assistant)
  }

  /** The invariant every stored session keeps. */
  ghost predicate WellFormedTable(table: Table) {
    forall id :: id in table ==> |table[id]| <= MaxTurns && Alternates(table[id])
  }

  lemma AppendExchangeAlternates(h: seq<Turn>, e: seq<Turn>)
    requires Alternates(h) && |e| == 2 && e[0].role == User && e[1].role == Assistant
    ensures Alternates(KeepRecent(h + e))
  {
    var g := h + e;
    forall i | 0 <= i < |g|
      ensures g[i].role == (if i % 2 == 0 then User else Assistant)
    {
      if i < |h| {
        assert g[i] == h[i];
      } else {
        assert g[i] == e[i - |h|];
        assert i == |h| || i == |h| + 1;
      }
    }
    assert |g| % 2 == 0;
    EvenSuffixAlternates(g, |g| - |KeepRecent(g)|);
  }

  /** Dropping an even number of turns from the front keeps the pairing. */
  lemma EvenSuffixAlternates(g: seq<Turn>, d: nat)
    requires Alternates(g) && d <= |g| && d % 2 == 0
    ensures Alternates(g[d..])
  {
    var r := g[d..];
    forall i | 0 <= i < |r|
      ensures r[i].role == (if i % 2 == 0 then User else Assistant)
    {
      assert r[i] == g[d + i];
      assert (d + i) % 2 == i % 2;
    }
  }

  /** Chat keeps every session bounded and alternating, starting from any table that is. */
  lemma ChatPreservesWellFormed(table: Table, req: ChatRequest, process: Processor)
    requires WellFormedTable(table)
    ensures WellFormedTable(Chat(table, req, process).0)
  {
    var r := Chat(table, req, process);
    if r.1.Reply? {
      var id := SessionOf(req.sessionId);
      var before := if id in table then table[id] else [];
      var e := Exchange(req.message.GetOr(""), process);
      AppendExchangeAlternates(before, e);
      StoreKeepsWellFormed(table, r.0, id, KeepRecent(before + e));
    }
  }

  /** Storing a well-formed session and leaving the others alone keeps the invariant. */
  lemma StoreKeepsWellFormed(table: Table, next: Table, id: string, h: seq<Turn>)
    requires WellFormedTable(table) && |h| <= MaxTurns && Alternates(h)
    requires next.Keys == table.Keys + {id} && next[id] == h
    requires forall k :: k in table && k != id ==> next[k] == table[k]
    ensures WellFormedTable(next)
  {
  }

  /** Reset keeps the invariant too. */
  lemma ResetPreservesWellFormed(table: Table, sessionId: Option<string>)
    requires WellFormedTable(table)
    ensures WellFormedTable(Reset(table, sessionId).0)
  {
  }

  /** Serving any series of requests keeps the invariant; the empty table has it. */
  lemma {:induction false} ServePreservesWellFormed(table: Table, calls: seq<Call>)
    requires WellFormedTable(table)
    ensures WellFormedTable(Serve(table, calls))
  {
    if calls != [] {
      var init, last := calls[..|calls| - 1], calls[|calls| - 1];
      ServePreservesWellFormed(table, init);
      ChatPreservesWellFormed(Serve(table, init), last.req, last.process);
    }
  }

  /** A request without a session id addresses the session named "default", in chat and
      in reset alike. */
  lemma MissingSessionIdIsDefault(table: Table, message: string, process: Processor)
    requires !IsBlank(message)
    ensures var r := Chat(table, ChatRequest(Some(message), None), process);
      r.1.Reply? && r.1.sessionId == "default" && "default" in r.0
    ensures "default" !in Reset(table, None).0
  {
  }

  /** The first message to an unknown session creates it holding just that exchange. */
  lemma FirstMessageCreatesSession(table: Table, req: ChatRequest, process: Processor)
    requires SessionOf(req.sessionId) !in table
    requires !IsBlank(req.message.GetOr(""))
    ensures var r := Chat(table, req, process);
      r.0[SessionOf(req.sessionId)] == Exchange(req.message.GetOr(""), process)
  {
    assert [] + Exchange(req.message.GetOr(""), process) == Exchange(req.message.GetOr(""), process);
  }

  /** Cutting back early loses nothing: the newest turns of a cut-back history extended
      by more turns are the newest turns of the whole. */
  lemma {:induction false} KeepRecentAbsorbs(a: seq<Turn>, b: seq<Turn>)
    ensures KeepRecent(KeepRecent(a) + b) == KeepRecent(a + b)
  {
    var ka := KeepRecent(a);
    var x, y := KeepRecent(ka + b), KeepRecent(a + b);
    assert |x| == |y|;
    forall i | 0 <= i < |x|
      ensures x[i] == y[i]
    {
      var j := |ka + b| - |x| + i;
      var k := |a + b| - |y| + i;
      assert x[i] == (ka + b)[j];
      assert y[i] == (a + b)[k];
      if j < |ka| {
        assert (ka + b)[j] == ka[j] == a[|a| - |ka| + j];
        assert k == |a| - |ka| + j;
      } else {
        assert (ka + b)[j] == b[j - |ka|];
        assert k - |a| == j - |ka|;
      }
    }
  }

  /** One served chat request, with the processor that answered it: the same message may
      be answered differently from one request to the next. */
  datatype Call = Call(req: ChatRequest, process: Processor)

  /** The conversation a series of chat requests holds with one session: the exchanges of
      its non-blank messages, each with the answer it got, in order. */
  function Transcript(calls: seq<Call>, id: string): seq<Turn> {
    if calls == [] then []
    else
      var last := calls[|calls| - 1];
      var message := last.req.message.GetOr("");
      Transcript(calls[..|calls| - 1], id)
        + (if SessionOf(last.req.sessionId) == id && !IsBlank(message) then Exchange(message, last.process) else [])
  }

  /** The table after serving `calls` in order. */
  function Serve(table: Table, calls: seq<Call>): Table {
    if calls == [] then table
    else
      var last := calls[|calls| - 1];
      Chat(Serve(table, calls[..|calls| - 1]), last.req, last.process).0
  }

  /** After any series of chat requests, a session holds exactly the newest turns of its
      whole conversation, in their original order. */
  lemma {:induction false} ServeKeepsRecentTurns(table: Table, calls: seq<Call>, id: string)
    requires id !in table
    requires Transcript(calls, id) != []
    ensures id in Serve(table, calls)
    ensures Serve(table, calls)[id] == KeepRecent(Transcript(calls, id))
  {
    var init := calls[..|calls| - 1];
    var last := calls[|calls| - 1];
    var message := last.req.message.GetOr("");
    var prev := Serve(table, init);
    var t := Transcript(init, id);
    var r := Chat(prev, last.req, last.process);
    assert Serve(table, calls) == r.0;
    if SessionOf(last.req.sessionId) == id && !IsBlank(message) {
      var e := Exchange(message, last.process);
      assert Transcript(calls, id) == t + e;
      assert r.1.Reply?;
      if t == [] {
        ServeNeverCreates(table, init, id);
        assert [] + e == e;
      } else {
        ServeKeepsRecentTurns(table, init, id);
        KeepRecentAbsorbs(t, e);
      }
    } else {
      assert Transcript(calls, id) == t + [] == t;
      ServeKeepsRecentTurns(table, init, id);
      assert id in prev;
      assert r.1.Reply? ==> SessionOf(last.req.sessionId) != id;
    }
  }

  /** A session that has had no non-blank message is never created. */
  lemma {:induction false} ServeNeverCreates(table: Table, calls: seq<Call>, id: string)
    requires id !in table
    requires Transcript(calls, id) == []
    ensures id !in Serve(table, calls)
  {
    if calls != [] {
      var init := calls[..|calls| - 1];
      assert Transcript(init, id) == [];
      ServeNeverCreates(table, init, id);
    }
  }
}
