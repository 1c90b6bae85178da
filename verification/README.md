# Customer-care chat backend: router, knowledge store, pipelines and sessions

A Dafny model of the deterministic core of a demonstration customer-support chat
backend. Each inquiry is answered by a short chain of language-model "agents". The
model covers the parts of the backend that are plain decision logic:

- **Router** (`router.dfy`): the fast classifier. It sends a message to the `order`
  crew when the message has a standalone five-digit number or contains "order" in any
  letter case. Every other message goes to the `faq` crew.
- **Knowledge store** (`knowledge.dfy`): the agents' tools.
  - FAQ search: a first-match keyword scan. A query containing "return" is special-cased.
  - Order lookup: an exact-key lookup in the order table.
  - Action logger: only its confirmation reply.
- **Pipelines** (`pipeline.dfy`): the task lists of the crews.
  - The five-task full crew and the two two-task fast crews.
  - Every task's `context` list names only earlier tasks.
  - Sequential execution over an abstract completion service `complete`. The first
    failure stops the run.
- **Context excerpt** (`context.dfy`): the conversation excerpt of the full crew. It
  holds a header, then one `role: content` line for each of the last five messages.
- **Inquiry processing** (`inquiry.dfy`): the fast routed variant and the full variant.
  Each returns a response with success or error metadata.
- **Sessions** (`sessions.dfy`): the chat endpoint's session table.
  - Blank messages are rejected and the table is left unchanged.
  - A session is created on its first message.
  - Each answered message appends two turns, then the session is cut back to its newest
    20 turns.
  - Reset is idempotent.
- `text.dfy` holds the string primitives: ASCII lower-casing, substring search, and
  Python's whitespace test and `strip()`. `wrappers.dfy` holds `Option` and `Result`.

The completion service is a function parameter `Prompt -> Result<string, string>`.
An `Err` result stands for any exception raised while a crew runs.

## Model

| member | source | states |
|---|---|---|
| Text.Lower | backend/crew_optimized.py:94 | lower-casing keeps the length and lower-cases each character; no upper-case ASCII letter remains |
| Text.Contains | backend/tools.py:37-42 | the substring test is true exactly when the pattern occurs at some position of the string |
| Text.StripEmptyIffBlank | backend/app_multiagent.py:28 | `strip()` leaves nothing exactly when every character is Python whitespace, the empty string included |
| Router.FindOrderNumber | backend/crew_optimized.py:98 | the search for `\b\d{5}\b` succeeds exactly when five digits stand with no word character on either side, and it reports the leftmost such match |
| Router.Route | backend/crew_optimized.py:90-107 | the route is `order` exactly when the message has a number token or contains "order" after lower-casing; otherwise it is `faq` |
| Router.NumberRoutesToOrder | backend/crew_optimized.py:98-99 | any message with a standalone five-digit number routes to `order` |
| Router.OrderWordTakesPrecedence | backend/crew_optimized.py:94-99 | "order" in any letter case, surrounded by anything at all, including FAQ keywords, routes to `order` |
| Router.NoOrderSignalRoutesToFaq | backend/crew_optimized.py:102-107 | without an order signal the route is `faq`, whether or not a FAQ keyword occurs |
| Router.EmptyRoutesToFaq | backend/crew_optimized.py:90-107 | the empty message routes to `faq` |
| Router.OrderBeatsShipping | backend/crew_optimized.py:98-104 | a message naming both shipping and its order routes to `order` |
| Router.SubstringOrderRoutesToOrder | backend/crew_optimized.py:98 | "order" inside another word ("border") also routes to `order` |
| Router.LongNumberIsNoToken | backend/crew_optimized.py:98 | six digits, or five digits glued to a letter, are no token; five digits between punctuation are |
| Knowledge.FirstMatchFrom | backend/tools.py:41-43 | the scan finds the first table key, in table order, that occurs in the query, or reports that no key occurs |
| Knowledge.SearchFaq | backend/tools.py:33-45 | "return" gives the returns answer without the prefix; otherwise the first matching key's answer with the `FAQ Answer: ` prefix; the no-match sentinel exactly when neither applies; the reply is always one of these fixed texts |
| Knowledge.ReturnsRowUnreachable | backend/tools.py:36-43 | the `returns` row is never answered with the prefix, because any query holding "returns" holds "return" |
| Knowledge.ShippingFirst | backend/tools.py:11-43 | a query with "shipping" and without "return" gets the shipping answer, whatever other keys it holds |
| Knowledge.ReturnAnywhere | backend/tools.py:34-38 | any query containing "return" gets the returns answer verbatim |
| Knowledge.NoMatchExample | backend/tools.py:45 | the query `xyz`, which holds no key and no `return`, gets the no-match sentinel |
| Knowledge.LookupOrder | backend/tools.py:56-65 | the reply starts with `Order #` and the number; it is the not-found sentinel exactly when the number is not in the table; a found reply is the status line, plus `, Tracking: <t>` exactly when the tracking value is truthy |
| Knowledge.LookupShippedOrder | backend/tools.py:19-22 | order 12345 shows status Shipped, its ETA and tracking number TRK123456789 |
| Knowledge.LookupProcessingOrder | backend/tools.py:21 | order 67890 shows status and ETA with no tracking segment |
| Knowledge.LookupMissingOrder | backend/tools.py:64-65 | an unknown number gets the not-found sentinel naming it |
| Knowledge.LogAction | backend/tools.py:77-81 | the reply is the confirmation prefix followed by exactly the action type |
| Knowledge.LogActionIgnoresDetails | backend/tools.py:77-81 | two confirmations are equal exactly when the action types are, whatever the details |
| Pipeline.FullPipeline | backend/crew.py:39-142 | five tasks, each depending only on earlier ones; the quality review depends on all four others and its agent differs from theirs |
| Pipeline.FullPipelineShape | backend/crew.py:136-142 | task order greet, research, order check, resolve, review; their context lists; the five agents in order |
| Pipeline.FastFaqPipeline | backend/crew_optimized.py:17-56 | two tasks, dependencies only backwards, the first performed by the FAQ-search agent |
| Pipeline.FastOrderPipeline | backend/crew_optimized.py:59-87 | two tasks, dependencies only backwards, the first performed by the order-lookup agent |
| Pipeline.FastPipeline | backend/crew_optimized.py:119-122 | the order crew is built exactly when the route is `order`, the FAQ crew exactly when it is `faq` |
| Pipeline.FastPipelineShape | backend/crew_optimized.py:46-51 | each fast crew has two tasks and two distinct agents; the second task's context is exactly the first task; the quality reviewer writes the answer |
| Pipeline.PromptFor | backend/crew.py:39-124 | a task's prompt names its kind, its agent and that agent's tool; it carries the outputs of exactly the tasks its context list names, in that order; it carries the customer's message exactly when its description embeds it, and the conversation excerpt exactly when that is embedded |
| Pipeline.FullPromptInputs | backend/crew.py:39-125 | in the full crew the customer's message reaches every task but the resolution, and the conversation excerpt reaches exactly the greeting and the order check |
| Pipeline.RunFrom | backend/crew.py:143 | tasks run in order; each completed output is the service's answer to that task's prompt; a failure names the failing task's error and ends the run |
| Pipeline.Execute | backend/crew_optimized.py:124-125 | success means every task ran and the answer is the last task's output; failure means one call more than the completed tasks, the last being the failing one |
| Pipeline.RunFromAgrees | backend/crew.py:162-178 | a run depends only on the answers to the prompts it issued |
| Pipeline.ExecuteDependsOnlyOnIssuedPrompts | backend/crew_optimized.py:124-136 | two services that agree on the prompts a run issued give the same outcome, so no task after a failure is attempted |
| Pipeline.FirstTaskFailureHalts | backend/crew_optimized.py:124-136 | a failure in the first task stops the run after exactly one completion call, with that failure |
| Context.Recent | backend/crew.py:33 | for a positive window `n`, the last `n` history entries, or all of them when there are fewer, in order |
| Context.LineDefaults | backend/crew.py:34-36 | a missing role reads as `user` and missing content as empty |
| Context.BuildContext | backend/crew.py:29-36 | the excerpt is empty exactly when the history is absent or empty; otherwise it is the header followed by one line for each of the last five messages, in order |
| Context.ExcerptLineCount | backend/crew.py:32-36 | with single-line messages the excerpt has three header line breaks and one line per message shown, at most five |
| Inquiry.ProcessFast | backend/crew_optimized.py:110-143 | status `success` exactly when the routed crew succeeds; the response is then its answer, and the metadata gives the route and 2 agents, the size of the crew built; a failure gives status `error` with the error text embedded in the apology |
| Inquiry.ProcessFull | backend/crew.py:151-185 | status `success` exactly when the five-task crew succeeds; the metadata then lists the crew's agents by name in task order; a failure gives status `error` with the error text in the apology |
| Sessions.KeepRecent | backend/app_multiagent.py:59-61 | the stored history is the newest `min(20, n)` turns, in their original order |
| Sessions.Chat | backend/app_multiagent.py:19-67 | rejected with 400 exactly when the message is blank, leaving the table unchanged; otherwise only the addressed session changes, it is created if new, and it holds the cut-back history plus user and assistant turns, at most 20 |
| Sessions.ChatInterrupted | backend/app_multiagent.py:38-74 | a request that raises after its user turn is appended answers 500 with the error text; only the addressed session changes, gaining exactly the unanswered user turn, uncut; a blank message is still rejected first with the table unchanged |
| Sessions.InterruptedChatBreaksAlternation | backend/app_multiagent.py:38-61 | a fresh session interrupted once and then answered once holds user, user, assistant: odd length, not alternating |
| Sessions.Reset | backend/app_multiagent.py:88-97 | the addressed session is gone, no other session changes, an unknown id leaves the table as it was, and the reply is always `session reset` |
| Sessions.ResetIdempotent | backend/app_multiagent.py:94-97 | resetting twice is resetting once |
| Sessions.ChatAfterReset | backend/app_multiagent.py:32-33 | after a reset, the next message on that session starts a fresh two-turn history |
| Sessions.ChatPreservesWellFormed | backend/app_multiagent.py:38-61 | every session stays at most 20 turns long, of even length, alternating user and assistant from a user turn |
| Sessions.ResetPreservesWellFormed | backend/app_multiagent.py:94-95 | reset keeps that invariant |
| Sessions.ServePreservesWellFormed | backend/app_multiagent.py:15-61 | any series of chat requests, each answered by its own processor, keeps that invariant |
| Sessions.KeepRecentAbsorbs | backend/app_multiagent.py:59-61 | cutting back after every request keeps the same newest turns as cutting back once at the end |
| Sessions.ServeKeepsRecentTurns | backend/app_multiagent.py:32-61 | after any series of completed chat requests (no resets) on a session absent from the starting table, each request answered independently (the same message may get different replies), it holds exactly the newest 20 turns of its whole conversation, in order |
| Sessions.FastChatReportsRoute | backend/app_multiagent.py:48-67 | wired to the fast routed variant imported at line 8, a non-blank message gets a reply whose metadata is the router's category with two agents, or a failure, and a failure exactly when the routed crew's run fails |
| Sessions.ServeNeverCreates | backend/app_multiagent.py:28-33 | a session that only ever received blank messages is never created |
| Sessions.MissingSessionIdIsDefault | backend/app_multiagent.py:26 | a request without a session id addresses `default`, in chat and in reset |
| Sessions.FirstMessageCreatesSession | backend/app_multiagent.py:32-33 | the first message to an unknown session creates it holding exactly that exchange |

## Left out

- Language-model execution. `complete` is a parameter. Calling tools from within a task,
  CrewAI's retries and the supervisor's `manager_llm` are not modelled. How the order
  agent finds an order number in the message is left to the model, so it is not modelled.
- Prompt wording. A task's description is reduced to which inputs it embeds: the
  message and the conversation excerpt.
- The `print` of the action log line, and all other console output.
- Flask routing, JSON parsing, CORS, `/api/health` and `app.run`. The 500 handler is
  modelled only for failures after the user turn is appended (Sessions.ChatInterrupted).
  A JSON `null` for `message` or `session_id` is not modelled; a missing field is.
- Concurrent requests on the session table.
- Sessions.ChatPreservesWellFormed: the alternation and even-length invariant, and also
  Sessions.ServePreservesWellFormed and Sessions.ServeKeepsRecentTurns, cover only
  requests that complete. A request that raises after its user turn is appended (modelled
  as Sessions.ChatInterrupted) leaves that turn unanswered and breaks the pairing, as
  Sessions.InterruptedChatBreaksAlternation shows. Which messages make the console output
  raise is not modelled: a lone UTF-16 surrogate cannot be held in a Dafny `string`.
- Python's `str.lower()` and the regular-expression classes `\d` and `\w` are modelled
  over ASCII only. Non-ASCII digits, letters and case mappings are not covered.
  The whitespace set behind `strip()` is Python's full set.
- Sessions.Chat: the processor is a function of the message alone. The routed variant the
  endpoint uses ignores the conversation history, so this loses nothing there. The full
  variant, which reads the history, is modelled separately as Inquiry.ProcessFull.
- backend/agents.py is not part of this model. Only the one tool bound to each agent is
  taken from it.
