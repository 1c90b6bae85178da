/**
 * The task pipelines handed to the language-model runtime: which agent performs each
 * task, which inputs its description embeds, which earlier tasks' outputs it receives,
 * and a sequential executor over an abstract completion service.
 */
module Pipeline {
  import opened Wrappers
  import opened Router

  datatype Agent = Greeter | Researcher | OrderSpecialist | Resolver | QualityReviewer

  /** The name an agent is reported under in the full pipeline's metadata. */
  function AgentName(a: Agent): string {
    match a
    case Greeter => "greeter"
    case Researcher => "researcher"
    case OrderSpecialist => "order_specialist"
    case Resolver => "resolver"
    case QualityReviewer => "quality_reviewer"
  }

  datatype Tool = FaqSearch | OrderLookup | ActionLogger

  /** The one tool each agent is equipped with, if any. */
  function AgentTool(a: Agent): Option<Tool> {
    match a
    case Researcher => Some(FaqSearch)
    case OrderSpecialist => Some(OrderLookup)
    case Resolver => Some(ActionLogger)
    case _ => None
  }

  datatype TaskKind = Greet | Research | OrderCheck | Resolve | QualityReview | Format

  /** One task: what it does, who does it, whether its description embeds the customer's
      message and the conversation excerpt, and the indices of the earlier tasks whose
      outputs it is given (its `context` list). */
  datatype Task = Task(kind: TaskKind, agent: Agent, withMessage: bool, withHistory: bool, context: seq<nat>)

  type Pipeline = seq<Task>

  /** Every task's context list names only strictly earlier tasks. */
  predicate DependsOnlyOnEarlier(p: Pipeline) {
    forall i, j :: 0 <= i < |p| && 0 <= j < |p[i].context| ==> p[i].context[j] < i
  }

  /** The agents of a crew, one per task, in task order. */
  function Agents(p: Pipeline): (r: seq<Agent>)
    ensures |r| == |p|
    ensures forall i :: 0 <= i < |p| ==> r[i] == p[i].agent
  {
    if p == [] then [] else [p[0].agent] + Agents(p[1..])
  }

  /** The five-task pipeline of the full crew: greet, research, order check, resolve, review. */
  function FullPipeline(): (p: Pipeline)
    ensures |p| == 5 && DependsOnlyOnEarlier(p)
    ensures forall i :: 0 <= i < 4 ==> p[i].agent != p[4].agent
    ensures p[4].kind == QualityReview && p[4].context == [0, 1, 2, 3]
  {
    [ Task(Greet, Greeter, true, true, []),
      Task(Research, Researcher, true, false, [0]),
      Task(OrderCheck, OrderSpecialist, true, true, [0, 1]),
      Task(Resolve, Resolver, false, false, [0, 1, 2]),
      Task(QualityReview, QualityReviewer, true, false, [0, 1, 2, 3]) ]
  }

  /** The fast FAQ crew: FAQ research, then a short reformulation of it. */
  function FastFaqPipeline(): (p: Pipeline)
    ensures |p| == 2 && DependsOnlyOnEarlier(p)
    ensures AgentTool(p[0].agent) == Some(FaqSearch)
  {
    [ Task(Research, Researcher, true, false, []),
      Task(Format, QualityReviewer, true, false, [0]) ]
  }

  /** The fast order crew: order lookup, then a short reformulation of it. */
  function FastOrderPipeline(): (p: Pipeline)
    ensures |p| == 2 && DependsOnlyOnEarlier(p)
    ensures AgentTool(p[0].agent) == Some(OrderLookup)
  {
    [ Task(OrderCheck, OrderSpecialist, true, false, []),
      Task(Format, QualityReviewer, false, false, [0]) ]
  }

  /** The crew the router's verdict selects. */
  function FastPipeline(c: Category): (p: Pipeline)
    ensures p == FastOrderPipeline() <==> c == Order
    ensures p == FastFaqPipeline() <==> c == Faq
    ensures |p| > 0 && DependsOnlyOnEarlier(p)
  {
    assert FastOrderPipeline()[0].kind != FastFaqPipeline()[0].kind;
    match c
    case Order => FastOrderPipeline()
    case Faq => FastFaqPipeline()
  }

  /** Both fast crews: two tasks, two distinct agents, the second task reviewing exactly the
      first, with the quality reviewer having the last word. */
  lemma FastPipelineShape(c: Category)
    ensures var p := FastPipeline(c);
      && |p| == 2 && |Agents(p)| == 2 && Agents(p)[0] != Agents(p)[1]
      && p[0].context == [] && p[1].context == [0]
      && p[1].kind == Format && p[1].agent == QualityReviewer
  {
  }

  /** The full crew's tasks in order, each depending on all of its predecessors except
      that research depends only on the greeting. */
  lemma FullPipelineShape()
    ensures var p := FullPipeline();
      && [p[0].kind, p[1].kind, p[2].kind, p[3].kind, p[4].kind]
         == [Greet, Research, OrderCheck, Resolve, QualityReview]
      && p[1].context == [0] && p[2].context == [0, 1] && p[3].context == [0, 1, 2]
      && Agents(p) == [Greeter, Researcher, OrderSpecialist, Resolver, QualityReviewer]
  {
  }

  /** What the completion service is given for one task. The description wording is not
      modelled; only the inputs it embeds are. */
  datatype Prompt = Prompt(
    kind: TaskKind, agent: Agent, tool: Option<Tool>,
    message: Option<string>, history: Option<string>, upstream: seq<string>)

  /** The completion service: a prompt yields text, or fails with an error message. */
  type Completion = Prompt -> Result<string, string>

  /** The prompt for task `i`, given the outputs of the tasks before it. */
  function PromptFor(p: Pipeline, i: nat, outputs: seq<string>, message: string, history: string): (r: Prompt)
    requires DependsOnlyOnEarlier(p) && i < |p| && i <= |outputs|
    ensures |r.upstream| == |p[i].context|
    ensures forall j :: 0 <= j < |p[i].context| ==> r.upstream[j] == outputs[p[i].context[j]]
    ensures r.kind == p[i].kind && r.agent == p[i].agent && r.tool == AgentTool(p[i].agent)
    ensures r.message == (if p[i].withMessage then Some(message) else None)
    ensures r.history == (if p[i].withHistory then Some(history) else None)
  {
    var t := p[i];
    Prompt(
      t.kind, t.agent, AgentTool(t.agent),
      if t.withMessage then Some(message) else None,
      if t.withHistory then Some(history) else None,
      seq(|t.context|, j requires 0 <= j < |t.context| => outputs[t.context[j]]))
  }

  /** In the full crew the customer's message reaches every task but the resolution, and
      the conversation excerpt reaches the greeting and the order check only. */
  lemma FullPromptInputs(i: nat, outputs: seq<string>, message: string, history: string)
    requires i < 5 && i <= |outputs|
    ensures var r := PromptFor(FullPipeline(), i, outputs, message, history);
      && r.message == (if i == 3 then None else Some(message))
      && r.history == (if i == 0 || i == 2 then Some(history) else None)
  {
  }

  /** A run's record: the outputs of the tasks that completed, and the error that stopped it. */
  datatype Run = Run(outputs: seq<string>, failure: Option<string>)

  /** Sequential execution from the first task without an output: each task runs once,
      in order, and the first failure stops the run. */
  function RunFrom(p: Pipeline, message: string, history: string, complete: Completion, outputs: seq<string>): (r: Run)
    requires DependsOnlyOnEarlier(p) && |outputs| <= |p|
    ensures outputs <= r.outputs && |r.outputs| <= |p|
    ensures r.failure.None? ==> |r.outputs| == |p|
    ensures r.failure.Some? ==>
      |r.outputs| < |p| && complete(PromptFor(p, |r.outputs|, r.outputs, message, history)) == Err(r.failure.value)
    ensures forall i :: |outputs| <= i < |r.outputs| ==>
      complete(PromptFor(p, i, r.outputs[..i], message, history)) == Ok(r.outputs[i])
    decreases |p| - |outputs|
  {
    if |outputs| == |p| then
      Run(outputs, None)
    else
      match complete(PromptFor(p, |outputs|, outputs, message, history))
      case Err(e) => Run(outputs, Some(e))
      case Ok(text) =>
        var r := RunFrom(p, message, history, complete, outputs + [text]);
        assert r.outputs[..|outputs|] == outputs;
        r
  }

  /** The result of a crew's kickoff: the last task's output or the first error, the
      outputs of the tasks that completed, and the number of completion calls made. */
  datatype Outcome = Outcome(result: Result<string, string>, outputs: seq<string>, calls: nat)

  /** Runs every task of `p` in order; the last task's output is the crew's answer. Each
      completed task's output is what the service said for that task's prompt; a failure
      is the failing task's error, and no later task is attempted. */
  function Execute(p: Pipeline, message: string, history: string, complete: Completion): (o: Outcome)
    requires DependsOnlyOnEarlier(p) && |p| > 0
    ensures |o.outputs| <= |p|
    ensures forall i :: 0 <= i < |o.outputs| ==>
      complete(PromptFor(p, i, o.outputs[..i], message, history)) == Ok(o.outputs[i])
    ensures o.result.Ok? ==>
      |o.outputs| == |p| && o.calls == |p| && o.result.value == o.outputs[|p| - 1]
    ensures o.result.Err? ==>
      && |o.outputs| < |p| && o.calls == |o.outputs| + 1
      && complete(PromptFor(p, |o.outputs|, o.outputs, message, history)) == o.result
  {
    var r := RunFrom(p, message, history, complete, []);
    match r.failure
    case Some(e) => Outcome(Err(e), r.outputs, |r.outputs| + 1)
    case None => Outcome(Ok(r.outputs[|p| - 1]), r.outputs, |p|)
  }

  /** `c1` and `c2` answer alike every prompt a run issues from task `from` on, when the
      tasks before each one produced `outs`. */
  ghost predicate AgreeOnIssued(
    p: Pipeline, message: string, history: string, c1: Completion, c2: Completion, from: nat, outs: seq<string>)
    requires DependsOnlyOnEarlier(p) && |outs| <= |p|
  {
    forall i :: from <= i <= |outs| && i < |p| ==>
      c2(PromptFor(p, i, outs[..i], message, history)) == c1(PromptFor(p, i, outs[..i], message, history))
  }

  /** A run is decided by the answers to the prompts it actually issued: a service that
      answers those prompts alike yields the same run. */
  lemma {:induction false} RunFromAgrees(
    p: Pipeline, message: string, history: string, c1: Completion, c2: Completion, outputs: seq<string>)
    requires DependsOnlyOnEarlier(p) && |outputs| <= |p|
    requires AgreeOnIssued(p, message, history, c1, c2, |outputs|, RunFrom(p, message, history, c1, outputs).outputs)
    ensures RunFrom(p, message, history, c2, outputs) == RunFrom(p, message, history, c1, outputs)
    decreases |p| - |outputs|
  {
    if |outputs| < |p| {
      var r := RunFrom(p, message, history, c1, outputs);
      assert r.outputs[..|outputs|] == outputs;
      var prompt := PromptFor(p, |outputs|, r.outputs[..|outputs|], message, history);
      assert c2(prompt) == c1(prompt);
      assert prompt == PromptFor(p, |outputs|, outputs, message, history);
      match c1(prompt)
      case Ok(text) =>
        var next := outputs + [text];
        assert RunFrom(p, message, history, c1, next) == r;
        RunFromAgrees(p, message, history, c1, c2, next);
      case Err(_) =>
    }
  }

  /** No task after a failing one is attempted: the answers the service would give to any
      prompt beyond the `calls` issued ones cannot change the outcome. */
  lemma ExecuteDependsOnlyOnIssuedPrompts(
    p: Pipeline, message: string, history: string, c1: Completion, c2: Completion)
    requires DependsOnlyOnEarlier(p) && |p| > 0
    requires var o := Execute(p, message, history, c1);
      forall i :: 0 <= i < o.calls ==>
        c2(PromptFor(p, i, o.outputs[..i], message, history)) == c1(PromptFor(p, i, o.outputs[..i], message, history))
    ensures Execute(p, message, history, c2) == Execute(p, message, history, c1)
  {
    var o := Execute(p, message, history, c1);
    assert o.outputs == RunFrom(p, message, history, c1, []).outputs;
    assert AgreeOnIssued(p, message, history, c1, c2, 0, o.outputs);
    RunFromAgrees(p, message, history, c1, c2, []);
  }

  /** A failure in the first task stops the run after exactly one completion call. */
  lemma FirstTaskFailureHalts(p: Pipeline, message: string, history: string, complete: Completion)
    requires DependsOnlyOnEarlier(p) && |p| > 0
    requires complete(PromptFor(p, 0, [], message, history)).Err?
    ensures Execute(p, message, history, complete).calls == 1
    ensures Execute(p, message, history, complete).result
      == complete(PromptFor(p, 0, [], message, history))
  {
  }
}
