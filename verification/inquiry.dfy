/**
 * Processing one customer inquiry, in the fast routed variant (two tasks, chosen by
 * the router) and the full variant (all five tasks), with the success and error
 * result shapes both report.
 */
module Inquiry {
  import opened Wrappers
  import opened Router
  import opened Pipeline
  import opened Context

  /** The metadata of a reply: the fast variant reports the route and the number of
      agents, the full variant the agents involved, and either reports a failure. */
  datatype Metadata =
    | Routed(queryType: Category, agentsUsed: nat)
    | Reviewed(agentsInvolved: seq<string>)
    | Failed(error: string)
  {
    function Status(): string {
      if Failed? then "error" else "success"
    }
  }

  datatype InquiryResult = InquiryResult(response: string, metadata: Metadata)

  const FastApology := "I apologize, I'm having trouble right now. Please try again. Error: "
  const FullApology := "I apologize, but I'm having trouble processing your request right now. Please try again or contact support. Error: "

  /** The names the full variant reports, in task order. */
  const FullAgentNames: seq<string> := ["greeter", "researcher", "order_specialist", "resolver", "quality_reviewer"]

  /** The fast variant: route, build the matching two-task crew, run it. A failing
      completion becomes an error reply that embeds the error text. */
  function ProcessFast(message: string, complete: Completion): (r: InquiryResult)
    ensures var crew := FastPipeline(Route(message));
      var o := Execute(crew, message, "", complete);
      && (r.metadata.Status() == "success" <==> o.result.Ok?)
      && (o.result.Ok? ==>
            && r.response == o.result.value
            && r.metadata == Routed(Route(message), |Agents(crew)|)
            && r.metadata.agentsUsed == 2)
      && (o.result.Err? ==>
            r.response == FastApology + o.result.error && r.metadata == Failed(o.result.error))
  {
    var category := Route(message);
    var crew := FastPipeline(category);
    match Execute(crew, message, "", complete).result
    case Ok(answer) => InquiryResult(answer, Routed(category, 2))
    case Err(e) => InquiryResult(FastApology + e, Failed(e))
  }

  /** The full variant: build the conversation excerpt, run all five tasks. On success
      the metadata lists the five agents of the crew by name. */
  method ProcessFull(message: string, history: Option<seq<Message>>, complete: Completion)
    returns (r: InquiryResult)
    ensures var o := Execute(FullPipeline(), message, ExcerptOf(history), complete);
      && (r.metadata.Status() == "success" <==> o.result.Ok?)
      && (o.result.Ok? ==> r.response == o.result.value && r.metadata == Reviewed(FullAgentNames))
      && (o.result.Err? ==> r.response == FullApology + o.result.error && r.metadata == Failed(o.result.error))
    ensures r.metadata.Reviewed? ==>
      |r.metadata.agentsInvolved| == |FullPipeline()|
      && forall i :: 0 <= i < |FullPipeline()| ==> r.metadata.agentsInvolved[i] == AgentName(FullPipeline()[i].agent)
  {
    var context := BuildContext(history);
    match Execute(FullPipeline(), message, context, complete).result
    case Ok(answer) =>
      r := InquiryResult(answer, Reviewed(FullAgentNames));
    case Err(e) =>
      r := InquiryResult(FullApology + e, Failed(e));
  }
}
