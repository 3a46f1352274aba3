/** The response envelope `sendResponse` builds before it PUTs it to the event's ResponseURL. */
module Envelope {
  import opened Events

  /** The physical resource id reported for an event: a Create is given its logical id,
      an Update or Delete reports back the id CloudFormation sent with it. */
  function PhysicalResourceIdFor(e: Event): string {
    match e.RequestType
    case Create => e.LogicalResourceId
    case Update(id) => id
    case Delete(id) => id
  }

  /** `r` answers the event `e`: it names the same stack, request and logical resource, and
      carries the physical id assigned on Create or threaded through on Update and Delete. */
  predicate Answers(e: Event, r: Response) {
    && r.StackId == e.StackId
    && r.RequestId == e.RequestId
    && r.LogicalResourceId == e.LogicalResourceId
    && r.PhysicalResourceId == PhysicalResourceIdFor(e)
  }

  /** The body of the callback for `e` with the given status and reason. */
  function ResponseBody(e: Event, status: Status, reason: string): (r: Response)
    ensures Answers(e, r)
    ensures r.Status == status && r.Reason == reason
    ensures e.RequestType.Create? ==> r.PhysicalResourceId == e.LogicalResourceId
    ensures !e.RequestType.Create? ==> r.PhysicalResourceId == e.RequestType.PhysicalResourceId
  {
    Response(status, reason, PhysicalResourceIdFor(e), e.StackId, e.RequestId, e.LogicalResourceId)
  }

  /** Only the status and reason of a response depend on anything but the event: two
      responses to one event with the same status and reason are the same response, and
      from a response the status and reason it was built with can be read back. */
  lemma ResponseBodyDeterminedByStatusAndReason(e: Event, s1: Status, m1: string, s2: Status, m2: string)
    ensures ResponseBody(e, s1, m1) == ResponseBody(e, s2, m2) <==> s1 == s2 && m1 == m2
  {
  }

  /** Physical identity is stable across the lifecycle: when CloudFormation sends an Update
      or Delete for the same logical resource carrying the id the Create reported, the
      handler reports that very id again, whatever the status, so CloudFormation never
      sees the resource replaced. */
  lemma PhysicalIdStable(c: Event, later: Event, s1: Status, m1: string, s2: Status, m2: string)
    requires c.RequestType.Create? && !later.RequestType.Create?
    requires later.LogicalResourceId == c.LogicalResourceId
    requires later.RequestType.PhysicalResourceId == ResponseBody(c, s1, m1).PhysicalResourceId
    ensures ResponseBody(later, s2, m2).PhysicalResourceId == ResponseBody(c, s1, m1).PhysicalResourceId
    ensures ResponseBody(later, s2, m2).PhysicalResourceId == later.LogicalResourceId
  {
  }
}
