/** The Lambda function itself: the handler and its two store helpers, working by sequenced
    side effects on the DynamoDB table and on the callbacks PUT to CloudFormation. */
module Lambda {
  import opened Events
  import Waiter
  import opened Envelope
  import opened Lifecycle

  /** The state the handler acts on across invocations. The handler keeps nothing of its
      own between invocations; all of this is the outside world it changes. */
  class Handler {
    /** The DynamoDB table the function writes to. */
    var table: Table
    /** Every command sent to DynamoDB, in order. */
    var requests: seq<StoreRequest>
    /** Every response body PUT to a ResponseURL, in order, whether or not its delivery
        then failed. */
    var outbox: seq<Response>

    /** The one invariant of this state is DynamoDB's own: every item is filed under its
        own key. Every method keeps it; no postcondition needs more. */
    ghost predicate Valid()
      reads this
    {
      WellKeyed(table)
    }

    constructor (initial: Table)
      requires WellKeyed(initial)
      ensures Valid()
      ensures table == initial && requests == [] && outbox == []
    {
      table := initial;
      requests := [];
      outbox := [];
    }

    /** `sendResponse`: build the envelope and PUT it; the PUT ends as `delivery` says. */
    method SendResponse(e: Event, status: Status, reason: string, delivery: Outcome)
      returns (thrown: Outcome)
      modifies this`outbox
      ensures outbox == old(outbox) + [ResponseBody(e, status, reason)]
      ensures thrown == delivery
    {
      var body := ResponseBody(e, status, reason);
      outbox := outbox + [body];
      thrown := delivery;
    }

    /** `handleCreate`: await the table waiter, then put the item. */
    method HandleCreate(p: Props, wait: Waiter.WaiterResult, put: Outcome) returns (thrown: Outcome)
      requires Valid()
      modifies this`table, this`requests
      ensures Valid()
      ensures table == CreateEffect(old(table), p, wait, put).table
      ensures requests == old(requests) + CreateEffect(old(table), p, wait, put).requests
      ensures thrown == CreateEffect(old(table), p, wait, put).thrown
    {
      if !wait.state.SUCCESS? {
        thrown := Throws(wait.reason);
        return;
      }
      var item := ItemOf(p);
      requests := requests + [PutItem(p.tableName, item)];
      if put.Throws? {
        thrown := put;
        return;
      }
      table := table[ItemKey(item) := item];
      thrown := Ok;
    }

    /** `handleDelete`: get the item, then delete it; an error from either is swallowed. */
    method HandleDelete(p: Props, get: Outcome, delete: Outcome)
      requires Valid()
      modifies this`table, this`requests
      ensures Valid()
      ensures table == DeleteEffect(old(table), p, get, delete).table
      ensures requests == old(requests) + DeleteEffect(old(table), p, get, delete).requests
    {
      var key := KeyOf(p);
      requests := requests + [GetItem(p.tableName, key)];
      if get.Throws? {
        return;  // the catch logs the error
      }
      requests := requests + [DeleteItem(p.tableName, key)];
      if delete.Throws? {
        return;  // the catch logs the error
      }
      table := table - {key};
    }

    /** `handler`: dispatch on the request type inside a try block; the catch reports
        whatever was thrown as FAILED. */
    method Handle(e: Event, env: Environment) returns (completion: Completion)
      requires Valid()
      modifies this
      ensures Valid()
      ensures table == Invoke(old(table), e, env).table
      ensures requests == old(requests) + Invoke(old(table), e, env).requests
      ensures outbox == old(outbox) + Invoke(old(table), e, env).reports
      ensures completion == Invoke(old(table), e, env).completion
    {
      var sent := 0;  // callback PUTs issued so far by this invocation
      var thrown: Outcome;
      match e.RequestType {
        case Create =>
          thrown := HandleCreate(e.ResourceProperties, env.wait, env.put);
          if thrown.Ok? {
            thrown := SendResponse(e, SUCCESS, CreatedReason, env.Delivery(sent));
            sent := sent + 1;
          }
        case Update(_) =>
          thrown := SendResponse(e, SUCCESS, UpdateReason, env.Delivery(sent));
          sent := sent + 1;
        case Delete(_) =>
          HandleDelete(e.ResourceProperties, env.get, env.delete);
          thrown := SendResponse(e, SUCCESS, DeletedReason, env.Delivery(sent));
          sent := sent + 1;
      }
      completion := Resolved;
      if thrown.Throws? {
        var again := SendResponse(e, FAILED, thrown.message, env.Delivery(sent));
        if again.Throws? {
          completion := Rejected(again.message);
        }
      }
    }
  }

  /** Two deliveries of the same Create (CloudFormation's calls are at least once), the
      first of which put its item, leave the table as one did, and each appends its own
      reports to the outbox. */
  method ReplayedCreate(initial: Table, e: Event, first: Environment, again: Environment)
    returns (h: Handler)
    requires WellKeyed(initial)
    requires e.RequestType.Create? && first.wait.state.SUCCESS? && first.put.Ok?
    ensures h.table == Invoke(initial, e, first).table
    ensures h.outbox == Invoke(initial, e, first).reports
                        + Invoke(Invoke(initial, e, first).table, e, again).reports
    ensures 2 <= |h.outbox| <= 4
  {
    h := new Handler(initial);
    var _ := h.Handle(e, first);
    var t1 := h.table;
    var _ := h.Handle(e, again);
    CreateIsIdempotent(initial, e, first, again);
    assert h.table == Invoke(t1, e, again).table;
  }
}
