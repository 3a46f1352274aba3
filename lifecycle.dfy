/** What one invocation of the handler does, as a function of the table it starts from, the
    event, and the injected outcomes of everything it awaits (the table waiter, the three
    DynamoDB commands and the callback PUTs); and what a run of invocations does. */
module Lifecycle {
  import opened Events
  import Waiter
  import opened Envelope

  /** The injected outcomes of one invocation's awaited calls. `firstCallback` and
      `secondCallback` are the outcomes of the first and the second callback PUT the
      invocation issues. */
  datatype Environment = Environment(
    wait: Waiter.WaiterResult,
    put: Outcome,
    get: Outcome,
    delete: Outcome,
    firstCallback: Outcome,
    secondCallback: Outcome)
  {
    /** The outcome of the callback PUT issued after `sent` earlier ones. */
    function Delivery(sent: nat): Outcome {
      if sent == 0 then firstCallback else secondCallback
    }
  }

  /** How the handler's promise settles. It rejects only when the report sent from the
      catch block itself throws. */
  datatype Completion = Resolved | Rejected(message: string)

  /** What `handleCreate` or `handleDelete` did to the table, the DynamoDB commands it
      issued, and whether it threw. */
  datatype StoreEffect = StoreEffect(table: Table, requests: seq<StoreRequest>, thrown: Outcome)

  /** What one invocation did: the new table, the DynamoDB commands and the callback bodies
      it issued, in order, and how its promise settled. */
  datatype Effect = Effect(
    table: Table,
    requests: seq<StoreRequest>,
    reports: seq<Response>,
    completion: Completion)

  const CreatedReason := "TableItem successfully created."
  const UpdateReason := "Update not implemented."
  const DeletedReason := "TableItem successfully deleted."

  /** The key both Create and Delete derive from the properties. */
  function KeyOf(p: Props): Key {
    Key(p.playerId, p.level)
  }

  /** The item Create puts. */
  function ItemOf(p: Props): Item {
    Item(p.playerId, p.level)
  }

  /** The reason reported when the try block of the handler completes for this request type. */
  function SuccessReason(rt: RequestType): string {
    match rt
    case Create => CreatedReason
    case Update(_) => UpdateReason
    case Delete(_) => DeletedReason
  }

  /** How the promise of an awaited callback PUT settles the handler. */
  function Settle(delivery: Outcome): Completion {
    if delivery.Ok? then Resolved else Rejected(delivery.message)
  }

  /** `handleCreate`: wait for the table; if the waiter did not succeed, throw its reason
      without touching the table; otherwise put the item, overwriting whatever was filed
      under its key. */
  function CreateEffect(t: Table, p: Props, wait: Waiter.WaiterResult, put: Outcome): (r: StoreEffect)
    ensures r.thrown.Ok? <==> wait.state.SUCCESS? && put.Ok?
    ensures !wait.state.SUCCESS? ==> r.requests == [] && r.thrown == Throws(wait.reason)
    ensures wait.state.SUCCESS? ==> r.requests == [PutItem(p.tableName, ItemOf(p))]
    ensures wait.state.SUCCESS? && put.Throws? ==> r.thrown == put
    ensures r.thrown.Throws? ==> r.table == t
    ensures r.thrown.Ok? ==> KeyOf(p) in r.table && r.table[KeyOf(p)] == ItemOf(p)
    ensures AgreeExcept(t, r.table, KeyOf(p))
    ensures WellKeyed(t) ==> WellKeyed(r.table)
  {
    if !wait.state.SUCCESS? then
      StoreEffect(t, [], Throws(wait.reason))
    else
      var item := ItemOf(p);
      var request := PutItem(p.tableName, item);
      if put.Throws? then StoreEffect(t, [request], put)
      else StoreEffect(t[ItemKey(item) := item], [request], Ok)
  }

  /** `handleDelete`: get the item and, once the get has succeeded, delete it, whether the
      get found anything or not. An error from either command is caught and only logged,
      so `handleDelete` never throws. */
  function DeleteEffect(t: Table, p: Props, get: Outcome, delete: Outcome): (r: StoreEffect)
    ensures r.thrown == Ok
    ensures r.requests == [GetItem(p.tableName, KeyOf(p))]
                          + (if get.Ok? then [DeleteItem(p.tableName, KeyOf(p))] else [])
    ensures get.Ok? && delete.Ok? ==> KeyOf(p) !in r.table
    ensures get.Throws? || delete.Throws? ==> r.table == t
    ensures KeyOf(p) !in t ==> r.table == t
    ensures AgreeExcept(t, r.table, KeyOf(p))
    ensures WellKeyed(t) ==> WellKeyed(r.table)
  {
    var key := KeyOf(p);
    var getRequest := GetItem(p.tableName, key);
    if get.Throws? then
      StoreEffect(t, [getRequest], Ok)
    else
      var requests := [getRequest, DeleteItem(p.tableName, key)];
      if delete.Throws? then StoreEffect(t, requests, Ok)
      else StoreEffect(t - {key}, requests, Ok)
  }

  /** The handler: dispatch on the request type inside a try block that ends with the
      SUCCESS report; anything thrown in it is caught and reported as FAILED with the
      error's message. When the SUCCESS report itself throws, that is a second report. */
  function Invoke(t: Table, e: Event, env: Environment): (r: Effect)
    // at least one and at most two callbacks per invocation, every one answering the event
    ensures 1 <= |r.reports| <= 2
    ensures forall i :: 0 <= i < |r.reports| ==> Answers(e, r.reports[i])
    // the first report is FAILED exactly when a Create's wait or put failed, and then it
    // carries that error's message
    ensures r.reports[0].Status == FAILED <==>
              e.RequestType.Create? && !(env.wait.state.SUCCESS? && env.put.Ok?)
    ensures r.reports[0].Status == SUCCESS ==> r.reports[0].Reason == SuccessReason(e.RequestType)
    ensures e.RequestType.Create? && !env.wait.state.SUCCESS? ==>
              r.reports[0].Reason == env.wait.reason
    ensures e.RequestType.Create? && env.wait.state.SUCCESS? && env.put.Throws? ==>
              r.reports[0].Reason == env.put.message
    // a second report follows exactly when the SUCCESS report's PUT threw, and it is a
    // FAILED report with that error's message
    ensures |r.reports| == 2 <==> r.reports[0].Status == SUCCESS && env.firstCallback.Throws?
    ensures |r.reports| == 2 ==>
              r.reports[1] == ResponseBody(e, FAILED, env.firstCallback.message)
    ensures r.completion == Settle(env.Delivery(|r.reports| - 1))
    // the DynamoDB commands are those of the request type's helper; Update issues none
    ensures e.RequestType.Create? ==>
              r.requests == CreateEffect(t, e.ResourceProperties, env.wait, env.put).requests
    ensures e.RequestType.Update? ==> r.requests == []
    ensures e.RequestType.Delete? ==>
              r.requests == DeleteEffect(t, e.ResourceProperties, env.get, env.delete).requests
    // only the key named by the properties can change, and the table stays well keyed
    ensures AgreeExcept(t, r.table, KeyOf(e.ResourceProperties))
    ensures WellKeyed(t) ==> WellKeyed(r.table)
  {
    var p := e.ResourceProperties;
    var step := match e.RequestType
      case Create => CreateEffect(t, p, env.wait, env.put)
      case Update(_) => StoreEffect(t, [], Ok)
      case Delete(_) => DeleteEffect(t, p, env.get, env.delete);
    if step.thrown.Throws? then
      Effect(step.table, step.requests, [ResponseBody(e, FAILED, step.thrown.message)],
             Settle(env.firstCallback))
    else
      var success := ResponseBody(e, SUCCESS, SuccessReason(e.RequestType));
      if env.firstCallback.Ok? then
        Effect(step.table, step.requests, [success], Resolved)
      else
        Effect(step.table, step.requests,
               [success, ResponseBody(e, FAILED, env.firstCallback.message)],
               Settle(env.secondCallback))
  }

  /** Update is acknowledged, not applied: no command, the table untouched, SUCCESS with
      the "not implemented" reason. */
  lemma UpdateIsAcknowledged(t: Table, e: Event, env: Environment)
    requires e.RequestType.Update?
    ensures Invoke(t, e, env).table == t
    ensures Invoke(t, e, env).requests == []
    ensures Invoke(t, e, env).reports[0] == ResponseBody(e, SUCCESS, UpdateReason)
  {
  }

  /** A Create whose wait did not succeed issues no put, leaves the table as it was and
      reports FAILED with the waiter's reason, once. */
  lemma CreateWithoutTable(t: Table, e: Event, env: Environment)
    requires e.RequestType.Create? && !env.wait.state.SUCCESS?
    ensures Invoke(t, e, env).table == t
    ensures Invoke(t, e, env).requests == []
    ensures Invoke(t, e, env).reports == [ResponseBody(e, FAILED, env.wait.reason)]
  {
  }

  /** A Create whose wait and put succeed files the item under the key, leaves every other
      key as it was, and reports SUCCESS with the "created" reason. */
  lemma CreatePutsItem(t: Table, e: Event, env: Environment)
    requires e.RequestType.Create? && env.wait.state.SUCCESS? && env.put.Ok?
    ensures Invoke(t, e, env).table == t[KeyOf(e.ResourceProperties) := ItemOf(e.ResourceProperties)]
    ensures Invoke(t, e, env).reports[0] == ResponseBody(e, SUCCESS, CreatedReason)
  {
  }

  /** A Delete always reports SUCCESS first, whether the get or the delete failed; when both
      succeed the key is gone, and an absent key leaves the table as it was. */
  lemma DeleteAlwaysSucceeds(t: Table, e: Event, env: Environment)
    requires e.RequestType.Delete?
    ensures Invoke(t, e, env).reports[0] == ResponseBody(e, SUCCESS, DeletedReason)
    ensures env.get.Ok? && env.delete.Ok? ==>
              Invoke(t, e, env).table == t - {KeyOf(e.ResourceProperties)}
    ensures KeyOf(e.ResourceProperties) !in t ==> Invoke(t, e, env).table == t
  {
  }

  /** Create is idempotent: once a Create has put its item, the same Create again, however
      its calls end, leaves the table as the first one left it. */
  lemma CreateIsIdempotent(t: Table, e: Event, first: Environment, again: Environment)
    requires e.RequestType.Create? && first.wait.state.SUCCESS? && first.put.Ok?
    ensures Invoke(Invoke(t, e, first).table, e, again).table == Invoke(t, e, first).table
  {
    var t1 := Invoke(t, e, first).table;
    var k := KeyOf(e.ResourceProperties);
    assert t1[k := ItemOf(e.ResourceProperties)] == t1;
  }

  /** Delete is idempotent: once a Delete has removed the key, the same Delete again, however
      its calls end, leaves the table as the first one left it. */
  lemma DeleteIsIdempotent(t: Table, e: Event, first: Environment, again: Environment)
    requires e.RequestType.Delete? && first.get.Ok? && first.delete.Ok?
    ensures Invoke(Invoke(t, e, first).table, e, again).table == Invoke(t, e, first).table
  {
  }

  /** A Delete whose commands succeed, after a Create with the same properties however that
      ended, leaves the table the Create started from without the key. */
  lemma DeleteUndoesCreate(t: Table, c: Event, cenv: Environment, d: Event, denv: Environment)
    requires c.RequestType.Create?
    requires d.RequestType.Delete? && denv.get.Ok? && denv.delete.Ok?
    requires d.ResourceProperties == c.ResourceProperties
    ensures Invoke(Invoke(t, c, cenv).table, d, denv).table == t - {KeyOf(c.ResourceProperties)}
  {
    var k := KeyOf(c.ResourceProperties);
    assert Invoke(t, c, cenv).table - {k} == t - {k};
  }

  /** Create then Delete with the same properties: both report SUCCESS and the key is gone;
      the table is the one before the Create without that key. */
  lemma CreateThenDelete(t: Table, c: Event, cenv: Environment, d: Event, denv: Environment)
    requires c.RequestType.Create? && cenv.wait.state.SUCCESS? && cenv.put.Ok?
    requires d.RequestType.Delete? && denv.get.Ok? && denv.delete.Ok?
    requires d.ResourceProperties == c.ResourceProperties
    ensures Invoke(t, c, cenv).reports[0].Status == SUCCESS
    ensures Invoke(Invoke(t, c, cenv).table, d, denv).reports[0].Status == SUCCESS
    ensures KeyOf(c.ResourceProperties) !in Invoke(Invoke(t, c, cenv).table, d, denv).table
    ensures Invoke(Invoke(t, c, cenv).table, d, denv).table == t - {KeyOf(c.ResourceProperties)}
  {
  }

  /** One invocation of the handler: the event and the outcomes of its awaited calls. */
  datatype Invocation = Invocation(event: Event, env: Environment)

  /** What a run of invocations did, one after the other, against one table. */
  datatype Trace = Trace(table: Table, requests: seq<StoreRequest>, reports: seq<Response>)

  /** A run of invocations: each starts from the table the previous one left, and the
      commands and callbacks they issue accumulate in order. */
  function Run(t: Table, calls: seq<Invocation>): (r: Trace)
    ensures |calls| <= |r.reports| <= 2 * |calls|
    ensures WellKeyed(t) ==> WellKeyed(r.table)
    decreases |calls|
  {
    if calls == [] then Trace(t, [], [])
    else
      var first := Invoke(t, calls[0].event, calls[0].env);
      var rest := Run(first.table, calls[1..]);
      Trace(rest.table, first.requests + rest.requests, first.reports + rest.reports)
  }

  /** A run split in two leaves the table the second part leaves when it starts from the
      table the first part left. */
  lemma {:induction false} RunAppend(t: Table, a: seq<Invocation>, b: seq<Invocation>)
    ensures Run(t, a + b).table == Run(Run(t, a).table, b).table
    decreases |a|
  {
    if a == [] {
      assert a + b == b;
    } else {
      assert (a + b)[0] == a[0];
      assert (a + b)[1..] == a[1..] + b;
      RunAppend(Invoke(t, a[0].event, a[0].env).table, a[1..], b);
    }
  }

  /** Any number of Updates issue no command and leave the table as it was. */
  lemma {:induction false} UpdatesKeepTable(t: Table, updates: seq<Invocation>)
    requires forall i :: 0 <= i < |updates| ==> updates[i].event.RequestType.Update?
    ensures Run(t, updates).table == t
    ensures Run(t, updates).requests == []
    decreases |updates|
  {
    if updates != [] {
      UpdateIsAcknowledged(t, updates[0].event, updates[0].env);
      UpdatesKeepTable(t, updates[1..]);
    }
  }

  /** A run of one invocation is that invocation. */
  lemma RunOne(t: Table, c: Invocation)
    ensures Run(t, [c]).table == Invoke(t, c.event, c.env).table
  {
    assert [c][1..] == [];
  }

  /** A lifecycle in which no Update changed the key properties: Create, any number of
      Updates, then a Delete with the Create's properties whose commands succeed, leaves the
      table exactly as it was before the Create, minus that key, whatever became of the
      Create. (When an Update does change them, see UpdatedKeyLeaksItem.) */
  lemma LifecycleCleansUp(t: Table, create: Invocation, updates: seq<Invocation>, delete: Invocation)
    requires create.event.RequestType.Create?
    requires forall i :: 0 <= i < |updates| ==> updates[i].event.RequestType.Update?
    requires delete.event.RequestType.Delete?
    requires delete.event.ResourceProperties == create.event.ResourceProperties
    requires delete.env.get.Ok? && delete.env.delete.Ok?
    ensures Run(t, [create] + updates + [delete]).table == t - {KeyOf(create.event.ResourceProperties)}
  {
    var t1 := Run(t, [create]).table;
    RunOne(t, create);
    RunAppend(t, [create], updates);
    UpdatesKeepTable(t1, updates);
    RunAppend(t, [create] + updates, [delete]);
    RunOne(t1, delete);
    DeleteUndoesCreate(t, create.event, create.env, delete.event, delete.env);
  }

  /** An Update that changes the key properties is acknowledged but not applied, and it keeps
      the physical id, so CloudFormation does not replace the resource. The later Delete
      carries the new properties and removes a key that was never written: the item the
      Create put stays in the table, although all three invocations report SUCCESS. */
  lemma UpdatedKeyLeaksItem(t: Table, c: Event, cenv: Environment, u: Event, uenv: Environment,
                            d: Event, denv: Environment)
    requires c.RequestType.Create? && cenv.wait.state.SUCCESS? && cenv.put.Ok?
    requires u.RequestType.Update? && d.RequestType.Delete?
    requires d.ResourceProperties == u.ResourceProperties
    requires KeyOf(u.ResourceProperties) != KeyOf(c.ResourceProperties)
    ensures Invoke(t, c, cenv).reports[0].Status == SUCCESS
    ensures Invoke(Invoke(t, c, cenv).table, u, uenv).reports[0].Status == SUCCESS
    ensures Invoke(Invoke(Invoke(t, c, cenv).table, u, uenv).table, d, denv).reports[0].Status == SUCCESS
    ensures KeyOf(c.ResourceProperties) in Invoke(Invoke(Invoke(t, c, cenv).table, u, uenv).table, d, denv).table
    ensures Invoke(Invoke(Invoke(t, c, cenv).table, u, uenv).table, d, denv).table[KeyOf(c.ResourceProperties)]
              == ItemOf(c.ResourceProperties)
  {
  }
}
