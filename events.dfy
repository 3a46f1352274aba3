/** The values the lifecycle handler receives, stores and sends: the CloudFormation
    custom-resource event, the item it keeps in the DynamoDB table, and the response
    envelope it PUTs back to CloudFormation. */
module Events {

  /** The three request types CloudFormation sends. Update and Delete carry the physical
      resource id CloudFormation recorded for the resource; a Create has none, so the
      handler has nothing to carry and must assign one. */
  datatype RequestType =
    | Create
    | Update(PhysicalResourceId: string)
    | Delete(PhysicalResourceId: string)

  /** The custom resource's properties: the table to write to and the item's key fields.
      The level is taken as an integer (the source coerces it with Number). */
  datatype Props = Props(tableName: string, playerId: string, level: int)

  /** The part of a CloudFormation custom-resource event the handler reads. */
  datatype Event = Event(
    RequestType: RequestType,
    LogicalResourceId: string,
    StackId: string,
    RequestId: string,
    ResponseURL: string,
    ResourceProperties: Props)

  datatype Status = SUCCESS | FAILED

  /** The response envelope: exactly the six fields CloudFormation expects. */
  datatype Response = Response(
    Status: Status,
    Reason: string,
    PhysicalResourceId: string,
    StackId: string,
    RequestId: string,
    LogicalResourceId: string)

  /** The table's composite key: partition key PlayerId (string), sort key Level (number). */
  datatype Key = Key(PlayerId: string, Level: int)

  /** The item the handler writes: just the two key attributes. */
  datatype Item = Item(PlayerId: string, Level: int)

  type Table = map<Key, Item>

  /** The key DynamoDB files an item under: its own key attributes. */
  function ItemKey(item: Item): Key {
    Key(item.PlayerId, item.Level)
  }

  /** A table in which every item is filed under its own key, as DynamoDB keeps it. */
  ghost predicate WellKeyed(t: Table) {
    forall k :: k in t ==> ItemKey(t[k]) == k
  }

  /** True when two tables agree on every key other than `k`. */
  ghost predicate AgreeExcept(t: Table, u: Table, k: Key) {
    forall j :: j != k ==> (j in t <==> j in u) && (j in t ==> t[j] == u[j])
  }

  /** A command the handler sends to DynamoDB, addressed to the table named in the properties. */
  datatype StoreRequest =
    | PutItem(TableName: string, Item: Item)
    | GetItem(TableName: string, Key: Key)
    | DeleteItem(TableName: string, Key: Key)

  /** How an awaited call ends: normally, or by throwing an Error with a message. */
  datatype Outcome = Ok | Throws(message: string)
}

/** The result of the SDK's table waiter, which the handler awaits before writing. */
module Waiter {

  /** The waiter's states, as the SDK names them. */
  datatype WaiterState = ABORTED | FAILURE | SUCCESS | RETRY | TIMEOUT

  datatype WaiterResult = WaiterResult(state: WaiterState, reason: string)
}
