# Custom-resource lifecycle handler, modelled in Dafny

The system is an AWS Lambda function behind a CloudFormation custom resource. CloudFormation
invokes it with a lifecycle event, Create, Update or Delete. The function acts on one DynamoDB
table keyed by (`PlayerId`, `Level`):

- Create waits for the table to exist, then puts the item `{PlayerId, Level}`.
- Update does nothing to the table.
- Delete gets the item, then deletes it.

Every invocation then reports back by an HTTP PUT of a six-field response envelope to the
event's `ResponseURL`. Anything thrown inside the handler's `try` block becomes a `FAILED`
report.

The model has four modules:

- `Events` and `Waiter` (`events.dfy`) hold the values. The event is `Events.Event`, and its
  request type is a sum type: `Create | Update(PhysicalResourceId) | Delete(PhysicalResourceId)`.
  A Create has no physical id to carry, and the types say so. The module also holds the
  envelope `Response`, the table's `Key` and `Item`, and the DynamoDB commands `StoreRequest`.
  `Waiter` holds the table waiter's result `{state, reason}`.
- `Envelope` (`envelope.dfy`) holds the pure part of `sendResponse`: how the physical resource
  id is chosen and how the envelope is built.
- `Lifecycle` (`lifecycle.dfy`) specifies one invocation. `Invoke` takes the table, the event
  and the injected outcomes of every awaited call: the waiter result, the put, get and delete
  commands, and the first and second callback PUT. It gives the new table, the DynamoDB
  commands issued, the callback bodies issued, and whether the handler's promise resolved or
  rejected. `Run` chains invocations, and the module proves the lifecycle properties about
  both.
- `Lambda` (`handler.dfy`) is the handler in the code's own imperative form. The class
  `Handler` holds the table (`map<Key, Item>`), the log of DynamoDB commands and the callback
  outbox (`seq<Response>`). Its methods `HandleCreate`, `HandleDelete`, `SendResponse` and
  `Handle` follow `handleCreate`, `handleDelete`, `sendResponse` and `handler` statement by
  statement. `SendResponse` is proved against `Envelope.ResponseBody`, and the other three
  against the `Lifecycle` functions that specify them.

The outbox records every callback body the handler issues, whether or not its delivery then
failed. An injected failure of a DynamoDB command or a PUT is an `Outcome`, `Ok` or
`Throws(message)`, the way the awaited promise settles.

The model follows the code as written, including where one might expect otherwise:

- Delete does not check whether the item exists. After a successful get it always issues the
  delete. `DeleteEffect` states: a `DeleteItem` is issued exactly when the get succeeded.
- Every error from the get or the delete is caught and only logged, not just "not found".
  Delete therefore always reports `SUCCESS`.
- An invocation does not always send exactly one callback. If the `SUCCESS` PUT itself throws,
  the catch block sends a second, `FAILED` report. `Invoke` states when that happens.
- A Create whose table wait fails reports the waiter's own reason. There is no separate
  "dependency unavailable" error, and there is no "invalid properties" check at all.
- Update ignores new properties but keeps the physical id, so CloudFormation never replaces
  the resource. If an Update changes `playerId` or `level`, the later Delete removes the new
  key and the item the Create put stays behind. `UpdatedKeyLeaksItem` proves this.

## Model

| member | source | states |
|---|---|---|
| `Envelope.ResponseBody` | lib/lambda/index.ts:33-51 | the envelope has exactly the six fields. Status and Reason are the arguments. StackId, RequestId and LogicalResourceId are copied from the event. PhysicalResourceId is the logical id on Create and the event's own physical id on Update and Delete |
| `Envelope.ResponseBodyDeterminedByStatusAndReason` | lib/lambda/index.ts:44-51 | two envelopes for the same event are equal if and only if they were built with the same status and reason |
| `Envelope.PhysicalIdStable` | lib/lambda/index.ts:33-42 | suppose a later Update or Delete carries the id a Create reported. Then the handler reports that same id again, which is the logical id, whatever the status: the id is never re-derived |
| `Lifecycle.CreateEffect` | lib/lambda/index.ts:65-90 | handleCreate throws exactly when the wait did not succeed or the put threw. If the wait failed, no put is issued and the thrown message is the waiter's reason; if it succeeded, exactly one put of {PlayerId, Level} is issued, and a failed put throws its own error. On a throw the table is unchanged. On success the key maps to the item. No other key changes, and the table stays well keyed |
| `Lifecycle.DeleteEffect` | lib/lambda/index.ts:92-115 | handleDelete never throws. It issues exactly the get, followed by the delete exactly when the get succeeded, whether or not the key is present. If both succeed, the key is absent. If either failed, or the key was absent, the table is unchanged. No other key changes |
| `Lifecycle.Invoke` | lib/lambda/index.ts:117-145 | one invocation issues one or two callbacks, each answering the event (ids as in ResponseBody). The first is FAILED exactly when a Create's wait or put failed, and then it carries that error's message; a SUCCESS report carries its request type's reason. A second report follows exactly when the SUCCESS PUT threw, and it is FAILED with that error's message. The promise rejects only if the last PUT threw. The DynamoDB commands are those of CreateEffect or DeleteEffect, and none for Update. Only the properties' key can change, and the table stays well keyed |
| `Lifecycle.UpdateIsAcknowledged` | lib/lambda/index.ts:129-133 | Update issues no DynamoDB command, leaves the table unchanged and reports SUCCESS with "Update not implemented." |
| `Lifecycle.CreateWithoutTable` | lib/lambda/index.ts:70-79 | a Create whose wait did not succeed issues no put and leaves the table unchanged. Its only report is FAILED with the waiter's reason (the catch at lines 141-144) |
| `Lifecycle.CreatePutsItem` | lib/lambda/index.ts:81-89 | a Create whose wait and put succeed maps (playerId, level) to {PlayerId, Level} and changes nothing else. It reports SUCCESS with "TableItem successfully created." |
| `Lifecycle.DeleteAlwaysSucceeds` | lib/lambda/index.ts:106-114 | a Delete first reports SUCCESS with "TableItem successfully deleted.", even when the get or the delete failed. When both succeed, the result is the old table without the key. An absent key leaves the table unchanged |
| `Lifecycle.CreateIsIdempotent` | lib/lambda/index.ts:81-89 | after a Create that put its item, the same Create again leaves the same table, however its own calls end, because put overwrites |
| `Lifecycle.DeleteIsIdempotent` | lib/lambda/index.ts:97-111 | after a Delete that removed the key, the same Delete again leaves the same table, however its own calls end |
| `Lifecycle.DeleteUndoesCreate` | lib/lambda/index.ts:83-102 | Create and Delete derive the same key. So a successful Delete after a Create with the same properties, however the Create ended, gives the table from before the Create without that key |
| `Lifecycle.CreateThenDelete` | lib/lambda/index.ts:81-111 | Create then Delete with the same properties, when the commands succeed: both report SUCCESS, the key is absent, and the table is the original without that key |
| `Lifecycle.Run` | lib/lambda/index.ts:117-145 | n invocations in a row issue between n and 2n callbacks and keep the table well keyed |
| `Lifecycle.RunAppend` | lib/lambda/index.ts:117-145 | a run split in two leaves the table that the second part leaves when started from the first part's table |
| `Lifecycle.UpdatesKeepTable` | lib/lambda/index.ts:129-133 | any number of Updates issue no command and leave the table unchanged |
| `Lifecycle.LifecycleCleansUp` | lib/lambda/index.ts:81-111 | while no Update changes the key properties: a Create, any number of Updates, then a Delete with the Create's properties whose commands succeed leave the table from before the Create without that key |
| `Lifecycle.UpdatedKeyLeaksItem` | lib/lambda/index.ts:129-133 | if an Update carries properties with a different key and the Delete carries the Update's properties, all three invocations report SUCCESS, yet the item the Create put stays in the table: the Update is not applied (lines 129-133), the physical id is kept (lines 37-39), and the Delete removes the new key (lines 97-111) |
| `Lambda.Handler.SendResponse` | lib/lambda/index.ts:26-63 | appends ResponseBody(event, status, reason) to the outbox and throws exactly when the PUT's delivery fails |
| `Lambda.Handler.HandleCreate` | lib/lambda/index.ts:65-90 | the new table, the commands issued and the thrown outcome are those of CreateEffect. The table stays well keyed |
| `Lambda.Handler.HandleDelete` | lib/lambda/index.ts:92-115 | the new table and the commands issued are those of DeleteEffect, and the table stays well keyed |
| `Lambda.Handler.Handle` | lib/lambda/index.ts:117-145 | the new table, the commands issued, the reports appended to the outbox and the completion are those of Invoke |
| `Lambda.ReplayedCreate` | lib/lambda/index.ts:81-89 | CloudFormation delivers the same Create twice and the first one succeeded: the handler's table is as after one Create, and the outbox holds both invocations' reports, two to four in all |

## Left out

- `waitUntilTableExists` (lib/lambda/index.ts:70-73), its 60-second bound and its polling belong to the AWS SDK. They are an injected `Waiter.WaiterResult`. Its `reason` stands for the message of the error the wait step ends in: the SDK's waiter may throw a non-success itself, and otherwise line 78 throws it. Either way that message becomes the FAILED reason.
- DynamoDB commands are SDK I/O. They act on one abstract table, and each command's failure is injected. A failed command is modelled as having no effect on the table. The table name is recorded in each command but does not select among tables: one table is modelled.
- The HTTP PUT (`fetch`), its headers and `Content-Length` are network I/O. `JSON.stringify` is a library serialiser, so the envelope is a datatype, not text. The HTTP status the PUT returns is not inspected by the handler and is not modelled. Only a thrown PUT is modelled.
- `Number(props.level)`: the level is taken as an integer. The coercion of non-numeric text to NaN is not modelled.
- The `reason` parameter's `null` case and a thrown value without a `message` are not modelled. Every thrown error carries a string message.
- `console.log` and `console.error`, and the scheduling of async/await, are not modelled. The model is sequential, as the handler's awaits are.
- `lib/lambda-custom-resource-sample-stack.ts` and `bin/lambda-custom-resource-sample.ts` define infrastructure declaratively and have no behaviour. Only the key schema, (PlayerId string, Level number) at lib/lambda-custom-resource-sample-stack.ts:26-37, is used, as `Events.Key`.
