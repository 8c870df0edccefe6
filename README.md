# Deposit/withdraw request notifier — Dafny model

The notifier watches two Firestore collections, `depositRequests` and
`withdrawRequests`. Each change to a request document goes through one
process-wide map, `lastStatusMap`, from document id to the last status seen.
That map decides whether `processEvent` runs. `processEvent` checks the
status, finds the manager chat for the request's payment method in the
`musers` collection, and builds a Telegram message with a fixed line layout.

This model covers that decision logic and the message text:

- `js_values.dfy` (`JsValues`): the JavaScript side of a Firestore field
  value. A missing field is `Undefined`, and `Int` stands for an integral
  number of magnitude at most 2^53. The module defines truthiness
  (used by the `||` defaults and the `if(!x)` guards) and how a value
  renders in a template literal, with integers in decimal. JavaScript's
  strict equality is Dafny's structural equality on these primitives.
- `requests.dfy` (`Requests`): the fields of a request document.
- `lines.dfy` (`Lines`): joining lines with `\n` and splitting text back
  into lines.
- `composer.dfy` (`Composer`): status validation, the title matrix,
  `formatTime`'s choice of instant, and the message. `Message` builds the
  text by successive appends, as the source does. `MessageLines` gives the
  same message as an explicit list of lines.
- `registry.dfy` (`Registry`): the `musers` lookup. `registry` is the whole
  `musers` collection in query-result order. `FirstMatch` filters it by
  `payment` and takes the first record that matches.
- `events.dfy` (`Events`): `processEvent` as a pure function. It returns
  either the `sendMessage` call `(chatId, text)` or the reason nothing is
  sent.
- `tracker.dfy` (`Tracker`): the class `StatusTracker` holds
  `lastStatusMap`. Its method `HandleChanges` is the `forEach` body of
  either listener (`isWithdraw` picks which one). It updates the map in
  place and returns the `processEvent` calls in order. The method is proved
  against the functions `Replay` and `Dispatched`, and the lemmas state the
  tracker's properties in terms of those functions.
- `watcher.dfy` (`Watcher`): properties that connect the tracker to
  `processEvent`.

External inputs become parameters:

- the registry contents (`registry`);
- the clock (`nowMillis`);
- `Date.toLocaleString` in the Asia/Dhaka time zone (`localeString`, a
  function from epoch milliseconds to text).

The model follows the code as written, including these edges:

- An invalid status is recorded in the map, by `added` and by `modified`
  changes alike. It never produces a message.
- `lastStatusMap` is a plain object. A missing entry therefore reads
  `undefined`. So a `modified` change whose `status` field is missing, for
  an id with no entry, calls nothing (`undefined === undefined`).
  A missing entry whose name is inherited from `Object.prototype` (such as
  `toString`) reads as a function, which differs from every status.
- One map serves both collections and is keyed by the bare document id.
  A deposit and a withdraw with the same id therefore suppress each other's
  repeated statuses (`SharedAcrossCollections`).
- Only the previous status is compared. When an invalid status comes
  between two `pending` ones, the later `pending` gets notified again
  (`PendingTwiceAcrossInvalidStatus`). An invalid status never holds back a
  later valid one.
- The registry query can return several records. The first one in result
  order is used.
- A request without a `method` field makes the Firestore query refuse the
  `undefined` value. `processEvent` then rejects and sends nothing
  (`QueryRefused`).

The tracker functions `Replay` and `Dispatched` take no registry and no
delivery result. So what the map records never depends on whether a lookup
or a delivery succeeded.

## Model

| member | source | states |
|---|---|---|
| `JsValues.IntToDecimalRoundTrip` | index.js:63 | a number rendered into the message is well-formed decimal text that reads back as the same integer |
| `Lines.SplitJoin` | index.js:63-65 | lines without line breaks, joined with `\n`, split back into exactly those lines |
| `Composer.ParseStatus` | index.js:44 | a status is accepted exactly when it is the string `pending`, `approved` or `rejected`, and the result names which one |
| `Composer.TitleDistinguishes` | index.js:56-61 | the six titles are pairwise distinct, so kind and status determine the title and the title determines them; the first character is 📤 for withdrawals and 📥 for deposits |
| `Composer.MessageIsJoinedLines` | index.js:46-65 | the text built by the appends is the fixed line list joined by `\n`: title, `id:` (`data.id`, else the document id), `Amount:`, `Number:` (`Number`, else `number`, else `N/A`), the optional `TrxId:` (`trxId`, else `N/A`), `Method:`, `Time:` |
| `Composer.MessageReadsBack` | index.js:63-65 | when no field the message shows renders with a line break (the `trxId` default matters only where the `TrxId:` line is built), the message splits back into its lines; there are 7 lines with the `TrxId:` line and 6 without it, and the `TrxId:` line is present iff the kind is deposit or the status is approved |
| `Registry.FirstMatch` | index.js:49-52 | returns the index of the first record whose `payment` equals the method, or none exactly when no record matches |
| `Registry.Resolve` | index.js:49-52 | the lookup is refused exactly when the method is missing; it finds nothing exactly when no record matches; otherwise it returns the first matching record |
| `Events.ProcessEvent` | index.js:42-68 | each skip reason (invalid status, refused query, no manager, no `chatId`) holds exactly when its condition does; a message is sent iff the status is valid and the first record matching the method has a truthy `chatId`; the message goes to that `chatId` and its text is the joined line list with the formatted time |
| `Tracker.StatusTracker.constructor` | index.js:18 | the status map starts empty |
| `Tracker.StatusTracker.HandleChanges` | index.js:72-105 | after a batch, the map is `Replay` of the old map and the changes, and the returned calls are `Dispatched` for the same map and changes |
| `Tracker.AddedDispatchesAndRecords` | index.js:76-78 | an `added` change always calls `processEvent` once and records its status, even a status outside the valid set |
| `Tracker.UnchangedOrRemovedIgnored` | index.js:79-85 | a `removed` change, or a `modified` change whose status equals the recorded one, calls nothing and leaves the map unchanged |
| `Tracker.ChangedModifiedDispatches` | index.js:79-84 | a `modified` change with a different status calls `processEvent` exactly once, records the new status, and leaves every other id reading as before |
| `Tracker.MissingEntryReadsUndefined` | index.js:80-81 | for an id with no entry whose name is not inherited from `Object.prototype`, `lastStatusMap[id]` reads `undefined`, so a `modified` change fires exactly when its status field is present |
| `Tracker.ReplayAppend` | index.js:72-86 | handling two batches in turn on one map equals handling their concatenation, for both the map and the calls |
| `Tracker.ReplayFrame` | index.js:76-85 | an id that no change in the batch mentions keeps its entry, or stays absent |
| `Tracker.ReflectsLastObserved` | index.js:76-85 | after a batch, an id reads the status of its last `added` or `modified` change, whether or not that change called `processEvent` |
| `Tracker.NoRepeatedNotification` | index.js:79-85 | a `modified` change that repeats an id's last observed status calls nothing and changes nothing |
| `Tracker.RepeatedStatusDispatchesOnce` | index.js:79-85 | a run of `modified` changes that all carry one id and one status calls `processEvent` once if that status differs from the recorded one, and not at all otherwise |
| `Tracker.DispatchedFromChanges` | index.js:72-86 | the calls of a batch correspond one to one and in order to the changes that fire: `FiringPositions` lists, strictly increasing, exactly the positions whose change calls `processEvent` given the map left by the changes before it, and the k-th call carries the data and id of the k-th such change; so there are no more calls than changes |
| `Tracker.SharedAcrossCollections` | index.js:76-101 | after a deposit is recorded, a withdraw `modified` change with the same id and status calls nothing, because both listeners share one map keyed by the bare id |
| `Watcher.AddedValidNotifiesOnce` | index.js:76-77 | an `added` change with a valid status and a reachable recipient makes exactly one call, `processEvent(data, id, isWithdraw)` for that change, and that call sends |
| `Watcher.InvalidStatusRecordedWithoutMessage` | index.js:79-84 | a `modified` change to an invalid, different status is dispatched and recorded, and `processEvent` sends nothing for it |
| `Watcher.PendingTwiceAcrossInvalidStatus` | index.js:76-84 | `pending`, then an invalid status, then `pending` again makes three calls; both `pending` calls send |

## Left out

- Environment variable loading and Firebase initialisation (index.js:5-15): startup I/O, fatal on failure, outside the decision logic.
- The Telegram HTTP POST and its logging (index.js:29-39): network I/O whose outcome is only logged. The send is the returned `Send(chatId, text)` value.
- The Firestore query itself: it is a lookup over the `registry` sequence, in query-result order. Firestore's cross-type numeric equality is not modelled, because values here are integers only.
- `Date` and `toLocaleString` rendering in the Asia/Dhaka time zone: foreign library code. It is the `localeString` parameter, and the clock is `nowMillis`.
- `createdAt` values that are not Firestore timestamps but carry a `seconds` property: they count as no timestamp (`None`).
- The asynchronous, fire-and-forget `processEvent` calls and the two concurrent subscriptions. Batches are sequential calls on one shared tracker, and each call sees one registry snapshot.
- The effect on the process of the unhandled promise rejection when the query is refused: only `Skipped(QueryRefused)` is modelled.
- Console logging (index.js:35, 37, 108).
- Field values that are non-integer numbers, maps, arrays or timestamps in the displayed fields: `Value` has only `undefined`, `null`, booleans, integers and strings.
- JsValues.IntToDecimal: renders every `Int` in plain decimal, which matches JavaScript only up to magnitude 2^53. Above that a JavaScript number is a double: it prints the shortest digits that identify it, padded with zeros, and from 10^21 up in exponent notation. Integers above 2^53 that are not exact doubles are not JavaScript numbers at all, so `Int` is meant for magnitudes up to 2^53.
- Document ids of the form `__name__`, such as `__proto__`: Firestore reserves them, so they never reach the map, and the model treats them as ordinary keys.
- JavaScript strings are UTF-16. Here text is a sequence of Unicode scalar values, so the emoji in the titles are one character each.
