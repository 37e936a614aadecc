# Watch: the alerting-rule aggregate, modelled in Dafny

This project models the `Watch` class of Elasticsearch Watcher
(`plugin/core/src/main/java/org/elasticsearch/xpack/watcher/watch/Watch.java`).
A watch is an alerting rule. It has an id, a trigger, an input, a condition,
an optional transform, an ordered list of actions, an optional throttle
period, optional metadata and the runtime status it owns. It also has a
transient optimistic-concurrency `version`, which defaults to
`Versions.MATCH_ANY`.

Layout:

- `components.dfy` (`Components`): the definitions a watch is built from.
  They are opaque values that carry only what the watch reads from them: the
  `type()` of a trigger, input, condition or transform, and the `id()` of an
  action wrapper.
- `status.dfy` (`Status`): the owned `WatchStatus`, as a class with an active
  state and a map from action id to `ActionStatus`. It has the two mutations
  the watch forwards to, `SetActive` and `OnAck`. The functions `Activate`,
  `AckAction` and `AckActions` give the resulting state, and lemmas about
  them follow.
- `xcontent.dfy` (`XContent`): the document as the sequence of named fields an
  `XContentBuilder` receives. It has `Keys`, `Find` and `Lookup`, and lemmas
  on how they behave across concatenation.
- `java_string.dfy` (`JavaString`): `String.hashCode`, computed over UTF-16
  code units in 32-bit wrap-around arithmetic. It is proved equal to the
  unbounded polynomial reduced modulo 2^32.
- `watch.dfy` (`Watches`): the `Watch` class and `Serialize`, the pure
  description of the document `toXContent` writes. `ToXContent` is the
  step-by-step writer; it has a loop over the actions and is proved to
  produce exactly `Serialize`.
- `watch_properties.dfy` (`WatchProperties`): what the document and the
  identity contract promise for every watch. `AckLifecycle` is a client that
  runs through acking, (de)activating and setting the version, using only the
  contracts.

The accessors `id()` through `status()` are the `const` fields of
`Watches.Watch`. Their immutability is enforced by `const`, and the
constructor's postcondition ties each of them to its argument. The
`version()` getter is a read of the mutable field `version`.

## Model

| member | source | states |
|---|---|---|
| `Watches.Watch.constructor` | plugin/core/src/main/java/org/elasticsearch/xpack/watcher/watch/Watch.java:41-55 | each definition field and the status are the arguments given; a fresh watch's version is `MATCH_ANY` |
| `Watches.Watch.SetVersion` | plugin/core/src/main/java/org/elasticsearch/xpack/watcher/watch/Watch.java:91-97 | afterwards `version` is the given value; the status and the serialised document are unchanged, and only `this` is modified |
| `Watches.Watch.SetState` | plugin/core/src/main/java/org/elasticsearch/xpack/watcher/watch/Watch.java:99-106 | only the owned status changes; the result is true iff the status changed, which is iff the active flag differed from the request; afterwards the flag is the requested one; actions and version are untouched |
| `Watches.Watch.Ack` | plugin/core/src/main/java/org/elasticsearch/xpack/watcher/watch/Watch.java:108-115 | only the owned status changes; the result is true iff the status changed, which is iff some named action was ACKABLE; the new action statuses are the old ones with the named ACKABLE actions acked; the active state and version are untouched |
| `Watches.Watch.Acked` | plugin/core/src/main/java/org/elasticsearch/xpack/watcher/watch/Watch.java:117-120 | for an id with an action status, true iff its ack state is ACKED; for an id without one, the lookup error (Java dereferences null); reads only the status |
| `Watches.Watch.Equals` | plugin/core/src/main/java/org/elasticsearch/xpack/watcher/watch/Watch.java:122-129 | true iff the other object is a non-null `Watch` with the same id; the identity shortcut agrees with this |
| `Watches.Watch.HashCode` | plugin/core/src/main/java/org/elasticsearch/xpack/watcher/watch/Watch.java:131-134 | depends on the id alone (no reads clause) and lies in the 32-bit signed range; `HashCodeOfBasicPlaneId` gives its value |
| `Watches.Watch.ToXContent` | plugin/core/src/main/java/org/elasticsearch/xpack/watcher/watch/Watch.java:136-162 | the object written is exactly `Serialize` of the watch, with `include_status` read from the parameters with default false |
| `Status.WatchStatus.SetActive` | plugin/core/src/main/java/org/elasticsearch/xpack/watcher/watch/Watch.java:104-105 | the active state becomes `Activate(old, active, now)`; the result is true iff the status changed, iff the flag differed; the action statuses are untouched |
| `Status.WatchStatus.OnAck` | plugin/core/src/main/java/org/elasticsearch/xpack/watcher/watch/Watch.java:113-114 | the action statuses become `AckActions` of the targets (the named ids, or every action if none is named); the result is true iff the status changed, iff some target was ACKABLE |
| `Status.Activate` | plugin/core/src/main/java/org/elasticsearch/xpack/watcher/watch/Watch.java:99-106 | the resulting flag is the requested one; the state is unchanged iff it was already in the requested state, so a repeated request is a no-op |
| `Status.AckAction` | plugin/core/src/main/java/org/elasticsearch/xpack/watcher/watch/Watch.java:108-115 | an action ends ACKED iff it did not await its first successful run; it changes iff it was ACKABLE |
| `Status.AckActionsChanged` | plugin/core/src/main/java/org/elasticsearch/xpack/watcher/watch/Watch.java:108-115 | an ack changes the action statuses iff it names an ACKABLE action: the "status changed" result in both directions |
| `Status.AckedAfterAck` | plugin/core/src/main/java/org/elasticsearch/xpack/watcher/watch/Watch.java:113-120 | after an ack, `acked` holds for an action iff it was ACKED before, or it was named and ACKABLE |
| `Status.AckActionsIdempotent` | plugin/core/src/main/java/org/elasticsearch/xpack/watcher/watch/Watch.java:108-115 | acking the same targets a second time changes nothing |
| `Status.AckIgnoresUnknownIds` | plugin/core/src/main/java/org/elasticsearch/xpack/watcher/watch/Watch.java:113-115 | ids that name no action have no effect on an ack |
| `Status.AckNeedsPriorSuccess` | plugin/core/src/main/java/org/elasticsearch/xpack/watcher/watch/Watch.java:113-115 | an action still awaiting its first successful run is left as it is by an ack |
| `JavaString.HashCode` | plugin/core/src/main/java/org/elasticsearch/xpack/watcher/watch/Watch.java:133 | `String.hashCode` of the id lies in the Java `int` range |
| `JavaString.WrappedHashIsPolynomialMod` | plugin/core/src/main/java/org/elasticsearch/xpack/watcher/watch/Watch.java:133 | wrapping `31 * h + unit` at every step equals the unbounded polynomial over the code units, reduced once modulo 2^32 |
| `WatchProperties.SerializedInFixedOrder` | plugin/core/src/main/java/org/elasticsearch/xpack/watcher/watch/Watch.java:137-160 | the top-level fields that are written come strictly in the order trigger, input, condition, transform, throttle period (human-readable, then millis), actions, metadata, status |
| `WatchProperties.SerializedKeysDistinct` | plugin/core/src/main/java/org/elasticsearch/xpack/watcher/watch/Watch.java:137-160 | no top-level key is written twice |
| `WatchProperties.SerializedOpensWithComponents` | plugin/core/src/main/java/org/elasticsearch/xpack/watcher/watch/Watch.java:138-141 | the first three fields are `trigger`, `input` and `condition`, each a one-entry object keyed by that component's type |
| `WatchProperties.SerializedComponents` | plugin/core/src/main/java/org/elasticsearch/xpack/watcher/watch/Watch.java:139-141 | a reader of the document finds under `trigger`, `input` and `condition` the one-entry object keyed by the component's type |
| `WatchProperties.SerializedTransform` | plugin/core/src/main/java/org/elasticsearch/xpack/watcher/watch/Watch.java:142-144 | `transform` holds the transform keyed by its type when there is one; otherwise the key is absent |
| `WatchProperties.SerializedThrottlePeriod` | plugin/core/src/main/java/org/elasticsearch/xpack/watcher/watch/Watch.java:145-148 | `throttle_period_in_millis` holds the millis and `throttle_period` the human-readable form when a throttle period is set; otherwise both are absent |
| `WatchProperties.SerializedActions` | plugin/core/src/main/java/org/elasticsearch/xpack/watcher/watch/Watch.java:149-153 | `actions` is always present and holds the object of the action entries |
| `WatchProperties.SerializedMetadata` | plugin/core/src/main/java/org/elasticsearch/xpack/watcher/watch/Watch.java:154-156 | `metadata` holds the metadata when there is some; otherwise the key is absent |
| `WatchProperties.SerializedStatus` | plugin/core/src/main/java/org/elasticsearch/xpack/watcher/watch/Watch.java:157-159 | `status` holds the status iff it is asked for |
| `WatchProperties.OptionalFieldsPresentIffSet` | plugin/core/src/main/java/org/elasticsearch/xpack/watcher/watch/Watch.java:142-159 | each optional key is present iff its part is set (or, for status, requested), in both directions; `actions` is always present |
| `WatchProperties.StatusWrittenIffRequested` | plugin/core/src/main/java/org/elasticsearch/xpack/watcher/watch/Watch.java:157-159 | the status is written iff `include_status` is given and true; absent, it counts as false |
| `WatchProperties.StatusWrittenLast` | plugin/core/src/main/java/org/elasticsearch/xpack/watcher/watch/Watch.java:157-160 | when requested, the status is the last field written |
| `WatchProperties.SerializedHasNoNulls` | plugin/core/src/main/java/org/elasticsearch/xpack/watcher/watch/Watch.java:142-156 | no top-level field and no action entry is a null placeholder |
| `WatchProperties.ActionFieldsInListOrder` | plugin/core/src/main/java/org/elasticsearch/xpack/watcher/watch/Watch.java:150-152 | the actions object has one entry per wrapper, the i-th keyed by the i-th wrapper's id and holding that wrapper |
| `WatchProperties.SerializedActionsInListOrder` | plugin/core/src/main/java/org/elasticsearch/xpack/watcher/watch/Watch.java:149-153 | what a reader finds under `actions` is an object with one entry per wrapper, keyed by its id, in list order |
| `WatchProperties.ActionKeysDistinctIff` | plugin/core/src/main/java/org/elasticsearch/xpack/watcher/watch/Watch.java:150-152 | the actions object's keys are distinct iff the action ids are; the serialiser does not make them unique |
| `WatchProperties.DefinitionDocumentIgnoresStatus` | plugin/core/src/main/java/org/elasticsearch/xpack/watcher/watch/Watch.java:157-159 | without `include_status`, the document depends only on the definition fields, not on the runtime status |
| `WatchProperties.EqualsIffSameId` | plugin/core/src/main/java/org/elasticsearch/xpack/watcher/watch/Watch.java:122-129 | two watches are equal iff their ids are equal, whatever their other fields and status |
| `WatchProperties.EqualsIsEquivalence` | plugin/core/src/main/java/org/elasticsearch/xpack/watcher/watch/Watch.java:122-129 | `equals` is reflexive, symmetric and transitive on watches |
| `WatchProperties.EqualsRejectsOtherObjects` | plugin/core/src/main/java/org/elasticsearch/xpack/watcher/watch/Watch.java:125 | null and objects of another class never equal a watch |
| `WatchProperties.EqualWatchesHashAlike` | plugin/core/src/main/java/org/elasticsearch/xpack/watcher/watch/Watch.java:122-134 | equal watches have equal hash codes |
| `WatchProperties.HashCodeOfBasicPlaneId` | plugin/core/src/main/java/org/elasticsearch/xpack/watcher/watch/Watch.java:131-134 | for an id of Basic Multilingual Plane characters, the hash is the polynomial s[0]*31^(n-1) + ... + s[n-1], reduced to a Java `int` |

## Left out

- `XContentBuilder` mechanics are not modelled: the encoding, the `startObject`/`endObject` bookkeeping and `IOException`. The document is a list of named fields, and the outer object is `XContent.Object`.
- The serialisation inside `Trigger`, `ExecutableInput`, `ExecutableCondition`, `ExecutableTransform`, `ActionWrapper` and `WatchStatus` is done by those classes, which are not part of this model. Each is written as an opaque value (`TriggerBody`, ..., `StatusBody`), and the `params` passed on to them are dropped.
- `WatchField` is not part of this model. The field names are the ones Watcher documents use: `trigger`, `input`, `condition`, `transform`, `throttle_period_in_millis`, `throttle_period`, `actions`, `metadata`, `status`.
- `timeValueField` writes the human-readable form only when the builder is set to be human-readable. That switch is a builder setting, so it is not modelled: both throttle-period fields are always written, the human-readable one first. The formatting of `TimeValue` and `DateTime` is library code; a duration is kept as milliseconds, a time as an integer, and the human-readable form is opaque.
- The parameters are taken with their values already read as booleans (`Params = map<string, bool>`). The parsing of the text `"true"`/`"false"` is library code and is not modelled.
- The Java code of `WatchStatus` and `ActionStatus` is not shown. `Status.WatchStatus` reduces them to a stand-in with only what the watch's own operations need: an active state with its timestamp, and each action's ack state with its timestamp. The execution record, the last execution and throttle records, the last-checked and last-met-condition times and the status's own version counter are not modelled.
- The ack transition is a stand-in. `AckAction` moves ACKABLE to ACKED, records the time and leaves every other state alone. `OnAck` acks every action when no id is given and ignores ids that have no action. The Java code of `WatchStatus.onAck` is not shown, so this is a policy choice. The transitions driven by executions (to ACKABLE, back from ACKED) are not modelled either.
- `Watches.Watch.SetState` and `Watches.Watch.Ack` state the doc-comment contract: the result says whether the status changed, and nothing outside the status changes. Beyond that, what the new status is follows the stand-in above.
- `Versions.MATCH_ANY` is not shown. It is taken to be -3, the value Elasticsearch gives it, and a version is a Java `long` (`Watches.Long`).
- Java's null is not modelled for the non-nullable arguments. The model assumes the id, the trigger, the input, the condition, the actions list and the status are never null. The nullable ones are `Option`.
- Reading a watch back from its document (the watch parser) is not part of this model, so there is no parse/serialise round trip. The lookup lemmas in `WatchProperties` state what a reader of the document finds under each name.
- The `INDEX` and `DOC_TYPE` constants and the persistence layer that uses them are storage plumbing and are not modelled.
- `actions`, `metadata` and `id` are values, not references. Java keeps the caller's `List<ActionWrapper>` and `Map<String, Object>` by reference and hands them out live through `actions()` and `metadata()`. The model does not capture a later change to that list or map by the constructor's caller or an accessor's caller, which in Java alters what a later `toXContent` writes. It also does not capture two watches sharing one list or map. The id is a sequence of Unicode scalar values, so a Java id holding an unpaired surrogate cannot be represented.
- Concurrency is not modelled. The class does no locking, and two watches may share one status object, as in Java.
- The uniqueness of action ids is not checked by the source, and the model does not assume it. `ActionKeysDistinctIff` shows what a duplicate id does to the document.
