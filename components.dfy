/**
 * The definitions a watch is assembled from. Their own behaviour and their
 * own serialisation live outside the watch, so each is an opaque value that
 * carries only what the watch reads from it: the `type()` name of a
 * trigger, input, condition or transform, and the `id()` of an action.
 */
module Components {

  /** A point in time (a Joda `DateTime`), as milliseconds since the epoch. */
  type DateTime = int

  /** A duration (a `TimeValue`), as its length in milliseconds. */
  datatype TimeValue = TimeValue(millis: int)

  /** Whatever a definition carries besides its type name or id. */
  type Settings = map<string, string>

  /** `Trigger`: when the watch is evaluated; `kind` is its `type()`. */
  datatype Trigger = Trigger(kind: string, settings: Settings)

  /** `ExecutableInput`: how data is fetched; `kind` is its `type()`. */
  datatype Input = Input(kind: string, settings: Settings)

  /** `ExecutableCondition`: the predicate on the payload; `kind` is its `type()`. */
  datatype Condition = Condition(kind: string, settings: Settings)

  /** `ExecutableTransform`: the payload rewrite; `kind` is its `type()`. */
  datatype Transform = Transform(kind: string, settings: Settings)

  /** `ActionWrapper`: one action of the watch, named by its `id()`. */
  datatype ActionWrapper = ActionWrapper(id: string, settings: Settings)

  /** The user's free-form metadata map, kept verbatim. */
  type Metadata = map<string, string>
}
