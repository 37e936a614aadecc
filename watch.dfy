/**
 * The `Watch` aggregate root: an alerting rule's immutable definition
 * (trigger, input, condition, optional transform, actions, optional
 * throttle period and metadata), the status it owns, and a transient
 * optimistic-concurrency version.
 */
module Watches {
  import opened Wrappers
  import opened Components
  import opened Status
  import opened XContent
  import JavaString

  /** A Java `long`. */
  newtype Long = x: int | -0x8000_0000_0000_0000 <= x < 0x8000_0000_0000_0000

  /** `Versions.MATCH_ANY`: the version that places no constraint on a write. */
  const MATCH_ANY: Long := -3

  /** The parameter that asks for the status to be written. */
  const INCLUDE_STATUS_KEY: string := "include_status"

  // The field names of the watch document.
  const TRIGGER_FIELD: string := "trigger"
  const INPUT_FIELD: string := "input"
  const CONDITION_FIELD: string := "condition"
  const TRANSFORM_FIELD: string := "transform"
  const THROTTLE_PERIOD_FIELD: string := "throttle_period_in_millis"
  const THROTTLE_PERIOD_HUMAN_FIELD: string := "throttle_period"
  const ACTIONS_FIELD: string := "actions"
  const METADATA_FIELD: string := "metadata"
  const STATUS_FIELD: string := "status"

  /** Serialisation parameters, with their values already read as booleans. */
  type Params = map<string, bool>

  /** `params.paramAsBoolean(key, default)`. */
  function ParamAsBoolean(params: Params, key: string, default: bool): bool
  {
    if key in params then params[key] else default
  }

  /** The error `acked` runs into for an id that has no action status. */
  datatype LookupError = NoSuchAction(id: string)

  /** A component written as a one-entry object keyed by its type name. */
  function Tagged(name: string, kind: string, body: Value): Field
  {
    Field(name, Object([Field(kind, body)]))
  }

  /** The entries of the `actions` object: one per wrapper, keyed by its id, in list order. */
  function ActionFields(actions: seq<ActionWrapper>): seq<Field>
  {
    if actions == [] then []
    else ActionFields(actions[..|actions| - 1]) + [Field(actions[|actions| - 1].id, ActionBody(actions[|actions| - 1]))]
  }

  function ComponentFields(w: Watch): seq<Field>
  {
    [ Tagged(TRIGGER_FIELD, w.trigger.kind, TriggerBody(w.trigger)),
      Tagged(INPUT_FIELD, w.input.kind, InputBody(w.input)),
      Tagged(CONDITION_FIELD, w.condition.kind, ConditionBody(w.condition)) ]
  }

  function TransformFields(transform: Option<Transform>): seq<Field>
  {
    match transform
    case None => []
    case Some(t) => [Tagged(TRANSFORM_FIELD, t.kind, TransformBody(t))]
  }

  function ThrottlePeriodFields(throttlePeriod: Option<TimeValue>): seq<Field>
  {
    match throttlePeriod
    case None => []
    case Some(p) => [Field(THROTTLE_PERIOD_HUMAN_FIELD, HumanDuration(p)), Field(THROTTLE_PERIOD_FIELD, Number(p.millis))]
  }

  function MetadataFields(metadata: Option<Metadata>): seq<Field>
  {
    match metadata
    case None => []
    case Some(m) => [Field(METADATA_FIELD, MetadataBody(m))]
  }

  function ActionsObjectFields(actions: seq<ActionWrapper>): seq<Field>
  {
    [Field(ACTIONS_FIELD, Object(ActionFields(actions)))]
  }

  function StatusFields(status: WatchStatus, includeStatus: bool): seq<Field>
    reads status
  {
    if includeStatus then [Field(STATUS_FIELD, StatusBody(status.View()))] else []
  }

  /** The fields of the watch document, in the order `toXContent` writes them. */
  function Serialize(w: Watch, includeStatus: bool): seq<Field>
    reads w.status
  {
    ComponentFields(w)
    + TransformFields(w.transform)
    + ThrottlePeriodFields(w.throttlePeriod)
    + ActionsObjectFields(w.actions)
    + MetadataFields(w.metadata)
    + StatusFields(w.status, includeStatus)
  }

  class Watch {
    const id: string
    const trigger: Trigger
    const input: Input
    const condition: Condition
    const transform: Option<Transform>
    const actions: seq<ActionWrapper>
    const throttlePeriod: Option<TimeValue>
    const metadata: Option<Metadata>
    const status: WatchStatus

    /** Transient: not part of the document. */
    var version: Long

    constructor (id: string, trigger: Trigger, input: Input, condition: Condition, transform: Option<Transform>,
                 throttlePeriod: Option<TimeValue>, actions: seq<ActionWrapper>, metadata: Option<Metadata>,
                 status: WatchStatus)
      ensures this.id == id && this.trigger == trigger && this.input == input && this.condition == condition
      ensures this.transform == transform && this.throttlePeriod == throttlePeriod
      ensures this.actions == actions && this.metadata == metadata && this.status == status
      ensures version == MATCH_ANY
    {
      this.id := id;
      this.trigger := trigger;
      this.input := input;
      this.condition := condition;
      this.transform := transform;
      this.actions := actions;
      this.throttlePeriod := throttlePeriod;
      this.metadata := metadata;
      this.status := status;
      this.version := MATCH_ANY;
    }

    /** `version(long)`: records the version; nothing else changes. */
    method SetVersion(v: Long)
      modifies this
      ensures version == v
      ensures status.View() == old(status.View())
      ensures forall includeStatus :: Serialize(this, includeStatus) == old(Serialize(this, includeStatus))
    {
      version := v;
    }

    /** `setState`: (de)activates the watch; true iff the status changed. */
    method SetState(active: bool, now: DateTime) returns (changed: bool)
      modifies status
      ensures changed <==> status.View() != old(status.View())
      ensures changed <==> old(status.state.active) != active
      ensures status.state == Activate(old(status.state), active, now)
      ensures status.actions == old(status.actions)
      ensures version == old(version)
    {
      changed := status.SetActive(active, now);
    }

    /** `ack`: acks the named actions; true iff the status changed. */
    method Ack(now: DateTime, actionIds: seq<string>) returns (changed: bool)
      modifies status
      ensures changed <==> status.View() != old(status.View())
      ensures changed <==> SomeAckable(old(status.actions), AckTargets(old(status.actions), actionIds))
      ensures status.actions == AckActions(old(status.actions), AckTargets(old(status.actions), actionIds), now)
      ensures status.state == old(status.state)
      ensures version == old(version)
    {
      changed := status.OnAck(now, actionIds);
    }

    /**
     * `acked`: whether the action's ack state is ACKED. An id without an
     * action status is an error (in Java, a dereference of null).
     */
    function Acked(actionId: string): (r: Result<bool, LookupError>)
      reads status
      ensures r.Failure? <==> actionId !in status.actions
      ensures r.Failure? ==> r.error == NoSuchAction(actionId)
      ensures r.Success? ==> (r.value <==> status.actions[actionId].ackStatus.state == AckState.Acked)
    {
      if actionId !in status.actions then Failure(NoSuchAction(actionId))
      else Success(status.actions[actionId].ackStatus.state == AckState.Acked)
    }

    /** `equals`: the same object, or another watch with the same id. */
    predicate Equals(o: object?)
      ensures Equals(o) <==> o != null && o is Watch && (o as Watch).id == id
    {
      if this == o then true
      else if o == null || !(o is Watch) then false
      else (o as Watch).id == id
    }

    /** `hashCode`: the hash of the id. */
    function HashCode(): (h: int)
      ensures -JavaString.TWO_POW_31 <= h < JavaString.TWO_POW_31
    {
      JavaString.HashCode(id)
    }

    /** `toXContent`: writes the watch document field by field. */
    method ToXContent(params: Params) returns (doc: Value)
      ensures doc == Object(Serialize(this, ParamAsBoolean(params, INCLUDE_STATUS_KEY, false)))
    {
      var includeStatus := ParamAsBoolean(params, INCLUDE_STATUS_KEY, false);
      var fields := [ Tagged(TRIGGER_FIELD, trigger.kind, TriggerBody(trigger)),
                      Tagged(INPUT_FIELD, input.kind, InputBody(input)),
                      Tagged(CONDITION_FIELD, condition.kind, ConditionBody(condition)) ];
      ghost var expected := fields;
      if transform.Some? {
        fields := fields + [Tagged(TRANSFORM_FIELD, transform.value.kind, TransformBody(transform.value))];
      }
      assert fields == expected + TransformFields(transform);
      expected := fields;
      if throttlePeriod.Some? {
        fields := fields + [Field(THROTTLE_PERIOD_HUMAN_FIELD, HumanDuration(throttlePeriod.value)),
                            Field(THROTTLE_PERIOD_FIELD, Number(throttlePeriod.value.millis))];
      }
      assert fields == expected + ThrottlePeriodFields(throttlePeriod);
      var entries := [];
      for i := 0 to |actions|
        invariant entries == ActionFields(actions[..i])
      {
        assert actions[..i + 1][..i] == actions[..i];
        entries := entries + [Field(actions[i].id, ActionBody(actions[i]))];
      }
      assert actions[..|actions|] == actions;
      fields := fields + [Field(ACTIONS_FIELD, Object(entries))];
      expected := fields;
      if metadata.Some? {
        fields := fields + [Field(METADATA_FIELD, MetadataBody(metadata.value))];
      }
      assert fields == expected + MetadataFields(metadata);
      expected := fields;
      if includeStatus {
        fields := fields + [Field(STATUS_FIELD, StatusBody(status.View()))];
      }
      assert fields == expected + (if includeStatus then [Field(STATUS_FIELD, StatusBody(status.View()))] else []);
      doc := Object(fields);
    }
  }
}
