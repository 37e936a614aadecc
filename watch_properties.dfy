/**
 * What the watch document and the watch's identity promise, stated over
 * every watch and every choice of parameters.
 */
module WatchProperties {
  import opened Wrappers
  import opened Components
  import opened Status
  import opened XContent
  import opened Watches

  // ---------------------------------------------------------------------
  // The actions object

  /** The `actions` object has one entry per wrapper, keyed by its id, in list order. */
  lemma {:induction false} ActionFieldsInListOrder(actions: seq<ActionWrapper>)
    ensures |ActionFields(actions)| == |actions|
    ensures forall i :: 0 <= i < |actions| ==> ActionFields(actions)[i] == Field(actions[i].id, ActionBody(actions[i]))
  {
    if actions != [] {
      ActionFieldsInListOrder(actions[..|actions| - 1]);
    }
  }

  /**
   * Its keys are distinct exactly when the action ids are: nothing here
   * makes them unique, so two wrappers sharing an id repeat that key.
   */
  lemma ActionKeysDistinctIff(actions: seq<ActionWrapper>)
    ensures DistinctKeys(ActionFields(actions)) <==> forall i, j :: 0 <= i < j < |actions| ==> actions[i].id != actions[j].id
  {
    ActionFieldsInListOrder(actions);
  }

  // ---------------------------------------------------------------------
  // Order of the top-level fields

  /** The position of each top-level field name in the fixed order of the document. */
  function Rank(key: string): nat
  {
    if key == TRIGGER_FIELD then 0
    else if key == INPUT_FIELD then 1
    else if key == CONDITION_FIELD then 2
    else if key == TRANSFORM_FIELD then 3
    else if key == THROTTLE_PERIOD_HUMAN_FIELD then 4
    else if key == THROTTLE_PERIOD_FIELD then 5
    else if key == ACTIONS_FIELD then 6
    else if key == METADATA_FIELD then 7
    else if key == STATUS_FIELD then 8
    else 9
  }

  /** The fields' ranks increase strictly and lie in [lo, hi). */
  predicate RankedWithin(fields: seq<Field>, lo: nat, hi: nat)
  {
    && (forall i :: 0 <= i < |fields| ==> lo <= Rank(fields[i].key) < hi)
    && (forall i, j :: 0 <= i < j < |fields| ==> Rank(fields[i].key) < Rank(fields[j].key))
  }

  lemma RankedConcat(a: seq<Field>, b: seq<Field>, lo: nat, mid: nat, hi: nat)
    requires lo <= mid <= hi
    requires RankedWithin(a, lo, mid) && RankedWithin(b, mid, hi)
    ensures RankedWithin(a + b, lo, hi)
  {
    forall i | 0 <= i < |a + b| ensures lo <= Rank((a + b)[i].key) < hi {
      if i < |a| {
        assert (a + b)[i] == a[i];
      } else {
        assert (a + b)[i] == b[i - |a|];
      }
    }
    forall i, j | 0 <= i < j < |a + b| ensures Rank((a + b)[i].key) < Rank((a + b)[j].key) {
      if j < |a| {
        assert (a + b)[i] == a[i] && (a + b)[j] == a[j];
      } else if i < |a| {
        assert (a + b)[i] == a[i] && (a + b)[j] == b[j - |a|];
      } else {
        assert (a + b)[i] == b[i - |a|] && (a + b)[j] == b[j - |a|];
      }
    }
  }

  /**
   * The document lists trigger, input, condition, transform, the throttle
   * period, actions, metadata and status in that order: every field that
   * is written comes after every field of lower rank.
   */
  lemma SerializedInFixedOrder(w: Watch, includeStatus: bool)
    ensures RankedWithin(Serialize(w, includeStatus), 0, 9)
  {
    var c, t, p := ComponentFields(w), TransformFields(w.transform), ThrottlePeriodFields(w.throttlePeriod);
    var a, m, st := ActionsObjectFields(w.actions), MetadataFields(w.metadata), StatusFields(w.status, includeStatus);
    assert RankedWithin(c, 0, 3);
    assert RankedWithin(t, 3, 4);
    assert RankedWithin(p, 4, 6);
    assert RankedWithin(a, 6, 7);
    assert RankedWithin(m, 7, 8);
    assert RankedWithin(st, 8, 9);
    RankedConcat(c, t, 0, 3, 4);
    RankedConcat(c + t, p, 0, 4, 6);
    RankedConcat(c + t + p, a, 0, 6, 7);
    RankedConcat(c + t + p + a, m, 0, 7, 8);
    RankedConcat(c + t + p + a + m, st, 0, 8, 9);
  }

  /** No top-level key is written twice. */
  lemma SerializedKeysDistinct(w: Watch, includeStatus: bool)
    ensures DistinctKeys(Serialize(w, includeStatus))
  {
    SerializedInFixedOrder(w, includeStatus);
  }

  /** The document always opens with trigger, input and condition, each a one-entry object keyed by its type. */
  lemma SerializedOpensWithComponents(w: Watch, includeStatus: bool)
    ensures |Serialize(w, includeStatus)| >= 4
    ensures Serialize(w, includeStatus)[0] == Field(TRIGGER_FIELD, Object([Field(w.trigger.kind, TriggerBody(w.trigger))]))
    ensures Serialize(w, includeStatus)[1] == Field(INPUT_FIELD, Object([Field(w.input.kind, InputBody(w.input))]))
    ensures Serialize(w, includeStatus)[2] == Field(CONDITION_FIELD, Object([Field(w.condition.kind, ConditionBody(w.condition))]))
  {
  }

  /** With the status requested, it is the last field written. */
  lemma StatusWrittenLast(w: Watch, includeStatus: bool)
    requires includeStatus
    ensures Serialize(w, includeStatus)[|Serialize(w, includeStatus)| - 1] == Field(STATUS_FIELD, StatusBody(w.status.View()))
  {
  }

  /** No field is a null placeholder. */
  lemma SerializedHasNoNulls(w: Watch, includeStatus: bool)
    ensures NoNulls(Serialize(w, includeStatus))
    ensures NoNulls(ActionFields(w.actions))
  {
    ActionFieldsInListOrder(w.actions);
  }

  // ---------------------------------------------------------------------
  // What a reader of the document finds under each name

  /** A name is looked up segment by segment, in the order the segments are written. */
  lemma LookupBySegment(w: Watch, includeStatus: bool, key: string)
    ensures Lookup(Serialize(w, includeStatus), key)
         == if HasKey(ComponentFields(w), key) then Lookup(ComponentFields(w), key)
            else if HasKey(TransformFields(w.transform), key) then Lookup(TransformFields(w.transform), key)
            else if HasKey(ThrottlePeriodFields(w.throttlePeriod), key) then Lookup(ThrottlePeriodFields(w.throttlePeriod), key)
            else if HasKey(ActionsObjectFields(w.actions), key) then Lookup(ActionsObjectFields(w.actions), key)
            else if HasKey(MetadataFields(w.metadata), key) then Lookup(MetadataFields(w.metadata), key)
            else Lookup(StatusFields(w.status, includeStatus), key)
  {
    var c, t, p := ComponentFields(w), TransformFields(w.transform), ThrottlePeriodFields(w.throttlePeriod);
    var a, m, st := ActionsObjectFields(w.actions), MetadataFields(w.metadata), StatusFields(w.status, includeStatus);
    LookupAppend(c + t + p + a + m, st, key);
    LookupAppend(c + t + p + a, m, key);
    LookupAppend(c + t + p, a, key);
    LookupAppend(c + t, p, key);
    LookupAppend(c, t, key);
    KeysAppend(c + t + p + a, m);
    KeysAppend(c + t + p, a);
    KeysAppend(c + t, p);
    KeysAppend(c, t);
  }

  /** `trigger`, `input` and `condition` each hold a one-entry object keyed by the component's type. */
  lemma SerializedComponents(w: Watch, includeStatus: bool)
    ensures Lookup(Serialize(w, includeStatus), TRIGGER_FIELD) == Some(Object([Field(w.trigger.kind, TriggerBody(w.trigger))]))
    ensures Lookup(Serialize(w, includeStatus), INPUT_FIELD) == Some(Object([Field(w.input.kind, InputBody(w.input))]))
    ensures Lookup(Serialize(w, includeStatus), CONDITION_FIELD) == Some(Object([Field(w.condition.kind, ConditionBody(w.condition))]))
  {
    var c := ComponentFields(w);
    assert Find(c, INPUT_FIELD) == 1 by {
      assert c[1..][0].key == INPUT_FIELD;
    }
    assert Find(c, CONDITION_FIELD) == 2 by {
      assert c[1..][1..][0].key == CONDITION_FIELD;
    }
    LookupBySegment(w, includeStatus, TRIGGER_FIELD);
    LookupBySegment(w, includeStatus, INPUT_FIELD);
    LookupBySegment(w, includeStatus, CONDITION_FIELD);
  }

  /** `transform` holds the transform keyed by its type when there is one, and is absent otherwise. */
  lemma SerializedTransform(w: Watch, includeStatus: bool)
    ensures Lookup(Serialize(w, includeStatus), TRANSFORM_FIELD)
         == (if w.transform.Some? then Some(Object([Field(w.transform.value.kind, TransformBody(w.transform.value))])) else None)
  {
    LookupBySegment(w, includeStatus, TRANSFORM_FIELD);
  }

  /** The throttle period and its human-readable form are written exactly when a throttle period is set. */
  lemma SerializedThrottlePeriod(w: Watch, includeStatus: bool)
    ensures Lookup(Serialize(w, includeStatus), THROTTLE_PERIOD_FIELD)
         == (if w.throttlePeriod.Some? then Some(Number(w.throttlePeriod.value.millis)) else None)
    ensures Lookup(Serialize(w, includeStatus), THROTTLE_PERIOD_HUMAN_FIELD)
         == (if w.throttlePeriod.Some? then Some(HumanDuration(w.throttlePeriod.value)) else None)
  {
    LookupBySegment(w, includeStatus, THROTTLE_PERIOD_FIELD);
    LookupBySegment(w, includeStatus, THROTTLE_PERIOD_HUMAN_FIELD);
  }

  /** `actions` is always written, as the object of the action entries. */
  lemma SerializedActions(w: Watch, includeStatus: bool)
    ensures Lookup(Serialize(w, includeStatus), ACTIONS_FIELD) == Some(Object(ActionFields(w.actions)))
  {
    LookupBySegment(w, includeStatus, ACTIONS_FIELD);
  }

  /** `metadata` holds the metadata when there is some, and is absent otherwise. */
  lemma SerializedMetadata(w: Watch, includeStatus: bool)
    ensures Lookup(Serialize(w, includeStatus), METADATA_FIELD)
         == (if w.metadata.Some? then Some(MetadataBody(w.metadata.value)) else None)
  {
    LookupBySegment(w, includeStatus, METADATA_FIELD);
  }

  /** `status` holds the status exactly when it is asked for. */
  lemma SerializedStatus(w: Watch, includeStatus: bool)
    ensures Lookup(Serialize(w, includeStatus), STATUS_FIELD)
         == (if includeStatus then Some(StatusBody(w.status.View())) else None)
  {
    LookupBySegment(w, includeStatus, STATUS_FIELD);
  }

  /** `transform`, `throttle_period`, `metadata` and `status` are present exactly when set or requested; `actions` always is. */
  lemma OptionalFieldsPresentIffSet(w: Watch, includeStatus: bool)
    ensures HasKey(Serialize(w, includeStatus), TRANSFORM_FIELD) <==> w.transform.Some?
    ensures HasKey(Serialize(w, includeStatus), THROTTLE_PERIOD_FIELD) <==> w.throttlePeriod.Some?
    ensures HasKey(Serialize(w, includeStatus), THROTTLE_PERIOD_HUMAN_FIELD) <==> w.throttlePeriod.Some?
    ensures HasKey(Serialize(w, includeStatus), METADATA_FIELD) <==> w.metadata.Some?
    ensures HasKey(Serialize(w, includeStatus), STATUS_FIELD) <==> includeStatus
    ensures HasKey(Serialize(w, includeStatus), ACTIONS_FIELD)
  {
    SerializedTransform(w, includeStatus);
    SerializedThrottlePeriod(w, includeStatus);
    SerializedActions(w, includeStatus);
    SerializedMetadata(w, includeStatus);
    SerializedStatus(w, includeStatus);
  }

  /** Under `actions`, a reader finds one entry per wrapper, keyed by its id, in list order. */
  lemma SerializedActionsInListOrder(w: Watch, includeStatus: bool)
    ensures Lookup(Serialize(w, includeStatus), ACTIONS_FIELD).Some?
    ensures var v := Lookup(Serialize(w, includeStatus), ACTIONS_FIELD).value;
      && v.Object?
      && |v.fields| == |w.actions|
      && forall i :: 0 <= i < |w.actions| ==> v.fields[i] == Field(w.actions[i].id, ActionBody(w.actions[i]))
  {
    SerializedActions(w, includeStatus);
    ActionFieldsInListOrder(w.actions);
  }

  /** Without the status, the document depends on the definition alone, not on the runtime status. */
  lemma DefinitionDocumentIgnoresStatus(w1: Watch, w2: Watch)
    requires w1.trigger == w2.trigger && w1.input == w2.input && w1.condition == w2.condition
    requires w1.transform == w2.transform && w1.throttlePeriod == w2.throttlePeriod
    requires w1.actions == w2.actions && w1.metadata == w2.metadata
    ensures Serialize(w1, false) == Serialize(w2, false)
  {
  }

  /** The status is written exactly when `include_status` is given and true; absent, it defaults to false. */
  lemma StatusWrittenIffRequested(w: Watch, params: Params)
    ensures HasKey(Serialize(w, ParamAsBoolean(params, INCLUDE_STATUS_KEY, false)), STATUS_FIELD)
        <==> INCLUDE_STATUS_KEY in params && params[INCLUDE_STATUS_KEY]
  {
    OptionalFieldsPresentIffSet(w, ParamAsBoolean(params, INCLUDE_STATUS_KEY, false));
  }

  // ---------------------------------------------------------------------
  // Identity

  /** Two watches are equal exactly when their ids are, whatever else they hold. */
  lemma EqualsIffSameId(a: Watch, b: Watch)
    ensures a.Equals(b) <==> a.id == b.id
  {
  }

  /** `equals` is an equivalence relation on watches. */
  lemma EqualsIsEquivalence(a: Watch, b: Watch, c: Watch)
    ensures a.Equals(a)
    ensures a.Equals(b) ==> b.Equals(a)
    ensures a.Equals(b) && b.Equals(c) ==> a.Equals(c)
  {
  }

  /** Nothing that is not a watch equals one. */
  lemma EqualsRejectsOtherObjects(a: Watch, o: object?)
    requires o == null || !(o is Watch)
    ensures !a.Equals(o)
  {
  }

  /** Equal watches have equal hash codes. */
  lemma EqualWatchesHashAlike(a: Watch, b: Watch)
    requires a.Equals(b)
    ensures a.HashCode() == b.HashCode()
  {
  }

  /** For an id of Basic Multilingual Plane characters, the hash code is the Java polynomial over them, reduced to an `int`. */
  lemma HashCodeOfBasicPlaneId(w: Watch)
    requires forall i :: 0 <= i < |w.id| ==> (w.id[i] as int) < 0x1_0000
    ensures w.HashCode() == JavaString.ToInt32(JavaString.Polynomial(seq(|w.id|, i requires 0 <= i < |w.id| => w.id[i] as int)) % JavaString.TWO_POW_32)
  {
    JavaString.Utf16OfBasicPlane(w.id);
    assert JavaString.Utf16(w.id) == seq(|w.id|, i requires 0 <= i < |w.id| => w.id[i] as int);
    JavaString.WrappedHashIsPolynomialMod(JavaString.Utf16(w.id));
  }

  // ---------------------------------------------------------------------
  // A watch's life, as a client sees it through the contracts

  method AckLifecycle(trigger: Trigger, input: Input, condition: Condition)
  {
    var status := new WatchStatus(ActiveState(true, 0), map["a1" := ActionStatus(AckStatus(Ackable, 1))]);
    var w := new Watch("w1", trigger, input, condition, None, None, [ActionWrapper("a1", map[])], None, status);
    assert w.version == MATCH_ANY;
    assert w.Acked("a1") == Success(false);
    assert w.Acked("a2") == Failure(NoSuchAction("a2"));

    assert SomeAckable(w.status.actions, AckTargets(w.status.actions, ["a1"])) by {
      assert "a1" in AckTargets(w.status.actions, ["a1"]);
    }
    var changed := w.Ack(2, ["a1"]);
    assert changed && w.Acked("a1") == Success(true);

    changed := w.Ack(3, ["a1"]);
    assert !changed;
    changed := w.Ack(4, ["nonexistent"]);
    assert !changed && w.Acked("a1") == Success(true);

    changed := w.SetState(true, 5);
    assert !changed;
    changed := w.SetState(false, 6);
    assert changed && !w.status.state.active;

    w.SetVersion(7);
    assert w.version == 7 && w.Acked("a1") == Success(true) && !w.status.state.active;
  }
}
