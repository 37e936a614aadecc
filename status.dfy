/**
 * The runtime status a watch owns: whether it is active, and the ack state
 * of each of its actions. Only as much of `WatchStatus` and `ActionStatus`
 * is modelled as the watch's own operations consult: the active flag that
 * `setState` switches, and the per-action ack state that `ack` advances and
 * `acked` reads.
 */
module Status {
  import opened Components

  /** The ack state of one action. */
  datatype AckState = AwaitsSuccessfulExecution | Ackable | Acked

  /** An ack state and the time it was entered. */
  datatype AckStatus = AckStatus(state: AckState, timestamp: DateTime)

  /** `ActionStatus`, reduced to its ack status. */
  datatype ActionStatus = ActionStatus(ackStatus: AckStatus)

  /** Whether the watch is active, and since when. */
  datatype ActiveState = ActiveState(active: bool, timestamp: DateTime)

  /** Everything the status holds, as one value. */
  datatype StatusView = StatusView(state: ActiveState, actions: map<string, ActionStatus>)

  /** The active state after a request to be `active` at `now`. */
  function Activate(s: ActiveState, active: bool, now: DateTime): (r: ActiveState)
    ensures r.active == active
    ensures r == s <==> s.active == active
  {
    if s.active == active then s else ActiveState(active, now)
  }

  /** Acking one action: only an ACKABLE action moves, and it moves to ACKED. */
  function AckAction(a: ActionStatus, now: DateTime): (r: ActionStatus)
    ensures r.ackStatus.state == Acked <==> a.ackStatus.state != AwaitsSuccessfulExecution
    ensures r != a <==> a.ackStatus.state == Ackable
  {
    match a.ackStatus.state
    case Ackable => ActionStatus(AckStatus(Acked, now))
    case _ => a
  }

  /** The action ids an ack names: the given ones, or every action when none is given. */
  function AckTargets(actions: map<string, ActionStatus>, ids: seq<string>): set<string>
  {
    if |ids| == 0 then actions.Keys else set id | id in ids
  }

  /** The action statuses after acking the `targets` at `now`; ids without a status are ignored. */
  function AckActions(actions: map<string, ActionStatus>, targets: set<string>, now: DateTime): map<string, ActionStatus>
  {
    map k | k in actions :: if k in targets then AckAction(actions[k], now) else actions[k]
  }

  /** Some named action is ACKABLE. */
  predicate SomeAckable(actions: map<string, ActionStatus>, targets: set<string>)
  {
    exists k :: k in targets && k in actions && actions[k].ackStatus.state == Ackable
  }

  /** An ack changes the statuses exactly when it names an ACKABLE action. */
  lemma AckActionsChanged(actions: map<string, ActionStatus>, targets: set<string>, now: DateTime)
    ensures AckActions(actions, targets, now) != actions <==> SomeAckable(actions, targets)
  {
    var r := AckActions(actions, targets, now);
    if SomeAckable(actions, targets) {
      var k :| k in targets && k in actions && actions[k].ackStatus.state == Ackable;
      assert r[k] != actions[k];
    } else {
      forall k | k in actions ensures r[k] == actions[k] {
      }
      assert r == actions;
    }
  }

  /** After an ack, an action is ACKED iff it was ACKED, or it was named and ACKABLE. */
  lemma AckedAfterAck(actions: map<string, ActionStatus>, targets: set<string>, now: DateTime, id: string)
    requires id in actions
    ensures id in AckActions(actions, targets, now)
    ensures AckActions(actions, targets, now)[id].ackStatus.state == Acked
        <==> actions[id].ackStatus.state == Acked || (id in targets && actions[id].ackStatus.state == Ackable)
  {
  }

  /** Acking twice with the same targets is the same as acking once. */
  lemma AckActionsIdempotent(actions: map<string, ActionStatus>, targets: set<string>, t1: DateTime, t2: DateTime)
    ensures AckActions(AckActions(actions, targets, t1), targets, t2) == AckActions(actions, targets, t1)
  {
    var once := AckActions(actions, targets, t1);
    var twice := AckActions(once, targets, t2);
    forall k | k in once ensures twice[k] == once[k] {
    }
    assert twice == once;
  }

  /** Ids that name no action play no part in an ack. */
  lemma AckIgnoresUnknownIds(actions: map<string, ActionStatus>, targets: set<string>, now: DateTime)
    ensures AckActions(actions, targets, now) == AckActions(actions, targets * actions.Keys, now)
  {
    var a := AckActions(actions, targets, now);
    var b := AckActions(actions, targets * actions.Keys, now);
    forall k | k in actions ensures a[k] == b[k] {
    }
    assert a == b;
  }

  /** An action still waiting for its first successful run cannot be acked. */
  lemma AckNeedsPriorSuccess(actions: map<string, ActionStatus>, targets: set<string>, now: DateTime, id: string)
    requires id in actions && actions[id].ackStatus.state == AwaitsSuccessfulExecution
    ensures AckActions(actions, targets, now)[id] == actions[id]
  {
  }

  /** `WatchStatus`: the mutable runtime status one watch owns. */
  class WatchStatus {
    var state: ActiveState
    var actions: map<string, ActionStatus>

    constructor (state: ActiveState, actions: map<string, ActionStatus>)
      ensures this.state == state && this.actions == actions
    {
      this.state := state;
      this.actions := actions;
    }

    function View(): StatusView
      reads this
    {
      StatusView(state, actions)
    }

    /** `setActive`: switches the active flag; true iff that changed the status. */
    method SetActive(active: bool, now: DateTime) returns (changed: bool)
      modifies this
      ensures state == Activate(old(state), active, now)
      ensures actions == old(actions)
      ensures changed <==> View() != old(View())
      ensures changed <==> old(state.active) != active
    {
      changed := state.active != active;
      if changed {
        state := ActiveState(active, now);
      }
    }

    /** `onAck`: acks the named actions (all when none is named); true iff that changed the status. */
    method OnAck(now: DateTime, ids: seq<string>) returns (changed: bool)
      modifies this
      ensures state == old(state)
      ensures actions == AckActions(old(actions), AckTargets(old(actions), ids), now)
      ensures changed <==> View() != old(View())
      ensures changed <==> SomeAckable(old(actions), AckTargets(old(actions), ids))
    {
      ghost var before := actions;
      var remaining := AckTargets(actions, ids);
      ghost var targets := remaining;
      ghost var done: set<string> := {};
      changed := false;
      while remaining != {}
        invariant remaining + done == targets && remaining !! done
        invariant state == old(state)
        invariant actions == AckActions(before, done, now)
        invariant changed <==> SomeAckable(before, done)
        decreases remaining
      {
        var id :| id in remaining;
        if id in actions {
          var acked := AckAction(actions[id], now);
          if acked != actions[id] {
            actions := actions[id := acked];
            changed := true;
          }
        }
        remaining := remaining - {id};
        done := done + {id};
        assert actions == AckActions(before, done, now) by {
          forall k | k in before ensures actions[k] == AckActions(before, done, now)[k] {
          }
        }
      }
      AckActionsChanged(before, targets, now);
    }
  }
}
