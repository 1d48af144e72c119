/**
 The registry of open connections as a state machine: any number of threads register connections, end them, close a
 device or close all, one critical section at a time (crates/wkp-hub/src/connection_registry.rs).
 */
module Registry {
  type Serial = string

  type Id = nat

  /**
   `serialOf` and `live` say of every connection whose it is and whether its guard still exists; the last three fields
   count what has happened.
   */
  datatype State = State(
    nextId: Id,
    connections: map<Serial, set<Id>>,
    inserting: set<Id>,     // given an id, not in the map yet
    closing: set<Id>,       // taken out by `close_device`, not cancelled yet
    cancelled: set<Id>,
    serialOf: map<Id, Serial>,
    live: set<Id>,
    registered: nat,
    dropped: nat,
    closed: nat)

  datatype Step =
    | Allocate(serial: Serial)     // `register` takes the next id ...
    | Insert(id: Id)               // ... and enters it under the lock
    | DropGuard(id: Id)            // the connection ends
    | CloseDevice(serial: Serial)  // `close_device` takes a device's connections out ...
    | Cancel(id: Id)               // ... and cancels them one by one, after the lock
    | CloseAll                     // takes out and cancels under one lock

  const EMPTY := State(0, map[], {}, {}, {}, map[], {}, 0, 0, 0)

  predicate IsRegistered(s: State, id: Id) {
    id in s.serialOf && s.serialOf[id] in s.connections && id in s.connections[s.serialOf[id]]
  }

  function All(connections: map<Serial, set<Id>>): set<Id> {
    set serial, id | serial in connections && id in connections[serial] :: id
  }

  predicate Enabled(s: State, step: Step) {
    match step
    case Allocate(_) => true
    case Insert(id) => id in s.inserting && id in s.serialOf
    case DropGuard(id) => id in s.live && id in s.serialOf
    case CloseDevice(_) => true
    case Cancel(id) => id in s.closing
    case CloseAll => true
  }

  /** `deregister`: the inner map goes with its last connection. */
  function Deregistered(connections: map<Serial, set<Id>>, serial: Serial, id: Id): map<Serial, set<Id>> {
    if serial !in connections then connections
    else if connections[serial] - {id} == {} then connections - {serial}
    else connections[serial := connections[serial] - {id}]
  }

  function Apply(s: State, step: Step): State
    requires Enabled(s, step)
  {
    match step
    case Allocate(serial) =>
      s.(nextId := s.nextId + 1, inserting := s.inserting + {s.nextId}, serialOf := s.serialOf[s.nextId := serial])
    case Insert(id) =>
      s.(connections := Inserted(s.connections, s.serialOf[id], id), inserting := s.inserting - {id},
         live := s.live + {id}, registered := s.registered + 1)
    case DropGuard(id) =>
      s.(connections := Deregistered(s.connections, s.serialOf[id], id), live := s.live - {id},
         dropped := s.dropped + if IsRegistered(s, id) then 1 else 0)
    case CloseDevice(serial) =>
      if serial !in s.connections then s
      else s.(connections := s.connections - {serial}, closing := s.closing + s.connections[serial],
              closed := s.closed + |s.connections[serial]|)
    case Cancel(id) => s.(closing := s.closing - {id}, cancelled := s.cancelled + {id})
    case CloseAll =>
      s.(connections := map[], cancelled := s.cancelled + All(s.connections), closed := s.closed + |All(s.connections)|)
  }

  // The invariant

  /** Entries are filed under their own serial, and no device has an empty set of them. */
  predicate Filed(s: State) {
    forall serial :: serial in s.connections ==>
      && s.connections[serial] != {}
      && forall id :: id in s.connections[serial] ==> id in s.serialOf && s.serialOf[id] == serial
  }

  /** Where a connection is. */
  predicate ExactlyOnePlace(s: State, id: Id) {
    var registered := id in All(s.connections);
    && (registered ==> id !in s.closing && id !in s.cancelled && id in s.live)
    && (id in s.closing ==> id !in s.cancelled)
    && (id in s.inserting ==> !registered && id !in s.closing && id !in s.cancelled && id !in s.live)
    && (id in s.live ==> registered || id in s.closing || id in s.cancelled)
    && (registered || id in s.closing || id in s.cancelled || id in s.inserting || id in s.live ==> id in s.serialOf)
  }

  ghost predicate Inv(s: State) {
    && Filed(s)
    && (forall id: Id :: id in s.serialOf <==> id < s.nextId)
    && (forall id: Id :: ExactlyOnePlace(s, id))
    && s.registered == s.dropped + s.closed + |All(s.connections)|
  }

  lemma EmptyInv()
    ensures Inv(EMPTY)
  {
    assert All(map[]) == {};
  }

  // The entries in the map

  function Inserted(connections: map<Serial, set<Id>>, serial: Serial, id: Id): map<Serial, set<Id>> {
    connections[serial := (if serial in connections then connections[serial] else {}) + {id}]
  }

  function Under(connections: map<Serial, set<Id>>, serial: Serial): set<Id> {
    if serial in connections then connections[serial] else {}
  }

  lemma AllInserted(connections: map<Serial, set<Id>>, serial: Serial, id: Id)
    ensures All(Inserted(connections, serial, id)) == All(connections) + {id}
  {
    var after := Inserted(connections, serial, id);
    forall other | other in All(connections) ensures other in All(after) {
      var own :| own in connections && other in connections[own];
      assert own in after && other in after[own];
    }
    assert serial in after && id in after[serial];
  }

  /** No entry is filed under two devices. */
  predicate Apart(connections: map<Serial, set<Id>>) {
    forall s, t :: s in connections && t in connections && s != t ==> connections[s] !! connections[t]
  }

  lemma FiledApart(s: State)
    requires Filed(s)
    ensures Apart(s.connections)
  {
    forall a, b | a in s.connections && b in s.connections && a != b ensures s.connections[a] !! s.connections[b] {
      forall id | id in s.connections[a] ensures id !in s.connections[b] {}
    }
  }

  lemma AllDeregistered(connections: map<Serial, set<Id>>, serial: Serial, id: Id)
    requires Apart(connections) && (id in All(connections) ==> id in Under(connections, serial))
    ensures All(Deregistered(connections, serial, id)) == All(connections) - {id}
  {
    var after := Deregistered(connections, serial, id);
    forall other | other in All(connections) - {id} ensures other in All(after) {
      var own :| own in connections && other in connections[own];
      assert own in after && other in after[own];
    }
    forall other | other in All(after) ensures other in All(connections) - {id} {
      var own :| own in after && other in after[own];
      assert own in connections && other in connections[own];
      assert other == id ==> own == serial;
    }
  }

  lemma AllWithout(connections: map<Serial, set<Id>>, serial: Serial)
    requires Apart(connections)
    ensures All(connections - {serial}) == All(connections) - Under(connections, serial)
    ensures Under(connections, serial) <= All(connections)
  {
    var after := connections - {serial};
    forall other | other in All(connections) - Under(connections, serial) ensures other in All(after) {
      var own :| own in connections && other in connections[own];
      assert own in after && other in after[own];
    }
  }

  // Steps keep the invariant

  lemma FiledStep(s: State, step: Step)
    requires Inv(s) && Enabled(s, step)
    ensures Filed(Apply(s, step))
    ensures forall id: Id :: id in Apply(s, step).serialOf <==> id < Apply(s, step).nextId
  {
    hide ExactlyOnePlace, All;
  }

  lemma RegisteredIsFiled(s: State, id: Id)
    requires Filed(s)
    ensures IsRegistered(s, id) <==> id in All(s.connections)
  {
  }

  /** The entries after each step. */
  function Entries(s: State, step: Step): set<Id> {
    match step
    case Insert(id) => All(s.connections) + {id}
    case DropGuard(id) => All(s.connections) - {id}
    case CloseDevice(serial) => All(s.connections) - Under(s.connections, serial)
    case CloseAll => {}
    case _ => All(s.connections)
  }

  lemma EntriesStep(s: State, step: Step)
    requires Inv(s) && Enabled(s, step)
    ensures All(Apply(s, step).connections) == Entries(s, step)
  {
    FiledApart(s);
    match step
    case Insert(id) =>
      AllInserted(s.connections, s.serialOf[id], id);
      assert Apply(s, step).connections == Inserted(s.connections, s.serialOf[id], id);
    case DropGuard(id) =>
      RegisteredIsFiled(s, id);
      AllDeregistered(s.connections, s.serialOf[id], id);
    case CloseDevice(serial) =>
      if serial in s.connections { AllWithout(s.connections, serial); }
    case CloseAll => assert All(map[]) == {};
    case _ =>
  }

  /** Ending a connection takes out that one entry and nothing else, whoever's it is and however old its guard. */
  lemma DropTouchesOnlyItsOwn(s: State, id: Id, other: Id)
    requires Inv(s) && Enabled(s, DropGuard(id))
    ensures !IsRegistered(Apply(s, DropGuard(id)), id)
    ensures other != id ==> (IsRegistered(Apply(s, DropGuard(id)), other) <==> IsRegistered(s, other))
  {
    hide ExactlyOnePlace;
    var after := Apply(s, DropGuard(id));
    FiledStep(s, DropGuard(id));
    EntriesStep(s, DropGuard(id));
    RegisteredIsFiled(s, other);
    RegisteredIsFiled(after, other);
    RegisteredIsFiled(after, id);
  }

  lemma PlaceStep(s: State, step: Step, id: Id)
    requires Inv(s) && Enabled(s, step)
    ensures ExactlyOnePlace(Apply(s, step), id)
  {
    hide Apply, ExactlyOnePlace, All, IsRegistered;
    EntriesStep(s, step);
    assert ExactlyOnePlace(s, id) && (id in s.serialOf <==> id < s.nextId);
    if step.CloseDevice? { FiledApart(s); AllWithout(s.connections, step.serial); }
    PlaceCases(s, step, id);
  }

  lemma PlaceCases(s: State, step: Step, id: Id)
    requires Enabled(s, step) && ExactlyOnePlace(s, id) && (id in s.serialOf <==> id < s.nextId)
    requires All(Apply(s, step).connections) == Entries(s, step)
    requires step.CloseDevice? ==> Under(s.connections, step.serial) <= All(s.connections)
    ensures ExactlyOnePlace(Apply(s, step), id)
  {
    hide All, Deregistered, Inserted, IsRegistered;
  }

  lemma Cardinalities(all: set<Id>, part: set<Id>)
    requires part <= all
    ensures |all - part| == |all| - |part|
  {
    assert all == (all - part) + part;
  }

  lemma CountStep(s: State, step: Step)
    requires Inv(s) && Enabled(s, step)
    ensures var after := Apply(s, step); after.registered == after.dropped + after.closed + |All(after.connections)|
  {
    hide Apply, All, IsRegistered, Deregistered, Inserted;
    EntriesStep(s, step);
    if step.Insert? {
      assert ExactlyOnePlace(s, step.id);
    } else if step.DropGuard? {
      RegisteredIsFiled(s, step.id);
      if step.id in All(s.connections) {
        Cardinalities(All(s.connections), {step.id});
      } else {
        assert All(s.connections) - {step.id} == All(s.connections);
      }
    } else if step.CloseDevice? {
      FiledApart(s);
      AllWithout(s.connections, step.serial);
      Cardinalities(All(s.connections), Under(s.connections, step.serial));
    }
    CountCases(s, step, All(s.connections), All(Apply(s, step).connections),
               if step.CloseDevice? then Under(s.connections, step.serial) else {});
  }

  lemma CountCases(s: State, step: Step, before: set<Id>, now: set<Id>, out: set<Id>)
    requires Enabled(s, step) && s.registered == s.dropped + s.closed + |before|
    requires before == All(s.connections) && now == Entries(s, step)
    requires step.Insert? ==> step.id !in before
    requires step.DropGuard? ==> |before - {step.id}| == |before| - (if IsRegistered(s, step.id) then 1 else 0)
    requires step.CloseDevice? ==> out == Under(s.connections, step.serial) && |before - out| == |before| - |out|
    ensures Apply(s, step).registered == Apply(s, step).dropped + Apply(s, step).closed + |now|
  {
    hide All, Deregistered, Inserted, IsRegistered;
  }

  /** Every step of every thread keeps the invariant. */
  lemma StepInv(s: State, step: Step)
    requires Inv(s) && Enabled(s, step)
    ensures Inv(Apply(s, step))
  {
    FiledStep(s, step);
    CountStep(s, step);
    hide Apply, Filed, All, ExactlyOnePlace;
    forall id: Id ensures ExactlyOnePlace(Apply(s, step), id) { PlaceStep(s, step, id); }
  }

  // Runs

  ghost predicate IsRun(run: seq<State>, steps: seq<Step>) {
    && |run| == |steps| + 1 && run[0] == EMPTY
    && forall i :: 0 <= i < |steps| ==> Enabled(run[i], steps[i]) && run[i + 1] == Apply(run[i], steps[i])
  }

  lemma {:induction false} RunInv(run: seq<State>, steps: seq<Step>, i: nat)
    requires IsRun(run, steps) && i < |run|
    ensures Inv(run[i])
    decreases i
  {
    hide Inv, Apply;
    if i == 0 { EmptyInv(); } else { RunInv(run, steps, i - 1); StepInv(run[i - 1], steps[i - 1]); }
  }

  /**
   At any time of any run: a live connection is registered, about to be cancelled, or cancelled, and only one of these;
   what is registered is filed under its own serial; and no device has an empty entry.
   */
  lemma LiveConnections(run: seq<State>, steps: seq<Step>, i: nat, id: Id)
    requires IsRun(run, steps) && i < |run|
    ensures var s := run[i];
      && (id in s.live ==>
            || (IsRegistered(s, id) && id !in s.closing && id !in s.cancelled)
            || (!IsRegistered(s, id) && id in s.closing && id !in s.cancelled)
            || (!IsRegistered(s, id) && id !in s.closing && id in s.cancelled))
      && (IsRegistered(s, id) ==> id in s.live)
      && (forall serial :: serial in s.connections ==> s.connections[serial] != {})
  {
    hide All;
    RunInv(run, steps, i);
    RegisteredIsFiled(run[i], id);
    assert ExactlyOnePlace(run[i], id);
  }

  /**
   Over every run: registrations are removals by ended connections, plus what the closes returned, plus what is left.
   */
  lemma NothingGoesMissing(run: seq<State>, steps: seq<Step>, i: nat)
    requires IsRun(run, steps) && i < |run|
    ensures run[i].registered == run[i].dropped + run[i].closed + |All(run[i].connections)|
  {
    hide Apply, Enabled;
    RunInv(run, steps, i);
  }

  /** An id belongs to one connection for good, and the next one has not been given out. */
  lemma {:induction false} IdsAreNeverReused(run: seq<State>, steps: seq<Step>, i: nat, j: nat, id: Id)
    requires IsRun(run, steps) && i <= j < |run|
    ensures id in run[i].serialOf ==>
      id in run[j].serialOf && run[j].serialOf[id] == run[i].serialOf[id] && id != run[j].nextId
    decreases j - i
  {
    hide ExactlyOnePlace, Filed, All;
    RunInv(run, steps, j);
    if i < j {
      IdsAreNeverReused(run, steps, i, j - 1, id);
      RunInv(run, steps, j - 1);
      assert run[j] == Apply(run[j - 1], steps[j - 1]);
    }
  }

  /** A connection that has left the registry. */
  predicate Left(s: State, id: Id) {
    id in s.serialOf && id !in s.inserting && id !in All(s.connections)
  }

  lemma LeftStep(s: State, step: Step, id: Id)
    requires Inv(s) && Enabled(s, step) && Left(s, id)
    ensures Left(Apply(s, step), id)
    ensures id in s.closing || id in s.cancelled ==> id in Apply(s, step).closing || id in Apply(s, step).cancelled
    ensures id in s.cancelled ==> id in Apply(s, step).cancelled
  {
    EntriesStep(s, step);
    hide All, Deregistered, Inserted, IsRegistered;
    assert ExactlyOnePlace(s, id) && (id in s.serialOf <==> id < s.nextId);
  }

  /** It never comes back, and once taken out by a close it is cancelled or about to be ever after. */
  lemma {:induction false} LeftForGood(run: seq<State>, steps: seq<Step>, i: nat, j: nat, id: Id)
    requires IsRun(run, steps) && i <= j < |run| && Left(run[i], id)
    ensures Left(run[j], id)
    ensures id in run[i].closing || id in run[i].cancelled ==> id in run[j].closing || id in run[j].cancelled
    ensures id in run[i].cancelled ==> id in run[j].cancelled
    decreases j - i
  {
    hide Left, Inv, Apply, Enabled;
    if i < j {
      LeftForGood(run, steps, i, j - 1, id);
      RunInv(run, steps, j - 1);
      LeftStep(run[j - 1], steps[j - 1], id);
    }
  }

  lemma {:induction false} RegisteredUntilLeft(run: seq<State>, steps: seq<Step>, i: nat, j: nat, id: Id)
    requires IsRun(run, steps) && i <= j < |run| && id in All(run[i].connections)
    ensures id in run[i].serialOf && id in run[j].serialOf && run[j].serialOf[id] == run[i].serialOf[id]
    ensures id in All(run[j].connections) || Left(run[j], id)
    decreases j - i
  {
    hide Inv, Apply, Enabled, Left, All;
    RunInv(run, steps, i);
    assert id in run[i].serialOf by { assert ExactlyOnePlace(run[i], id) by { PlaceOf(run[i], id); } }
    IdsAreNeverReused(run, steps, i, j, id);
    if i < j {
      RegisteredUntilLeft(run, steps, i, j - 1, id);
      RunInv(run, steps, j - 1);
      if Left(run[j - 1], id) {
        LeftStep(run[j - 1], steps[j - 1], id);
      } else {
        RegisteredStep(run[j - 1], steps[j - 1], id);
      }
    }
  }

  lemma PlaceOf(s: State, id: Id)
    requires Inv(s)
    ensures ExactlyOnePlace(s, id)
  {
  }

  lemma RegisteredStep(s: State, step: Step, id: Id)
    requires Inv(s) && Enabled(s, step) && id in All(s.connections)
    ensures id in All(Apply(s, step).connections) || Left(Apply(s, step), id)
  {
    EntriesStep(s, step);
    hide All, Deregistered, Inserted, IsRegistered;
    assert ExactlyOnePlace(s, id) && (id in s.serialOf <==> id < s.nextId);
  }

  /**
   What a close, or a sweep that closes, guarantees however it is interleaved with everything else: a connection that
   was registered under the serial at some time before `close_device` took that device out is afterwards never
   registered again; and unless it had ended by itself, it is cancelled or the thread that took it out is about to.
   */
  lemma ClosedForGood(run: seq<State>, steps: seq<Step>, i: nat, k: nat, j: nat, id: Id)
    requires IsRun(run, steps) && i <= k < j < |run|
    requires id in All(run[i].connections) && id in run[i].serialOf && steps[k] == CloseDevice(run[i].serialOf[id])
    ensures id !in All(run[j].connections)
    ensures id in run[j].live && id !in run[j].closing ==> id in run[j].cancelled
  {
    hide Inv, Apply, Enabled, All, Left;
    RegisteredUntilLeft(run, steps, i, k, id);
    RunInv(run, steps, k);
    RunInv(run, steps, j);
    if id in All(run[k].connections) {
      TakenOut(run[k], id);
    } else {
      LeftStep(run[k], steps[k], id);
    }
    LeftForGood(run, steps, k + 1, j, id);
    assert id !in All(run[j].connections) by { NotRegistered(run[j], id); }
    PlaceOf(run[j], id);
  }

  lemma NotRegistered(s: State, id: Id)
    requires Left(s, id)
    ensures id !in All(s.connections)
  {
  }

  lemma TakenOut(s: State, id: Id)
    requires Inv(s) && id in All(s.connections) && id in s.serialOf
    ensures Left(Apply(s, CloseDevice(s.serialOf[id])), id)
  {
    var step := CloseDevice(s.serialOf[id]);
    EntriesStep(s, step);
    RegisteredIsFiled(s, id);
    PlaceOf(s, id);
  }

  /** Whatever was begun can go on: a number is entered, a guard dropped, a token cancelled. */
  lemma NothingIsStuck(s: State, id: Id)
    requires Inv(s)
    ensures id in s.inserting ==> Enabled(s, Insert(id))
    ensures id in s.live ==> Enabled(s, DropGuard(id))
    ensures id in s.closing ==> Enabled(s, Cancel(id))
  {
    assert ExactlyOnePlace(s, id);
  }

  /**
   Nobody else is touched: a step cancels or takes out only connections of the serial it closes, unless it closes all.
   */
  lemma OthersUntouched(s: State, step: Step, id: Id)
    requires Inv(s) && Enabled(s, step) && id in All(s.connections) && id in s.serialOf
    requires step != CloseAll && step != CloseDevice(s.serialOf[id]) && step != DropGuard(id)
    ensures id in All(Apply(s, step).connections)
    ensures id !in Apply(s, step).closing && id !in Apply(s, step).cancelled
  {
    EntriesStep(s, step);
    RegisteredIsFiled(s, id);
    PlaceOf(s, id);
    StepInv(s, step);
    PlaceOf(Apply(s, step), id);
  }

  // The sweep between other threads

  /** Every device that was open at time `i` and is revoked has been closed by time `j`. */
  ghost predicate Sweeps(run: seq<State>, steps: seq<Step>, i: nat, j: nat, revoked: Serial -> bool)
    requires IsRun(run, steps) && i <= j < |run|
  {
    forall serial :: serial in run[i].connections && revoked(serial) ==>
      exists k :: i <= k < j && steps[k] == CloseDevice(serial)
  }

  /**
   Whatever other threads do between the snapshot of a sweep and its closes: every connection of a revoked device that
   was open at the snapshot is out for good, and unless it ended by itself it is cancelled or about to be.
   */
  lemma SweepClosesRevoked(run: seq<State>, steps: seq<Step>, i: nat, j: nat, revoked: Serial -> bool, id: Id)
    requires IsRun(run, steps) && i <= j < |run| && Sweeps(run, steps, i, j, revoked)
    requires id in All(run[i].connections) && id in run[i].serialOf && revoked(run[i].serialOf[id])
    ensures id !in All(run[j].connections)
    ensures id in run[j].live && id !in run[j].closing ==> id in run[j].cancelled
  {
    hide Inv, Apply, Enabled, Left, ExactlyOnePlace;
    RunInv(run, steps, i);
    InvIsFiled(run[i]);
    RegisteredIsFiled(run[i], id);
    var serial := run[i].serialOf[id];
    var k :| i <= k < j && steps[k] == CloseDevice(serial);
    ClosedForGood(run, steps, i, k, j, id);
  }

  lemma InvIsFiled(s: State)
    requires Inv(s)
    ensures Filed(s)
  {
  }

  /** Over any stretch without a close of its device or of all, a connection is only ever ended by itself. */
  lemma {:induction false} SparedByOthers(run: seq<State>, steps: seq<Step>, i: nat, j: nat, id: Id)
    requires IsRun(run, steps) && i <= j < |run|
    requires id in All(run[i].connections) && id in run[i].serialOf
    requires forall k :: i <= k < j ==> steps[k] != CloseAll && steps[k] != CloseDevice(run[i].serialOf[id])
    ensures id !in run[j].closing && id !in run[j].cancelled
    ensures id in run[j].live ==> id in All(run[j].connections)
    decreases j - i
  {
    hide Inv, Apply, Enabled, Left, All;
    RunInv(run, steps, j);
    PlaceOf(run[j], id);
    if i < j {
      SparedByOthers(run, steps, i, j - 1, id);
      RunInv(run, steps, j - 1);
      RegisteredUntilLeft(run, steps, i, j - 1, id);
      SparedStep(run[j - 1], steps[j - 1], id);
    }
  }

  lemma SparedStep(s: State, step: Step, id: Id)
    requires Inv(s) && Enabled(s, step) && id in s.serialOf
    requires step != CloseAll && step != CloseDevice(s.serialOf[id])
    requires id !in s.closing && id !in s.cancelled
    ensures id !in Apply(s, step).closing && id !in Apply(s, step).cancelled
  {
    InvIsFiled(s);
    hide Inv, All, Inserted, Deregistered, IsRegistered;
    if step.CloseDevice? && step.serial in s.connections {
      assert id !in s.connections[step.serial];
    }
  }
}
