/**
 What each method of the registry does to its map is what the steps of the state machine do to theirs, which has ids in
 place of tokens; so the theorems about runs hold of the program.
 */
module RegistryRefinement {
  import opened RegistryProgram
  import M = Registry

  function Ids(connections: map<Serial, Entries>): map<Serial, set<Id>> {
    map serial | serial in connections :: connections[serial].Keys
  }

  predicate Represents(connections: map<Serial, Entries>, nextId: Id, s: M.State) {
    s.connections == Ids(connections) && s.nextId == nextId
  }

  /** `Register` is the step that takes an id and the step that enters it. */
  lemma RegisterIsSteps(connections: map<Serial, Entries>, nextId: Id, serial: Serial, token: Token, s: M.State)
    requires Represents(connections, nextId, s) && M.Inv(s)
    ensures var numbered := M.Apply(s, M.Allocate(serial));
      var after := connections[serial := EntriesOf(connections, serial)[nextId := token]];
      && M.Enabled(numbered, M.Insert(nextId))
      && Represents(after, nextId + 1, M.Apply(numbered, M.Insert(nextId)))
  {
    hide M.Filed, M.ExactlyOnePlace, M.All;
    var after := connections[serial := EntriesOf(connections, serial)[nextId := token]];
    assert after[serial].Keys == EntriesOf(connections, serial).Keys + {nextId};
    assert serial !in connections ==> EntriesOf(connections, serial).Keys == {};
    assert Ids(after).Keys == M.Inserted(Ids(connections), serial, nextId).Keys;
    assert Ids(after) == M.Inserted(Ids(connections), serial, nextId);
  }

  /** Dropping a guard is the step that ends its connection. */
  lemma DropIsStep(connections: map<Serial, Entries>, nextId: Id, serial: Serial, id: Id, s: M.State)
    requires Represents(connections, nextId, s)
    requires M.Enabled(s, M.DropGuard(id)) && s.serialOf[id] == serial
    ensures Represents(ConnectionRegistry.WithoutEntry(connections, serial, id), nextId, M.Apply(s, M.DropGuard(id)))
  {
    if serial in connections {
      var entries := connections[serial] - {id};
      assert entries.Keys == connections[serial].Keys - {id};
      assert entries == map[] <==> entries.Keys == {};
    }
    assert Ids(ConnectionRegistry.WithoutEntry(connections, serial, id))
      == M.Deregistered(Ids(connections), serial, id);
  }

  /** Cancelling connections one by one, in any order. */
  function CancelInOrder(s: M.State, ids: seq<Id>): M.State
    requires forall id :: id in ids ==> id in s.closing
    requires forall i, j :: 0 <= i < j < |ids| ==> ids[i] != ids[j]
    decreases |ids|
  {
    if ids == [] then s else CancelInOrder(M.Apply(s, M.Cancel(ids[0])), ids[1..])
  }

  lemma {:induction false} OrderDoesNotMatter(s: M.State, ids: seq<Id>)
    requires forall id :: id in ids ==> id in s.closing
    requires forall i, j :: 0 <= i < j < |ids| ==> ids[i] != ids[j]
    ensures var all := set id | id in ids;
      CancelInOrder(s, ids) == s.(closing := s.closing - all, cancelled := s.cancelled + all)
    decreases |ids|
  {
    var all := set id | id in ids;
    if ids == [] {
      assert s.closing - all == s.closing && s.cancelled + all == s.cancelled;
    } else {
      var next, rest := M.Apply(s, M.Cancel(ids[0])), set id | id in ids[1..];
      OrderDoesNotMatter(next, ids[1..]);
      assert all == {ids[0]} + rest;
      assert s.closing - {ids[0]} - rest == s.closing - all && s.cancelled + {ids[0]} + rest == s.cancelled + all;
    }
  }

  /**
   `CloseDevice` is the step that takes the device's connections out, and one that cancels each of them, in whatever
   order; it returns how many there were.
   */
  lemma CloseDeviceIsSteps(connections: map<Serial, Entries>, nextId: Id, serial: Serial, order: seq<Id>, s: M.State)
    requires Represents(connections, nextId, s) && M.Inv(s)
    requires forall id :: id in order <==> id in EntriesOf(connections, serial)
    requires forall i, j :: 0 <= i < j < |order| ==> order[i] != order[j]
    ensures var taken := M.Apply(s, M.CloseDevice(serial));
      && (forall id :: id in order ==> id in taken.closing)
      && taken.closed == s.closed + |EntriesOf(connections, serial)|
      && var after := CancelInOrder(taken, order);
         && Represents(connections - {serial}, nextId, after)
         && after.closing == s.closing
         && after.cancelled == s.cancelled + EntriesOf(connections, serial).Keys
  {
    var taken, all := M.Apply(s, M.CloseDevice(serial)), set id | id in order;
    TakenOut(connections, nextId, serial, s);
    hide M.Apply, M.Inv, M.Filed, M.ExactlyOnePlace, M.All, EntriesOf, Ids;
    assert all == EntriesOf(connections, serial).Keys;
    OrderDoesNotMatter(taken, order);
    assert s.closing + all - all == s.closing;
  }

  lemma TakenOut(connections: map<Serial, Entries>, nextId: Id, serial: Serial, s: M.State)
    requires Represents(connections, nextId, s) && M.Inv(s)
    ensures var taken, all := M.Apply(s, M.CloseDevice(serial)), EntriesOf(connections, serial).Keys;
      && taken.connections == Ids(connections - {serial}) && taken.nextId == nextId
      && taken.closing == s.closing + all && s.closing !! all && taken.cancelled == s.cancelled
      && taken.closed == s.closed + |EntriesOf(connections, serial)|
  {
    hide M.Inv, M.Apply;
    IdsWithout(connections, serial);
    CloseApplied(s, serial);
    forall id | id in EntriesOf(connections, serial) ensures id !in s.closing {
      Registered(s, serial, id);
    }
    assert |EntriesOf(connections, serial)| == |EntriesOf(connections, serial).Keys|;
  }

  lemma IdsWithout(connections: map<Serial, Entries>, serial: Serial)
    ensures Ids(connections - {serial}) == Ids(connections) - {serial}
    ensures M.Under(Ids(connections), serial) == EntriesOf(connections, serial).Keys
  {
  }

  lemma CloseApplied(s: M.State, serial: Serial)
    ensures var taken, all := M.Apply(s, M.CloseDevice(serial)), M.Under(s.connections, serial);
      && taken.connections == s.connections - {serial} && taken.nextId == s.nextId
      && taken.closing == s.closing + all && taken.cancelled == s.cancelled && taken.closed == s.closed + |all|
  {
  }

  lemma Registered(s: M.State, serial: Serial, id: Id)
    requires M.Inv(s) && serial in s.connections && id in s.connections[serial]
    ensures id !in s.closing && id !in s.cancelled
  {
    M.PlaceOf(s, id);
    M.RegisteredIsFiled(s, id);
  }

  lemma {:induction false} CountIsAll(connections: map<Serial, Entries>, serials: set<Serial>)
    requires M.Apart(Ids(connections)) && serials <= connections.Keys
    ensures ConnectionRegistry.Count(connections, serials) == |M.All(Ids(connections - (connections.Keys - serials)))|
    decreases |serials|
  {
    var kept := connections - (connections.Keys - serials);
    if serials == {} {
      assert kept == map[] && M.All(Ids(kept)) == {};
      ConnectionRegistry.NoPairs(connections);
    } else {
      var serial :| serial in serials;
      var fewer := serials - {serial};
      var rest := connections - (connections.Keys - fewer);
      CountIsAll(connections, fewer);
      ConnectionRegistry.CountOneMore(connections, fewer, serial);
      assert fewer + {serial} == serials;
      assert rest == kept - {serial} && connections[serial] == kept[serial];
      assert Ids(rest) == Ids(kept) - {serial};
      ApartFewer(Ids(connections), Ids(kept));
      AllSplits(Ids(kept), Ids(rest), serial);
    }
  }

  lemma ApartFewer(all: map<Serial, set<Id>>, kept: map<Serial, set<Id>>)
    requires M.Apart(all) && forall serial :: serial in kept ==> serial in all && kept[serial] == all[serial]
    ensures M.Apart(kept)
  {
  }

  lemma AllSplits(kept: map<Serial, set<Id>>, rest: map<Serial, set<Id>>, serial: Serial)
    requires M.Apart(kept) && serial in kept && rest == kept - {serial}
    ensures |M.All(kept)| == |M.All(rest)| + |kept[serial]|
  {
    M.AllWithout(kept, serial);
    M.Cardinalities(M.All(kept), kept[serial]);
  }

  /** `CloseAll` is one step, and returns how many connections there were. */
  lemma CloseAllIsStep(connections: map<Serial, Entries>, nextId: Id, s: M.State)
    requires Represents(connections, nextId, s) && M.Inv(s)
    ensures var after := M.Apply(s, M.CloseAll);
      && Represents(map[], nextId, after)
      && after.closed == s.closed + ConnectionRegistry.Count(connections, connections.Keys)
      && after.cancelled == s.cancelled + M.All(Ids(connections))
  {
    hide M.ExactlyOnePlace, M.All;
    M.InvIsFiled(s);
    M.FiledApart(s);
    CountIsAll(connections, connections.Keys);
    assert connections.Keys - connections.Keys == {} && connections - {} == connections;
    assert Ids(map[]) == map[];
  }
}
