/**
 The registry as it runs: tokens shared between the registry and the streams they cancel, guards that take their own
 entry out, and the listener that closes connections (crates/wkp-hub/src/connection_registry.rs).
 */
module RegistryProgram {
  import Registry

  type Serial = Registry.Serial

  type Id = Registry.Id

  class Token {
    var cancelled: bool

    constructor ()
      ensures !cancelled
    {
      cancelled := false;
    }

    method Cancel()
      modifies this
      ensures cancelled
    {
      cancelled := true;
    }
  }

  type Entries = map<Id, Token>

  /** `SELECT ... WHERE revoked_at IS NOT NULL`: no answer when the query fails. */
  datatype Answer = Failed | NoRow | Revoked

  datatype Event = Notified(payload: string) | OtherChannel | NothingReceived | ConnectionLost

  const RESET_ALL := "*"

  /** No device without entries, no id from the future, no token twice. */
  ghost predicate ValidTable(connections: map<Serial, Entries>, nextId: Id) {
    && (forall serial :: serial in connections ==> connections[serial] != map[])
    && (forall serial, id :: serial in connections && id in connections[serial] ==> id < nextId)
    && (forall serial, id, other, id' ::
          (serial in connections && id in connections[serial] && other in connections && id' in connections[other]
           && connections[serial][id] == connections[other][id']) ==> serial == other && id == id')
  }

  function EntriesOf(connections: map<Serial, Entries>, serial: Serial): Entries {
    if serial in connections then connections[serial] else map[]
  }

  lemma InsertedValid(connections: map<Serial, Entries>, nextId: Id, serial: Serial, token: Token)
    requires ValidTable(connections, nextId)
    requires forall s, id :: s in connections && id in connections[s] ==> connections[s][id] != token
    ensures ValidTable(connections[serial := EntriesOf(connections, serial)[nextId := token]], nextId + 1)
  {
    var after := connections[serial := EntriesOf(connections, serial)[nextId := token]];
    assert nextId in after[serial];
    assert forall s, id :: s in after && id in after[s] ==>
      if s == serial && id == nextId then after[s][id] == token
      else s in connections && id in connections[s] && after[s][id] == connections[s][id] != token;
  }

  lemma FewerValid(connections: map<Serial, Entries>, after: map<Serial, Entries>, nextId: Id)
    requires ValidTable(connections, nextId)
    requires forall s :: s in after ==> after[s] != map[]
    requires forall s, id :: s in after && id in after[s] ==>
      s in connections && id in connections[s] && after[s][id] == connections[s][id]
    ensures ValidTable(after, nextId)
  {
  }

  class ConnectionRegistry {
    var connections: map<Serial, Entries>
    var nextId: Id

    ghost predicate Valid()
      reads this
    {
      ValidTable(connections, nextId)
    }

    constructor ()
      ensures Valid() && connections == map[]
    {
      connections, nextId := map[], 0;
    }

    method Register(serial: Serial) returns (token: Token, guard: ConnectionGuard)
      requires Valid()
      modifies this
      ensures Valid() && nextId == old(nextId) + 1
      ensures fresh(token) && !token.cancelled
      ensures fresh(guard) && guard.registry == this && guard.serial == serial && guard.id == old(nextId)
      ensures connections == old(connections)[serial :=
                EntriesOf(old(connections), serial)[old(nextId) := token]]
    {
      hide ValidTable;
      token := new Token();
      var id := nextId;
      InsertedValid(connections, nextId, serial, token);
      nextId := nextId + 1;
      var entries: Entries := EntriesOf(connections, serial)[id := token];
      connections := connections[serial := entries];
      guard := new ConnectionGuard(this, serial, id);
    }

    method Deregister(serial: Serial, id: Id)
      requires Valid()
      modifies `connections
      ensures Valid()
      ensures connections == WithoutEntry(old(connections), serial, id)
    {
      WithoutEntryValid(connections, nextId, serial, id);
      hide ValidTable;
      if serial in connections {
        var entries := connections[serial] - {id};
        if entries == map[] {
          connections := connections - {serial};
        } else {
          connections := connections[serial := entries];
        }
      }
    }

    static function WithoutEntry(connections: map<Serial, Entries>, serial: Serial, id: Id): map<Serial, Entries> {
      if serial !in connections then connections
      else if connections[serial] - {id} == map[] then connections - {serial}
      else connections[serial := connections[serial] - {id}]
    }

    static lemma WithoutEntryValid(connections: map<Serial, Entries>, nextId: Id, serial: Serial, id: Id)
      requires ValidTable(connections, nextId)
      ensures ValidTable(WithoutEntry(connections, serial, id), nextId)
    {
      var after := WithoutEntry(connections, serial, id);
      WithoutEntryNotEmpty(connections, nextId, serial, id);
      hide ValidTable, WithoutEntry;
      forall s, i | s in after && i in after[s]
        ensures s in connections && i in connections[s] && after[s][i] == connections[s][i]
      {
        WithoutEntryKeeps(connections, nextId, serial, id, s, i);
      }
      FewerValid(connections, after, nextId);
    }

    static lemma WithoutEntryNotEmpty(connections: map<Serial, Entries>, nextId: Id, serial: Serial, id: Id)
      requires ValidTable(connections, nextId)
      ensures forall s :: s in WithoutEntry(connections, serial, id) ==>
        WithoutEntry(connections, serial, id)[s] != map[]
    {
    }

    static lemma WithoutEntryKeeps(connections: map<Serial, Entries>, nextId: Id, serial: Serial, id: Id, s: Serial,
                                   i: Id)
      requires ValidTable(connections, nextId)
      ensures var after := WithoutEntry(connections, serial, id);
        (s in after && i in after[s]) <==> (s in connections && i in connections[s] && !(s == serial && i == id))
      ensures var after := WithoutEntry(connections, serial, id);
        s in after && i in after[s] ==> after[s][i] == connections[s][i]
    {
      hide ValidTable;
      if serial in connections && i in connections[serial] && i != id {
        assert i in connections[serial] - {id};
      }
    }

    static ghost function TokensOf(entries: Entries): set<Token> { set id | id in entries :: entries[id] }

    method CloseDevice(serial: Serial) returns (n: nat)
      requires Valid()
      modifies `connections, TokensOf(EntriesOf(connections, serial))
      ensures Valid() && connections == old(connections) - {serial}
      ensures n == |EntriesOf(old(connections), serial)|
      ensures forall token :: token in TokensOf(EntriesOf(old(connections), serial)) ==> token.cancelled
    {
      if serial !in connections { return 0; }
      var entries := connections[serial];
      WithoutValid(connections, nextId, {serial});
      connections := connections - {serial};
      n := |entries|;
      CancelEntries(entries);
    }

    static lemma WithoutValid(connections: map<Serial, Entries>, nextId: Id, serials: set<Serial>)
      requires ValidTable(connections, nextId)
      ensures ValidTable(connections - serials, nextId)
    {
      FewerValid(connections, connections - serials, nextId);
    }

    static method CancelEntries(entries: Entries)
      modifies TokensOf(entries)
      ensures forall id :: id in entries ==> entries[id].cancelled
    {
      var rest := entries.Keys;
      while rest != {}
        invariant rest <= entries.Keys
        invariant forall id :: id in entries && id !in rest ==> entries[id].cancelled
      {
        var id :| id in rest;
        entries[id].Cancel();
        rest := rest - {id};
      }
    }

    /** How many connections the given devices have. */
    static function Count(connections: map<Serial, Entries>, serials: set<Serial>): nat {
      |Pairs(connections, serials)|
    }

    static function Pairs(connections: map<Serial, Entries>, serials: set<Serial>): set<(Serial, Id)> {
      set serial, id | serial in serials && serial in connections && id in connections[serial] :: (serial, id)
    }

    static function Tagged(serial: Serial, ids: set<Id>): set<(Serial, Id)> { set id | id in ids :: (serial, id) }

    static lemma CountOneMore(connections: map<Serial, Entries>, counted: set<Serial>, serial: Serial)
      requires serial in connections && serial !in counted
      ensures Count(connections, counted + {serial}) == Count(connections, counted) + |connections[serial]|
    {
      var some, own := Pairs(connections, counted), Tagged(serial, connections[serial].Keys);
      assert Pairs(connections, counted + {serial}) == some + own && some !! own;
      TaggedCount(serial, connections[serial].Keys);
    }

    static lemma {:induction false} TaggedCount(serial: Serial, ids: set<Id>)
      ensures |Tagged(serial, ids)| == |ids|
      decreases |ids|
    {
      if ids != {} {
        var one :| one in ids;
        TaggedCount(serial, ids - {one});
        assert Tagged(serial, ids) == Tagged(serial, ids - {one}) + {(serial, one)};
      }
    }

    static method CountAll(connections: map<Serial, Entries>) returns (n: nat)
      ensures n == Count(connections, connections.Keys)
    {
      hide Pairs;
      n := 0;
      assert Pairs(connections, {}) == {} by { NoPairs(connections); }
      var counted := {};
      while counted != connections.Keys
        invariant counted <= connections.Keys && n == Count(connections, counted)
        decreases connections.Keys - counted
      {
        assert counted + (connections.Keys - counted) == connections.Keys;
        var serial :| serial in connections.Keys - counted;
        CountOneMore(connections, counted, serial);
        n := n + |connections[serial]|;
        counted := counted + {serial};
      }
    }

    static lemma NoPairs(connections: map<Serial, Entries>)
      ensures Pairs(connections, {}) == {}
    {
    }

    static ghost function Tokens(connections: map<Serial, Entries>): set<Token> {
      set serial, id | serial in connections && id in connections[serial] :: connections[serial][id]
    }

    static method CancelAll(connections: map<Serial, Entries>)
      modifies Tokens(connections)
      ensures forall token :: token in Tokens(connections) ==> token.cancelled
    {
      var rest := connections.Keys;
      while rest != {}
        invariant rest <= connections.Keys
        invariant forall serial, id :: serial in connections && serial !in rest && id in connections[serial] ==>
          connections[serial][id].cancelled
      {
        var serial :| serial in rest;
        CancelEntries(connections[serial]);
        rest := rest - {serial};
      }
    }

    method CloseAll() returns (n: nat)
      requires Valid()
      modifies `connections, Tokens(connections)
      ensures Valid() && connections == map[]
      ensures n == Count(old(connections), old(connections).Keys)
      ensures forall token :: token in old(Tokens(connections)) ==> token.cancelled
    {
      n := CountAll(connections);
      CancelAll(connections);
      connections := map[];
    }

    // The listener

    /** Of the tokens in `all` just those in `these` are cancelled. */
    static ghost predicate ExactlyCancelled(all: set<Token>, these: set<Token>)
      reads all
    {
      forall token :: token in all ==> (token.cancelled <==> token in these)
    }

    /** The fallback sweep: closes the devices that the database knows to be revoked. */
    method SweepRevoked(answer: Serial -> Answer)
      requires Valid()
      modifies `connections, Tokens(connections)
      ensures Valid() && connections == Swept(old(connections), answer)
      ensures forall token :: token in Tokens(old(connections)) ==>
        token.cancelled == (token in RevokedTokens(old(connections), answer) || old(token.cancelled))
    {
      ghost var before, all := connections, Tokens(connections);
      ghost var was := set token | token in all && token.cancelled;
      CloseRevoked(answer, all, was);
      SweptIs(before, answer);
    }

    method CloseRevoked(answer: Serial -> Answer, ghost all: set<Token>, ghost was: set<Token>)
      requires Valid() && all == Tokens(connections) && ExactlyCancelled(all, was)
      modifies `connections, all
      ensures Valid() && connections == old(connections) - ToClose(old(connections).Keys, answer)
      ensures ExactlyCancelled(all, was + RevokedTokens(old(connections), answer))
    {
      hide ValidTable, EntriesOf, TokensUnder, TokensOf, Tokens, ToClose, ExactlyCancelled;
      ghost var before := connections;
      var openSerials := connections.Keys;
      ghost var closed := {};
      assert before - {} == before && was + {} == was;
      TokensAmong(before, {});
      NoneToClose(before.Keys, answer);
      while openSerials != {}
        invariant Valid() && openSerials <= before.Keys
        invariant closed == ToClose(before.Keys - openSerials, answer)
        invariant connections == before - closed
        invariant ExactlyCancelled(all, was + TokensUnder(before, closed))
      {
        var serial :| serial in openSerials;
        OneMoreToClose(before.Keys, openSerials, serial, answer);
        if answer(serial) == Revoked {
          TokensAmong(before, {serial});
          OneMoreClosed(before, closed, serial);
          ghost var these := was + TokensUnder(before, closed);
          assert was + TokensUnder(before, closed + {serial}) == these + TokensOf(before[serial]);
          CloseOne(serial, before, closed, all, these);
          closed := closed + {serial};
        }
        openSerials := openSerials - {serial};
      }
      assert before.Keys - {} == before.Keys;
    }

    method CloseOne(serial: Serial, ghost before: map<Serial, Entries>, ghost closed: set<Serial>,
                    ghost all: set<Token>, ghost these: set<Token>)
      requires Valid() && connections == before - closed && serial in before && serial !in closed
      requires ExactlyCancelled(all, these) && TokensOf(before[serial]) <= all
      modifies `connections, TokensOf(before[serial])
      ensures Valid() && connections == before - (closed + {serial})
      ensures ExactlyCancelled(all, these + TokensOf(before[serial]))
    {
      hide ValidTable, TokensOf;
      assert connections[serial] == before[serial] && EntriesOf(connections, serial) == before[serial];
      var n := CloseDevice(serial);
    }

    static ghost function TokensUnder(connections: map<Serial, Entries>, serials: set<Serial>): set<Token> {
      set serial, id | serial in serials && serial in connections
          && id in connections[serial] :: connections[serial][id]
    }

    static ghost function RevokedTokens(connections: map<Serial, Entries>, answer: Serial -> Answer): set<Token> {
      TokensUnder(connections, ToClose(connections.Keys, answer))
    }

    static lemma TokensAmong(connections: map<Serial, Entries>, serials: set<Serial>)
      ensures TokensUnder(connections, serials) <= Tokens(connections)
      ensures TokensUnder(connections, {}) == {}
      ensures forall serial :: serial in serials && serial in connections ==>
        TokensOf(connections[serial]) <= Tokens(connections)
    {
    }

    static lemma OneMoreClosed(connections: map<Serial, Entries>, closed: set<Serial>, serial: Serial)
      requires serial in connections
      ensures TokensUnder(connections, closed + {serial}) == TokensUnder(connections, closed)
        + TokensOf(connections[serial])
    {
      forall id | id in connections[serial]
        ensures connections[serial][id] in TokensUnder(connections, closed + {serial})
      {
        assert serial in closed + {serial};
      }
    }

    static lemma NoneToClose(serials: set<Serial>, answer: Serial -> Answer)
      ensures ToClose(serials - serials, answer) == {}
    {
    }

    static lemma OneMoreToClose(serials: set<Serial>, open: set<Serial>, serial: Serial, answer: Serial -> Answer)
      requires serial in open && open <= serials
      ensures ToClose(serials - (open - {serial}), answer)
           == ToClose(serials - open, answer) + (if answer(serial) == Revoked then {serial} else {})
      ensures serial !in ToClose(serials - open, answer)
    {
    }

    static lemma SweptIs(connections: map<Serial, Entries>, answer: Serial -> Answer)
      ensures Swept(connections, answer) == connections - ToClose(connections.Keys, answer)
    {
    }

    /** No connection of a device that is not known to be revoked loses its token, nor shares it with one that is. */
    static lemma OthersNotRevoked(connections: map<Serial, Entries>, nextId: Id, answer: Serial -> Answer,
                                  serial: Serial, id: Id)
      requires ValidTable(connections, nextId) && serial in connections && id in connections[serial]
      ensures connections[serial][id] in RevokedTokens(connections, answer) <==> answer(serial) == Revoked
    {
      var closing := ToClose(connections.Keys, answer);
      if connections[serial][id] in TokensUnder(connections, closing) {
        var s, i :| s in closing && s in connections && i in connections[s]
          && connections[s][i] == connections[serial][id];
        assert s == serial;
      }
    }

    static function ToClose(serials: set<Serial>, answer: Serial -> Answer): set<Serial> {
      set serial | serial in serials && answer(serial) == Revoked
    }

    static function Swept(connections: map<Serial, Entries>, answer: Serial -> Answer): map<Serial, Entries> {
      connections - ToClose(connections.Keys, answer)
    }


    /** What one received notification closes. */
    static function Handled(connections: map<Serial, Entries>, event: Event): map<Serial, Entries> {
      match event
      case Notified(payload) => if payload == RESET_ALL then map[] else connections - {payload}
      case _ => connections
    }

    static predicate EndsSession(event: Event) { event.NothingReceived? || event.ConnectionLost? }

    /** What is left after a session of the listener, the `i`th sweep of which gets `answers[i]`. */
    static function Listened(connections: map<Serial, Entries>, events: seq<Event>, answers: seq<Serial -> Answer>)
      : map<Serial, Entries>
      requires |events| == |answers|
      decreases |events|
    {
      if events == [] || EndsSession(events[0]) then connections
      else Listened(Swept(Handled(connections, events[0]), answers[0]), events[1..], answers[1..])
    }

    /** Whether the session ends because the connection to the database is lost. */
    static predicate SessionLost(events: seq<Event>)
      decreases |events|
    {
      events != [] && (events[0].ConnectionLost? || (!EndsSession(events[0]) && SessionLost(events[1..])))
    }

    /** Of the tokens in `all` just those are cancelled that were to begin with, or that are in no entry any more. */
    ghost predicate CancelledAsClosed(all: set<Token>, was: set<Token>)
      reads this, all
    {
      Tokens(connections) <= all && ExactlyCancelled(all, was + (all - Tokens(connections)))
    }

    method HandleNotification(payload: string, ghost all: set<Token>, ghost was: set<Token>)
      requires Valid() && CancelledAsClosed(all, was)
      modifies `connections, Tokens(connections)
      ensures Valid() && connections == Handled(old(connections), Notified(payload))
      ensures CancelledAsClosed(all, was)
    {
      if payload == RESET_ALL {
        var n := CloseAll();
      } else {
        WithoutTokens(connections, nextId, {payload});
        TokensAmong(connections, {payload});
        ghost var own := TokensOf(EntriesOf(connections, payload));
        assert TokensUnder(connections, {payload}) == own;
        var n := CloseDevice(payload);
      }
    }

    method SweepInSession(answer: Serial -> Answer, ghost all: set<Token>, ghost was: set<Token>)
      requires Valid() && CancelledAsClosed(all, was)
      modifies `connections, Tokens(connections)
      ensures Valid() && connections == Swept(old(connections), answer)
      ensures CancelledAsClosed(all, was)
    {
      hide ValidTable, TokensUnder, ToClose, Tokens;
      WithoutTokens(connections, nextId, ToClose(connections.Keys, answer));
      SweepRevoked(answer);
    }

    /**
     Returns whether the connection to the database was lost; a session just ends when nothing is received for a while.
     A session cancels exactly the connections that it takes out of the map.
     */
    method RunListenLoop(events: seq<Event>, answers: seq<Serial -> Answer>) returns (lost: bool)
      requires Valid() && |events| == |answers|
      modifies `connections, Tokens(connections)
      ensures Valid() && connections == Listened(old(connections), events, answers)
      ensures lost == SessionLost(events)
      ensures forall serial, id :: serial in old(connections) && id in old(connections)[serial] ==>
        var token := old(connections)[serial][id];
        token.cancelled == (serial !in connections || old(token.cancelled))
    {
      assert events[0..] == events && answers[0..] == answers;
      ghost var before, all := connections, Tokens(connections);
      ghost var was := set token | token in all && token.cancelled;
      assert CancelledAsClosed(all, was);
      lost := Listen(events, answers, all, was);
      ListenedIsPart(before, events, answers);
      TakenOutTokens(before, nextId, connections);
    }

    method Listen(events: seq<Event>, answers: seq<Serial -> Answer>, ghost all: set<Token>, ghost was: set<Token>)
      returns (lost: bool)
      requires Valid() && |events| == |answers| && all == Tokens(connections) && CancelledAsClosed(all, was)
      modifies `connections, all
      ensures Valid() && connections == Listened(old(connections), events, answers)
      ensures CancelledAsClosed(all, was) && lost == SessionLost(events)
    {
      hide ValidTable, Swept, TokensUnder, Tokens, Handled, ExactlyCancelled;
      assert events[0..] == events && answers[0..] == answers;
      ghost var before := connections;
      for i := 0 to |events|
        invariant Valid() && CancelledAsClosed(all, was)
        invariant Listened(before, events, answers) == Listened(connections, events[i..], answers[i..])
        invariant SessionLost(events) == SessionLost(events[i..])
      {
        assert events[i..][1..] == events[i + 1..] && answers[i..][1..] == answers[i + 1..];
        match events[i] {
          case NothingReceived => return false;
          case ConnectionLost => return true;
          case OtherChannel => NothingHandled(connections);
          case Notified(payload) => HandleNotification(payload, all, was);
        }
        SweepInSession(answers[i], all, was);
      }
      return false;
    }

    static lemma NothingHandled(connections: map<Serial, Entries>)
      ensures Handled(connections, OtherChannel) == connections
    {
    }

    /** Taking devices out takes out their tokens and no others. */
    static lemma WithoutTokens(connections: map<Serial, Entries>, nextId: Id, serials: set<Serial>)
      requires ValidTable(connections, nextId)
      ensures Tokens(connections - serials) == Tokens(connections) - TokensUnder(connections, serials)
    {
      var after := connections - serials;
      forall token | token in Tokens(connections) - TokensUnder(connections, serials) ensures token in Tokens(after) {
        var s, id :| s in connections && id in connections[s] && connections[s][id] == token;
        assert s in after && id in after[s];
      }
      forall token | token in Tokens(after) ensures token !in TokensUnder(connections, serials) {
        var s, id :| s in after && id in after[s] && after[s][id] == token;
        assert s in connections && id in connections[s];
      }
    }

    static lemma {:induction false} ListenedIsPart(connections: map<Serial, Entries>, events: seq<Event>,
                                                   answers: seq<Serial -> Answer>)
      requires |events| == |answers|
      ensures var after := Listened(connections, events, answers);
        forall serial :: serial in after ==> serial in connections && after[serial] == connections[serial]
      decreases |events|
    {
      if events != [] && !EndsSession(events[0]) {
        ListenedIsPart(Swept(Handled(connections, events[0]), answers[0]), events[1..], answers[1..]);
      }
    }

    static lemma TakenOutTokens(before: map<Serial, Entries>, nextId: Id, after: map<Serial, Entries>)
      requires ValidTable(before, nextId)
      requires forall serial :: serial in after ==> serial in before && after[serial] == before[serial]
      ensures forall serial, id :: serial in before && id in before[serial] ==>
        (before[serial][id] in Tokens(after) <==> serial in after)
    {
    }

    static lemma {:induction false} StaysClosed(connections: map<Serial, Entries>, events: seq<Event>,
                                                answers: seq<Serial -> Answer>, serial: Serial)
      requires |events| == |answers| && serial !in connections
      ensures serial !in Listened(connections, events, answers)
      decreases |events|
    {
      if events != [] && !EndsSession(events[0]) {
        StaysClosed(Swept(Handled(connections, events[0]), answers[0]), events[1..], answers[1..], serial);
      }
    }

    /**
     A device that the database knows to be revoked throughout a session is closed in it if and only if some
     notification arrives, on whatever channel: when none does, the session ends without a sweep.
     */
    static lemma RevokedIsClosedIff(connections: map<Serial, Entries>, events: seq<Event>,
                                    answers: seq<Serial -> Answer>, serial: Serial)
      requires |events| == |answers| && serial in connections
      requires forall i :: 0 <= i < |answers| ==> answers[i](serial) == Revoked
      ensures serial !in Listened(connections, events, answers) <==> events != [] && !EndsSession(events[0])
    {
      if events != [] && !EndsSession(events[0]) {
        var swept := Swept(Handled(connections, events[0]), answers[0]);
        assert answers[0](serial) == Revoked;
        assert serial !in swept;
        StaysClosed(swept, events[1..], answers[1..], serial);
      }
    }

    /** The session is still going on at the `i`th event. */
    static predicate Reached(events: seq<Event>, i: nat) {
      i < |events| && forall k :: 0 <= k < i ==> events[k] != NothingReceived && events[k] != ConnectionLost
    }

    /** What the `i`th event and the sweep after it do: a notification for the device or for all, or a sweep. */
    static predicate ClosesAt(events: seq<Event>, answers: seq<Serial -> Answer>, serial: Serial, i: nat)
      requires |events| == |answers| && i < |events|
    {
      && events[i] != NothingReceived && events[i] != ConnectionLost
      && (events[i] == Notified(serial) || events[i] == Notified("*") || answers[i](serial) == Revoked)
    }

    static ghost predicate ClosesSometime(events: seq<Event>, answers: seq<Serial -> Answer>, serial: Serial)
      requires |events| == |answers|
    {
      exists i: nat :: Reached(events, i) && ClosesAt(events, answers, serial, i)
    }

    static lemma ClosesFirstOrLater(events: seq<Event>, answers: seq<Serial -> Answer>, serial: Serial)
      requires |events| == |answers| && events != []
      ensures ClosesSometime(events, answers, serial)
         <==> ClosesAt(events, answers, serial, 0)
              || (events[0] != NothingReceived && events[0] != ConnectionLost
                  && ClosesSometime(events[1..], answers[1..], serial))
    {
      assert Reached(events, 0);
      if i: nat :| Reached(events, i) && ClosesAt(events, answers, serial, i) {
        if i > 0 {
          assert forall k :: 0 <= k < i - 1 ==> events[1..][k] == events[k + 1];
          assert Reached(events[1..], i - 1) && ClosesAt(events[1..], answers[1..], serial, i - 1);
        }
      }
      if ClosesSometime(events[1..], answers[1..], serial)
         && events[0] != NothingReceived && events[0] != ConnectionLost {
        var i: nat :| Reached(events[1..], i) && ClosesAt(events[1..], answers[1..], serial, i);
        forall k | 0 <= k < i + 1 ensures events[k] != NothingReceived && events[k] != ConnectionLost {
          if k > 0 { assert events[k] == events[1..][k - 1]; }
        }
        assert Reached(events, i + 1) && ClosesAt(events, answers, serial, i + 1);
      }
    }

    /**
     Exactly which devices a session closes: those that, before it ends, get a notification for themselves or for all,
     or are reported revoked in a sweep.  The others keep their entries as they are.
     */
    static lemma {:induction false} ClosedInSessionIff(connections: map<Serial, Entries>, events: seq<Event>,
                                                       answers: seq<Serial -> Answer>, serial: Serial)
      requires |events| == |answers| && serial in connections
      ensures var after := Listened(connections, events, answers);
        && (serial !in after <==> ClosesSometime(events, answers, serial))
        && (serial in after ==> after[serial] == connections[serial])
      decreases |events|
    {
      if events != [] {
        ClosesFirstOrLater(events, answers, serial);
        if !EndsSession(events[0]) {
          hide ClosesSometime;
          var swept := Swept(Handled(connections, events[0]), answers[0]);
          if serial in swept {
            ClosedInSessionIff(swept, events[1..], answers[1..], serial);
          } else {
            StaysClosed(swept, events[1..], answers[1..], serial);
          }
        }
      }
    }

    /** A session is lost exactly if it comes to an event in which the connection is. */
    static lemma {:induction false} SessionLostIff(events: seq<Event>)
      ensures SessionLost(events) <==> exists i: nat :: Reached(events, i) && events[i] == ConnectionLost
      decreases |events|
    {
      if events != [] {
        SessionLostIff(events[1..]);
        if i: nat :| Reached(events, i) && events[i] == ConnectionLost {
          if i > 0 {
            assert forall k :: 0 <= k < i - 1 ==> events[1..][k] == events[k + 1];
            assert Reached(events[1..], i - 1) && events[1..][i - 1] == ConnectionLost;
          }
        }
        if events[0].ConnectionLost? {
          assert Reached(events, 0);
        } else if i: nat :| Reached(events[1..], i) && events[1..][i] == ConnectionLost {
          if !EndsSession(events[0]) {
            forall k | 0 <= k < i + 1 ensures events[k] != NothingReceived && events[k] != ConnectionLost {
              if k > 0 { assert events[k] == events[1..][k - 1]; }
            }
            assert Reached(events, i + 1);
          }
        }
      }
    }

    /** A device that is never reported revoked is closed only by a notification for it or for all. */
    static lemma {:induction false} OthersStayOpen(connections: map<Serial, Entries>, events: seq<Event>,
                                                   answers: seq<Serial -> Answer>, serial: Serial)
      requires |events| == |answers| && serial in connections
      requires forall i :: 0 <= i < |answers| ==> answers[i](serial) != Revoked
      requires Notified(serial) !in events && Notified(RESET_ALL) !in events
      ensures serial in Listened(connections, events, answers)
      ensures Listened(connections, events, answers)[serial] == connections[serial]
      decreases |events|
    {
      if events != [] && !EndsSession(events[0]) {
        assert events[0] in events && forall e :: e in events[1..] ==> e in events;
        assert answers[0](serial) != Revoked;
        forall i | 0 <= i < |answers[1..]| ensures answers[1..][i](serial) != Revoked {
          assert answers[1..][i] == answers[i + 1];
        }
        var next := Swept(Handled(connections, events[0]), answers[0]);
        assert serial in next && next[serial] == connections[serial];
        OthersStayOpen(next, events[1..], answers[1..], serial);
      }
    }

  }

  class ConnectionGuard {
    const registry: ConnectionRegistry
    const serial: Serial
    const id: Id

    constructor (registry: ConnectionRegistry, serial: Serial, id: Id)
      ensures this.registry == registry && this.serial == serial && this.id == id
    {
      this.registry, this.serial, this.id := registry, serial, id;
    }

    /** Dropping a guard: every other entry stays, also newer ones of the same device. */
    method Drop()
      requires registry.Valid()
      modifies registry`connections
      ensures registry.Valid()
      ensures forall s, i ::
        (s in registry.connections && i in registry.connections[s])
        <==> (s in old(registry.connections) && i in old(registry.connections)[s] && !(s == serial && i == id))
    {
      registry.Deregister(serial, id);
      forall s, i
        ensures (s in registry.connections && i in registry.connections[s])
           <==> (s in old(registry.connections) && i in old(registry.connections)[s] && !(s == serial && i == id))
      {
        ConnectionRegistry.WithoutEntryKeeps(old(registry.connections), registry.nextId, serial, id, s, i);
      }
    }
  }

  // The stream

  datatype Operation = Read | Write | Flush | Shutdown

  datatype Outcome = Aborted | Passed(inner: bool)

  /** `calls` lists what has reached the wrapped stream. */
  class CancellableStream {
    const token: Token
    var isCancelled: bool
    var watcherDone: bool
    var calls: seq<Operation>

    /** The watcher is finished just when the cancellation has been seen, so it is never polled again. */
    ghost predicate Valid()
      reads this, token
    {
      isCancelled == watcherDone && (isCancelled ==> token.cancelled)
    }

    constructor (token: Token)
      ensures Valid() && this.token == token && !isCancelled && calls == []
    {
      this.token, isCancelled, watcherDone, calls := token, false, false, [];
    }

    /** Polling a future again after it is ready would panic. */
    method PollWatcher() returns (ready: bool)
      requires !watcherDone
      modifies `watcherDone
      ensures ready == token.cancelled && watcherDone == ready
    {
      ready := token.cancelled;
      watcherDone := ready;
    }

    method PollCancelled() returns (aborted: bool)
      requires Valid()
      modifies `isCancelled, `watcherDone
      ensures Valid() && aborted == isCancelled == token.cancelled
    {
      if !isCancelled {
        var ready := PollWatcher();
        if ready { isCancelled := true; }
      }
      aborted := isCancelled;
    }

    method CallInner(op: Operation, ready: bool) returns (r: Outcome)
      modifies `calls
      ensures calls == old(calls) + [op] && r == Passed(ready)
    {
      calls := calls + [op];
      r := Passed(ready);
    }

    /** `ready` is what the wrapped stream answers. */
    method Poll(op: Operation, ready: bool) returns (r: Outcome)
      requires Valid()
      modifies `isCancelled, `watcherDone, `calls
      ensures Valid()
      ensures r == if op != Shutdown && token.cancelled then Aborted else Passed(ready)
      ensures calls == if r == Aborted then old(calls) else old(calls) + [op]
    {
      if op != Shutdown {
        var aborted := PollCancelled();
        if aborted { return Aborted; }
      }
      r := CallInner(op, ready);
    }

    /** From the moment the token is cancelled nothing but shutdowns reaches the wrapped stream. */
    method PollAll(ops: seq<Operation>) returns (outcomes: seq<Outcome>)
      requires Valid() && token.cancelled
      modifies `isCancelled, `watcherDone, `calls
      ensures Valid() && |outcomes| == |ops|
      ensures forall i :: 0 <= i < |ops| ==> (outcomes[i] == Aborted <==> ops[i] != Shutdown)
      ensures old(calls) <= calls && forall i :: |old(calls)| <= i < |calls| ==> calls[i] == Shutdown
    {
      outcomes := [];
      for i := 0 to |ops|
        invariant Valid() && token.cancelled && |outcomes| == i
        invariant forall j :: 0 <= j < i ==> (outcomes[j] == Aborted <==> ops[j] != Shutdown)
        invariant old(calls) <= calls && forall j :: |old(calls)| <= j < |calls| ==> calls[j] == Shutdown
      {
        var outcome := Poll(ops[i], true);
        outcomes := outcomes + [outcome];
      }
    }
  }
}
