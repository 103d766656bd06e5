/** The table of open sessions, by whose they are, and shutting those of some peers. */
module SessionRegistry {
  import opened Wrappers

  /** The hash of a peer's identity key and its algorithm. */
  type Fingerprint = Bytes

  /** A pinned controller: the identity it is known by, and the session key that identity vouched for. */
  datatype Pin = Pin(fingerprint: Fingerprint, noiseStatic: Bytes)

  class Socket {
    var open: bool

    constructor ()
      ensures open
    {
      open := true;
    }
  }

  datatype LiveSession = LiveSession(peer: Fingerprint, socket: Socket)

  /** A registered session as an observer sees it: whose it is, and whether its socket is open. */
  datatype Entry = Entry(peer: Fingerprint, open: bool)

  /** Exactly the doomed peers' sockets are shut, and no entry leaves the table. */
  function CloseMatching(table: map<nat, Entry>, doomed: Fingerprint -> bool): map<nat, Entry> {
    map id | id in table :: Entry(table[id].peer, table[id].open && !doomed(table[id].peer))
  }

  /** The same with the sessions in `todo` yet to be looked at. */
  function ClosedBut(table: map<nat, Entry>, doomed: Fingerprint -> bool, todo: set<nat>): map<nat, Entry> {
    map id | id in table ::
      if id in todo then table[id] else Entry(table[id].peer, table[id].open && !doomed(table[id].peer))
  }

  /** The sessions looked at and hung up on. */
  function Hit(table: map<nat, Entry>, doomed: Fingerprint -> bool, todo: set<nat>): set<nat> {
    set id | id in table && id !in todo && doomed(table[id].peer)
  }

  lemma LookAtOne(table: map<nat, Entry>, doomed: Fingerprint -> bool, todo: set<nat>, id: nat)
    requires id in todo && id in table
    ensures ClosedBut(table, doomed, todo)[id] == table[id]
    ensures ClosedBut(table, doomed, todo - {id})
         == if doomed(table[id].peer) then ClosedBut(table, doomed, todo)[id := Entry(table[id].peer, false)]
            else ClosedBut(table, doomed, todo)
    ensures id !in Hit(table, doomed, todo)
    ensures Hit(table, doomed, todo - {id}) == Hit(table, doomed, todo) + if doomed(table[id].peer) then {id} else {}
  {
  }

  lemma LookedAtAll(table: map<nat, Entry>, doomed: Fingerprint -> bool)
    ensures ClosedBut(table, doomed, {}) == CloseMatching(table, doomed)
    ensures ClosedBut(table, doomed, table.Keys) == table && Hit(table, doomed, table.Keys) == {}
  {
  }

  predicate IsPinned(pins: seq<Pin>, peer: Fingerprint) {
    exists i :: 0 <= i < |pins| && pins[i].fingerprint == peer
  }

  function NotPinned(pins: seq<Pin>): Fingerprint -> bool {
    peer => !IsPinned(pins, peer)
  }

  function IsPeer(peer: Fingerprint): Fingerprint -> bool {
    other => other == peer
  }

  class Registry {
    var sessions: map<nat, LiveSession>
    var nextId: nat

    ghost predicate Valid()
      reads this
    {
      && (forall id <- sessions :: id < nextId)
      && (forall a, b :: a in sessions && b in sessions && a != b ==> sessions[a].socket != sessions[b].socket)
    }

    ghost function Sockets(): set<Socket>
      reads this
    {
      set id | id in sessions :: sessions[id].socket
    }

    /** What the table holds. */
    ghost function Table(): map<nat, Entry>
      reads this, Sockets()
    {
      map id | id in sessions :: Entry(sessions[id].peer, sessions[id].socket.open)
    }

    constructor ()
      ensures Valid() && Table() == map[] && nextId == 0
    {
      sessions := map[];
      nextId := 0;
    }

    /** Record a session under a key never used before. */
    method Register(peer: Fingerprint, socket: Socket) returns (id: nat)
      requires Valid() && socket !in Sockets()
      modifies this
      ensures Valid()
      ensures id == old(nextId) && nextId == id + 1 && id !in old(sessions)
      ensures sessions == old(sessions)[id := LiveSession(peer, socket)]
      ensures Table() == old(Table())[id := Entry(peer, socket.open)]
    {
      id := nextId;
      nextId := nextId + 1;
      sessions := sessions[id := LiveSession(peer, socket)];
    }

    /** Hang up on one session. */
    method ShutDown(id: nat)
      requires Valid() && id in sessions
      modifies sessions[id].socket
      ensures Table() == old(Table())[id := Entry(sessions[id].peer, false)]
    {
      sessions[id].socket.open := false;
    }

    /** Shut down every matching session's socket; entries are removed by their owners, not here. */
    method ShutdownMatching(doomed: Fingerprint -> bool) returns (closed: nat)
      requires Valid()
      modifies Sockets()
      ensures Valid()
      ensures Table() == CloseMatching(old(Table()), doomed)
      ensures closed == |Hit(old(Table()), doomed, {})|
    {
      closed := 0;
      var todo := sessions.Keys;
      ghost var was := Table();
      LookedAtAll(was, doomed);
      while todo != {}
        invariant todo <= was.Keys == sessions.Keys
        invariant Table() == ClosedBut(was, doomed, todo) && closed == |Hit(was, doomed, todo)|
        decreases todo
      {
        hide ClosedBut;
        hide Hit;
        var id :| id in todo;
        LookAtOne(was, doomed, todo, id);
        assert Table()[id].peer == sessions[id].peer;
        todo := todo - {id};
        if doomed(sessions[id].peer) {
          ShutDown(id);
          closed := closed + 1;
        }
      }
    }

    method RevokeIdentity(peer: Fingerprint) returns (closed: nat)
      requires Valid()
      modifies Sockets()
      ensures Valid()
      ensures Table() == CloseMatching(old(Table()), IsPeer(peer))
      ensures closed == |Hit(old(Table()), IsPeer(peer), {})|
    {
      closed := ShutdownMatching(IsPeer(peer));
    }

    method RetainPinned(allowed: seq<Pin>) returns (closed: nat)
      requires Valid()
      modifies Sockets()
      ensures Valid()
      ensures Table() == CloseMatching(old(Table()), NotPinned(allowed))
      ensures closed == |Hit(old(Table()), NotPinned(allowed), {})|
    {
      closed := ShutdownMatching(NotPinned(allowed));
    }

    method RevokeAll() returns (closed: nat)
      requires Valid()
      modifies Sockets()
      ensures Valid()
      ensures Table() == CloseMatching(old(Table()), _ => true)
      ensures closed == |sessions|
    {
      var all: Fingerprint -> bool := _ => true;
      closed := ShutdownMatching(all);
      assert Hit(old(Table()), all, {}) == sessions.Keys;
    }

    /** What dropping a session's handle does. */
    method Remove(id: nat)
      requires Valid()
      modifies this`sessions
      ensures Valid()
      ensures Table() == old(Table()) - {id}
    {
      sessions := sessions - {id};
    }
  }
}
