/** What every run of relay transactions keeps. */
module RelayRuns {
  import opened Wrappers
  import opened RelayStore

  datatype Op =
    | Enroll(account: nat, device: nat, noiseStatic: Bytes)
    | Issue(account: nat, agent: nat, routing: Bytes, ttlMs: nat, at: Instants, token: nat)
    | Redeem(account: nat, routing: Bytes, noiseStatic: Bytes, now: int, client: nat, pairing: nat)
    | RevokeDevice(account: nat, device: nat)
    | RevokePairing(account: nat, pairing: nat, actor: nat, kind: Kind)

  /** Random ids are new, and a token names an agent of the account that asked for it. */
  predicate Admissible(db: Db, op: Op) {
    match op
    case Enroll(account, device, _) => account !in db.quotas && device !in db.devices
    case Issue(account, agent, _, _, _, token) =>
      token !in db.tokens && agent in db.devices && db.devices[agent].account == account && db.devices[agent].kind == Agent
    case Redeem(_, _, _, _, client, pairing) => client !in db.devices && pairing !in db.pairings
    case _ => true
  }

  ghost function After(db: Db, op: Op, defaults: Quota): Db {
    match op
    case Enroll(account, device, noiseStatic) => Enrolled(db, account, device, noiseStatic, defaults)
    case Issue(account, agent, routing, ttlMs, at, token) => IssueTx(db, account, agent, routing, ttlMs, at, token).0
    case Redeem(account, routing, noiseStatic, now, client, pairing) =>
      RedeemTx(db, account, routing, noiseStatic, now, client, pairing).0
    case RevokeDevice(account, device) => RevokeDeviceTx(db, account, device).0
    case RevokePairing(account, pairing, actor, kind) => RevokePairingTx(db, account, pairing, actor, kind).0
  }

  ghost function AfterAll(db: Db, ops: seq<Op>, defaults: Quota): Db
    decreases |ops|
  {
    if ops == [] then db else AfterAll(After(db, ops[0], defaults), ops[1..], defaults)
  }

  ghost predicate AllAdmissible(db: Db, ops: seq<Op>, defaults: Quota)
    decreases |ops|
  {
    ops == [] || (Admissible(db, ops[0]) && AllAdmissible(After(db, ops[0], defaults), ops[1..], defaults))
  }

  // ---- Tenant invariants ---------------------------------------------------

  /** An unrevoked device of the account, of the given kind. */
  predicate IsLive(db: Db, account: nat, device: nat, kind: Kind) {
    device in db.devices && db.devices[device].account == account && db.devices[device].kind == kind
    && !db.devices[device].revoked
  }

  predicate DevicesHaveQuota(db: Db) {
    forall d <- db.devices :: db.devices[d].account in db.quotas
  }

  ghost predicate WithinQuota(db: Db) {
    forall account :: |ActiveDevices(db, account)| <= MaxDevices(db, account)
  }

  predicate TokensNameAgents(db: Db) {
    forall t <- db.tokens ::
      var agent := db.tokens[t].agent;
      agent in db.devices && db.devices[agent].account == db.tokens[t].account && db.devices[agent].kind == Agent
  }

  predicate PairingsAreLive(db: Db) {
    forall p <- db.pairings :: db.pairings[p].revokedBy.None? ==>
      && IsLive(db, db.pairings[p].account, db.pairings[p].agent, Agent)
      && IsLive(db, db.pairings[p].account, db.pairings[p].client, Client)
  }

  ghost predicate Sound(db: Db) {
    && UniqueRouting(db)
    && DevicesHaveQuota(db)
    && WithinQuota(db)
    && TokensNameAgents(db)
    && PairingsAreLive(db)
  }

  lemma {:induction false} SubsetSize(a: set<nat>, b: set<nat>)
    requires a <= b
    ensures |a| <= |b|
  {
    assert b == a + (b - a);
  }

  function Between(lo: nat, hi: nat): (r: set<nat>)
    requires lo <= hi
    ensures |r| == hi - lo && forall i: nat :: i in r <==> lo <= i < hi
    decreases hi
  {
    if lo == hi then {} else Between(lo, hi - 1) + {hi - 1}
  }

  lemma SameActive(db: Db, db': Db)
    requires db'.quotas == db.quotas && WithinQuota(db)
    requires forall account :: ActiveDevices(db', account) <= ActiveDevices(db, account)
    ensures WithinQuota(db')
  {
    forall account ensures |ActiveDevices(db', account)| <= MaxDevices(db', account) {
      SubsetSize(ActiveDevices(db', account), ActiveDevices(db, account));
    }
  }

  /** Nothing the transaction left alone can stop being sound. */
  lemma SameTables(db: Db, db': Db)
    requires Sound(db) && db'.(audit := db.audit) == db
    ensures Sound(db')
  {
    SameActive(db, db');
  }

  // ---- Enrolment -----------------------------------------------------------

  lemma NoDevicesBeforeEnrolment(db: Db, account: nat)
    requires DevicesHaveQuota(db) && account !in db.quotas
    ensures ActiveDevices(db, account) == {}
  {
  }

  lemma EnrollKeepsSound(db: Db, account: nat, device: nat, noiseStatic: Bytes, defaults: Quota)
    requires Sound(db) && account !in db.quotas && device !in db.devices && defaults.maxDevices >= 1
    ensures Sound(Enrolled(db, account, device, noiseStatic, defaults))
  {
    var db' := Enrolled(db, account, device, noiseStatic, defaults);
    NoDevicesBeforeEnrolment(db, account);
    forall a ensures |ActiveDevices(db', a)| <= MaxDevices(db', a) {
      assert ActiveDevices(db', a) == if a == account then {device} else ActiveDevices(db, a);
    }
    assert PairingsAreLive(db');
  }

  // ---- Issue ---------------------------------------------------------------

  lemma IssueKeepsSound(db: Db, op: Op)
    requires Sound(db) && op.Issue? && Admissible(db, op)
    ensures Sound(IssueTx(db, op.account, op.agent, op.routing, op.ttlMs, op.at, op.token).0)
  {
    var db' := IssueTx(db, op.account, op.agent, op.routing, op.ttlMs, op.at, op.token).0;
    SameActive(db, db');
  }

  // ---- Redemption ----------------------------------------------------------

  lemma ClaimKeepsSound(db: Db, t: nat)
    requires Sound(db) && t in db.tokens
    ensures Sound(Claimed(db, t))
  {
    SameActive(db, Claimed(db, t));
  }

  /** What a successful redemption adds. */
  predicate Added(db: Db, db': Db, account: nat, agent: nat, client: nat, pairing: nat) {
    && client !in db.devices && pairing !in db.pairings
    && client in db'.devices && pairing in db'.pairings
    && db'.quotas == db.quotas && db'.tokens == db.tokens
    && db'.devices == db.devices[client := db'.devices[client]]
    && db'.pairings == db.pairings[pairing := db'.pairings[pairing]]
    && db'.devices[client].account == account && db'.devices[client].kind == Client && !db'.devices[client].revoked
    && db'.pairings[pairing].account == account && db'.pairings[pairing].agent == agent
    && db'.pairings[pairing].client == client && db'.pairings[pairing].revokedBy.None?
  }

  lemma AddingActivatesOne(db: Db, db': Db, account: nat, agent: nat, client: nat, pairing: nat, a: nat)
    requires Added(db, db', account, agent, client, pairing)
    ensures ActiveDevices(db', a) <= ActiveDevices(db, a) + {client}
    ensures a != account ==> ActiveDevices(db', a) <= ActiveDevices(db, a)
  {
  }

  lemma AddingKeepsQuota(db: Db, db': Db, account: nat, agent: nat, client: nat, pairing: nat)
    requires WithinQuota(db) && Added(db, db', account, agent, client, pairing)
    requires |ActiveDevices(db, account)| < MaxDevices(db, account)
    ensures WithinQuota(db')
  {
    assert db'.quotas == db.quotas;
    hide ActiveDevices;
    hide Added;
    forall a ensures |ActiveDevices(db', a)| <= MaxDevices(db', a) {
      AddingActivatesOne(db, db', account, agent, client, pairing, a);
      SubsetSize(ActiveDevices(db', a), ActiveDevices(db, a) + if a == account then {client} else {});
    }
  }

  lemma AddingKeepsRows(db: Db, db': Db, account: nat, agent: nat, client: nat, pairing: nat)
    requires Added(db, db', account, agent, client, pairing)
    requires DevicesHaveQuota(db) && TokensNameAgents(db) && PairingsAreLive(db) && IsLive(db, account, agent, Agent)
    ensures DevicesHaveQuota(db') && TokensNameAgents(db') && PairingsAreLive(db')
  {
    assert account in db.quotas;
  }

  lemma PairKeepsSound(db: Db, account: nat, t: nat, noiseStatic: Bytes, client: nat, pairing: nat)
    requires Sound(db) && t in db.tokens && db.tokens[t].account == account
    requires client !in db.devices && pairing !in db.pairings
    ensures Sound(RedeemClaimed(db, account, t, noiseStatic, client, pairing).0)
  {
    var (db', r) := RedeemClaimed(db, account, t, noiseStatic, client, pairing);
    if r.Paired? {
      assert Added(db, db', account, r.agent, client, pairing) && IsLive(db, account, r.agent, Agent);
      AddingKeepsQuota(db, db', account, r.agent, client, pairing);
      AddingKeepsRows(db, db', account, r.agent, client, pairing);
    } else {
      SameTables(db, db');
    }
  }

  lemma RedeemKeepsSound(db: Db, op: Op)
    requires Sound(db) && op.Redeem? && Admissible(db, op)
    ensures Sound(RedeemTx(db, op.account, op.routing, op.noiseStatic, op.now, op.client, op.pairing).0)
  {
    var db' := RedeemTx(db, op.account, op.routing, op.noiseStatic, op.now, op.client, op.pairing).0;
    var found := Find(db, op.account, op.routing);
    hide Sound;
    hide RedeemClaimed;
    if found.Some? && Claimable(db, found.value, op.account, op.routing, op.now) {
      ClaimKeepsSound(db, found.value);
      PairKeepsSound(Claimed(db, found.value), op.account, found.value, op.noiseStatic, op.client, op.pairing);
    } else {
      SameTables(db, db');
    }
  }

  // ---- Revocation ----------------------------------------------------------

  lemma RevokeDeviceKeepsSound(db: Db, account: nat, device: nat)
    requires Sound(db)
    ensures Sound(RevokeDeviceTx(db, account, device).0)
  {
    var (db', done) := RevokeDeviceTx(db, account, device);
    if done {
      SameActive(db, db');
    }
  }

  lemma RevokePairingKeepsSound(db: Db, op: Op)
    requires Sound(db) && op.RevokePairing?
    ensures Sound(RevokePairingTx(db, op.account, op.pairing, op.actor, op.kind).0)
  {
    var db' := RevokePairingTx(db, op.account, op.pairing, op.actor, op.kind).0;
    SameActive(db, db');
  }

  // ---- Runs ----------------------------------------------------------------

  lemma {:induction false} StepKeepsSound(db: Db, op: Op, defaults: Quota)
    requires Sound(db) && Admissible(db, op) && defaults.maxDevices >= 1
    ensures Sound(After(db, op, defaults))
  {
    hide Sound;
    match op
    case Enroll(account, device, noiseStatic) => EnrollKeepsSound(db, account, device, noiseStatic, defaults);
    case Issue(_, _, _, _, _, _) => IssueKeepsSound(db, op);
    case Redeem(_, _, _, _, _, _) => RedeemKeepsSound(db, op);
    case RevokeDevice(account, device) => RevokeDeviceKeepsSound(db, account, device);
    case RevokePairing(_, _, _, _) => RevokePairingKeepsSound(db, op);
  }

  lemma {:induction false} RunKeepsSound(db: Db, ops: seq<Op>, defaults: Quota)
    requires Sound(db) && AllAdmissible(db, ops, defaults) && defaults.maxDevices >= 1
    ensures Sound(AfterAll(db, ops, defaults))
    decreases |ops|
  {
    if ops != [] {
      StepKeepsSound(db, ops[0], defaults);
      RunKeepsSound(After(db, ops[0], defaults), ops[1..], defaults);
    }
  }

  /** From the empty tables, every run of transactions stays sound. */
  lemma {:induction false} AlwaysSound(ops: seq<Op>, defaults: Quota)
    requires AllAdmissible(EMPTY, ops, defaults) && defaults.maxDevices >= 1
    ensures Sound(AfterAll(EMPTY, ops, defaults))
  {
    forall account ensures ActiveDevices(EMPTY, account) == {} {}
    RunKeepsSound(EMPTY, ops, defaults);
  }

  /** Relaying is authorised only between a live agent and a live client of that account. */
  lemma RelayingJoinsLiveDevices(db: Db, account: nat, device: nat, peer: nat)
    requires Sound(db) && PeerIsPaired(db, account, device, peer)
    ensures (IsLive(db, account, device, Agent) && IsLive(db, account, peer, Client))
         || (IsLive(db, account, device, Client) && IsLive(db, account, peer, Agent))
    ensures PeerIsPaired(db, account, peer, device)
    ensures !PeerIsPaired(RevokeDeviceTx(db, account, device).0, account, device, peer)
    ensures !PeerIsPaired(RevokeDeviceTx(db, account, peer).0, account, device, peer)
  {
    var p :| p in db.pairings && db.pairings[p].account == account && db.pairings[p].revokedBy.None?
      && ((db.pairings[p].agent == device && db.pairings[p].client == peer)
          || (db.pairings[p].client == device && db.pairings[p].agent == peer));
    assert IsLive(db, account, db.pairings[p].agent, Agent) && IsLive(db, account, db.pairings[p].client, Client);
  }
}
