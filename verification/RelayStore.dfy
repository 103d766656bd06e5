/** The relay's multi-tenant rows, and the transactions over them. */
module RelayStore {
  import opened Wrappers

  const HOUR_MS: int := 3_600_000

  datatype Kind = Agent | Client
  datatype Quota = Quota(maxDevices: nat, perHour: nat)
  datatype Device = Device(account: nat, kind: Kind, noiseStatic: Bytes, revoked: bool)
  datatype Token = Token(account: nat, agent: nat, routing: Bytes, createdAt: int, expiresAt: int, used: bool)
  datatype Pairing = Pairing(account: nat, agent: nat, client: nat, agentStatic: Bytes, clientStatic: Bytes, revokedBy: Option<Kind>)

  datatype Event =
    | AccountCreated | DeviceEnrolled | DeviceRevoked | TokenIssued | TokenRejected(reason: Reason)
    | PairingSucceeded | PairingRevoked
  datatype Reason = RateLimited | AlreadyUsed | Expired | AgentRevoked | QuotaExceeded
  datatype Audit = Audit(account: nat, event: Event)

  datatype Db = Db(
    quotas: map<nat, Quota>, devices: map<nat, Device>, tokens: map<nat, Token>,
    pairings: map<nat, Pairing>, audit: seq<Audit>)

  const EMPTY: Db := Db(map[], map[], map[], map[], [])

  /** The three instants of one issue: the database's clock when the transaction began, which stamps the
      row, and the relay's clock when it opens the counting window and when it sets the expiry. */
  datatype Instants = Instants(stamped: int, counted: int, expiryFrom: int)

  datatype IssueResult = Issued | IssueLimited | RoutingIdTaken
  datatype RedeemResult = Paired(agent: nat) | UnknownToken | AgentGone | OverQuota

  // ---- Queries -------------------------------------------------------------

  function ActiveDevices(db: Db, account: nat): set<nat> {
    set d | d in db.devices && db.devices[d].account == account && !db.devices[d].revoked
  }

  function RecentTokens(db: Db, account: nat, since: int): set<nat> {
    set t | t in db.tokens && db.tokens[t].account == account && db.tokens[t].createdAt >= since
  }

  function PerHour(db: Db, account: nat): nat {
    if account in db.quotas then db.quotas[account].perHour else 0
  }

  function MaxDevices(db: Db, account: nat): nat {
    if account in db.quotas then db.quotas[account].maxDevices else 0
  }

  predicate IsMatch(db: Db, t: nat, account: nat, routing: Bytes) {
    t in db.tokens && db.tokens[t].account == account && db.tokens[t].routing == routing
  }

  /** The account's row with this routing id; the unique index leaves at most one. */
  ghost function Find(db: Db, account: nat, routing: Bytes): (r: Option<nat>)
    ensures r.Some? ==> IsMatch(db, r.value, account, routing)
    ensures r.None? ==> forall t :: !IsMatch(db, t, account, routing)
  {
    if t :| IsMatch(db, t, account, routing) then Some(t) else None
  }

  predicate IsTaken(db: Db, routing: Bytes) {
    exists t <- db.tokens :: db.tokens[t].routing == routing
  }

  predicate Claimable(db: Db, t: nat, account: nat, routing: Bytes, now: int) {
    IsMatch(db, t, account, routing) && !db.tokens[t].used && db.tokens[t].expiresAt > now
  }

  /** The live-pairing check that authorises relaying between two devices, in either direction. */
  predicate PeerIsPaired(db: Db, account: nat, device: nat, peer: nat) {
    exists p <- db.pairings ::
      && db.pairings[p].account == account && db.pairings[p].revokedBy.None?
      && ((db.pairings[p].agent == device && db.pairings[p].client == peer)
          || (db.pairings[p].client == device && db.pairings[p].agent == peer))
  }

  function Log(db: Db, account: nat, event: Event): Db {
    db.(audit := db.audit + [Audit(account, event)])
  }

  // ---- Transactions --------------------------------------------------------

  function Enrolled(db: Db, account: nat, device: nat, noiseStatic: Bytes, defaults: Quota): Db {
    var inserted := db.(quotas := db.quotas[account := defaults],
                        devices := db.devices[device := Device(account, Agent, noiseStatic, false)]);
    Log(Log(inserted, account, AccountCreated), account, DeviceEnrolled)
  }

  function NewToken(account: nat, agent: nat, routing: Bytes, ttlMs: nat, at: Instants): Token {
    Token(account, agent, routing, at.stamped, at.expiryFrom + ttlMs, false)
  }

  function IssueTx(db: Db, account: nat, agent: nat, routing: Bytes, ttlMs: nat, at: Instants, token: nat): (Db, IssueResult) {
    if |RecentTokens(db, account, at.counted - HOUR_MS)| >= PerHour(db, account) then
      (Log(db, account, TokenRejected(RateLimited)), IssueLimited)
    else if IsTaken(db, routing) then
      // The unique index refuses the insert and the transaction rolls back.
      (db, RoutingIdTaken)
    else
      (Log(db.(tokens := db.tokens[token := NewToken(account, agent, routing, ttlMs, at)]), account, TokenIssued), Issued)
  }

  function Claimed(db: Db, t: nat): Db
    requires t in db.tokens
  {
    db.(tokens := db.tokens[t := db.tokens[t].(used := true)])
  }

  /** Redemption once token `t` has been claimed. */
  function RedeemClaimed(db: Db, account: nat, t: nat, noiseStatic: Bytes, client: nat, pairing: nat): (Db, RedeemResult)
    requires t in db.tokens
  {
    var agent := db.tokens[t].agent;
    if !(agent in db.devices && db.devices[agent].account == account && !db.devices[agent].revoked) then
      (Log(db, account, TokenRejected(AgentRevoked)), AgentGone)
    else if |ActiveDevices(db, account)| >= MaxDevices(db, account) then
      (Log(db, account, TokenRejected(QuotaExceeded)), OverQuota)
    else
      var inserted := db.(
        devices := db.devices[client := Device(account, Client, noiseStatic, false)],
        pairings := db.pairings[pairing :=
          Pairing(account, agent, client, db.devices[agent].noiseStatic, noiseStatic, None)]);
      (Log(inserted, account, PairingSucceeded), Paired(agent))
  }

  ghost function RedeemTx(db: Db, account: nat, routing: Bytes, noiseStatic: Bytes, now: int, client: nat, pairing: nat)
    : (Db, RedeemResult)
  {
    match Find(db, account, routing)
    case None => (db, UnknownToken)
    case Some(t) =>
      if Claimable(db, t, account, routing, now) then
        RedeemClaimed(Claimed(db, t), account, t, noiseStatic, client, pairing)
      else
        (Log(db, account, TokenRejected(if db.tokens[t].used then AlreadyUsed else Expired)), UnknownToken)
  }

  predicate Involves(p: Pairing, device: nat) {
    p.agent == device || p.client == device
  }

  function RevokeDeviceTx(db: Db, account: nat, device: nat): (Db, bool) {
    if device in db.devices && db.devices[device].account == account && !db.devices[device].revoked then
      var revoked := db.(
        devices := db.devices[device := db.devices[device].(revoked := true)],
        pairings := map p | p in db.pairings ::
          if db.pairings[p].account == account && Involves(db.pairings[p], device) && db.pairings[p].revokedBy.None?
          then db.pairings[p].(revokedBy := Some(Agent)) else db.pairings[p]);
      (Log(revoked, account, DeviceRevoked), true)
    else (db, false)
  }

  function RevokePairingTx(db: Db, account: nat, pairing: nat, actor: nat, kind: Kind): (Db, bool) {
    if pairing in db.pairings && db.pairings[pairing].account == account
       && db.pairings[pairing].revokedBy.None? && Involves(db.pairings[pairing], actor)
    then
      var p := db.pairings[pairing].(revokedBy := Some(kind));
      (Log(db.(pairings := db.pairings[pairing := p]), account, PairingRevoked), true)
    else (db, false)
  }

  // ---- The repository ------------------------------------------------------

  /** The tables as the transactions change them, statement by statement. */
  class Repo {
    var quotas: map<nat, Quota>
    var devices: map<nat, Device>
    var tokens: map<nat, Token>
    var pairings: map<nat, Pairing>
    var audit: seq<Audit>

    constructor ()
      ensures Contents() == EMPTY
    {
      quotas, devices, tokens, pairings, audit := map[], map[], map[], map[], [];
    }

    function Contents(): Db
      reads this
    {
      Db(quotas, devices, tokens, pairings, audit)
    }

    method InsertAudit(account: nat, event: Event)
      modifies this`audit
      ensures audit == old(audit) + [Audit(account, event)]
    {
      audit := audit + [Audit(account, event)];
    }

    method Enroll(account: nat, device: nat, noiseStatic: Bytes, defaults: Quota)
      modifies this
      ensures Contents() == Enrolled(old(Contents()), account, device, noiseStatic, defaults)
    {
      quotas := quotas[account := defaults];
      devices := devices[device := Device(account, Agent, noiseStatic, false)];
      InsertAudit(account, AccountCreated);
      InsertAudit(account, DeviceEnrolled);
    }

    method Issue(account: nat, agent: nat, routing: Bytes, ttlMs: nat, at: Instants, token: nat) returns (r: IssueResult)
      modifies this
      ensures (Contents(), r) == IssueTx(old(Contents()), account, agent, routing, ttlMs, at, token)
    {
      var perHour := if account in quotas then quotas[account].perHour else 0;
      var recent := RecentTokens(Contents(), account, at.counted - HOUR_MS);
      if |recent| >= perHour {
        InsertAudit(account, TokenRejected(RateLimited));
        return IssueLimited;
      }
      if exists t <- tokens :: tokens[t].routing == routing {
        return RoutingIdTaken;
      }
      tokens := tokens[token := Token(account, agent, routing, at.stamped, at.expiryFrom + ttlMs, false)];
      InsertAudit(account, TokenIssued);
      return Issued;
    }

    /** Single-use redemption: claim the row in one statement, and write nothing before it. */
    method Redeem(account: nat, routing: Bytes, noiseStatic: Bytes, now: int, client: nat, pairing: nat)
      returns (r: RedeemResult)
      requires UniqueRouting(Contents())
      modifies this
      ensures (Contents(), r) == RedeemTx(old(Contents()), account, routing, noiseStatic, now, client, pairing)
    {
      var claimed := set t | t in tokens && tokens[t].account == account && tokens[t].routing == routing
                             && !tokens[t].used && tokens[t].expiresAt > now;
      if claimed == {} {
        var existing := set t | t in tokens && tokens[t].account == account && tokens[t].routing == routing;
        if existing != {} {
          var t :| t in existing;
          assert IsMatch(Contents(), t, account, routing);
          InsertAudit(account, TokenRejected(if tokens[t].used then AlreadyUsed else Expired));
        } else {
          assert forall t :: IsMatch(Contents(), t, account, routing) ==> t in existing;
        }
        return UnknownToken;
      }
      var t :| t in claimed;
      assert IsMatch(Contents(), t, account, routing);
      tokens := tokens[t := tokens[t].(used := true)];
      var agent := tokens[t].agent;
      if !(agent in devices && devices[agent].account == account && !devices[agent].revoked) {
        InsertAudit(account, TokenRejected(AgentRevoked));
        return AgentGone;
      }
      var active := ActiveDevices(Contents(), account);
      var limit := if account in quotas then quotas[account].maxDevices else 0;
      if |active| >= limit {
        InsertAudit(account, TokenRejected(QuotaExceeded));
        return OverQuota;
      }
      var agentStatic := devices[agent].noiseStatic;
      devices := devices[client := Device(account, Client, noiseStatic, false)];
      pairings := pairings[pairing := Pairing(account, agent, client, agentStatic, noiseStatic, None)];
      InsertAudit(account, PairingSucceeded);
      return Paired(agent);
    }

    method RevokeDevice(account: nat, device: nat) returns (r: bool)
      modifies this
      ensures (Contents(), r) == RevokeDeviceTx(old(Contents()), account, device)
    {
      if !(device in devices && devices[device].account == account && !devices[device].revoked) {
        return false;
      }
      devices := devices[device := devices[device].(revoked := true)];
      pairings := map p | p in pairings ::
        if pairings[p].account == account && Involves(pairings[p], device) && pairings[p].revokedBy.None?
        then pairings[p].(revokedBy := Some(Agent)) else pairings[p];
      InsertAudit(account, DeviceRevoked);
      return true;
    }

    method RevokePairing(account: nat, pairing: nat, actor: nat, kind: Kind) returns (r: bool)
      modifies this
      ensures (Contents(), r) == RevokePairingTx(old(Contents()), account, pairing, actor, kind)
    {
      if pairing in pairings && pairings[pairing].account == account
         && pairings[pairing].revokedBy.None? && Involves(pairings[pairing], actor)
      {
        pairings := pairings[pairing := pairings[pairing].(revokedBy := Some(kind))];
        InsertAudit(account, PairingRevoked);
        return true;
      }
      return false;
    }
  }

  /** Routing ids are unique across every account. */
  ghost predicate UniqueRouting(db: Db) {
    forall t, u :: t in db.tokens && u in db.tokens && t != u ==> db.tokens[t].routing != db.tokens[u].routing
  }
}
