/** Tenancy: what one account's transactions can read and write of another's rows. */
module RelayIsolation {
  import opened Wrappers
  import opened RelayStore
  import opened RelayRuns

  function AuditOf(audit: seq<Audit>, account: nat): seq<Audit> {
    if audit == [] then []
    else AuditOf(audit[..|audit| - 1], account)
         + (if audit[|audit| - 1].account == account then [audit[|audit| - 1]] else [])
  }

  function QuotasOf(quotas: map<nat, Quota>, account: nat): map<nat, Quota> {
    map a | a in quotas && a == account :: quotas[a]
  }

  function DevicesOf(devices: map<nat, Device>, account: nat): map<nat, Device> {
    map d | d in devices && devices[d].account == account :: devices[d]
  }

  function TokensOf(tokens: map<nat, Token>, account: nat): map<nat, Token> {
    map t | t in tokens && tokens[t].account == account :: tokens[t]
  }

  function PairingsOf(pairings: map<nat, Pairing>, account: nat): map<nat, Pairing> {
    map p | p in pairings && pairings[p].account == account :: pairings[p]
  }

  /** The rows row-level security shows the account. */
  function Of(db: Db, account: nat): Db {
    Db(QuotasOf(db.quotas, account), DevicesOf(db.devices, account), TokensOf(db.tokens, account),
       PairingsOf(db.pairings, account), AuditOf(db.audit, account))
  }

  lemma PutQuota(quotas: map<nat, Quota>, a: nat, row: Quota, account: nat)
    ensures QuotasOf(quotas[a := row], account)
         == if a == account then QuotasOf(quotas, account)[a := row] else QuotasOf(quotas, account)
  {
  }

  lemma PutDevice(devices: map<nat, Device>, d: nat, row: Device, account: nat)
    requires d in devices ==> devices[d].account == row.account
    ensures DevicesOf(devices[d := row], account)
         == if row.account == account then DevicesOf(devices, account)[d := row] else DevicesOf(devices, account)
  {
  }

  lemma PutToken(tokens: map<nat, Token>, t: nat, row: Token, account: nat)
    requires t in tokens ==> tokens[t].account == row.account
    ensures TokensOf(tokens[t := row], account)
         == if row.account == account then TokensOf(tokens, account)[t := row] else TokensOf(tokens, account)
  {
  }

  lemma PutPairing(pairings: map<nat, Pairing>, p: nat, row: Pairing, account: nat)
    requires p in pairings ==> pairings[p].account == row.account
    ensures PairingsOf(pairings[p := row], account)
         == if row.account == account then PairingsOf(pairings, account)[p := row] else PairingsOf(pairings, account)
  {
  }

  lemma AuditOfLogged(db: Db, event: Event, account: nat, other: nat)
    ensures AuditOf(Log(db, account, event).audit, other)
         == AuditOf(db.audit, other) + if account == other then [Audit(account, event)] else []
  {
    var logged := Log(db, account, event).audit;
    assert logged[..|logged| - 1] == db.audit;
  }

  /** Logging commutes with the account's view, and other accounts do not see it. */
  lemma LogOf(db: Db, event: Event, account: nat, other: nat)
    ensures Of(Log(db, account, event), account) == Log(Of(db, account), account, event)
    ensures other != account ==> Of(Log(db, account, event), other) == Of(db, other)
  {
    AuditOfLogged(db, event, account, account);
    AuditOfLogged(db, event, account, other);
  }

  // ---- No transaction writes another tenant's rows ------------------------------

  lemma EnrollSparesOthers(db: Db, account: nat, device: nat, noiseStatic: Bytes, defaults: Quota, other: nat)
    requires account !in db.quotas && device !in db.devices && other != account
    ensures Of(Enrolled(db, account, device, noiseStatic, defaults), other) == Of(db, other)
  {
    var inserted := db.(quotas := db.quotas[account := defaults],
                        devices := db.devices[device := Device(account, Agent, noiseStatic, false)]);
    hide QuotasOf;
    hide DevicesOf;
    hide TokensOf;
    hide PairingsOf;
    hide AuditOf;
    PutQuota(db.quotas, account, defaults, other);
    PutDevice(db.devices, device, Device(account, Agent, noiseStatic, false), other);
    LogOf(inserted, AccountCreated, account, other);
    LogOf(Log(inserted, account, AccountCreated), DeviceEnrolled, account, other);
  }

  lemma IssueSparesOthers(db: Db, op: Op, other: nat)
    requires op.Issue? && op.token !in db.tokens && other != op.account
    ensures Of(IssueTx(db, op.account, op.agent, op.routing, op.ttlMs, op.at, op.token).0, other) == Of(db, other)
  {
    var token := NewToken(op.account, op.agent, op.routing, op.ttlMs, op.at);
    var inserted := db.(tokens := db.tokens[op.token := token]);
    hide QuotasOf;
    hide DevicesOf;
    hide TokensOf;
    hide PairingsOf;
    hide AuditOf;
    PutToken(db.tokens, op.token, token, other);
    LogOf(inserted, TokenIssued, op.account, other);
    LogOf(db, TokenRejected(RateLimited), op.account, other);
  }

  lemma RedeemClaimedSparesOthers(db: Db, account: nat, t: nat, noiseStatic: Bytes, client: nat, pairing: nat, other: nat)
    requires t in db.tokens && client !in db.devices && pairing !in db.pairings && other != account
    ensures Of(RedeemClaimed(db, account, t, noiseStatic, client, pairing).0, other) == Of(db, other)
  {
    var agent := db.tokens[t].agent;
    hide QuotasOf;
    hide DevicesOf;
    hide TokensOf;
    hide PairingsOf;
    hide AuditOf;
    LogOf(db, TokenRejected(AgentRevoked), account, other);
    LogOf(db, TokenRejected(QuotaExceeded), account, other);
    if RedeemClaimed(db, account, t, noiseStatic, client, pairing).1.Paired? {
      var device := Device(account, Client, noiseStatic, false);
      var row := Pairing(account, agent, client, db.devices[agent].noiseStatic, noiseStatic, None);
      var inserted := db.(devices := db.devices[client := device], pairings := db.pairings[pairing := row]);
      PutDevice(db.devices, client, device, other);
      PutPairing(db.pairings, pairing, row, other);
      LogOf(inserted, PairingSucceeded, account, other);
    }
  }

  lemma RedeemSparesOthers(db: Db, op: Op, other: nat)
    requires op.Redeem? && op.client !in db.devices && op.pairing !in db.pairings && other != op.account
    ensures Of(RedeemTx(db, op.account, op.routing, op.noiseStatic, op.now, op.client, op.pairing).0, other) == Of(db, other)
  {
    var found := Find(db, op.account, op.routing);
    if found.Some? {
      var t := found.value;
      hide RedeemClaimed;
      LogOf(db, TokenRejected(if db.tokens[t].used then AlreadyUsed else Expired), op.account, other);
      PutToken(db.tokens, t, db.tokens[t].(used := true), other);
      RedeemClaimedSparesOthers(Claimed(db, t), op.account, t, op.noiseStatic, op.client, op.pairing, other);
    }
  }

  lemma RevokedPairingsSpareOthers(db: Db, account: nat, device: nat, other: nat)
    requires other != account
    ensures PairingsOf(RevokeDeviceTx(db, account, device).0.pairings, other) == PairingsOf(db.pairings, other)
  {
  }

  lemma RevokeDeviceSparesOthers(db: Db, account: nat, device: nat, other: nat)
    requires other != account
    ensures Of(RevokeDeviceTx(db, account, device).0, other) == Of(db, other)
  {
    RevokedPairingsSpareOthers(db, account, device, other);
    hide QuotasOf;
    hide DevicesOf;
    hide TokensOf;
    hide PairingsOf;
    hide AuditOf;
    if RevokeDeviceTx(db, account, device).1 {
      PutDevice(db.devices, device, db.devices[device].(revoked := true), other);
      AuditOfLogged(db, DeviceRevoked, account, other);
    }
  }

  lemma RevokePairingSparesOthers(db: Db, op: Op, other: nat)
    requires op.RevokePairing? && other != op.account
    ensures Of(RevokePairingTx(db, op.account, op.pairing, op.actor, op.kind).0, other) == Of(db, other)
  {
    hide QuotasOf;
    hide DevicesOf;
    hide TokensOf;
    hide PairingsOf;
    hide AuditOf;
    if RevokePairingTx(db, op.account, op.pairing, op.actor, op.kind).1 {
      PutPairing(db.pairings, op.pairing, db.pairings[op.pairing].(revokedBy := Some(op.kind)), other);
      AuditOfLogged(db, PairingRevoked, op.account, other);
    }
  }

  /** A step for one account changes no other account's rows. */
  lemma OthersUntouched(db: Db, op: Op, defaults: Quota, other: nat)
    requires Admissible(db, op) && other != op.account
    ensures Of(After(db, op, defaults), other) == Of(db, other)
  {
    hide Of;
    match op
    case Enroll(account, device, noiseStatic) => EnrollSparesOthers(db, account, device, noiseStatic, defaults, other);
    case Issue(_, _, _, _, _, _) => IssueSparesOthers(db, op, other);
    case Redeem(_, _, _, _, _, _) => RedeemSparesOthers(db, op, other);
    case RevokeDevice(account, device) => RevokeDeviceSparesOthers(db, account, device, other);
    case RevokePairing(_, _, _, _) => RevokePairingSparesOthers(db, op, other);
  }

  // ---- No transaction reads another tenant's rows, but for one unique index --------

  /** An issue refused because a different account holds the routing id. */
  ghost predicate Collides(db: Db, op: Op) {
    op.Issue? && exists t <- db.tokens :: db.tokens[t].routing == op.routing && db.tokens[t].account != op.account
  }

  lemma FindIsTheMatch(db: Db, account: nat, routing: Bytes, t: nat)
    requires UniqueRouting(db) && IsMatch(db, t, account, routing)
    ensures Find(db, account, routing) == Some(t)
  {
  }

  lemma CountsOf(db: Db, account: nat, since: int)
    ensures ActiveDevices(Of(db, account), account) == ActiveDevices(db, account)
    ensures RecentTokens(Of(db, account), account, since) == RecentTokens(db, account, since)
    ensures MaxDevices(Of(db, account), account) == MaxDevices(db, account)
    ensures PerHour(Of(db, account), account) == PerHour(db, account)
  {
  }

  lemma EnrollOwn(db: Db, account: nat, device: nat, noiseStatic: Bytes, defaults: Quota)
    requires account !in db.quotas && device !in db.devices
    ensures Of(Enrolled(db, account, device, noiseStatic, defaults), account)
         == Enrolled(Of(db, account), account, device, noiseStatic, defaults)
  {
    var inserted := db.(quotas := db.quotas[account := defaults],
                        devices := db.devices[device := Device(account, Agent, noiseStatic, false)]);
    var own := Of(db, account);
    hide QuotasOf;
    hide DevicesOf;
    hide TokensOf;
    hide PairingsOf;
    hide AuditOf;
    PutQuota(db.quotas, account, defaults, account);
    PutDevice(db.devices, device, Device(account, Agent, noiseStatic, false), account);
    LogOf(inserted, AccountCreated, account, account);
    LogOf(Log(inserted, account, AccountCreated), DeviceEnrolled, account, account);
  }

  lemma TakenOf(db: Db, op: Op)
    requires op.Issue? && !Collides(db, op)
    ensures IsTaken(db, op.routing) <==> IsTaken(Of(db, op.account), op.routing)
  {
    if IsTaken(db, op.routing) {
      var t :| t in db.tokens && db.tokens[t].routing == op.routing;
      assert t in Of(db, op.account).tokens;
    }
  }

  lemma InsertTokenOwn(db: Db, account: nat, t: nat, row: Token)
    requires t !in db.tokens && row.account == account
    ensures Of(Log(db.(tokens := db.tokens[t := row]), account, TokenIssued), account)
         == Log(Of(db, account).(tokens := Of(db, account).tokens[t := row]), account, TokenIssued)
  {
    hide QuotasOf;
    hide DevicesOf;
    hide TokensOf;
    hide PairingsOf;
    hide AuditOf;
    PutToken(db.tokens, t, row, account);
    LogOf(db.(tokens := db.tokens[t := row]), TokenIssued, account, account);
  }

  lemma IssueOwn(db: Db, account: nat, agent: nat, routing: Bytes, ttlMs: nat, at: Instants, token: nat)
    requires token !in db.tokens && (IsTaken(db, routing) <==> IsTaken(Of(db, account), routing))
    ensures Of(IssueTx(db, account, agent, routing, ttlMs, at, token).0, account)
         == IssueTx(Of(db, account), account, agent, routing, ttlMs, at, token).0
  {
    CountsOf(db, account, at.counted - HOUR_MS);
    hide RecentTokens;
    hide PerHour;
    hide IsTaken;
    hide Of;
    hide Log;
    InsertTokenOwn(db, account, token, NewToken(account, agent, routing, ttlMs, at));
    LogOf(db, TokenRejected(RateLimited), account, account);
  }

  lemma SeesTheAgent(db: Db, account: nat, agent: nat)
    ensures agent in Of(db, account).devices <==> agent in db.devices && db.devices[agent].account == account
    ensures agent in Of(db, account).devices ==> Of(db, account).devices[agent] == db.devices[agent]
  {
  }

  lemma InsertPairOwn(db: Db, account: nat, client: nat, device: Device, pairing: nat, row: Pairing)
    requires client !in db.devices && pairing !in db.pairings && device.account == account == row.account
    ensures Of(Log(db.(devices := db.devices[client := device], pairings := db.pairings[pairing := row]), account,
                   PairingSucceeded), account)
         == Log(Of(db, account).(devices := Of(db, account).devices[client := device],
                                 pairings := Of(db, account).pairings[pairing := row]), account, PairingSucceeded)
  {
    hide QuotasOf;
    hide DevicesOf;
    hide TokensOf;
    hide PairingsOf;
    hide AuditOf;
    PutDevice(db.devices, client, device, account);
    PutPairing(db.pairings, pairing, row, account);
    LogOf(db.(devices := db.devices[client := device], pairings := db.pairings[pairing := row]), PairingSucceeded, account,
          account);
  }

  lemma SeesTheToken(db: Db, account: nat, t: nat)
    requires t in db.tokens && db.tokens[t].account == account
    ensures t in Of(db, account).tokens && Of(db, account).tokens[t] == db.tokens[t]
  {
  }

  lemma RedeemClaimedOwn(db: Db, account: nat, t: nat, noiseStatic: Bytes, client: nat, pairing: nat)
    requires t in db.tokens && db.tokens[t].account == account && client !in db.devices && pairing !in db.pairings
    requires t in Of(db, account).tokens
    ensures Of(RedeemClaimed(db, account, t, noiseStatic, client, pairing).0, account)
         == RedeemClaimed(Of(db, account), account, t, noiseStatic, client, pairing).0
  {
    var agent := db.tokens[t].agent;
    hide Of;
    hide Log;
    hide ActiveDevices;
    hide MaxDevices;
    SeesTheToken(db, account, t);
    CountsOf(db, account, 0);
    SeesTheAgent(db, account, agent);
    LogOf(db, TokenRejected(AgentRevoked), account, account);
    LogOf(db, TokenRejected(QuotaExceeded), account, account);
    if agent in db.devices {
      InsertPairOwn(db, account, client, Device(account, Client, noiseStatic, false), pairing,
                    Pairing(account, agent, client, db.devices[agent].noiseStatic, noiseStatic, None));
    }
  }

  lemma FindOf(db: Db, account: nat, routing: Bytes)
    requires UniqueRouting(db)
    ensures Find(Of(db, account), account, routing) == Find(db, account, routing)
  {
    var own := Of(db, account);
    var found := Find(db, account, routing);
    if found.Some? {
      SeesTheToken(db, account, found.value);
      FindIsTheMatch(own, account, routing, found.value);
    } else {
      forall t: nat ensures !IsMatch(own, t, account, routing) { assert !IsMatch(db, t, account, routing); }
    }
  }

  lemma ClaimedOwn(db: Db, account: nat, t: nat)
    requires t in db.tokens && db.tokens[t].account == account && t in Of(db, account).tokens
    ensures Of(Claimed(db, t), account) == Claimed(Of(db, account), t)
  {
    SeesTheToken(db, account, t);
    hide QuotasOf;
    hide DevicesOf;
    hide TokensOf;
    hide PairingsOf;
    hide AuditOf;
    PutToken(db.tokens, t, db.tokens[t].(used := true), account);
  }

  /** What a redemption does once the row is found. */
  function FoundTx(db: Db, account: nat, routing: Bytes, t: nat, noiseStatic: Bytes, now: int, client: nat, pairing: nat): Db
    requires t in db.tokens
  {
    if Claimable(db, t, account, routing, now) then
      RedeemClaimed(Claimed(db, t), account, t, noiseStatic, client, pairing).0
    else
      Log(db, account, TokenRejected(if db.tokens[t].used then AlreadyUsed else Expired))
  }

  lemma RedeemFinds(db: Db, op: Op)
    requires op.Redeem?
    ensures RedeemTx(db, op.account, op.routing, op.noiseStatic, op.now, op.client, op.pairing).0
         == match Find(db, op.account, op.routing)
            case None => db
            case Some(t) => FoundTx(db, op.account, op.routing, t, op.noiseStatic, op.now, op.client, op.pairing)
  {
  }

  lemma FoundOwn(db: Db, account: nat, routing: Bytes, t: nat, noiseStatic: Bytes, now: int, client: nat, pairing: nat)
    requires t in db.tokens && db.tokens[t].account == account && client !in db.devices && pairing !in db.pairings
    requires t in Of(db, account).tokens
    ensures Of(FoundTx(db, account, routing, t, noiseStatic, now, client, pairing), account)
         == FoundTx(Of(db, account), account, routing, t, noiseStatic, now, client, pairing)
  {
    SeesTheToken(db, account, t);
    hide Of;
    hide Log;
    hide RedeemClaimed;
    if Claimable(db, t, account, routing, now) {
      SeesTheToken(Claimed(db, t), account, t);
      ClaimedOwn(db, account, t);
      RedeemClaimedOwn(Claimed(db, t), account, t, noiseStatic, client, pairing);
    } else {
      LogOf(db, TokenRejected(if db.tokens[t].used then AlreadyUsed else Expired), account, account);
    }
  }

  lemma RedeemOwn(db: Db, op: Op)
    requires UniqueRouting(db) && op.Redeem? && op.client !in db.devices && op.pairing !in db.pairings
    ensures Of(RedeemTx(db, op.account, op.routing, op.noiseStatic, op.now, op.client, op.pairing).0, op.account)
         == RedeemTx(Of(db, op.account), op.account, op.routing, op.noiseStatic, op.now, op.client, op.pairing).0
  {
    var own := Of(db, op.account);
    RedeemFinds(db, op);
    RedeemFinds(own, op);
    FindOf(db, op.account, op.routing);
    var found := Find(db, op.account, op.routing);
    hide UniqueRouting;
    hide Find;
    hide RedeemTx;
    hide FoundTx;
    if found.Some? {
      SeesTheToken(db, op.account, found.value);
      hide Of;
      FoundOwn(db, op.account, op.routing, found.value, op.noiseStatic, op.now, op.client, op.pairing);
    }
  }

  lemma RevokeDeviceOwn(db: Db, account: nat, device: nat)
    ensures Of(RevokeDeviceTx(db, account, device).0, account) == RevokeDeviceTx(Of(db, account), account, device).0
  {
    var own := Of(db, account);
    var (db', done) := RevokeDeviceTx(db, account, device);
    var (own', done') := RevokeDeviceTx(own, account, device);
    assert done == done';
    if done {
      assert PairingsOf(db'.pairings, account) == own'.pairings;
      PutDevice(db.devices, device, db.devices[device].(revoked := true), account);
      AuditOfLogged(db, DeviceRevoked, account, account);
    }
  }

  lemma RevokePairingOwn(db: Db, op: Op)
    requires op.RevokePairing?
    ensures Of(RevokePairingTx(db, op.account, op.pairing, op.actor, op.kind).0, op.account)
         == RevokePairingTx(Of(db, op.account), op.account, op.pairing, op.actor, op.kind).0
  {
    if RevokePairingTx(db, op.account, op.pairing, op.actor, op.kind).1 {
      PutPairing(db.pairings, op.pairing, db.pairings[op.pairing].(revokedBy := Some(op.kind)), op.account);
      AuditOfLogged(db, PairingRevoked, op.account, op.account);
    }
  }

  /** The account's next rows depend only on its own rows. */
  lemma OwnRowsDecide(db: Db, op: Op, defaults: Quota)
    requires UniqueRouting(db) && Admissible(db, op) && !Collides(db, op)
    ensures Of(After(db, op, defaults), op.account) == After(Of(db, op.account), op, defaults)
  {
    hide Of;
    match op
    case Enroll(account, device, noiseStatic) => EnrollOwn(db, account, device, noiseStatic, defaults);
    case Issue(account, agent, routing, ttlMs, at, token) =>
      TakenOf(db, op);
      IssueOwn(db, account, agent, routing, ttlMs, at, token);
    case Redeem(_, _, _, _, _, _) => RedeemOwn(db, op);
    case RevokeDevice(account, device) => RevokeDeviceOwn(db, account, device);
    case RevokePairing(_, _, _, _) => RevokePairingOwn(db, op);
  }

  // ---- Runs ----------------------------------------------------------------

  function OpsOf(ops: seq<Op>, account: nat): seq<Op> {
    if ops == [] then []
    else (if ops[0].account == account then [ops[0]] else []) + OpsOf(ops[1..], account)
  }

  ghost predicate NoCollision(db: Db, ops: seq<Op>, defaults: Quota, account: nat)
    decreases |ops|
  {
    ops == [] || ((ops[0].account == account ==> !Collides(db, ops[0]))
                  && NoCollision(After(db, ops[0], defaults), ops[1..], defaults, account))
  }

  lemma {:induction false} AfterOpsOf(db: Db, ops: seq<Op>, defaults: Quota, account: nat)
    requires ops != []
    ensures AfterAll(db, OpsOf(ops, account), defaults)
         == if ops[0].account == account then AfterAll(After(db, ops[0], defaults), OpsOf(ops[1..], account), defaults)
            else AfterAll(db, OpsOf(ops[1..], account), defaults)
  {
    if ops[0].account == account {
      assert OpsOf(ops, account)[1..] == OpsOf(ops[1..], account);
    } else {
      assert OpsOf(ops, account) == OpsOf(ops[1..], account);
    }
  }

  /** However the tenants' transactions interleave, each account's rows are those of a relay it has to itself. */
  lemma {:induction false} TenantRunsAlone(db: Db, ops: seq<Op>, defaults: Quota, account: nat)
    requires Sound(db) && AllAdmissible(db, ops, defaults) && defaults.maxDevices >= 1
    requires NoCollision(db, ops, defaults, account)
    ensures Of(AfterAll(db, ops, defaults), account) == AfterAll(Of(db, account), OpsOf(ops, account), defaults)
    decreases |ops|
  {
    if ops != [] {
      AfterOpsOf(Of(db, account), ops, defaults, account);
      StepKeepsSound(db, ops[0], defaults);
      TenantRunsAlone(After(db, ops[0], defaults), ops[1..], defaults, account);
      if ops[0].account == account {
        OwnRowsDecide(db, ops[0], defaults);
      } else {
        OthersUntouched(db, ops[0], defaults, account);
      }
    }
  }

  /** A redemption writes exactly when its routing id matches a row of the account it names. */
  lemma RedeemWritesOnAMatch(db: Db, op: Op, defaults: Quota)
    requires op.Redeem?
    ensures After(db, op, defaults) == db <==> forall t :: !IsMatch(db, t, op.account, op.routing)
  {
    var found := Find(db, op.account, op.routing);
    if found.Some? {
      var db' := After(db, op, defaults);
      assert |db'.audit| == |db.audit| + 1;
    }
  }

  // ---- Tokens --------------------------------------------------------------

  /** A token's row only ever changes from unused to used. */
  predicate TokensOnlySpent(db: Db, db': Db) {
    forall t <- db.tokens ::
      t in db'.tokens && (db'.tokens[t] == db.tokens[t] || db'.tokens[t] == db.tokens[t].(used := true))
  }

  lemma StepOnlySpends(db: Db, op: Op, defaults: Quota)
    requires Admissible(db, op)
    ensures TokensOnlySpent(db, After(db, op, defaults))
  {
    if op.Redeem? {
      var found := Find(db, op.account, op.routing);
      assert found.Some? ==> IsMatch(db, found.value, op.account, op.routing);
    }
  }

  lemma {:induction false} UsedNeverReverts(db: Db, ops: seq<Op>, defaults: Quota)
    requires AllAdmissible(db, ops, defaults)
    ensures TokensOnlySpent(db, AfterAll(db, ops, defaults))
    decreases |ops|
  {
    if ops != [] {
      StepOnlySpends(db, ops[0], defaults);
      UsedNeverReverts(After(db, ops[0], defaults), ops[1..], defaults);
    }
  }
}
