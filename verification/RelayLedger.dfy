/** What the relay's audit log accounts for, and what a pairing row pins. */
module RelayLedger {
  import opened Wrappers
  import opened RelayStore
  import opened RelayRuns

  // ---- The rows the log accounts for ----------------------------------------------

  function PairingsIn(pairings: map<nat, Pairing>, account: nat): set<nat> {
    set p | p in pairings && pairings[p].account == account
  }

  function TokensIn(tokens: map<nat, Token>, account: nat): set<nat> {
    set t | t in tokens && tokens[t].account == account
  }

  function UsedTokensIn(tokens: map<nat, Token>, account: nat): set<nat> {
    set t | t in tokens && tokens[t].account == account && tokens[t].used
  }

  function RevokedDevicesIn(devices: map<nat, Device>, account: nat): set<nat> {
    set d | d in devices && devices[d].account == account && devices[d].revoked
  }

  lemma NewPairing(pairings: map<nat, Pairing>, p: nat, row: Pairing, account: nat)
    requires p !in pairings
    ensures PairingsIn(pairings[p := row], account) == PairingsIn(pairings, account) + if row.account == account then {p} else {}
    ensures p !in PairingsIn(pairings, account)
  {
  }

  lemma AddedToken(tokens: map<nat, Token>, t: nat, row: Token, account: nat)
    requires t !in tokens && !row.used
    ensures TokensIn(tokens[t := row], account) == TokensIn(tokens, account) + if row.account == account then {t} else {}
    ensures UsedTokensIn(tokens[t := row], account) == UsedTokensIn(tokens, account)
    ensures t !in TokensIn(tokens, account)
  {
  }

  lemma SpentToken(tokens: map<nat, Token>, t: nat, account: nat)
    requires t in tokens && !tokens[t].used
    ensures var tokens' := tokens[t := tokens[t].(used := true)];
      && TokensIn(tokens', account) == TokensIn(tokens, account)
      && UsedTokensIn(tokens', account) == UsedTokensIn(tokens, account) + if tokens[t].account == account then {t} else {}
    ensures t !in UsedTokensIn(tokens, account)
  {
  }

  lemma NewDevice(devices: map<nat, Device>, d: nat, row: Device, account: nat)
    requires d !in devices && !row.revoked
    ensures RevokedDevicesIn(devices[d := row], account) == RevokedDevicesIn(devices, account)
  {
  }

  lemma RevokedDevice(devices: map<nat, Device>, d: nat, account: nat)
    requires d in devices && !devices[d].revoked
    ensures RevokedDevicesIn(devices[d := devices[d].(revoked := true)], account)
         == RevokedDevicesIn(devices, account) + if devices[d].account == account then {d} else {}
    ensures d !in RevokedDevicesIn(devices, account)
  {
  }

  function Count(audit: seq<Audit>, row: Audit): nat {
    if audit == [] then 0
    else Count(audit[..|audit| - 1], row) + if audit[|audit| - 1] == row then 1 else 0
  }

  lemma CountLogged(db: Db, account: nat, event: Event, row: Audit)
    ensures Count(Log(db, account, event).audit, row) == Count(db.audit, row) + if row == Audit(account, event) then 1 else 0
  {
    var logged := Log(db, account, event).audit;
    assert logged[..|logged| - 1] == db.audit;
  }

  /** One account's books. A spent token ended as a pairing or as one of the two refusals that follow a claim. */
  datatype Books = Books(pairings: nat, tokens: nat, used: nat, revokedDevices: nat)

  function RowBooks(db: Db, account: nat): Books {
    Books(|PairingsIn(db.pairings, account)|, |TokensIn(db.tokens, account)|, |UsedTokensIn(db.tokens, account)|,
          |RevokedDevicesIn(db.devices, account)|)
  }

  function AuditBooks(db: Db, account: nat): Books {
    var succeeded := Count(db.audit, Audit(account, PairingSucceeded));
    Books(succeeded,
          Count(db.audit, Audit(account, TokenIssued)),
          succeeded + Count(db.audit, Audit(account, TokenRejected(AgentRevoked)))
          + Count(db.audit, Audit(account, TokenRejected(QuotaExceeded))),
          Count(db.audit, Audit(account, DeviceRevoked)))
  }

  ghost predicate Balanced(db: Db) {
    forall account :: RowBooks(db, account) == AuditBooks(db, account)
  }

  /** What one logged event adds to its account's books. */
  function Entry(event: Event): Books {
    match event
    case PairingSucceeded => Books(1, 0, 1, 0)
    case TokenIssued => Books(0, 1, 0, 0)
    case TokenRejected(AgentRevoked) => Books(0, 0, 1, 0)
    case TokenRejected(QuotaExceeded) => Books(0, 0, 1, 0)
    case DeviceRevoked => Books(0, 0, 0, 1)
    case _ => Books(0, 0, 0, 0)
  }

  function Sum(a: Books, b: Books): Books {
    Books(a.pairings + b.pairings, a.tokens + b.tokens, a.used + b.used, a.revokedDevices + b.revokedDevices)
  }

  lemma NothingAdded(b: Books)
    ensures Sum(b, Books(0, 0, 0, 0)) == b
  {
  }

  lemma LogEnters(db: Db, account: nat, event: Event, a: nat)
    ensures AuditBooks(Log(db, account, event), a)
         == if a == account then Sum(AuditBooks(db, a), Entry(event)) else AuditBooks(db, a)
  {
    hide Count;
    hide Log;
    CountLogged(db, account, event, Audit(a, PairingSucceeded));
    CountLogged(db, account, event, Audit(a, TokenIssued));
    CountLogged(db, account, event, Audit(a, TokenRejected(AgentRevoked)));
    CountLogged(db, account, event, Audit(a, TokenRejected(QuotaExceeded)));
    CountLogged(db, account, event, Audit(a, DeviceRevoked));
  }

  /** The rows grew by exactly the entry that was logged. */
  ghost predicate RowsEnter(db: Db, rows: Db, account: nat, event: Event) {
    && rows.audit == db.audit
    && forall a :: RowBooks(rows, a) == if a == account then Sum(RowBooks(db, a), Entry(event)) else RowBooks(db, a)
  }

  lemma LoggedStaysBalanced(db: Db, rows: Db, account: nat, event: Event)
    requires Balanced(db) && RowsEnter(db, rows, account, event)
    ensures Balanced(Log(rows, account, event))
  {
    var db' := Log(rows, account, event);
    hide RowBooks;
    hide AuditBooks;
    forall a ensures RowBooks(db', a) == AuditBooks(db', a) {
      LogEnters(rows, account, event, a);
      assert RowBooks(db', a) == RowBooks(rows, a) by { SameRows(db', rows, a); }
      assert AuditBooks(rows, a) == AuditBooks(db, a) by { SameAudit(rows, db, a); }
      assert RowBooks(db, a) == AuditBooks(db, a);
    }
  }

  lemma SameRows(a: Db, b: Db, account: nat)
    requires a.(audit := b.audit) == b
    ensures RowBooks(a, account) == RowBooks(b, account)
  {
  }

  lemma SameAudit(a: Db, b: Db, account: nat)
    requires a.audit == b.audit
    ensures AuditBooks(a, account) == AuditBooks(b, account)
  {
  }

  // ---- Each kind of write, entered ---------------------------------------------------

  lemma IssuedRows(db: Db, rows: Db, t: nat, row: Token)
    requires t !in db.tokens && !row.used && rows == db.(tokens := db.tokens[t := row])
    ensures RowsEnter(db, rows, row.account, TokenIssued)
  {
    hide PairingsIn;
    hide TokensIn;
    hide UsedTokensIn;
    hide RevokedDevicesIn;
    forall a ensures RowBooks(rows, a) == if a == row.account then Sum(RowBooks(db, a), Entry(TokenIssued)) else RowBooks(db, a) {
      AddedToken(db.tokens, t, row, a);
    }
  }

  lemma ClaimedRows(db: Db, t: nat, account: nat, event: Event)
    requires t in db.tokens && !db.tokens[t].used && db.tokens[t].account == account
    requires event in {TokenRejected(AgentRevoked), TokenRejected(QuotaExceeded)}
    ensures RowsEnter(db, Claimed(db, t), account, event)
  {
    hide PairingsIn;
    hide TokensIn;
    hide UsedTokensIn;
    hide RevokedDevicesIn;
    var rows := Claimed(db, t);
    forall a ensures RowBooks(rows, a) == if a == account then Sum(RowBooks(db, a), Entry(event)) else RowBooks(db, a) {
      SpentToken(db.tokens, t, a);
    }
  }

  lemma PairedRows(db: Db, rows: Db, account: nat, t: nat, client: nat, device: Device, pairing: nat, row: Pairing)
    requires t in db.tokens && !db.tokens[t].used && db.tokens[t].account == account
    requires client !in db.devices && !device.revoked && pairing !in db.pairings && row.account == account
    requires rows == Claimed(db, t).(devices := db.devices[client := device], pairings := db.pairings[pairing := row])
    ensures RowsEnter(db, rows, account, PairingSucceeded)
  {
    hide PairingsIn;
    hide TokensIn;
    hide UsedTokensIn;
    hide RevokedDevicesIn;
    forall a ensures RowBooks(rows, a) == if a == account then Sum(RowBooks(db, a), Entry(PairingSucceeded)) else RowBooks(db, a) {
      SpentToken(db.tokens, t, a);
      NewPairing(db.pairings, pairing, row, a);
      NewDevice(db.devices, client, device, a);
    }
  }

  lemma RevokedRows(db: Db, rows: Db, account: nat, d: nat)
    requires d in db.devices && db.devices[d].account == account && !db.devices[d].revoked
    requires rows.devices == db.devices[d := db.devices[d].(revoked := true)] && rows.tokens == db.tokens && rows.audit == db.audit
    requires forall a :: PairingsIn(rows.pairings, a) == PairingsIn(db.pairings, a)
    ensures RowsEnter(db, rows, account, DeviceRevoked)
  {
    hide PairingsIn;
    hide TokensIn;
    hide UsedTokensIn;
    hide RevokedDevicesIn;
    forall a ensures RowBooks(rows, a) == if a == account then Sum(RowBooks(db, a), Entry(DeviceRevoked)) else RowBooks(db, a) {
      RevokedDevice(db.devices, d, a);
    }
  }

  /** A write that moves no row the books count, under an event they do not count. */
  lemma UncountedRows(db: Db, rows: Db, account: nat, event: Event)
    requires Entry(event) == Books(0, 0, 0, 0) && rows.tokens == db.tokens && rows.audit == db.audit
    requires forall a :: PairingsIn(rows.pairings, a) == PairingsIn(db.pairings, a)
    requires forall a :: RevokedDevicesIn(rows.devices, a) == RevokedDevicesIn(db.devices, a)
    ensures RowsEnter(db, rows, account, event)
  {
    hide PairingsIn;
    hide TokensIn;
    hide UsedTokensIn;
    hide RevokedDevicesIn;
    hide Entry;
    forall a ensures RowBooks(rows, a) == if a == account then Sum(RowBooks(db, a), Entry(event)) else RowBooks(db, a) {
      assert PairingsIn(rows.pairings, a) == PairingsIn(db.pairings, a);
      assert RevokedDevicesIn(rows.devices, a) == RevokedDevicesIn(db.devices, a);
      NothingAdded(RowBooks(db, a));
    }
  }

  // ---- Each transaction --------------------------------------------------------------

  lemma EnrollBalances(db: Db, account: nat, device: nat, noiseStatic: Bytes, defaults: Quota)
    requires Balanced(db) && device !in db.devices
    ensures Balanced(Enrolled(db, account, device, noiseStatic, defaults))
  {
    var rows := db.(quotas := db.quotas[account := defaults],
                    devices := db.devices[device := Device(account, Agent, noiseStatic, false)]);
    forall a ensures PairingsIn(rows.pairings, a) == PairingsIn(db.pairings, a) {}
    forall a ensures RevokedDevicesIn(rows.devices, a) == RevokedDevicesIn(db.devices, a) {}
    hide Balanced;
    hide RowsEnter;
    UncountedRows(db, rows, account, AccountCreated);
    LoggedStaysBalanced(db, rows, account, AccountCreated);
    var created := Log(rows, account, AccountCreated);
    UncountedRows(created, created, account, DeviceEnrolled);
    LoggedStaysBalanced(created, created, account, DeviceEnrolled);
  }

  lemma IssueBalances(db: Db, account: nat, agent: nat, routing: Bytes, ttlMs: nat, at: Instants, token: nat)
    requires Balanced(db) && token !in db.tokens
    ensures Balanced(IssueTx(db, account, agent, routing, ttlMs, at, token).0)
  {
    hide Balanced;
    hide RowsEnter;
    var row := NewToken(account, agent, routing, ttlMs, at);
    var rows := db.(tokens := db.tokens[token := row]);
    IssuedRows(db, rows, token, row);
    LoggedStaysBalanced(db, rows, account, TokenIssued);
    UncountedRows(db, db, account, TokenRejected(RateLimited));
    LoggedStaysBalanced(db, db, account, TokenRejected(RateLimited));
    hide Log;
  }

  lemma RedeemClaimedBalances(db: Db, account: nat, t: nat, noiseStatic: Bytes, client: nat, pairing: nat)
    requires Balanced(db) && t in db.tokens && !db.tokens[t].used && db.tokens[t].account == account
    requires client !in db.devices && pairing !in db.pairings
    ensures Balanced(RedeemClaimed(Claimed(db, t), account, t, noiseStatic, client, pairing).0)
  {
    var claimed := Claimed(db, t);
    var agent := db.tokens[t].agent;
    assert claimed.tokens[t].agent == agent && claimed.devices == db.devices && claimed.pairings == db.pairings;
    hide Balanced;
    hide RowsEnter;
    hide ActiveDevices;
    hide MaxDevices;
    var (db', r) := RedeemClaimed(claimed, account, t, noiseStatic, client, pairing);
    match r
    case UnknownToken =>
    case AgentGone =>
      ClaimedRows(db, t, account, TokenRejected(AgentRevoked));
      LoggedStaysBalanced(db, claimed, account, TokenRejected(AgentRevoked));
    case OverQuota =>
      ClaimedRows(db, t, account, TokenRejected(QuotaExceeded));
      LoggedStaysBalanced(db, claimed, account, TokenRejected(QuotaExceeded));
    case Paired(_) =>
      var device := Device(account, Client, noiseStatic, false);
      var row := Pairing(account, agent, client, db.devices[agent].noiseStatic, noiseStatic, None);
      var rows := claimed.(devices := db.devices[client := device], pairings := db.pairings[pairing := row]);
      PairedRows(db, rows, account, t, client, device, pairing, row);
      LoggedStaysBalanced(db, rows, account, PairingSucceeded);
  }

  lemma RedeemBalances(db: Db, op: Op)
    requires Balanced(db) && op.Redeem? && Admissible(db, op)
    ensures Balanced(RedeemTx(db, op.account, op.routing, op.noiseStatic, op.now, op.client, op.pairing).0)
  {
    var found := Find(db, op.account, op.routing);
    if found.Some? {
      var t := found.value;
      hide Balanced;
      hide RowsEnter;
      hide RedeemClaimed;
      if Claimable(db, t, op.account, op.routing, op.now) {
        RedeemClaimedBalances(db, op.account, t, op.noiseStatic, op.client, op.pairing);
      } else {
        var event := TokenRejected(if db.tokens[t].used then AlreadyUsed else Expired);
        UncountedRows(db, db, op.account, event);
        LoggedStaysBalanced(db, db, op.account, event);
      }
    }
  }

  lemma RevokeDeviceBalances(db: Db, account: nat, device: nat)
    requires Balanced(db)
    ensures Balanced(RevokeDeviceTx(db, account, device).0)
  {
    var (db', done) := RevokeDeviceTx(db, account, device);
    if done {
      var rows := db'.(audit := db.audit);
      forall a ensures PairingsIn(rows.pairings, a) == PairingsIn(db.pairings, a) {}
      hide Balanced;
      hide RowsEnter;
      RevokedRows(db, rows, account, device);
      LoggedStaysBalanced(db, rows, account, DeviceRevoked);
      assert db' == Log(rows, account, DeviceRevoked);
    }
  }

  lemma RevokePairingBalances(db: Db, op: Op)
    requires Balanced(db) && op.RevokePairing?
    ensures Balanced(RevokePairingTx(db, op.account, op.pairing, op.actor, op.kind).0)
  {
    var (db', done) := RevokePairingTx(db, op.account, op.pairing, op.actor, op.kind);
    if done {
      var rows := db'.(audit := db.audit);
      forall a ensures PairingsIn(rows.pairings, a) == PairingsIn(db.pairings, a) {}
      forall a ensures RevokedDevicesIn(rows.devices, a) == RevokedDevicesIn(db.devices, a) {}
      hide Balanced;
      hide RowsEnter;
      UncountedRows(db, rows, op.account, PairingRevoked);
      LoggedStaysBalanced(db, rows, op.account, PairingRevoked);
      assert db' == Log(rows, op.account, PairingRevoked);
    }
  }

  lemma StepBalances(db: Db, op: Op, defaults: Quota)
    requires Balanced(db) && Admissible(db, op)
    ensures Balanced(After(db, op, defaults))
  {
    hide Balanced;
    match op
    case Enroll(account, device, noiseStatic) => EnrollBalances(db, account, device, noiseStatic, defaults);
    case Issue(account, agent, routing, ttlMs, at, token) => IssueBalances(db, account, agent, routing, ttlMs, at, token);
    case Redeem(_, _, _, _, _, _) => RedeemBalances(db, op);
    case RevokeDevice(account, device) => RevokeDeviceBalances(db, account, device);
    case RevokePairing(_, _, _, _) => RevokePairingBalances(db, op);
  }

  lemma {:induction false} RunBalances(db: Db, ops: seq<Op>, defaults: Quota)
    requires Balanced(db) && AllAdmissible(db, ops, defaults)
    ensures Balanced(AfterAll(db, ops, defaults))
    decreases |ops|
  {
    if ops != [] {
      StepBalances(db, ops[0], defaults);
      RunBalances(After(db, ops[0], defaults), ops[1..], defaults);
    }
  }

  /** Over every run the audit log accounts for each account's rows exactly: a success for each pairing, an
      issue for each token, a revocation for each revoked device, and for each spent token a success or one of
      the two refusals that come after the claim. */
  lemma AuditAccountsForEveryRow(ops: seq<Op>, defaults: Quota, account: nat)
    requires AllAdmissible(EMPTY, ops, defaults)
    ensures RowBooks(AfterAll(EMPTY, ops, defaults), account) == AuditBooks(AfterAll(EMPTY, ops, defaults), account)
  {
    forall a ensures RowBooks(EMPTY, a) == AuditBooks(EMPTY, a) {
      assert PairingsIn(map[], a) == {} && TokensIn(map[], a) == {} && UsedTokensIn(map[], a) == {} && RevokedDevicesIn(map[], a) == {};
    }
    RunBalances(EMPTY, ops, defaults);
  }

  // ---- What a pairing pins -----------------------------------------------------------

  /** Every pairing, revoked or not, carries the statics of the two devices it names. */
  predicate PinsItsDevices(db: Db) {
    forall p <- db.pairings ::
      var row := db.pairings[p];
      && row.agent in db.devices && row.agentStatic == db.devices[row.agent].noiseStatic
      && row.client in db.devices && row.clientStatic == db.devices[row.client].noiseStatic
  }

  lemma StepPinsItsDevices(db: Db, op: Op, defaults: Quota)
    requires PinsItsDevices(db) && Admissible(db, op)
    ensures PinsItsDevices(After(db, op, defaults))
  {
    if op.Redeem? {
      var found := Find(db, op.account, op.routing);
      assert found.Some? ==> IsMatch(db, found.value, op.account, op.routing);
      hide ActiveDevices;
    }
  }

  lemma {:induction false} PairingsPinTheirDevices(db: Db, ops: seq<Op>, defaults: Quota)
    requires PinsItsDevices(db) && AllAdmissible(db, ops, defaults)
    ensures PinsItsDevices(AfterAll(db, ops, defaults))
    decreases |ops|
  {
    if ops != [] {
      StepPinsItsDevices(db, ops[0], defaults);
      PairingsPinTheirDevices(After(db, ops[0], defaults), ops[1..], defaults);
    }
  }

  /** An issued token can be claimed by its account, under its routing id, until its time to live is over and
      not from then on; and never again once a redemption has claimed it. */
  lemma TokenLivesItsTtl(db: Db, op: Op, when: int, db': Db)
    requires UniqueRouting(db) && op.Issue? && op.token !in db.tokens
    requires IssueTx(db, op.account, op.agent, op.routing, op.ttlMs, op.at, op.token) == (db', Issued)
    ensures Find(db', op.account, op.routing) == Some(op.token)
    ensures Claimable(db', op.token, op.account, op.routing, when) <==> when < op.at.expiryFrom + op.ttlMs
    ensures forall later :: !Claimable(Claimed(db', op.token), op.token, op.account, op.routing, later)
  {
    assert IsMatch(db', op.token, op.account, op.routing);
    assert forall t: nat :: IsMatch(db', t, op.account, op.routing) ==> t == op.token;
  }
}
