/** A redemption that no other interleaves with does what the whole transaction does. */
module RedemptionRefinement {
  import opened Wrappers
  import opened TokenRedemption
  import S = RelayStore

  predicate SameToken(a: Token, b: S.Token) {
    a == Token(b.account, b.agent, b.routing, b.expiresAt, b.used)
  }

  predicate SamePairing(a: Pairing, b: S.Pairing) {
    a.account == b.account && a.agent == b.agent && a.client == b.client && (a.revoked <==> b.revokedBy.Some?)
  }

  predicate ShowsTokens(s: State, db: S.Db) {
    s.tokens.Keys == db.tokens.Keys && forall t <- s.tokens :: SameToken(s.tokens[t], db.tokens[t])
  }

  predicate ShowsDevices(s: State, db: S.Db) {
    s.devices.Keys == db.devices.Keys
    && forall d <- s.devices :: s.devices[d] == Device(db.devices[d].account, db.devices[d].revoked)
  }

  predicate ShowsPairings(s: State, db: S.Db) {
    s.pairings.Keys == db.pairings.Keys && forall p <- s.pairings :: SamePairing(s.pairings[p], db.pairings[p])
  }

  /** The committed rows are the tables' rows. */
  predicate Shows(s: State, db: S.Db) {
    ShowsTokens(s, db) && ShowsDevices(s, db) && ShowsPairings(s, db)
  }

  /** Nothing is in flight. */
  predicate Quiet(s: State) {
    s.txs == map[] && s.locks == map[] && s.revocations == map[]
  }

  /** The statements one redemption runs. */
  ghost function Statements(db: S.Db, x: nat, account: nat, routing: Bytes, now: int, client: nat, pairing: nat): seq<Step> {
    var found := S.Find(db, account, routing);
    [Begin(x, account, routing, now)] +
    if found.None? || !S.Claimable(db, found.value, account, routing, now) then [Miss(x), Commit(x, pairing)]
    else
      var t := found.value;
      var agent := db.tokens[t].agent;
      [Claim(x, t), CheckAgent(x)] +
      if !(agent in db.devices && db.devices[agent].account == account && !db.devices[agent].revoked) then [Commit(x, pairing)]
      else
        var within := |S.ActiveDevices(db, account)| < S.MaxDevices(db, account);
        [CheckQuota(x, S.MaxDevices(db, account))]
        + if within then [Insert(x, client), Commit(x, pairing)] else [Commit(x, pairing)]
  }

  /** The committed rows and locks of a state, with one transaction in flight. */
  function With(s: State, x: nat, tx: Tx): State {
    s.(txs := map[x := tx], locks := if Held(tx.phase).Some? then map[Held(tx.phase).value := x] else map[])
  }

  lemma Commits(s: State, x: nat, tx: Tx, pairing: nat)
    requires Enabled(With(s, x, tx), Commit(x, pairing)) && Quiet(s)
    ensures var s' := Next(With(s, x, tx), Commit(x, pairing));
      Quiet(s') && s' == match tx.phase
        case Inserted(t, agent, client) =>
          Spent(s, t).(devices := s.devices[client := Device(tx.account, false)],
                       pairings := s.pairings[pairing := Pairing(tx.account, agent, client, false, t)])
        case Refused(t) => Spent(s, t)
        case _ => s
  {
    hide HasRoom;
    var s' := Next(With(s, x, tx), Commit(x, pairing));
    assert s'.txs == map[] && s'.locks == map[];
  }

  lemma Misses(s: State, db: S.Db, x: nat, account: nat, routing: Bytes, now: int, pairing: nat)
    requires Quiet(s) && ShowsTokens(s, db) && S.UniqueRouting(db) && pairing !in s.pairings
    requires forall t :: !S.Claimable(db, t, account, routing, now)
    ensures var steps := [Miss(x), Commit(x, pairing)];
      var began := With(s, x, Tx(account, routing, now, Started));
      CanRun(began, steps) && Run(began, steps) == s
  {
    hide HasRoom;
    var began := With(s, x, Tx(account, routing, now, Started));
    var missed := With(s, x, Tx(account, routing, now, Missed));
    forall t | t in s.tokens ensures !Matches(began, began.txs[x], t) {
      assert !S.Claimable(db, t, account, routing, now);
    }
    assert Next(began, Miss(x)) == missed;
    Commits(s, x, missed.txs[x], pairing);
    RunsOne(missed, Commit(x, pairing));
    RunsStep(began, Miss(x), [Commit(x, pairing)]);
    assert [Miss(x)] + [Commit(x, pairing)] == [Miss(x), Commit(x, pairing)];
  }

  /** A statement of the only transaction in flight that keeps what it holds moves its phase and nothing else. */
  lemma Moves(s: State, x: nat, tx: Tx, step: Step, phase: Phase)
    requires Quiet(s) && Enabled(With(s, x, tx), step) && Held(tx.phase) == Held(phase)
    requires step.Miss? || step.CheckAgent? || step.CheckQuota? || step.Insert?
    requires step.tx == x && Next(With(s, x, tx), step).txs[x].phase == phase
    ensures Next(With(s, x, tx), step) == With(s, x, tx.(phase := phase))
  {
    hide HasRoom;
  }

  lemma CanCommit(s: State, x: nat, tx: Tx, pairing: nat)
    requires pairing !in s.pairings && (tx.phase.Inserted? ==> tx.phase.client !in s.devices)
    requires tx.phase.Refused? || tx.phase.Inserted?
    requires Held(tx.phase).value in s.tokens
    ensures Enabled(With(s, x, tx), Commit(x, pairing))
  {
    hide HasRoom;
  }

  /** From the quota check on. */
  lemma Finishes(s: State, x: nat, tx: Tx, limit: nat, client: nat, pairing: nat)
    requires Quiet(s) && tx.phase.AgentFound? && tx.phase.token in s.tokens
    requires pairing !in s.pairings && client !in s.devices
    ensures var within := HasRoom(s, tx.account, limit);
      var steps := [CheckQuota(x, limit)] + if within then [Insert(x, client), Commit(x, pairing)] else [Commit(x, pairing)];
      var t := tx.phase.token;
      && CanRun(With(s, x, tx), steps)
      && Run(With(s, x, tx), steps)
         == if within then
              Spent(s, t).(devices := s.devices[client := Device(tx.account, false)],
                           pairings := s.pairings[pairing := Pairing(tx.account, tx.phase.agent, client, false, t)])
            else Spent(s, t)
  {
    var t, agent := tx.phase.token, tx.phase.agent;
    var checked := With(s, x, tx);
    assert HasRoom(checked, tx.account, limit) == HasRoom(s, tx.account, limit) by {
      assert LiveDevices(checked, tx.account) == LiveDevices(s, tx.account);
    }
    hide HasRoom;
    if HasRoom(s, tx.account, limit) {
      var allowed, inserted := tx.(phase := Allowed(t, agent)), tx.(phase := Inserted(t, agent, client));
      Moves(s, x, tx, CheckQuota(x, limit), Allowed(t, agent));
      Moves(s, x, allowed, Insert(x, client), Inserted(t, agent, client));
      CanCommit(s, x, inserted, pairing);
      Commits(s, x, inserted, pairing);
      hide Next;
      hide Enabled;
      hide CanRun;
      hide Run;
      hide With;
      RunsOne(With(s, x, inserted), Commit(x, pairing));
      RunsStep(With(s, x, allowed), Insert(x, client), [Commit(x, pairing)]);
      assert [Insert(x, client)] + [Commit(x, pairing)] == [Insert(x, client), Commit(x, pairing)];
      RunsStep(checked, CheckQuota(x, limit), [Insert(x, client), Commit(x, pairing)]);
    } else {
      var refused := tx.(phase := Refused(t));
      Moves(s, x, tx, CheckQuota(x, limit), Refused(t));
      CanCommit(s, x, refused, pairing);
      Commits(s, x, refused, pairing);
      hide Next;
      hide Enabled;
      hide CanRun;
      hide Run;
      hide With;
      RunsOne(With(s, x, refused), Commit(x, pairing));
      RunsStep(checked, CheckQuota(x, limit), [Commit(x, pairing)]);
    }
  }

  lemma Claiming(s: State, x: nat, tx: Tx, t: nat)
    requires Quiet(s) && tx.phase.Started? && Matches(s, tx, t)
    ensures Enabled(With(s, x, tx), Claim(x, t))
    ensures Next(With(s, x, tx), Claim(x, t)) == With(s, x, tx.(phase := Claimed(t)))
  {
    hide HasRoom;
  }

  /** From the claim on. */
  lemma Claims(s: State, x: nat, tx: Tx, t: nat, limit: nat, client: nat, pairing: nat)
    requires Quiet(s) && tx.phase.Started? && Matches(s, tx, t)
    requires pairing !in s.pairings && client !in s.devices
    ensures var agent := s.tokens[t].agent;
      var live := AgentLive(s, tx.account, agent);
      var within := HasRoom(s, tx.account, limit);
      var steps := [Claim(x, t), CheckAgent(x)]
        + if !live then [Commit(x, pairing)]
          else [CheckQuota(x, limit)] + if within then [Insert(x, client), Commit(x, pairing)] else [Commit(x, pairing)];
      && CanRun(With(s, x, tx), steps)
      && Run(With(s, x, tx), steps)
         == if live && within then
              Spent(s, t).(devices := s.devices[client := Device(tx.account, false)],
                           pairings := s.pairings[pairing := Pairing(tx.account, agent, client, false, t)])
            else Spent(s, t)
  {
    var agent := s.tokens[t].agent;
    var claimed := With(s, x, tx.(phase := Claimed(t)));
    hide HasRoom;
    Claiming(s, x, tx, t);
    var rest: seq<Step>;
    if AgentLive(s, tx.account, agent) {
      var found := tx.(phase := AgentFound(t, agent));
      Moves(s, x, tx.(phase := Claimed(t)), CheckAgent(x), AgentFound(t, agent));
      rest := [CheckQuota(x, limit)]
        + if HasRoom(s, tx.account, limit) then [Insert(x, client), Commit(x, pairing)] else [Commit(x, pairing)];
      Finishes(s, x, found, limit, client, pairing);
    } else {
      var refused := tx.(phase := Refused(t));
      Moves(s, x, tx.(phase := Claimed(t)), CheckAgent(x), Refused(t));
      rest := [Commit(x, pairing)];
      CanCommit(s, x, refused, pairing);
      Commits(s, x, refused, pairing);
      RunsOne(With(s, x, refused), Commit(x, pairing));
    }
    hide Next;
    hide Enabled;
    hide CanRun;
    hide Run;
    hide With;
    RunsStep(claimed, CheckAgent(x), rest);
    RunsStep(With(s, x, tx), Claim(x, t), [CheckAgent(x)] + rest);
    assert [Claim(x, t)] + ([CheckAgent(x)] + rest) == [Claim(x, t), CheckAgent(x)] + rest;
  }

  lemma SpentShows(s: State, db: S.Db, t: nat)
    requires Shows(s, db) && t in db.tokens
    ensures Shows(Spent(s, t), S.Claimed(db, t))
  {
  }

  lemma InsertedShows(s: State, db: S.Db, client: nat, device: S.Device, pairing: nat, row: S.Pairing, token: nat, audit: seq<S.Audit>)
    requires Shows(s, db) && row.revokedBy.None?
    ensures Shows(s.(devices := s.devices[client := Device(device.account, device.revoked)],
                     pairings := s.pairings[pairing := Pairing(row.account, row.agent, row.client, false, token)]),
                  db.(devices := db.devices[client := device], pairings := db.pairings[pairing := row], audit := audit))
  {
  }

  lemma ClaimShows(s: State, db: S.Db, account: nat, t: nat, noiseStatic: Bytes, client: nat, pairing: nat)
    requires Shows(s, db) && t in db.tokens && db.tokens[t].account == account
    requires client !in db.devices && pairing !in db.pairings
    ensures var agent := s.tokens[t].agent;
      var live := AgentLive(s, account, agent);
      var within := |S.ActiveDevices(db, account)| < S.MaxDevices(db, account);
      Shows(if live && within then
              Spent(s, t).(devices := s.devices[client := Device(account, false)],
                           pairings := s.pairings[pairing := Pairing(account, agent, client, false, t)])
            else Spent(s, t),
            S.RedeemClaimed(S.Claimed(db, t), account, t, noiseStatic, client, pairing).0)
  {
    hide HasRoom;
    var claimed := S.Claimed(db, t);
    var agent := s.tokens[t].agent;
    assert agent == db.tokens[t].agent == claimed.tokens[t].agent;
    assert S.ActiveDevices(claimed, account) == S.ActiveDevices(db, account);
    SpentShows(s, db, t);
    assert AgentLive(s, account, agent)
        <==> agent in claimed.devices && claimed.devices[agent].account == account && !claimed.devices[agent].revoked;
    hide S.ActiveDevices;
    var db' := S.RedeemClaimed(claimed, account, t, noiseStatic, client, pairing).0;
    if AgentLive(s, account, agent) && |S.ActiveDevices(db, account)| < S.MaxDevices(db, account) {
      InsertedShows(Spent(s, t), claimed, client, db'.devices[client], pairing, db'.pairings[pairing], t, db'.audit);
    } else {
      assert db' == claimed.(audit := db'.audit);
    }
  }

  lemma RoomAgrees(s: State, db: S.Db, account: nat)
    requires ShowsDevices(s, db)
    ensures HasRoom(s, account, S.MaxDevices(db, account)) <==> |S.ActiveDevices(db, account)| < S.MaxDevices(db, account)
  {
    assert LiveDevices(s, account) == S.ActiveDevices(db, account);
  }

  /** From the claim, or the miss, on. */
  lemma AfterBegin(s: State, db: S.Db, x: nat, account: nat, routing: Bytes, noiseStatic: Bytes, now: int,
                   client: nat, pairing: nat) returns (rest: seq<Step>)
    requires Quiet(s) && Shows(s, db) && S.UniqueRouting(db) && client !in db.devices && pairing !in db.pairings
    ensures Statements(db, x, account, routing, now, client, pairing) == [Begin(x, account, routing, now)] + rest
    ensures var began := With(s, x, Tx(account, routing, now, Started));
      && CanRun(began, rest) && Quiet(Run(began, rest))
      && Shows(Run(began, rest), S.RedeemTx(db, account, routing, noiseStatic, now, client, pairing).0)
  {
    hide S.RedeemClaimed;
    hide S.ActiveDevices;
    hide HasRoom;
    hide CanRun;
    hide Run;
    hide With;
    var tx := Tx(account, routing, now, Started);
    var found := S.Find(db, account, routing);
    rest := Statements(db, x, account, routing, now, client, pairing)[1..];
    if found.Some? && S.Claimable(db, found.value, account, routing, now) {
      var t := found.value;
      assert SameToken(s.tokens[t], db.tokens[t]);
      RoomAgrees(s, db, account);
      Claims(s, x, tx, t, S.MaxDevices(db, account), client, pairing);
      ClaimShows(s, db, account, t, noiseStatic, client, pairing);
    } else {
      NothingToClaim(db, account, routing, now);
      Misses(s, db, x, account, routing, now, pairing);
    }
  }

  lemma NothingToClaim(db: S.Db, account: nat, routing: Bytes, now: int)
    requires S.UniqueRouting(db)
    requires S.Find(db, account, routing).None?
             || !S.Claimable(db, S.Find(db, account, routing).value, account, routing, now)
    ensures forall t: nat :: !S.Claimable(db, t, account, routing, now)
  {
    forall t: nat ensures !S.Claimable(db, t, account, routing, now) {
      if S.IsMatch(db, t, account, routing) {
        assert S.Find(db, account, routing) == Some(t);
      }
    }
  }

  /** Run alone, the statements commit exactly the rows of the atomic transaction. */
  lemma AloneIsAtomic(s: State, db: S.Db, x: nat, account: nat, routing: Bytes, noiseStatic: Bytes, now: int,
                      client: nat, pairing: nat)
    requires Quiet(s) && Shows(s, db) && S.UniqueRouting(db) && client !in db.devices && pairing !in db.pairings
    ensures var steps := Statements(db, x, account, routing, now, client, pairing);
      CanRun(s, steps) && Quiet(Run(s, steps))
      && Shows(Run(s, steps), S.RedeemTx(db, account, routing, noiseStatic, now, client, pairing).0)
  {
    assert Next(s, Begin(x, account, routing, now)) == With(s, x, Tx(account, routing, now, Started));
    hide Next;
    hide Shows;
    hide Statements;
    hide S.RedeemTx;
    var rest := AfterBegin(s, db, x, account, routing, noiseStatic, now, client, pairing);
    RunsStep(s, Begin(x, account, routing, now), rest);
  }

  /** The statements of one device revocation: the first update returns no row unless the device is live. */
  function RevocationStatements(db: S.Db, r: nat, account: nat, d: nat): seq<Step> {
    if d in db.devices && db.devices[d].account == account && !db.devices[d].revoked
    then [Mark(r, account, d), Sweep(r), FinishRevocation(r)] else []
  }

  lemma RevokedShows(s: State, db: S.Db, account: nat, d: nat)
    requires Shows(s, db) && AgentLive(s, account, d)
    ensures Shows(s.(devices := s.devices[d := s.devices[d].(revoked := true)],
                     pairings := map p | p in s.pairings ::
                       if p in Found(s, Revocation(account, d, None)) then s.pairings[p].(revoked := true) else s.pairings[p]),
                  S.RevokeDeviceTx(db, account, d).0)
  {
    assert forall p <- s.pairings :: SamePairing(s.pairings[p], db.pairings[p]);
  }

  /** Run alone, a revocation's statements commit exactly the rows of the atomic transaction. */
  lemma RevocationAloneIsAtomic(s: State, db: S.Db, r: nat, account: nat, d: nat)
    requires Quiet(s) && Shows(s, db)
    ensures var steps := RevocationStatements(db, r, account, d);
      CanRun(s, steps) && Quiet(Run(s, steps)) && Shows(Run(s, steps), S.RevokeDeviceTx(db, account, d).0)
  {
    var steps := RevocationStatements(db, r, account, d);
    if steps != [] {
      var marked := s.(revocations := map[r := Revocation(account, d, None)]);
      var found := Found(s, Revocation(account, d, None));
      var swept := s.(revocations := map[r := Revocation(account, d, Some(found))]);
      assert AgentLive(s, account, d);
      assert Next(s, steps[0]) == marked && Next(marked, steps[1]) == swept;
      assert Quiet(Next(swept, steps[2]));
      RevokedShows(s, db, account, d);
      ThreeSteps(s, steps);
    }
  }
}
