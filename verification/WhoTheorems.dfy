/** Who can change which record: over whole runs, at any depth of calls back into the contracts. */
module WhoTheorems {
  import opened Common
  import opened Machine
  import opened Payments
  import opened AttemptTheorems
  import Escrow = EscrowSpec
  import Registry = RegistrySpec
  import Auction = AuctionSpec

  // ---- Deposits ----

  function DepositIs(id: Id, d: Escrow.Deposit): Fact {
    (e: Escrow.State, r: Registry.State, a: Auction.State) => id in e.escrows && e.escrows[id] == d
  }

  /** Who may move a deposit, as it stands: the owner resolves a dispute; the release authority or the owner releases or
      disputes; the depositor takes a refund once 24 hours have passed. */
  predicate MayMove(x: Attempt, id: Id, d: Escrow.Deposit) {
    match d.status
    case Disputed => Resolves(x, id)
    case Pending => Releases(x, id) || TakesBack(x, id, d)
    case _ => false
  }

  predicate Resolves(x: Attempt, id: Id) {
    x.tx.call.ToEscrow? && x.tx.call.escrow.ResolveDispute? && x.tx.call.escrow.id == id && x.tx.sender == x.w.escrow.owner
  }

  predicate Releases(x: Attempt, id: Id) {
    && (x.tx.call == ToEscrow(Escrow.Release(id)) || x.tx.call == ToEscrow(Escrow.Dispute(id)))
    && (x.tx.sender == x.w.escrow.releaseAuthority || x.tx.sender == x.w.escrow.owner)
  }

  predicate TakesBack(x: Attempt, id: Id, d: Escrow.Deposit) {
    x.tx.call == ToEscrow(Escrow.Refund(id)) && x.tx.sender == d.user && x.w.now >= d.depositedAt + 24 * 3600
  }

  /** A session opened by anyone leaves deposits, roles and the other sessions alone. */
  lemma OpeningAdds(w: World, id: Id, provider: Address, rate: nat, deposit: nat)
    ensures var s := Escrow.Begin(w.escrow, Msg(AuctionContract, deposit, w.now), Escrow.StartSession(id, provider, rate));
            s.Pay? ==> && s.e.escrows == w.escrow.escrows && id !in w.escrow.sessions
                       && (forall i | i in w.escrow.sessions :: i in s.e.sessions && s.e.sessions[i] == w.escrow.sessions[i])
                       && s.e.owner == w.escrow.owner && s.e.releaseAuthority == w.escrow.releaseAuthority
                       && s.e.proofAuthority == w.escrow.proofAuthority
  {
    StartOpens(w.escrow, Msg(AuctionContract, deposit, w.now), id, provider, rate);
  }

  lemma DepositStays(e: Escrow.State, m: Msg, c: Escrow.Call, id: Id, d: Escrow.Deposit, w: World, tx: Tx)
    requires w.escrow == e && m == Msg(tx.sender, tx.value, w.now) && tx.call == ToEscrow(c)
    requires id in e.escrows && e.escrows[id] == d && !MayMove(Attempt(w, tx), id, d)
    ensures var s := Escrow.Begin(e, m, c);
            && (!s.Revert? ==> id in s.e.escrows && s.e.escrows[id] == d) && (s.Slash? ==> s.k.RefundAfterSlash?)
  {
  }

  lemma DepositSpared(id: Id, d: Escrow.Deposit, w: World, tx: Tx)
    requires On(DepositIs(id, d), w) && !MayMove(Attempt(w, tx), id, d)
    ensures Spares(DepositIs(id, d), AnyPayment(), w, tx)
  {
    match tx.call
    case ToEscrow(c) => DepositStays(w.escrow, Msg(tx.sender, tx.value, w.now), c, id, d, w, tx);
    case ToAuction(c) =>
      forall balance, active: seq<Registry.Provider>
        ensures AuctionKeeps(DepositIs(id, d), w, Auction.Begin(w.auction, Msg(tx.sender, tx.value, w.now), balance, active, c))
      {
        var s := Auction.Begin(w.auction, Msg(tx.sender, tx.value, w.now), balance, active, c);
        if s.Award? {
          OpeningAdds(w, s.id, s.provider, s.ratePerSecond, s.deposit);
        }
      }
    case _ =>
  }

  lemma DepositProtected(id: Id, d: Escrow.Deposit, right: Attempt -> bool)
    requires forall x :: right(x) <==> MayMove(x, id, d)
    ensures Protects(DepositIs(id, d), right, AnyPayment())
  {
    forall w, tx: Tx | On(DepositIs(id, d), w) && tx.sender.Wallet? && !right(Attempt(w, tx))
      ensures Spares(DepositIs(id, d), AnyPayment(), w, tx)
    {
      DepositSpared(id, d, w, tx);
    }
    ProtectsBy(DepositIs(id, d), right, AnyPayment());
  }

  /** Over any run, if a deposit's record has changed, somebody entitled to it asked, in some transaction and at some depth,
      while the record was still as it had been. */
  lemma MovedByEntitled(w: World, blocks: seq<Block>, id: Id, d: Escrow.Deposit) returns (x: Attempt)
    requires On(DepositIs(id, d), w) && !On(DepositIs(id, d), Run(w, blocks))
    ensures x in RunAttempts(w, blocks) && On(DepositIs(id, d), x.w) && MayMove(x, id, d)
  {
    var right := (x: Attempt) => MayMove(x, id, d);
    DepositProtected(id, d, right);
    x := EndedByRight(w, blocks, DepositIs(id, d), right, AnyPayment());
  }

  /** A disputed deposit waits for the owner: over any run in which no owner of the moment resolves it, at any depth, it
      stays disputed and as it is. */
  lemma DisputeWaitsForOwner(w: World, blocks: seq<Block>, id: Id, d: Escrow.Deposit)
    requires On(DepositIs(id, d), w) && d.status.Disputed?
    requires forall x | x in RunAttempts(w, blocks) :: !Resolves(x, id)
    ensures On(DepositIs(id, d), Run(w, blocks))
  {
    if !On(DepositIs(id, d), Run(w, blocks)) {
      var _ := MovedByEntitled(w, blocks, id, d);
    }
  }

  /** A pending deposit waits for its user, the release authority or the owner. */
  lemma PendingWaits(w: World, blocks: seq<Block>, id: Id, d: Escrow.Deposit)
    requires On(DepositIs(id, d), w) && d.status.Pending?
    requires forall x | x in RunAttempts(w, blocks) :: !Releases(x, id) && !TakesBack(x, id, d)
    ensures On(DepositIs(id, d), Run(w, blocks))
  {
    if !On(DepositIs(id, d), Run(w, blocks)) {
      var _ := MovedByEntitled(w, blocks, id, d);
    }
  }

  // ---- Sessions ----

  function SessionIs(id: Id, s: Escrow.Session): Fact {
    (e: Escrow.State, r: Registry.State, a: Auction.State) => id in e.sessions && e.sessions[id] == s
  }

  /** Who may change a session's record while it runs: anyone by having it paid, the proof authority or the owner by a proof or
      a slash, its user by stopping it. One that has ended stays as it is. */
  predicate MayDraw(x: Attempt, id: Id, s: Escrow.Session) {
    var proves := x.tx.sender == x.w.escrow.proofAuthority || x.tx.sender == x.w.escrow.owner;
    s.isActive && x.tx.call.ToEscrow? &&
    match x.tx.call.escrow
    case ReleasePayment(i) => i == id
    case SubmitProof(i) => i == id && proves
    case SlashProvider(i, _) => i == id && proves
    case StopSession(i) => i == id && x.tx.sender == s.user
    case _ => false
  }

  /** Every payment but the one in the middle of stopping this session. */
  function NotStopping(id: Id): Kont -> bool {
    (k: Kont) => (k.SlashK? ==> k.k.RefundAfterSlash?) && k != EscrowK(Escrow.FinishStop(id))
  }

  lemma SessionStays(e: Escrow.State, m: Msg, c: Escrow.Call, id: Id, s: Escrow.Session, w: World, tx: Tx)
    requires w.escrow == e && m == Msg(tx.sender, tx.value, w.now) && tx.call == ToEscrow(c)
    requires id in e.sessions && e.sessions[id] == s && !MayDraw(Attempt(w, tx), id, s)
    ensures var step := Escrow.Begin(e, m, c);
            && (!step.Revert? ==> id in step.e.sessions && step.e.sessions[id] == s)
            && (step.Pay? ==> step.k != Escrow.FinishStop(id)) && (step.Slash? ==> step.k.RefundAfterSlash?)
  {
  }

  lemma SessionSpared(id: Id, s: Escrow.Session, w: World, tx: Tx)
    requires On(SessionIs(id, s), w) && !MayDraw(Attempt(w, tx), id, s)
    ensures Spares(SessionIs(id, s), NotStopping(id), w, tx)
  {
    match tx.call
    case ToEscrow(c) => SessionStays(w.escrow, Msg(tx.sender, tx.value, w.now), c, id, s, w, tx);
    case ToAuction(c) =>
      forall balance, active: seq<Registry.Provider>
        ensures AuctionKeeps(SessionIs(id, s), w, Auction.Begin(w.auction, Msg(tx.sender, tx.value, w.now), balance, active, c))
      {
        var step := Auction.Begin(w.auction, Msg(tx.sender, tx.value, w.now), balance, active, c);
        if step.Award? {
          OpeningAdds(w, step.id, step.provider, step.ratePerSecond, step.deposit);
        }
      }
    case _ =>
  }

  /** Over any run, if a session's record has changed, it was running, and somebody who may draw on it or end it asked, in some
      transaction and at some depth, while the record was still as it had been. */
  lemma DrawnByEntitled(w: World, blocks: seq<Block>, id: Id, s: Escrow.Session) returns (x: Attempt)
    requires On(SessionIs(id, s), w) && !On(SessionIs(id, s), Run(w, blocks))
    ensures x in RunAttempts(w, blocks) && On(SessionIs(id, s), x.w) && MayDraw(x, id, s)
  {
    var right := (x: Attempt) => MayDraw(x, id, s);
    forall v, tx: Tx | On(SessionIs(id, s), v) && tx.sender.Wallet? && !right(Attempt(v, tx))
      ensures Spares(SessionIs(id, s), NotStopping(id), v, tx)
    {
      SessionSpared(id, s, v, tx);
    }
    ProtectsBy(SessionIs(id, s), right, NotStopping(id));
    x := EndedByRight(w, blocks, SessionIs(id, s), right, NotStopping(id));
  }

  // ---- Roles ----

  /** Who runs each contract: the escrow's owner and authorities, the registry's owner and authority, the auction's owner and
      fallback. */
  datatype Roles = Roles(
    escrowOwner: Address, releaseAuthority: Address, proofAuthority: Address, registryOwner: Address, slashAuthority: Address,
    auctionOwner: Address, fallbackProvider: Address)

  function RolesOf(e: Escrow.State, r: Registry.State, a: Auction.State): Roles {
    Roles(e.owner, e.releaseAuthority, e.proofAuthority, r.owner, r.slashAuthority, a.owner, a.fallbackProvider)
  }

  function RolesAre(roles: Roles): Fact {
    (e: Escrow.State, r: Registry.State, a: Auction.State) => RolesOf(e, r, a) == roles
  }

  /** Each contract's own owner, by a setter of that contract. */
  predicate MayAppoint(x: Attempt, roles: Roles) {
    match x.tx.call
    case ToEscrow(c) =>
      x.tx.sender == roles.escrowOwner
      && (c.SetReleaseAuthority? || c.SetProofAuthority? || c.TransferOwnership? || c.RenounceOwnership?)
    case ToRegistry(c) =>
      x.tx.sender == roles.registryOwner && (c.SetSlashAuthority? || c.TransferOwnership? || c.RenounceOwnership?)
    case ToAuction(c) =>
      x.tx.sender == roles.auctionOwner && (c.SetFallbackProvider? || c.TransferOwnership? || c.RenounceOwnership?)
    case ToWallet(_) => false
  }

  lemma EscrowRolesStay(e: Escrow.State, m: Msg, c: Escrow.Call)
    requires m.sender == e.owner ==>
               !c.SetReleaseAuthority? && !c.SetProofAuthority? && !c.TransferOwnership? && !c.RenounceOwnership?
    ensures var s := Escrow.Begin(e, m, c);
            && (!s.Revert? ==> s.e.owner == e.owner && s.e.releaseAuthority == e.releaseAuthority && s.e.proofAuthority == e.proofAuthority)
            && (s.Slash? ==> s.k.RefundAfterSlash?)
  {
  }

  lemma RegistryRolesStay(r: Registry.State, m: Msg, c: Registry.Call)
    requires m.sender == r.owner ==> !c.SetSlashAuthority? && !c.TransferOwnership? && !c.RenounceOwnership?
    ensures var s := Registry.Begin(r, m, c); !s.Revert? ==> s.r.owner == r.owner && s.r.slashAuthority == r.slashAuthority
  {
  }

  lemma AuctionRolesStay(a: Auction.State, m: Msg, balance: nat, active: seq<Registry.Provider>, c: Auction.Call)
    requires m.sender == a.owner ==> !c.SetFallbackProvider? && !c.TransferOwnership? && !c.RenounceOwnership?
    ensures var s := Auction.Begin(a, m, balance, active, c); !s.Revert? ==> s.a.owner == a.owner && s.a.fallbackProvider == a.fallbackProvider
  {
  }

  lemma RolesSpared(roles: Roles, w: World, tx: Tx)
    requires On(RolesAre(roles), w) && !MayAppoint(Attempt(w, tx), roles)
    ensures Spares(RolesAre(roles), AnyPayment(), w, tx)
  {
    var m := Msg(tx.sender, tx.value, w.now);
    match tx.call
    case ToEscrow(c) =>
      EscrowRolesStay(w.escrow, m, c);
      var s := Escrow.Begin(w.escrow, m, c);
      if s.Slash? {
        RegistryRolesStay(w.registry, Msg(EscrowContract, 0, w.now), Registry.SlashStake(s.provider, s.evidence));
      }
    case ToRegistry(c) => RegistryRolesStay(w.registry, m, c);
    case ToAuction(c) =>
      forall balance, active: seq<Registry.Provider>
        ensures AuctionKeeps(RolesAre(roles), w, Auction.Begin(w.auction, m, balance, active, c))
      {
        AuctionRolesStay(w.auction, m, balance, active, c);
        var s := Auction.Begin(w.auction, m, balance, active, c);
        if s.Award? {
          OpeningAdds(w, s.id, s.provider, s.ratePerSecond, s.deposit);
        }
      }
    case _ =>
  }

  /** Over any run, if any of the seven roles has changed hands, the owner of that contract has appointed somebody, in some
      transaction and at some depth. */
  lemma AppointedByOwner(w: World, blocks: seq<Block>, roles: Roles) returns (x: Attempt)
    requires On(RolesAre(roles), w) && !On(RolesAre(roles), Run(w, blocks))
    ensures x in RunAttempts(w, blocks) && On(RolesAre(roles), x.w) && MayAppoint(x, roles)
  {
    var right := (x: Attempt) => MayAppoint(x, roles);
    forall v, tx: Tx | On(RolesAre(roles), v) && tx.sender.Wallet? && !right(Attempt(v, tx))
      ensures Spares(RolesAre(roles), AnyPayment(), v, tx)
    {
      RolesSpared(roles, v, tx);
    }
    ProtectsBy(RolesAre(roles), right, AnyPayment());
    x := EndedByRight(w, blocks, RolesAre(roles), right, AnyPayment());
  }

  // ---- Providers ----

  function ProviderIs(p: Address, record: Registry.Provider): Fact {
    (e: Escrow.State, r: Registry.State, a: Auction.State) => p in r.providers && r.providers[p] == record
  }

  /** Who may change a provider's record: the provider itself by its own calls, the registry's authority or owner by a slash or
      by counting a job, and the escrow's by slashing one of its sessions. */
  predicate MayEdit(x: Attempt, p: Address) {
    match x.tx.call
    case ToEscrow(c) =>
      && c.SlashProvider? && c.id in x.w.escrow.sessions && x.w.escrow.sessions[c.id].provider == p
      && (x.tx.sender == x.w.escrow.proofAuthority || x.tx.sender == x.w.escrow.owner)
    case ToRegistry(c) =>
      (match c
       case Update(_, _) => x.tx.sender == p
       case Stake => x.tx.sender == p
       case Unstake(_) => x.tx.sender == p
       case Deactivate => x.tx.sender == p
       case Reactivate => x.tx.sender == p
       case SlashStake(q, _) => q == p && (x.tx.sender == x.w.registry.slashAuthority || x.tx.sender == x.w.registry.owner)
       case RecordJobCompleted(q) => q == p && (x.tx.sender == x.w.registry.slashAuthority || x.tx.sender == x.w.registry.owner)
       case _ => false)
    case _ => false
  }

  lemma ProviderStays(r: Registry.State, m: Msg, c: Registry.Call, p: Address, w: World, tx: Tx)
    requires w.registry == r && m == Msg(tx.sender, tx.value, w.now) && tx.call == ToRegistry(c)
    requires p in r.providers && !MayEdit(Attempt(w, tx), p)
    ensures var s := Registry.Begin(r, m, c); !s.Revert? ==> p in s.r.providers && s.r.providers[p] == r.providers[p]
  {
  }

  lemma SlashNames(e: Escrow.State, m: Msg, c: Escrow.Call)
    ensures var s := Escrow.Begin(e, m, c);
            s.Slash? ==> && c.SlashProvider? && c.id in e.sessions && e.sessions[c.id].provider == s.provider && s.k.RefundAfterSlash?
                         && (m.sender == e.proofAuthority || m.sender == e.owner)
  {
  }

  lemma SlashStakeNames(r: Registry.State, m: Msg, provider: Address, evidence: nat, p: Address)
    requires p != provider && p in r.providers
    ensures var s := Registry.Begin(r, m, Registry.SlashStake(provider, evidence));
            s.Pay? ==> p in s.r.providers && s.r.providers[p] == r.providers[p]
  {
  }

  lemma ProviderSpared(p: Address, record: Registry.Provider, w: World, tx: Tx)
    requires On(ProviderIs(p, record), w) && !MayEdit(Attempt(w, tx), p)
    ensures Spares(ProviderIs(p, record), AnyPayment(), w, tx)
  {
    var m := Msg(tx.sender, tx.value, w.now);
    match tx.call
    case ToEscrow(c) =>
      SlashNames(w.escrow, m, c);
      var s := Escrow.Begin(w.escrow, m, c);
      if s.Slash? {
        SlashStakeNames(w.registry, Msg(EscrowContract, 0, w.now), s.provider, s.evidence, p);
      }
    case ToRegistry(c) => ProviderStays(w.registry, m, c, p, w, tx);
    case _ =>
  }

  /** Over any run, if a provider's record has changed, the provider itself or an authority asked, in some transaction and at
      some depth, while the record was still as it had been. */
  lemma EditedByEntitled(w: World, blocks: seq<Block>, p: Address, record: Registry.Provider) returns (x: Attempt)
    requires On(ProviderIs(p, record), w) && !On(ProviderIs(p, record), Run(w, blocks))
    ensures x in RunAttempts(w, blocks) && On(ProviderIs(p, record), x.w) && MayEdit(x, p)
  {
    var right := (x: Attempt) => MayEdit(x, p);
    forall v, tx: Tx | On(ProviderIs(p, record), v) && tx.sender.Wallet? && !right(Attempt(v, tx))
      ensures Spares(ProviderIs(p, record), AnyPayment(), v, tx)
    {
      ProviderSpared(p, record, v, tx);
    }
    ProtectsBy(ProviderIs(p, record), right, AnyPayment());
    x := EndedByRight(w, blocks, ProviderIs(p, record), right, AnyPayment());
  }

  // ---- Jobs ----

  function JobIs(id: Id, j: Auction.Job): Fact {
    (e: Escrow.State, r: Registry.State, a: Auction.State) => id in a.jobs && a.jobs[id] == j
  }

  /** Who may settle an open job: its user by cancelling it, anyone by closing it once 30 seconds are over. */
  predicate MaySettle(x: Attempt, id: Id, j: Auction.Job) {
    && j.status.Open?
    && ((x.tx.call == ToAuction(Auction.CancelJob(id)) && x.tx.sender == j.user)
        || (x.tx.call == ToAuction(Auction.CloseAuction(id)) && x.w.now > j.depositedAt + 30))
  }

  lemma JobStays(a: Auction.State, m: Msg, balance: nat, active: seq<Registry.Provider>, c: Auction.Call, id: Id, w: World, tx: Tx)
    requires w.auction == a && m == Msg(tx.sender, tx.value, w.now) && tx.call == ToAuction(c)
    requires id in a.jobs && !MaySettle(Attempt(w, tx), id, a.jobs[id])
    ensures var s := Auction.Begin(a, m, balance, active, c); !s.Revert? ==> id in s.a.jobs && s.a.jobs[id] == a.jobs[id]
  {
  }

  lemma JobSpared(id: Id, j: Auction.Job, w: World, tx: Tx)
    requires On(JobIs(id, j), w) && !MaySettle(Attempt(w, tx), id, j)
    ensures Spares(JobIs(id, j), AnyPayment(), w, tx)
  {
    var m := Msg(tx.sender, tx.value, w.now);
    match tx.call
    case ToEscrow(c) => SlashNames(w.escrow, m, c);
    case ToAuction(c) =>
      forall balance, active: seq<Registry.Provider>
        ensures AuctionKeeps(JobIs(id, j), w, Auction.Begin(w.auction, m, balance, active, c))
      {
        JobStays(w.auction, m, balance, active, c, id, w, tx);
      }
    case _ =>
  }

  /** Over any run, if a job's record has changed, it was open, and its user has cancelled it or somebody has closed it after its
      window, in some transaction and at some depth. */
  lemma SettledByEntitled(w: World, blocks: seq<Block>, id: Id, j: Auction.Job) returns (x: Attempt)
    requires On(JobIs(id, j), w) && !On(JobIs(id, j), Run(w, blocks))
    ensures x in RunAttempts(w, blocks) && On(JobIs(id, j), x.w) && MaySettle(x, id, j)
  {
    var right := (x: Attempt) => MaySettle(x, id, j);
    forall v, tx: Tx | On(JobIs(id, j), v) && tx.sender.Wallet? && !right(Attempt(v, tx))
      ensures Spares(JobIs(id, j), AnyPayment(), v, tx)
    {
      JobSpared(id, j, v, tx);
    }
    ProtectsBy(JobIs(id, j), right, AnyPayment());
    x := EndedByRight(w, blocks, JobIs(id, j), right, AnyPayment());
  }
}
