/** The calls that make no payment, one by one: exactly when each goes through, and exactly what it then leaves. */
module CallTheorems {
  import opened Common
  import opened MapSum
  import opened Machine
  import opened Guarantee
  import opened ChainTheorems
  import opened Payments
  import opened PaymentTheorems
  import opened CompletionTheorems
  import Escrow = EscrowSpec
  import Registry = RegistrySpec
  import RS = RegistrySound
  import Auction = AuctionSpec
  import AS = AuctionSound

  /** A call that does not get as far as a payment is over when it has begun. */
  lemma OneStep(w: World, tx: Tx)
    ensures !Start(w, tx).Calling? ==> Exec(w, tx) == Start(w, tx)
  {
  }

  /** The caller's ETH has arrived; nothing else has changed. */
  function Arrived(w: World, tx: Tx, at: Address): World
    requires tx.value <= Balance(w, tx.sender)
  {
    Transferred(w, tx.sender, at, tx.value)
  }

  // ---- The escrow ----

  /** A deposit needs ETH and a fresh id; what is recorded and announced is what the caller asked for and sent. */
  lemma DepositFate(w: World, tx: Tx, id: Id, provider: Address)
    requires Reachable(w) && tx.call == ToEscrow(Escrow.DepositFor(id, provider))
    ensures Exec(w, tx) ==
            if tx.sender.Wallet? && 0 < tx.value <= Balance(w, tx.sender) && id !in w.escrow.escrows then
              Done(Arrived(w, tx, EscrowContract).(escrow := w.escrow.(
                escrows := w.escrow.escrows[id := Escrow.Deposit(tx.sender, provider, tx.value, w.now, Escrow.Pending)],
                events := w.escrow.events + [Escrow.Entry(w.now, Escrow.Deposited(id, tx.sender, provider, tx.value))])))
            else Reverted
  {
    ReachableCovered(w);
    OneStep(w, tx);
  }

  /** A pending deposit is disputed by the release authority or the owner, and by nobody else. */
  lemma DisputeFate(w: World, tx: Tx, id: Id)
    requires tx.call == ToEscrow(Escrow.Dispute(id))
    ensures Exec(w, tx) ==
            if && tx.sender.Wallet? && tx.value == 0 && (tx.sender == w.escrow.releaseAuthority || tx.sender == w.escrow.owner)
               && id in w.escrow.escrows && w.escrow.escrows[id].status.Pending?
            then
              Done(Arrived(w, tx, EscrowContract).(escrow := w.escrow.(
                escrows := w.escrow.escrows[id := w.escrow.escrows[id].(status := Escrow.Disputed)],
                events := w.escrow.events + [Escrow.Entry(w.now, Escrow.DisputeOpened(id))])))
            else Reverted
  {
    OneStep(w, tx);
  }

  predicate FromOwner(tx: Tx, owner: Address) {
    tx.sender.Wallet? && tx.value == 0 && tx.sender == owner
  }

  /** The escrow's two authorities are set by the owner alone, each by its own call. */
  lemma EscrowAuthorities(w: World, tx: Tx, a: Address)
    ensures tx.call == ToEscrow(Escrow.SetReleaseAuthority(a)) ==>
              Exec(w, tx) == if !FromOwner(tx, w.escrow.owner) then Reverted else
                Done(Arrived(w, tx, EscrowContract).(escrow := w.escrow.(
                  releaseAuthority := a, events := w.escrow.events + [Escrow.Entry(w.now, Escrow.AuthorityUpdated(a))])))
    ensures tx.call == ToEscrow(Escrow.SetProofAuthority(a)) ==>
              Exec(w, tx) == if !FromOwner(tx, w.escrow.owner) then Reverted else
                Done(Arrived(w, tx, EscrowContract).(escrow := w.escrow.(
                  proofAuthority := a, events := w.escrow.events + [Escrow.Entry(w.now, Escrow.AuthorityUpdated(a))])))
  {
    OneStep(w, tx);
  }

  /** The escrow's owner hands it on, but not to address zero, or gives it up. */
  lemma EscrowOwnership(w: World, tx: Tx, a: Address)
    ensures tx.call == ToEscrow(Escrow.TransferOwnership(a)) ==>
              Exec(w, tx) == if !FromOwner(tx, w.escrow.owner) || a == Zero then Reverted else
                Done(Arrived(w, tx, EscrowContract).(escrow := w.escrow.(owner := a)))
    ensures tx.call == ToEscrow(Escrow.RenounceOwnership) ==>
              Exec(w, tx) == if !FromOwner(tx, w.escrow.owner) then Reverted else
                Done(Arrived(w, tx, EscrowContract).(escrow := w.escrow.(owner := Zero)))
  {
    OneStep(w, tx);
  }

  /** The owner takes the fees, if there are any and it accepts them; none are left then. */
  lemma WithdrawFate(w: World, tx: Tx)
    requires Reachable(w) && tx.call == ToEscrow(Escrow.WithdrawFees)
    ensures Exec(w, tx).Done? <==> FromOwner(tx, w.escrow.owner) && w.escrow.accruedFees > 0 && Accepts(tx.first)
    ensures Exec(w, tx).Done? ==> Step(w, tx).escrow.accruedFees == 0
    ensures Exec(w, tx).Done? ==>
              OutOf(Step(w, tx).transfers, EscrowContract) ==
              OutOf(w.transfers, EscrowContract) + Payment(tx.sender, w.escrow.accruedFees)
  {
    ReachableCovered(w);
    OnePaymentFate(w, tx);
    if Exec(w, tx).Done? {
      CompletedEscrowCallPays(w, tx, Step(w, tx));
      FeesTaken(w, tx);
    }
  }

  lemma FeesTaken(w: World, tx: Tx)
    requires tx.call == ToEscrow(Escrow.WithdrawFees) && Exec(w, tx).Done?
    ensures Step(w, tx).escrow.accruedFees == 0
  {
    assert Advance(Reverted, tx.first) == Reverted && Advance(Reverted, tx.second) == Reverted;
    var p := Start(w, tx);
    var u := Send(p.w, p.from, p.to, p.amount, tx.first);
    GuardsHold(Paid(p.w, p.from, p.to, p.amount), tx.first);
    assert Exec(w, tx) == Done(u.value.(escrow := u.value.escrow.(entered := false)));
  }

  // ---- The registry ----

  /** What the registry's storage and log become. */
  function Kept(w: World, tx: Tx, a: Address, p: Registry.Provider, list: seq<Address>, events: seq<Registry.Event>): Pause
    requires tx.value <= Balance(w, tx.sender)
  {
    Done(Arrived(w, tx, RegistryContract).(registry := w.registry.(
      providers := w.registry.providers[a := p], providerList := list, events := w.registry.events + events)))
  }

  /** A new provider brings the minimum stake and an endpoint; it is listed last, active, with what it asked for and sent. */
  lemma RegisterFate(w: World, tx: Tx, endpoint: string, price: nat)
    requires Reachable(w) && tx.call == ToRegistry(Registry.Register(endpoint, price))
    ensures Exec(w, tx) ==
            if && tx.sender.Wallet? && 10_000_000_000_000_000 <= tx.value <= Balance(w, tx.sender)
               && tx.sender !in w.registry.providers && endpoint != ""
            then Kept(w, tx, tx.sender, Registry.Provider(tx.sender, endpoint, price, tx.value, 0, 0, true),
                      w.registry.providerList + [tx.sender], [Registry.ProviderRegistered(tx.sender, endpoint, price, tx.value)])
            else Reverted
  {
    ReachableCovered(w);
    OneStep(w, tx);
  }

  /** A provider replaces its own endpoint and price, and nothing else. */
  lemma UpdateFate(w: World, tx: Tx, endpoint: string, price: nat)
    requires tx.call == ToRegistry(Registry.Update(endpoint, price))
    ensures Exec(w, tx) ==
            if tx.sender.Wallet? && tx.value == 0 && tx.sender in w.registry.providers && endpoint != "" then
              Kept(w, tx, tx.sender, w.registry.providers[tx.sender].(endpoint := endpoint, pricePerHour := price),
                   w.registry.providerList, [Registry.ProviderUpdated(tx.sender, endpoint, price)])
            else Reverted
  {
    OneStep(w, tx);
  }

  predicate StakesMore(w: World, tx: Tx) {
    tx.sender.Wallet? && 0 < tx.value <= Balance(w, tx.sender) && tx.sender in w.registry.providers
  }

  /** A provider adds to its stake, and is awake again if that brings it to the minimum. */
  lemma StakeFate(w: World, tx: Tx)
    requires Reachable(w) && Scarce(w) && tx.call == ToRegistry(Registry.Stake)
    ensures Exec(w, tx) ==
            if StakesMore(w, tx) then
              var p := w.registry.providers[tx.sender];
              var staked := p.stakedAmount + tx.value;
              Kept(w, tx, tx.sender, p.(stakedAmount := staked, active := p.active || staked >= 10_000_000_000_000_000),
                   w.registry.providerList,
                   (if !p.active && staked >= 10_000_000_000_000_000 then [Registry.ProviderReactivated(tx.sender)] else [])
                   + [Registry.Staked(tx.sender, tx.value, staked)])
            else Reverted
  {
    ReachableCovered(w);
    OneStep(w, tx);
    if StakesMore(w, tx) {
      StakeInRange(w, tx);
    }
  }

  /** Stakes and wallets together never hold more ETH than there is. */
  lemma StakeInRange(w: World, tx: Tx)
    requires Reachable(w) && Scarce(w) && StakesMore(w, tx)
    ensures w.registry.providers[tx.sender].stakedAmount + tx.value <= MAX_UINT256
  {
    ReachableInv(w);
    SumBounds(RS.Stakes(w.registry), tx.sender);
    SumBounds(w.eth, tx.sender);
    SumBounds(w.eth, RegistryContract);
  }

  /** A provider puts itself to sleep at any time, and wakes itself up while it holds the minimum stake. */
  lemma ActivityFate(w: World, tx: Tx)
    ensures tx.call == ToRegistry(Registry.Deactivate) ==>
              Exec(w, tx) ==
              if tx.sender.Wallet? && tx.value == 0 && tx.sender in w.registry.providers then
                Kept(w, tx, tx.sender, w.registry.providers[tx.sender].(active := false), w.registry.providerList,
                     [Registry.ProviderDeactivated(tx.sender)])
              else Reverted
    ensures tx.call == ToRegistry(Registry.Reactivate) ==>
              Exec(w, tx) ==
              if && tx.sender.Wallet? && tx.value == 0 && tx.sender in w.registry.providers
                 && w.registry.providers[tx.sender].stakedAmount >= 10_000_000_000_000_000
              then
                Kept(w, tx, tx.sender, w.registry.providers[tx.sender].(active := true), w.registry.providerList,
                     [Registry.ProviderReactivated(tx.sender)])
              else Reverted
  {
    OneStep(w, tx);
  }

  /** A finished job is counted by the authority or the owner. */
  lemma JobCountFate(w: World, tx: Tx, a: Address)
    requires tx.call == ToRegistry(Registry.RecordJobCompleted(a))
    ensures Exec(w, tx) ==
            if && tx.sender.Wallet? && tx.value == 0 && (tx.sender == w.registry.slashAuthority || tx.sender == w.registry.owner)
               && a in w.registry.providers && w.registry.providers[a].jobsCompleted < MAX_UINT256
            then
              var n := w.registry.providers[a].jobsCompleted + 1;
              Kept(w, tx, a, w.registry.providers[a].(jobsCompleted := n), w.registry.providerList, [Registry.JobCompleted(a, n)])
            else Reverted
  {
    OneStep(w, tx);
  }

  /** The registry's authority and owner are set by the owner alone, each by its own call. */
  lemma RegistrySettings(w: World, tx: Tx, a: Address)
    ensures var r := w.registry;
            && (tx.call == ToRegistry(Registry.SetSlashAuthority(a)) ==>
                  Exec(w, tx) == if !FromOwner(tx, r.owner) then Reverted else
                    Done(Arrived(w, tx, RegistryContract).(registry :=
                      r.(slashAuthority := a, events := r.events + [Registry.SlashAuthorityUpdated(a)]))))
            && (tx.call == ToRegistry(Registry.TransferOwnership(a)) ==>
                  Exec(w, tx) == if !FromOwner(tx, r.owner) || a == Zero then Reverted else
                    Done(Arrived(w, tx, RegistryContract).(registry := r.(owner := a))))
            && (tx.call == ToRegistry(Registry.RenounceOwnership) ==>
                  Exec(w, tx) == if !FromOwner(tx, r.owner) then Reverted else
                    Done(Arrived(w, tx, RegistryContract).(registry := r.(owner := Zero))))
  {
    OneStep(w, tx);
  }

  /** A slash goes through for the authority or the owner, if the owner, no contract, takes its half. */
  lemma StakeSlashFate(w: World, tx: Tx, provider: Address, evidence: nat)
    requires Reachable(w) && tx.call == ToRegistry(Registry.SlashStake(provider, evidence))
    ensures Exec(w, tx).Done? <==>
              && tx.sender.Wallet? && tx.value == 0 && (tx.sender == w.registry.slashAuthority || tx.sender == w.registry.owner)
              && provider in w.registry.providers && w.registry.providers[provider].slashCount < MAX_UINT256
              && !IsContract(w.registry.owner) && Accepts(tx.first)
  {
    ReachableCovered(w);
    OnePaymentFate(w, tx);
  }

  /** A slash takes half the stake, rounded down, off the one provider it names. */
  lemma SlashMoves(w: World, tx: Tx, provider: Address, evidence: nat)
    requires tx.call == ToRegistry(Registry.SlashStake(provider, evidence)) && Exec(w, tx).Done?
    ensures provider in w.registry.providers
    ensures RS.Stakes(Step(w, tx).registry) ==
            RS.Stakes(w.registry)[provider := (w.registry.providers[provider].stakedAmount + 1) / 2]
  {
    NotReverted(w, tx);
    SlashTakes(w.registry, Msg(tx.sender, tx.value, w.now), provider, evidence);
    StakesMove(w, tx);
  }

  lemma SlashTakes(r: Registry.State, m: Msg, provider: Address, evidence: nat)
    ensures match Registry.Begin(r, m, Registry.SlashStake(provider, evidence))
            case Revert => true
            case Return(_) => false
            case Pay(r', to, amount) =>
              && provider in r.providers && to == r.owner && amount == r.providers[provider].stakedAmount / 2
              && RS.Stakes(r') == RS.Stakes(r)[provider := (r.providers[provider].stakedAmount + 1) / 2]
              && r.events <= r'.events && |r'.events| > |r.events|
              && r'.events[|r'.events| - 1] == Registry.Slashed(provider, amount, evidence, to)
  {
  }

  /** An unstaking takes the amount off the caller's own stake and off no other. */
  lemma UnstakeMoves(w: World, tx: Tx, amount: nat)
    requires tx.call == ToRegistry(Registry.Unstake(amount)) && Exec(w, tx).Done?
    ensures tx.sender in w.registry.providers && amount <= w.registry.providers[tx.sender].stakedAmount
    ensures RS.Stakes(Step(w, tx).registry) ==
            RS.Stakes(w.registry)[tx.sender := w.registry.providers[tx.sender].stakedAmount - amount]
  {
    NotReverted(w, tx);
    UnstakeTakes(w, tx, amount);
    StakesMove(w, tx);
  }

  lemma NotReverted(w: World, tx: Tx)
    requires Exec(w, tx).Done?
    ensures !Start(w, tx).Reverted?
  {
    assert Advance(Reverted, tx.first) == Reverted && Advance(Reverted, tx.second) == Reverted;
  }

  lemma UnstakeTakes(w: World, tx: Tx, amount: nat)
    requires tx.call == ToRegistry(Registry.Unstake(amount)) && !Start(w, tx).Reverted?
    ensures Start(w, tx).Calling? && tx.sender in w.registry.providers && amount <= w.registry.providers[tx.sender].stakedAmount
    ensures RS.Stakes(Start(w, tx).w.registry) ==
            RS.Stakes(w.registry)[tx.sender := w.registry.providers[tx.sender].stakedAmount - amount]
  {
  }

  /** What the registry has written down by the time it pays: nothing is left to write afterwards but its guard. */
  function Waits(w: World, tx: Tx, a: Address, p: Registry.Provider, events: seq<Registry.Event>, to: Address, amount: nat): Pause
    requires tx.value <= Balance(w, tx.sender)
  {
    Calling(Arrived(w, tx, RegistryContract).(registry := w.registry.(
              providers := w.registry.providers[a := p], entered := true, events := w.registry.events + events)),
            RegistryContract, to, amount, RegistryK, None)
  }

  /** Before it is paid, an unstaking provider has its stake reduced, and is asleep if less than the minimum is left. */
  lemma UnstakeWrites(w: World, tx: Tx, amount: nat)
    requires tx.call == ToRegistry(Registry.Unstake(amount)) && !Start(w, tx).Reverted?
    ensures tx.value == 0 && tx.sender in w.registry.providers && amount <= w.registry.providers[tx.sender].stakedAmount
    ensures var p := w.registry.providers[tx.sender];
            var left := p.stakedAmount - amount;
            Start(w, tx) ==
            Waits(w, tx, tx.sender, p.(stakedAmount := left, active := p.active && left >= 10_000_000_000_000_000),
                  (if p.active && left < 10_000_000_000_000_000 then [Registry.ProviderDeactivated(tx.sender)] else [])
                  + [Registry.Unstaked(tx.sender, amount, left)],
                  tx.sender, amount)
  {
  }

  /** Before the owner is paid, a slashed provider has half its stake, one more slash to its name, and is asleep if that is
      less than the minimum. */
  lemma SlashWrites(w: World, tx: Tx, a: Address, evidence: nat)
    requires tx.call == ToRegistry(Registry.SlashStake(a, evidence)) && !Start(w, tx).Reverted?
    ensures tx.value == 0 && a in w.registry.providers
    ensures var p := w.registry.providers[a];
            var left := p.stakedAmount - p.stakedAmount / 2;
            Start(w, tx) ==
            Waits(w, tx, a, p.(stakedAmount := left, slashCount := p.slashCount + 1, active := p.active && left >= 10_000_000_000_000_000),
                  (if left < 10_000_000_000_000_000 then [Registry.ProviderDeactivated(a)] else [])
                  + [Registry.Slashed(a, p.stakedAmount / 2, evidence, w.registry.owner)],
                  w.registry.owner, p.stakedAmount / 2)
  {
  }

  /** After the registry's payment the stakes are as they were when it was sent. */
  lemma StakesMove(w: World, tx: Tx)
    requires tx.call.ToRegistry? && Exec(w, tx).Done? && Start(w, tx).Calling?
    ensures RS.Stakes(Step(w, tx).registry) == RS.Stakes(Start(w, tx).w.registry)
  {
    assert Advance(Reverted, tx.second) == Reverted;
    RegistryStarts(w, tx);
    var p := Start(w, tx);
    var u := Send(p.w, p.from, p.to, p.amount, tx.first);
    GuardsHold(Paid(p.w, p.from, p.to, p.amount), tx.first);
    assert Exec(w, tx) == Done(u.value.(registry := Registry.Exit(u.value.registry)));
  }

  // ---- slashProvider's part in the registry ----

  /** The chain when the registry has answered, or failed and been ignored. */
  function Answered(p: Pause, w': World, r: Reaction): World
    requires p.Calling?
  {
    match Send(p.w, p.from, p.to, p.amount, r)
    case Some(u) => u.(registry := Registry.Exit(u.registry))
    case None => w'.(registry := Registry.Exit(w'.registry))
  }

  /** Whether the registry slashes when slashProvider asks it to: it hears the escrow, and its owner takes the half. */
  predicate RegistrySlashes(w: World, tx: Tx, provider: Address) {
    RegistryHears(w, provider) && !IsContract(w.registry.owner) && Accepts(tx.first)
  }

  /** What slashProvider does to the stakes by the time the user is refunded: half of the provider's goes to the registry's
      owner if the registry slashes; otherwise nothing moves there at all. */
  ghost predicate SlashedIn(w: World, v: World, provider: Address, evidence: nat, slashes: bool) {
    if slashes then
      && provider in w.registry.providers
      && var staked := w.registry.providers[provider].stakedAmount;
      && RS.Stakes(v.registry) == RS.Stakes(w.registry)[provider := (staked + 1) / 2]
      && w.registry.events <= v.registry.events
      && Registry.Slashed(provider, staked / 2, evidence, w.registry.owner) in v.registry.events[|w.registry.events|..]
    else v.registry == w.registry
  }

  /** The refund to the user is all that is left: a receiver that makes no calls of its own leaves the registry alone. */
  lemma RefundLeavesRegistry(q: Pause, v0: World, to: Address, amount: nat, r: Reaction, v: World)
    requires RefundPause(q, v0, to, amount) && Advance(q, r) == Done(v) && !r.Then?
    ensures v.registry == v0.registry
  {
  }

  /** While the registry waits for its payment, no stake moves and its log keeps what it has. */
  lemma RegistryWaits(p: Pause, r: Reaction, u: World, x: Registry.Event, n: nat)
    requires p.Calling? && Send(p.w, p.from, p.to, p.amount, r) == Some(u) && p.w.registry.entered
    requires n < |p.w.registry.events| && p.w.registry.events[|p.w.registry.events| - 1] == x
    ensures RS.Stakes(u.registry) == RS.Stakes(p.w.registry) && p.w.registry.events <= u.registry.events
    ensures x in u.registry.events[n..]
  {
    GuardsHold(Paid(p.w, p.from, p.to, p.amount), r);
    ReactSound(Paid(p.w, p.from, p.to, p.amount), r);
    var k := |p.w.registry.events| - 1;
    assert u.registry.events[n..][k - n] == p.w.registry.events[k];
  }

  lemma AskedAble(w: World, evidence: nat, provider: Address)
    requires Covered(w)
    ensures var s := Registry.Begin(w.registry, Msg(EscrowContract, 0, w.now), Registry.SlashStake(provider, evidence));
            s.Pay? ==> s.amount <= Balance(w, RegistryContract) && s.r.entered
  {
    RS.BeginBooked(w.registry, Msg(EscrowContract, 0, w.now), Registry.SlashStake(provider, evidence));
  }

  lemma AskedSlashes(p: Pause, w: World, w': World, tx: Tx, provider: Address, evidence: nat)
    requires w'.registry == w.registry && p.Calling? && Able(p) && p.w.registry.entered && p.from.RegistryContract?
    requires RegistryHears(w, provider) && !w.registry.entered && p.to == w.registry.owner
    requires var staked := w.registry.providers[provider].stakedAmount;
             && RS.Stakes(p.w.registry) == RS.Stakes(w.registry)[provider := (staked + 1) / 2]
             && w.registry.events <= p.w.registry.events && |p.w.registry.events| > |w.registry.events|
             && p.w.registry.events[|p.w.registry.events| - 1] == Registry.Slashed(provider, staked / 2, evidence, p.to)
    ensures SlashedIn(w, Answered(p, w', tx.first), provider, evidence, RegistrySlashes(w, tx, provider))
  {
    Sent(p, tx.first);
    var u := Send(p.w, p.from, p.to, p.amount, tx.first);
    if u.Some? {
      RegistryWaits(p, tx.first, u.value, p.w.registry.events[|p.w.registry.events| - 1], |w.registry.events|);
    }
  }

  /** A completed slashProvider whose user makes no calls of its own on being refunded: the registry has slashed the session's
      provider if it hears the escrow and its owner takes its half, and is untouched otherwise. */
  lemma SlashReachesRegistry(w: World, tx: Tx, id: Id, evidence: nat, v: World)
    requires Reachable(w) && tx.call == ToEscrow(Escrow.SlashProvider(id, evidence)) && Exec(w, tx) == Done(v)
    requires id in w.escrow.sessions ==>
               !(if RegistryHears(w, w.escrow.sessions[id].provider) then tx.second else tx.first).Then?
    ensures id in w.escrow.sessions
    ensures var provider := w.escrow.sessions[id].provider;
            SlashedIn(w, v, provider, evidence, RegistrySlashes(w, tx, provider))
  {
    ReachableCovered(w);
    assert Advance(Reverted, tx.first) == Reverted && Advance(Reverted, tx.second) == Reverted;
    SlashStarts(w, tx, id, evidence);
    SlashEndsRegistry(w, Start(w, tx), tx, id, evidence, v);
  }

  lemma SlashEndsRegistry(w: World, p: Pause, tx: Tx, id: Id, evidence: nat, v: World)
    requires Covered(w) && !w.registry.entered && Escrow.Active(w.escrow, id) && Advance(Advance(p, tx.first), tx.second) == Done(v)
    requires var s, w' := w.escrow.sessions[id], SlashClosed(w, tx.sender, id, evidence);
             var k := Escrow.RefundAfterSlash(s.user, s.remainingBalance);
             match Registry.Begin(w.registry, Msg(EscrowContract, 0, w.now), Registry.SlashStake(s.provider, evidence))
             case Pay(r, to, amount) => p == Calling(w'.(registry := r), RegistryContract, to, amount, SlashK(k), Some(w'))
             case _ => p == AfterSlash(w', k)
    requires !(if RegistryHears(w, w.escrow.sessions[id].provider) then tx.second else tx.first).Then?
    ensures var provider := w.escrow.sessions[id].provider;
            SlashedIn(w, v, provider, evidence, RegistrySlashes(w, tx, provider))
  {
    var s, w' := w.escrow.sessions[id], SlashClosed(w, tx.sender, id, evidence);
    Heard(w, s.provider, evidence);
    if RegistryHears(w, s.provider) {
      HeardSlashes(p, w, w', tx, s.provider, evidence);
      HeardEnds(p, w', s.user, s.remainingBalance, tx, v);
    } else {
      UnheardEnds(p, w', s.user, s.remainingBalance, tx, v);
    }
  }

  lemma Heard(w: World, provider: Address, evidence: nat)
    requires !w.registry.entered
    ensures RegistryHears(w, provider) <==>
              Registry.Begin(w.registry, Msg(EscrowContract, 0, w.now), Registry.SlashStake(provider, evidence)).Pay?
  {
  }

  lemma HeardSlashes(p: Pause, w: World, w': World, tx: Tx, provider: Address, evidence: nat)
    requires Covered(w) && !w.registry.entered && RegistryHears(w, provider)
    requires w'.registry == w.registry && Balance(w', RegistryContract) == Balance(w, RegistryContract)
    requires var s := Registry.Begin(w.registry, Msg(EscrowContract, 0, w.now), Registry.SlashStake(provider, evidence));
             && s.Pay? && p.Calling? && p.w == w'.(registry := s.r)
             && p.from.RegistryContract? && p.to == s.to && p.amount == s.amount
    ensures SlashedIn(w, Answered(p, w', tx.first), provider, evidence, RegistrySlashes(w, tx, provider))
  {
    SlashTakes(w.registry, Msg(EscrowContract, 0, w.now), provider, evidence);
    AskedAble(w, evidence, provider);
    AskedSlashes(p, w, w', tx, provider, evidence);
  }

  lemma HeardEnds(p: Pause, w': World, user: Address, amount: nat, tx: Tx, v: World)
    requires p.Calling? && p.k == SlashK(Escrow.RefundAfterSlash(user, amount)) && p.rescue == Some(w')
    requires Advance(Advance(p, tx.first), tx.second) == Done(v) && !tx.second.Then?
    ensures v.registry == Answered(p, w', tx.first).registry
  {
    var v0 := Answered(p, w', tx.first);
    AfterSlashRefunds(v0, user, amount);
    assert Advance(p, tx.first) == AfterSlash(v0, p.k.k);
    RefundLeavesRegistry(AfterSlash(v0, p.k.k), v0, user, amount, tx.second, v);
  }

  lemma UnheardEnds(p: Pause, w': World, user: Address, amount: nat, tx: Tx, v: World)
    requires p == AfterSlash(w', Escrow.RefundAfterSlash(user, amount))
    requires Advance(Advance(p, tx.first), tx.second) == Done(v) && !tx.first.Then?
    ensures v.registry == w'.registry
  {
    AfterSlashRefunds(w', user, amount);
    if p.Calling? {
      SecondUnused(p, tx.first, tx.second);
    }
    RefundLeavesRegistry(p, w', user, amount, tx.first, v);
  }

  // ---- The auction ----

  /** A job needs a deposit, a duration and a fresh id; what is recorded and announced is what the caller asked for and
      sent, with a deadline 30 seconds on; and nothing is sent. */
  lemma PostFate(w: World, tx: Tx, id: Id, maxPrice: nat, ram: nat, cpu: nat, duration: nat)
    requires Reachable(w) && tx.call == ToAuction(Auction.PostJob(id, maxPrice, ram, cpu, duration))
    ensures Exec(w, tx) ==
            if && tx.sender.Wallet? && 0 < tx.value <= Balance(w, tx.sender) && duration > 0 && id !in w.auction.jobs
               && w.now + 30 <= MAX_UINT256
            then
              Done(Arrived(w, tx, AuctionContract).(auction := w.auction.(
                jobs := w.auction.jobs[id := Auction.Job(tx.sender, w.now, maxPrice, ram, cpu, duration, Auction.Open, Zero, 0)],
                events := w.auction.events + [Auction.JobPosted(id, tx.sender, maxPrice, ram, cpu, duration, tx.value, w.now + 30)])))
            else Reverted
  {
    ReachableCovered(w);
    OneStep(w, tx);
  }

  /** A bid is taken from an active provider with none on the job yet, within the window and the ceiling; it is recorded and
      announced at the price and the time it came in, after those before it. */
  lemma BidStored(w: World, tx: Tx, id: Id, price: nat)
    requires Reachable(w) && tx.call == ToAuction(Auction.SubmitBid(id, price))
    ensures Exec(w, tx) ==
            if && tx.sender.Wallet? && tx.value == 0 && id in w.auction.jobs && w.auction.jobs[id].status.Open?
               && w.now <= w.auction.jobs[id].depositedAt + 30 && price <= w.auction.jobs[id].maxPricePerHour
               && Registry.IsActive(w.registry, tx.sender) && (id, tx.sender) !in w.auction.hasBid
            then
              Done(Arrived(w, tx, AuctionContract).(auction := w.auction.(
                hasBid := w.auction.hasBid + {(id, tx.sender)},
                bids := w.auction.bids[id := Auction.BidsOf(w.auction, id) + [Auction.Bid(tx.sender, price, w.now)]],
                events := w.auction.events + [Auction.BidSubmitted(id, tx.sender, price)])))
            else Reverted
  {
    ReachableInv(w);
    assert AS.RecordOk(w.auction, id);
    AS.ScanEqualsLookup(w.registry, tx.sender);
    OneStep(w, tx);
  }

  /** The auction's fallback and owner are set by the owner alone, each by its own call. */
  lemma AuctionSettings(w: World, tx: Tx, a: Address)
    ensures var u := w.auction;
            && (tx.call == ToAuction(Auction.SetFallbackProvider(a)) ==>
                  Exec(w, tx) == if !FromOwner(tx, u.owner) then Reverted else
                    Done(Arrived(w, tx, AuctionContract).(auction :=
                      u.(fallbackProvider := a, events := u.events + [Auction.FallbackProviderUpdated(a)]))))
            && (tx.call == ToAuction(Auction.TransferOwnership(a)) ==>
                  Exec(w, tx) == if !FromOwner(tx, u.owner) || a == Zero then Reverted else
                    Done(Arrived(w, tx, AuctionContract).(auction := u.(owner := a))))
            && (tx.call == ToAuction(Auction.RenounceOwnership) ==>
                  Exec(w, tx) == if !FromOwner(tx, u.owner) then Reverted else
                    Done(Arrived(w, tx, AuctionContract).(auction := u.(owner := Zero))))
  {
    OneStep(w, tx);
  }
}
