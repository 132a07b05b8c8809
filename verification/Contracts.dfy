/** The contracts as objects that update their storage in place, on a chain that moves ETH and runs the receiver's
    code in the middle of a call. Each method is proved to do exactly what the machine does. */
module Contracts {
  import opened Common
  import opened MapSum
  import opened Machine
  import Escrow = EscrowSpec
  import Registry = RegistrySpec
  import Auction = AuctionSpec

  import Stream = StreamTheorems

  /** Both payments of a transaction, as far as it makes them. */
  function Finish(p: Pause, tx: Tx): Pause {
    Advance(Advance(p, tx.first), tx.second)
  }

  /** What the machine makes of one call to a contract, its payments included. */
  function EscrowCall(w: World, m: Msg, c: Escrow.Call, tx: Tx): Pause {
    Finish(FromEscrow(w, Escrow.Begin(w.escrow, m, c)), tx)
  }

  function RegistryCall(w: World, m: Msg, c: Registry.Call, tx: Tx): Pause {
    Finish(FromRegistry(w, Registry.Begin(w.registry, m, c)), tx)
  }

  function Active(w: World): seq<Registry.Provider> {
    Registry.ActiveAmong(w.registry, w.registry.providerList)
  }

  function AuctionCall(w: World, m: Msg, c: Auction.Call, tx: Tx): Pause {
    Finish(FromAuction(w, Auction.Begin(w.auction, m, Balance(w, AuctionContract), Active(w), c)), tx)
  }

  /** A method that succeeds leaves the machine's final state; after a failure the caller restores its own snapshot. */
  predicate Ends(ok: bool, w: World, p: Pause) {
    ok == p.Done? && (ok ==> w == p.w)
  }

  lemma FinishEnded(p: Pause, tx: Tx)
    requires !p.Calling?
    ensures Finish(p, tx) == p && Advance(p, tx.second) == p
  {
  }

  class Chain {
    var eth: map<Address, nat>
    var transfers: seq<Transfer>
    var now: nat
    const escrow: DeploymentEscrow
    const registry: ProviderRegistry
    const auction: JobAuction

    constructor (escrow: DeploymentEscrow, registry: ProviderRegistry, auction: JobAuction, eth: map<Address, nat>, now: nat)
      ensures this.escrow == escrow && this.registry == registry && this.auction == auction
      ensures State() == World(now, eth, [], escrow.State(), registry.State(), auction.State())
    {
      this.escrow := escrow;
      this.registry := registry;
      this.auction := auction;
      this.eth := eth;
      transfers := [];
      this.now := now;
    }

    function State(): World
      reads this, escrow, registry, auction
    {
      World(now, eth, transfers, escrow.State(), registry.State(), auction.State())
    }

    /** Undo everything since the snapshot was taken. */
    method Restore(w: World)
      modifies this, escrow, registry, auction
      ensures State() == w
    {
      now, eth, transfers := w.now, w.eth, w.transfers;
      escrow.Load(w.escrow);
      registry.Load(w.registry);
      auction.Load(w.auction);
    }

    method Transfer(from: Address, to: Address, amount: nat)
      requires amount <= Lookup(eth, from)
      modifies this
      ensures now == old(now) && eth == Move(old(eth), from, to, amount)
      ensures transfers == Recorded(old(transfers), from, to, amount)
    {
      eth := eth[from := Lookup(eth, from) - amount];
      eth := eth[to := Lookup(eth, to) + amount];
      if amount != 0 {
        transfers := transfers + [Machine.Transfer.Transfer(from, to, amount)];
      }
    }

    /** to.call{value: amount}(""): the ETH moves, then the receiver's code runs. */
    method Send(from: Address, to: Address, amount: nat, r: Reaction) returns (ok: bool)
      modifies this, escrow, registry, auction
      ensures ok == Machine.Send(old(State()), from, to, amount, r).Some?
      ensures ok ==> State() == Machine.Send(old(State()), from, to, amount, r).value
      decreases r, 1
    {
      if amount > Lookup(eth, from) || IsContract(to) {
        return false;
      }
      Transfer(from, to, amount);
      ok := React(r);
    }

    method React(r: Reaction) returns (ok: bool)
      modifies this, escrow, registry, auction
      ensures ok == Machine.React(old(State()), r).Some?
      ensures ok ==> State() == Machine.React(old(State()), r).value
      decreases r, 0
    {
      match r
      case Accept => ok := true;
      case Reject => ok := false;
      case Then(tx, rest) =>
        var _ := Execute(tx);
        ok := React(rest);
    }

    /** One transaction: all of it, or nothing. */
    method Execute(tx: Tx) returns (ok: bool)
      modifies this, escrow, registry, auction
      ensures State() == Step(old(State()), tx) && ok == Exec(old(State()), tx).Done?
      decreases tx, 3
    {
      var before := State();
      if !tx.sender.Wallet? || tx.value > Lookup(eth, tx.sender) {
        FinishEnded(Reverted, tx);
        return false;
      }
      match tx.call {
        case ToEscrow(c) =>
          Transfer(tx.sender, EscrowContract, tx.value);
          ok := escrow.Call(this, Msg(tx.sender, tx.value, now), c, tx);
        case ToRegistry(c) =>
          Transfer(tx.sender, RegistryContract, tx.value);
          ok := registry.Call(this, Msg(tx.sender, tx.value, now), c, tx);
        case ToAuction(c) =>
          Transfer(tx.sender, AuctionContract, tx.value);
          ok := auction.Call(this, Msg(tx.sender, tx.value, now), c, tx);
        case ToWallet(to) =>
          ok := Send(tx.sender, to, tx.value, tx.first);
          FinishEnded(Advance(Start(before, tx), tx.first), tx);
      }
      if !ok {
        Restore(before);
      }
    }
  }

  class DeploymentEscrow {
    var escrows: map<Id, Escrow.Deposit>
    var sessions: map<Id, Escrow.Session>
    var releaseAuthority: Address
    var proofAuthority: Address
    var owner: Address
    var accruedFees: nat
    var entered: bool
    var events: seq<Escrow.Entry>

    constructor (initialOwner: Address, authority: Address)
      ensures State() == Escrow.State(map[], map[], authority, authority, initialOwner, 0, false, [])
    {
      escrows, sessions, accruedFees, entered, events := map[], map[], 0, false, [];
      releaseAuthority, proofAuthority, owner := authority, authority, initialOwner;
    }

    function State(): Escrow.State
      reads this
    {
      Escrow.State(escrows, sessions, releaseAuthority, proofAuthority, owner, accruedFees, entered, events)
    }

    method Load(e: Escrow.State)
      modifies this
      ensures State() == e
    {
      escrows, sessions, releaseAuthority, proofAuthority := e.escrows, e.sessions, e.releaseAuthority, e.proofAuthority;
      owner, accruedFees, entered, events := e.owner, e.accruedFees, e.entered, e.events;
    }

    method Emit(now: nat, event: Escrow.Event)
      modifies this`events
      ensures events == old(events) + [Escrow.Entry(now, event)]
    {
      events := events + [Escrow.Entry(now, event)];
    }

    /** The last external call of a guarded function: pay, insist on success, give the guard back. */
    method PayAndExit(chain: Chain, to: Address, amount: nat, r: Reaction) returns (ok: bool)
      requires chain.escrow == this
      modifies chain, chain.escrow, chain.registry, chain.auction
      ensures Ends(ok, chain.State(), Advance(Calling(old(chain.State()), EscrowContract, to, amount, EscrowK(Escrow.Exit), None), r))
      decreases r, 2
    {
      ok := chain.Send(EscrowContract, to, amount, r);
      if ok {
        entered := false;
      }
    }

    method Deposit(chain: Chain, m: Msg, id: Id, provider: Address, tx: Tx) returns (ok: bool)
      requires chain.escrow == this && m.now == chain.now
      modifies this
      ensures Ends(ok, chain.State(), EscrowCall(old(chain.State()), m, Escrow.DepositFor(id, provider), tx))
    {
      FinishEnded(FromEscrow(chain.State(), Escrow.Begin(State(), m, Escrow.DepositFor(id, provider))), tx);
      if entered || m.value == 0 || id in escrows {
        return false;
      }
      entered := true;
      escrows := escrows[id := Escrow.Deposit(m.sender, provider, m.value, m.now, Escrow.Pending)];
      Emit(m.now, Escrow.Deposited(id, m.sender, provider, m.value));
      entered := false;
      ok := true;
    }

    method Refund(chain: Chain, m: Msg, id: Id, tx: Tx) returns (ok: bool)
      requires chain.escrow == this && m.value == 0
      modifies chain, chain.escrow, chain.registry, chain.auction
      ensures Ends(ok, chain.State(), EscrowCall(old(chain.State()), m, Escrow.Refund(id), tx))
      decreases tx, 0
    {
      ghost var p := FromEscrow(chain.State(), Escrow.Begin(State(), m, Escrow.Refund(id)));
      FinishEnded(Reverted, tx);
      if entered || id !in escrows || escrows[id].status != Escrow.Pending || m.sender != escrows[id].user {
        return false;
      }
      if escrows[id].depositedAt + Escrow.LOCKUP_PERIOD > MAX_UINT256 || m.now < escrows[id].depositedAt + Escrow.LOCKUP_PERIOD {
        return false;
      }
      entered := true;
      escrows := escrows[id := escrows[id].(status := Escrow.Refunded)];
      var amount := escrows[id].amount;
      Emit(m.now, Escrow.RefundedTo(id, escrows[id].user, amount));
      assert p == Calling(chain.State(), EscrowContract, escrows[id].user, amount, EscrowK(Escrow.Exit), None);
      ok := PayAndExit(chain, escrows[id].user, amount, tx.first);
      FinishEnded(Advance(p, tx.first), tx);
    }

    /** Mark the deposit Released, keep the fee, pay the provider the rest. */
    method PayProvider(chain: Chain, m: Msg, id: Id, r: Reaction) returns (ok: bool)
      requires chain.escrow == this && entered && id in escrows
      modifies chain, chain.escrow, chain.registry, chain.auction
      ensures Ends(ok, chain.State(), Advance(FromEscrow(old(chain.State()), Escrow.PayProvider(old(State()), m, id)), r))
      decreases r, 3
    {
      ghost var p := FromEscrow(chain.State(), Escrow.PayProvider(State(), m, id));
      var d := escrows[id];
      if d.amount * Escrow.FEE_BPS > MAX_UINT256 {
        return false;
      }
      var fee := d.amount * Escrow.FEE_BPS / Escrow.BPS_DENOM;
      var netAmount := d.amount - fee;
      if accruedFees + fee > MAX_UINT256 {
        return false;
      }
      escrows := escrows[id := d.(status := Escrow.Released)];
      accruedFees := accruedFees + fee;
      Emit(m.now, Escrow.PaidOut(id, d.provider, netAmount, fee));
      assert p == Calling(chain.State(), EscrowContract, d.provider, netAmount, EscrowK(Escrow.Exit), None);
      ok := PayAndExit(chain, d.provider, netAmount, r);
    }

    method Release(chain: Chain, m: Msg, id: Id, tx: Tx) returns (ok: bool)
      requires chain.escrow == this && m.value == 0
      modifies chain, chain.escrow, chain.registry, chain.auction
      ensures Ends(ok, chain.State(), EscrowCall(old(chain.State()), m, Escrow.Release(id), tx))
      decreases tx, 0
    {
      ghost var p := FromEscrow(chain.State(), Escrow.Begin(State(), m, Escrow.Release(id)));
      FinishEnded(Reverted, tx);
      if entered || (m.sender != releaseAuthority && m.sender != owner) {
        return false;
      }
      if id !in escrows || escrows[id].status != Escrow.Pending {
        return false;
      }
      entered := true;
      assert p == FromEscrow(chain.State(), Escrow.PayProvider(State(), m, id));
      ok := PayProvider(chain, m, id, tx.first);
      FinishEnded(Advance(p, tx.first), tx);
    }

    method Dispute(chain: Chain, m: Msg, id: Id, tx: Tx) returns (ok: bool)
      requires chain.escrow == this && m.value == 0
      modifies this
      ensures Ends(ok, chain.State(), EscrowCall(old(chain.State()), m, Escrow.Dispute(id), tx))
    {
      FinishEnded(FromEscrow(chain.State(), Escrow.Begin(State(), m, Escrow.Dispute(id))), tx);
      if (m.sender != releaseAuthority && m.sender != owner) || id !in escrows || escrows[id].status != Escrow.Pending {
        return false;
      }
      escrows := escrows[id := escrows[id].(status := Escrow.Disputed)];
      Emit(m.now, Escrow.DisputeOpened(id));
      ok := true;
    }

    method ResolveDispute(chain: Chain, m: Msg, id: Id, toProvider: bool, tx: Tx) returns (ok: bool)
      requires chain.escrow == this && m.value == 0
      modifies chain, chain.escrow, chain.registry, chain.auction
      ensures Ends(ok, chain.State(), EscrowCall(old(chain.State()), m, Escrow.ResolveDispute(id, toProvider), tx))
      decreases tx, 0
    {
      ghost var p := FromEscrow(chain.State(), Escrow.Begin(State(), m, Escrow.ResolveDispute(id, toProvider)));
      FinishEnded(Reverted, tx);
      if entered || m.sender != owner || id !in escrows || escrows[id].status != Escrow.Disputed {
        return false;
      }
      entered := true;
      if toProvider {
        assert p == FromEscrow(chain.State(), Escrow.PayProvider(State(), m, id));
        ok := PayProvider(chain, m, id, tx.first);
      } else {
        escrows := escrows[id := escrows[id].(status := Escrow.Refunded)];
        var d := escrows[id];
        Emit(m.now, Escrow.RefundedTo(id, d.user, d.amount));
        assert p == Calling(chain.State(), EscrowContract, d.user, d.amount, EscrowK(Escrow.Exit), None);
        ok := PayAndExit(chain, d.user, d.amount, tx.first);
      }
      FinishEnded(Advance(p, tx.first), tx);
    }

    method StartSession(chain: Chain, m: Msg, id: Id, provider: Address, ratePerSecond: nat, r: Reaction) returns (ok: bool)
      requires chain.escrow == this
      modifies chain, chain.escrow, chain.registry, chain.auction
      ensures Ends(ok, chain.State(),
                   Advance(FromEscrow(old(chain.State()), Escrow.Begin(old(State()), m, Escrow.StartSession(id, provider, ratePerSecond))), r))
      decreases r, 3
    {
      ghost var p := FromEscrow(chain.State(), Escrow.Begin(State(), m, Escrow.StartSession(id, provider, ratePerSecond)));
      if entered || m.value == 0 || ratePerSecond == 0 || id in sessions || m.value * Escrow.UPFRONT_BPS > MAX_UINT256 {
        return false;
      }
      entered := true;
      var upfront := m.value * Escrow.UPFRONT_BPS / Escrow.BPS_DENOM;
      var escrowed := m.value - upfront;
      sessions := sessions[id := Escrow.Session(m.sender, provider, ratePerSecond, escrowed, m.now, true)];
      Emit(m.now, Escrow.SessionStarted(id, m.sender, provider, m.value, upfront, escrowed, ratePerSecond));
      assert p == Calling(chain.State(), EscrowContract, provider, upfront, EscrowK(Escrow.Exit), None);
      ok := PayAndExit(chain, provider, upfront, r);
    }

    /** _releaseAccrued up to its payment: what is owed is booked, and `pays` says whether anything is. */
    method Accrue(now: nat, id: Id) returns (ok: bool, pays: bool, netAmount: nat)
      requires id in sessions
      modifies this
      ensures pays ==> ok
      ensures match Escrow.Owed(old(State()).sessions[id], now)
              case None => !ok
              case Some(owed) =>
                if owed == 0 then ok && !pays && State() == old(State())
                else
                  match Escrow.Drip(old(State()), now, id, Escrow.Exit)
                  case Pay(e, _, amount, _) => ok && pays && State() == e && netAmount == amount
                  case _ => !ok
    {
      ok, pays, netAmount := false, false, 0;
      var s := sessions[id];
      if now < s.lastPaidAt {
        return;
      }
      var elapsed := now - s.lastPaidAt;
      if elapsed == 0 {
        ok := true;
        return;
      }
      if elapsed * s.ratePerSecond > MAX_UINT256 {
        return;
      }
      var owed := elapsed * s.ratePerSecond;
      if owed > s.remainingBalance {
        owed := s.remainingBalance;
      }
      if owed == 0 {
        ok := true;
        return;
      }
      if owed * Escrow.FEE_BPS > MAX_UINT256 {
        return;
      }
      var fee := owed * Escrow.FEE_BPS / Escrow.BPS_DENOM;
      if accruedFees + fee > MAX_UINT256 {
        return;
      }
      ok, pays, netAmount := true, true, owed - fee;
      sessions := sessions[id := s.(remainingBalance := s.remainingBalance - owed, lastPaidAt := now)];
      accruedFees := accruedFees + fee;
      Emit(now, Escrow.PaymentReleased(id, s.provider, netAmount, fee, sessions[id].remainingBalance));
    }

    /** _releaseAccrued: `paid` says whether the provider was called at all. */
    method ReleaseAccrued(chain: Chain, now: nat, id: Id, r: Reaction) returns (ok: bool, paid: bool)
      requires chain.escrow == this && id in sessions
      modifies chain, chain.escrow, chain.registry, chain.auction
      ensures var s := old(State()).sessions[id];
              match Escrow.Drip(old(State()), now, id, Escrow.FinishStop(id)) {
                case Revert => !ok
                case Pay(e, to, amount, k) =>
                  if Escrow.Owed(s, now) == Some(0) then ok && !paid && chain.State() == old(chain.State())
                  else
                    var sent := Machine.Send(old(chain.State()).(escrow := e), EscrowContract, to, amount, r);
                    paid && ok == sent.Some? && (ok ==> chain.State() == sent.value)
                case _ => ok && !paid && Escrow.Owed(s, now) == Some(0) && chain.State() == old(chain.State())
              }
      decreases r, 2
    {
      var provider := sessions[id].provider;
      var netAmount: nat;
      ok, paid, netAmount := Accrue(now, id);
      if paid {
        ok := chain.Send(EscrowContract, provider, netAmount, r);
      }
    }

    /** releasePayment and submitProof after their checks. */
    method DripAndExit(chain: Chain, now: nat, id: Id, tx: Tx) returns (ok: bool)
      requires chain.escrow == this && entered && id in sessions
      modifies chain, chain.escrow, chain.registry, chain.auction
      ensures Ends(ok, chain.State(), Finish(FromEscrow(old(chain.State()), Escrow.Drip(old(State()), now, id, Escrow.Exit)), tx))
      decreases tx, 0
    {
      ghost var p := FromEscrow(chain.State(), Escrow.Drip(State(), now, id, Escrow.Exit));
      var paid: bool;
      ok, paid := ReleaseAccrued(chain, now, id, tx.first);
      if ok {
        entered := false;
      }
      FinishEnded(Reverted, tx);
      FinishEnded(Advance(p, tx.first), tx);
    }

    method ReleasePayment(chain: Chain, m: Msg, id: Id, tx: Tx) returns (ok: bool)
      requires chain.escrow == this && m.value == 0 && m.now == chain.now
      modifies chain, chain.escrow, chain.registry, chain.auction
      ensures Ends(ok, chain.State(), EscrowCall(old(chain.State()), m, Escrow.ReleasePayment(id), tx))
      decreases tx, 1
    {
      FinishEnded(Reverted, tx);
      if entered || id !in sessions || !sessions[id].isActive {
        return false;
      }
      entered := true;
      ok := DripAndExit(chain, m.now, id, tx);
    }

    method SubmitProof(chain: Chain, m: Msg, id: Id, tx: Tx) returns (ok: bool)
      requires chain.escrow == this && m.value == 0 && m.now == chain.now
      modifies chain, chain.escrow, chain.registry, chain.auction
      ensures Ends(ok, chain.State(), EscrowCall(old(chain.State()), m, Escrow.SubmitProof(id), tx))
      decreases tx, 1
    {
      FinishEnded(Reverted, tx);
      if entered || (m.sender != proofAuthority && m.sender != owner) || id !in sessions || !sessions[id].isActive {
        return false;
      }
      entered := true;
      ok := DripAndExit(chain, m.now, id, tx);
    }

    /** The end of stopSession: close, refund what is left, give the guard back. */
    method CloseAndRefund(chain: Chain, now: nat, id: Id, r: Reaction) returns (ok: bool)
      requires chain.escrow == this && id in sessions && chain.now == now
      modifies chain, chain.escrow, chain.registry, chain.auction
      ensures Ends(ok, chain.State(), Advance(Resume(old(chain.State()), EscrowK(Escrow.FinishStop(id))), r))
      decreases r, 3
    {
      ghost var p := Resume(chain.State(), EscrowK(Escrow.FinishStop(id)));
      var user, refundAmount := sessions[id].user, sessions[id].remainingBalance;
      sessions := sessions[id := sessions[id].(remainingBalance := 0, isActive := false)];
      Emit(now, Escrow.SessionStopped(id, user, refundAmount));
      if refundAmount > 0 {
        assert p == Calling(chain.State(), EscrowContract, user, refundAmount, EscrowK(Escrow.Exit), None);
        ok := PayAndExit(chain, user, refundAmount, r);
      } else {
        entered := false;
        ok := true;
      }
    }

    method StopSession(chain: Chain, m: Msg, id: Id, tx: Tx) returns (ok: bool)
      requires chain.escrow == this && m.value == 0 && m.now == chain.now
      modifies chain, chain.escrow, chain.registry, chain.auction
      ensures Ends(ok, chain.State(), EscrowCall(old(chain.State()), m, Escrow.StopSession(id), tx))
      decreases tx, 1
    {
      FinishEnded(Reverted, tx);
      if entered || id !in sessions || !sessions[id].isActive || m.sender != sessions[id].user {
        return false;
      }
      entered := true;
      ghost var w := chain.State();
      ghost var p := FromEscrow(w, Escrow.Drip(State(), m.now, id, Escrow.FinishStop(id)));
      var paid: bool;
      ok, paid := ReleaseAccrued(chain, m.now, id, tx.first);
      if !ok {
        assert Advance(p, tx.first) == Reverted;
        return false;
      }
      if paid {
        Stream.PaymentKeepsSessions(p, tx.first, chain.State());
        ok := CloseAndRefund(chain, m.now, id, tx.second);
      } else {
        assert p == Resume(chain.State(), EscrowK(Escrow.FinishStop(id)));
        ok := CloseAndRefund(chain, m.now, id, tx.first);
        FinishEnded(Advance(p, tx.first), tx);
      }
    }

    /** The end of slashProvider: refund the user if anything was left. */
    method RefundIfAny(chain: Chain, user: Address, amount: nat, r: Reaction) returns (ok: bool)
      requires chain.escrow == this
      modifies chain, chain.escrow, chain.registry, chain.auction
      ensures Ends(ok, chain.State(), Advance(AfterSlash(old(chain.State()), Escrow.RefundAfterSlash(user, amount)), r))
      decreases r, 3
    {
      if amount > 0 {
        ok := PayAndExit(chain, user, amount, r);
      } else {
        entered := false;
        ok := true;
      }
    }

    /** slashProvider up to its call of the registry: the session is closed, its balance set aside for the user. */
    method CloseForSlash(now: nat, id: Id, evidence: nat) returns (provider: Address, user: Address, refundAmount: nat)
      requires id in sessions
      modifies this
      ensures var e, s := old(State()).(entered := true), old(State()).sessions[id];
              && State() == Escrow.Close(Escrow.Emit(e, now, Escrow.ProviderSlashed(id, s.provider, evidence)), now, id)
              && provider == s.provider && user == s.user && refundAmount == s.remainingBalance
    {
      entered := true;
      provider, user, refundAmount := sessions[id].provider, sessions[id].user, sessions[id].remainingBalance;
      sessions := sessions[id := sessions[id].(remainingBalance := 0, isActive := false)];
      Emit(now, Escrow.ProviderSlashed(id, provider, evidence));
      Emit(now, Escrow.SessionStopped(id, user, refundAmount));
    }

    /** try registry.slash(provider, evidence) {} catch {}: a failure leaves no trace. `asked` says whether the registry
        got as far as paying its owner. */
    method TryRegistry(chain: Chain, provider: Address, evidence: nat, r: Reaction, ghost k: Escrow.Kont) returns (asked: bool)
      requires chain.escrow == this
      modifies chain, chain.escrow, chain.registry, chain.auction
      ensures var p := FromEscrow(old(chain.State()), Escrow.Slash(old(State()), provider, evidence, k));
              AfterSlash(chain.State(), k) == if asked then Advance(p, r) else p
      decreases r, 4
    {
      var before := chain.State();
      SlashMatches(before, provider, evidence, k, r);
      var slashed;
      slashed, asked := chain.registry.Slash(chain, Msg(EscrowContract, 0, chain.now), provider, evidence, r);
      if !slashed {
        chain.Restore(before);
      }
    }

    method SlashProvider(chain: Chain, m: Msg, id: Id, evidence: nat, tx: Tx) returns (ok: bool)
      requires chain.escrow == this && m.value == 0 && m.now == chain.now
      modifies chain, chain.escrow, chain.registry, chain.auction
      ensures Ends(ok, chain.State(), EscrowCall(old(chain.State()), m, Escrow.SlashProvider(id, evidence), tx))
      decreases tx, 1
    {
      ghost var p := FromEscrow(chain.State(), Escrow.Begin(State(), m, Escrow.SlashProvider(id, evidence)));
      FinishEnded(Reverted, tx);
      if entered || (m.sender != proofAuthority && m.sender != owner) || id !in sessions || !sessions[id].isActive {
        return false;
      }
      var provider, user, refundAmount := CloseForSlash(m.now, id, evidence);
      ghost var k := Escrow.RefundAfterSlash(user, refundAmount);
      assert p == FromEscrow(chain.State(), Escrow.Slash(State(), provider, evidence, k));
      var asked := TryRegistry(chain, provider, evidence, tx.first, k);
      ok := RefundIfAny(chain, user, refundAmount, if asked then tx.second else tx.first);
      if !asked {
        FinishEnded(Advance(p, tx.first), tx);
      }
    }

    method WithdrawFees(chain: Chain, m: Msg, tx: Tx) returns (ok: bool)
      requires chain.escrow == this && m.value == 0
      modifies chain, chain.escrow, chain.registry, chain.auction
      ensures Ends(ok, chain.State(), EscrowCall(old(chain.State()), m, Escrow.WithdrawFees, tx))
      decreases tx, 0
    {
      ghost var p := FromEscrow(chain.State(), Escrow.Begin(State(), m, Escrow.WithdrawFees));
      FinishEnded(Reverted, tx);
      if m.sender != owner || entered {
        return false;
      }
      entered := true;
      var amount := accruedFees;
      if amount == 0 {
        return false;
      }
      accruedFees := 0;
      Emit(m.now, Escrow.FeesWithdrawn(owner, amount));
      assert p == Calling(chain.State(), EscrowContract, owner, amount, EscrowK(Escrow.Exit), None);
      ok := PayAndExit(chain, owner, amount, tx.first);
      FinishEnded(Advance(p, tx.first), tx);
    }

    method SetReleaseAuthority(m: Msg, newAuthority: Address) returns (ok: bool)
      requires m.value == 0
      modifies this
      ensures var s := Escrow.Begin(old(State()), m, Escrow.SetReleaseAuthority(newAuthority)); ok == s.Return? && (ok ==> State() == s.e)
    {
      if m.sender != owner {
        return false;
      }
      releaseAuthority := newAuthority;
      Emit(m.now, Escrow.AuthorityUpdated(newAuthority));
      ok := true;
    }

    method SetProofAuthority(m: Msg, newAuthority: Address) returns (ok: bool)
      requires m.value == 0
      modifies this
      ensures var s := Escrow.Begin(old(State()), m, Escrow.SetProofAuthority(newAuthority)); ok == s.Return? && (ok ==> State() == s.e)
    {
      if m.sender != owner {
        return false;
      }
      proofAuthority := newAuthority;
      Emit(m.now, Escrow.AuthorityUpdated(newAuthority));
      ok := true;
    }

    /** transferOwnership, and renounceOwnership as a transfer to address(0). */
    method SetOwner(m: Msg, newOwner: Address) returns (ok: bool)
      modifies this`owner
      ensures ok == (m.sender == old(owner)) && owner == if ok then newOwner else old(owner)
    {
      if m.sender != owner {
        return false;
      }
      owner := newOwner;
      ok := true;
    }

    /** Dispatch on the function called; only deposit and startSession accept ETH. */
    method Call(chain: Chain, m: Msg, c: Escrow.Call, tx: Tx) returns (ok: bool)
      requires chain.escrow == this && m.now == chain.now
      modifies chain, chain.escrow, chain.registry, chain.auction
      ensures Ends(ok, chain.State(), EscrowCall(old(chain.State()), m, c, tx))
      decreases tx, 2
    {
      ghost var p := FromEscrow(chain.State(), Escrow.Begin(State(), m, c));
      FinishEnded(Reverted, tx);
      if m.value != 0 && !c.DepositFor? && !c.StartSession? {
        return false;
      }
      match c {
        case DepositFor(id, provider) => ok := Deposit(chain, m, id, provider, tx);
        case Refund(id) => ok := Refund(chain, m, id, tx);
        case Release(id) => ok := Release(chain, m, id, tx);
        case Dispute(id) => ok := Dispute(chain, m, id, tx);
        case ResolveDispute(id, toProvider) => ok := ResolveDispute(chain, m, id, toProvider, tx);
        case StartSession(id, provider, rate) =>
          ok := StartSession(chain, m, id, provider, rate, tx.first);
          StartPaysOnce(State(), m, c);
          FinishEnded(Advance(p, tx.first), tx);
        case ReleasePayment(id) => ok := ReleasePayment(chain, m, id, tx);
        case SubmitProof(id) => ok := SubmitProof(chain, m, id, tx);
        case StopSession(id) => ok := StopSession(chain, m, id, tx);
        case SlashProvider(id, evidence) => ok := SlashProvider(chain, m, id, evidence, tx);
        case WithdrawFees => ok := WithdrawFees(chain, m, tx);
        case SetReleaseAuthority(a) =>
          FinishEnded(p, tx);
          ok := SetReleaseAuthority(m, a);
        case SetProofAuthority(a) =>
          FinishEnded(p, tx);
          ok := SetProofAuthority(m, a);
        case TransferOwnership(a) =>
          FinishEnded(p, tx);
          ok := false;
          if a != Zero {
            ok := SetOwner(m, a);
          }
        case RenounceOwnership =>
          FinishEnded(p, tx);
          ok := SetOwner(m, Zero);
      }
    }
  }

  class ProviderRegistry {
    var providers: map<Address, Registry.Provider>
    var providerList: seq<Address>
    var slashAuthority: Address
    var owner: Address
    var entered: bool
    var events: seq<Registry.Event>

    constructor (initialOwner: Address, authority: Address)
      ensures State() == Registry.State(map[], [], authority, initialOwner, false, [])
    {
      providers, providerList, entered, events := map[], [], false, [];
      slashAuthority, owner := authority, initialOwner;
    }

    function State(): Registry.State
      reads this
    {
      Registry.State(providers, providerList, slashAuthority, owner, entered, events)
    }

    method Load(r: Registry.State)
      modifies this
      ensures State() == r
    {
      providers, providerList, slashAuthority, owner := r.providers, r.providerList, r.slashAuthority, r.owner;
      entered, events := r.entered, r.events;
    }

    method Emit(event: Registry.Event)
      modifies this`events
      ensures events == old(events) + [event]
    {
      events := events + [event];
    }

    method Register(m: Msg, endpoint: string, pricePerHour: nat) returns (ok: bool)
      modifies this
      ensures var s := Registry.Begin(old(State()), m, Registry.Register(endpoint, pricePerHour)); ok == s.Return? && (ok ==> State() == s.r)
    {
      if entered || m.sender in providers || m.value < Registry.MIN_STAKE || endpoint == "" {
        return false;
      }
      providers := providers[m.sender := Registry.Provider(m.sender, endpoint, pricePerHour, m.value, 0, 0, true)];
      providerList := providerList + [m.sender];
      Emit(Registry.ProviderRegistered(m.sender, endpoint, pricePerHour, m.value));
      ok := true;
    }

    method Update(m: Msg, endpoint: string, pricePerHour: nat) returns (ok: bool)
      requires m.value == 0
      modifies this
      ensures var s := Registry.Begin(old(State()), m, Registry.Update(endpoint, pricePerHour)); ok == s.Return? && (ok ==> State() == s.r)
    {
      if m.sender !in providers || endpoint == "" {
        return false;
      }
      providers := providers[m.sender := providers[m.sender].(endpoint := endpoint)];
      providers := providers[m.sender := providers[m.sender].(pricePerHour := pricePerHour)];
      Emit(Registry.ProviderUpdated(m.sender, endpoint, pricePerHour));
      ok := true;
    }

    method Stake(m: Msg) returns (ok: bool)
      modifies this
      ensures var s := Registry.Begin(old(State()), m, Registry.Stake); ok == s.Return? && (ok ==> State() == s.r)
    {
      if entered || m.sender !in providers || m.value == 0 || providers[m.sender].stakedAmount + m.value > MAX_UINT256 {
        return false;
      }
      providers := providers[m.sender := providers[m.sender].(stakedAmount := providers[m.sender].stakedAmount + m.value)];
      if !providers[m.sender].active && providers[m.sender].stakedAmount >= Registry.MIN_STAKE {
        providers := providers[m.sender := providers[m.sender].(active := true)];
        Emit(Registry.ProviderReactivated(m.sender));
      }
      Emit(Registry.Staked(m.sender, m.value, providers[m.sender].stakedAmount));
      ok := true;
    }

    /** The last external call of a guarded function: pay, insist on success, give the guard back. */
    method PayAndExit(chain: Chain, to: Address, amount: nat, r: Reaction) returns (ok: bool)
      requires chain.registry == this
      modifies chain, chain.escrow, chain.registry, chain.auction
      ensures Ends(ok, chain.State(), Advance(Calling(old(chain.State()), RegistryContract, to, amount, RegistryK, None), r))
      decreases r, 2
    {
      ok := chain.Send(RegistryContract, to, amount, r);
      if ok {
        entered := false;
      }
    }

    method Unstake(chain: Chain, m: Msg, amount: nat, tx: Tx) returns (ok: bool)
      requires chain.registry == this && m.value == 0
      modifies chain, chain.escrow, chain.registry, chain.auction
      ensures Ends(ok, chain.State(), RegistryCall(old(chain.State()), m, Registry.Unstake(amount), tx))
      decreases tx, 0
    {
      ghost var p := FromRegistry(chain.State(), Registry.Begin(State(), m, Registry.Unstake(amount)));
      FinishEnded(Reverted, tx);
      if entered || m.sender !in providers || amount == 0 || amount > providers[m.sender].stakedAmount {
        return false;
      }
      entered := true;
      var remaining := providers[m.sender].stakedAmount - amount;
      providers := providers[m.sender := providers[m.sender].(stakedAmount := remaining)];
      if remaining < Registry.MIN_STAKE && providers[m.sender].active {
        providers := providers[m.sender := providers[m.sender].(active := false)];
        Emit(Registry.ProviderDeactivated(m.sender));
      }
      Emit(Registry.Unstaked(m.sender, amount, remaining));
      assert p == Calling(chain.State(), RegistryContract, m.sender, amount, RegistryK, None);
      ok := PayAndExit(chain, m.sender, amount, tx.first);
      FinishEnded(Advance(p, tx.first), tx);
    }

    method Deactivate(m: Msg) returns (ok: bool)
      requires m.value == 0
      modifies this
      ensures var s := Registry.Begin(old(State()), m, Registry.Deactivate); ok == s.Return? && (ok ==> State() == s.r)
    {
      if m.sender !in providers {
        return false;
      }
      providers := providers[m.sender := providers[m.sender].(active := false)];
      Emit(Registry.ProviderDeactivated(m.sender));
      ok := true;
    }

    method Reactivate(m: Msg) returns (ok: bool)
      requires m.value == 0
      modifies this
      ensures var s := Registry.Begin(old(State()), m, Registry.Reactivate); ok == s.Return? && (ok ==> State() == s.r)
    {
      if m.sender !in providers || providers[m.sender].stakedAmount < Registry.MIN_STAKE {
        return false;
      }
      providers := providers[m.sender := providers[m.sender].(active := true)];
      Emit(Registry.ProviderReactivated(m.sender));
      ok := true;
    }

    /** slash up to its payment: halve the stake, count the slash, deactivate below the minimum. */
    method TakeHalf(m: Msg, providerWallet: Address, evidence: nat) returns (ok: bool, slashAmount: nat)
      requires m.value == 0
      modifies this
      ensures match Registry.Begin(old(State()), m, Registry.SlashStake(providerWallet, evidence))
              case Pay(r, to, amount) => ok && State() == r && slashAmount == amount && owner == to
              case _ => !ok
    {
      if entered || (m.sender != slashAuthority && m.sender != owner) || providerWallet !in providers
         || providers[providerWallet].slashCount + 1 > MAX_UINT256 {
        return false, 0;
      }
      entered := true;
      var p := providers[providerWallet];
      slashAmount := p.stakedAmount / 2;
      p := p.(stakedAmount := p.stakedAmount - slashAmount);
      p := p.(slashCount := p.slashCount + 1);
      if p.stakedAmount < Registry.MIN_STAKE {
        p := p.(active := false);
        Emit(Registry.ProviderDeactivated(providerWallet));
      }
      providers := providers[providerWallet := p];
      Emit(Registry.Slashed(providerWallet, slashAmount, evidence, owner));
      ok := true;
    }

    /** `asked` says whether the owner was called at all. */
    method Slash(chain: Chain, m: Msg, providerWallet: Address, evidence: nat, r: Reaction) returns (ok: bool, asked: bool)
      requires chain.registry == this && m.value == 0
      modifies chain, chain.escrow, chain.registry, chain.auction
      ensures var s := Registry.Begin(old(State()), m, Registry.SlashStake(providerWallet, evidence));
              asked == s.Pay? && Ends(ok, chain.State(), Advance(FromRegistry(old(chain.State()), s), r))
      decreases r, 3
    {
      ghost var s := Registry.Begin(State(), m, Registry.SlashStake(providerWallet, evidence));
      ghost var w := chain.State();
      var slashAmount: nat;
      asked, slashAmount := TakeHalf(m, providerWallet, evidence);
      if !asked {
        assert s.Revert?;
        return false, false;
      }
      assert chain.State() == w.(registry := s.r);
      ok := PayAndExit(chain, owner, slashAmount, r);
    }

    method RecordJobCompleted(m: Msg, providerWallet: Address) returns (ok: bool)
      requires m.value == 0
      modifies this
      ensures var s := Registry.Begin(old(State()), m, Registry.RecordJobCompleted(providerWallet)); ok == s.Return? && (ok ==> State() == s.r)
    {
      if (m.sender != slashAuthority && m.sender != owner) || providerWallet !in providers
         || providers[providerWallet].jobsCompleted + 1 > MAX_UINT256 {
        return false;
      }
      providers := providers[providerWallet := providers[providerWallet].(jobsCompleted := providers[providerWallet].jobsCompleted + 1)];
      Emit(Registry.JobCompleted(providerWallet, providers[providerWallet].jobsCompleted));
      ok := true;
    }

    method SetSlashAuthority(m: Msg, newAuthority: Address) returns (ok: bool)
      requires m.value == 0
      modifies this
      ensures var s := Registry.Begin(old(State()), m, Registry.SetSlashAuthority(newAuthority)); ok == s.Return? && (ok ==> State() == s.r)
    {
      if m.sender != owner {
        return false;
      }
      slashAuthority := newAuthority;
      Emit(Registry.SlashAuthorityUpdated(newAuthority));
      ok := true;
    }

    method SetOwner(m: Msg, newOwner: Address) returns (ok: bool)
      modifies this`owner
      ensures ok == (m.sender == old(owner)) && owner == if ok then newOwner else old(owner)
    {
      if m.sender != owner {
        return false;
      }
      owner := newOwner;
      ok := true;
    }

    /** Count the active providers, then fill an array of exactly that size. */
    method GetActiveProviders() returns (active: array<Registry.Provider>)
      ensures fresh(active) && active[..] == Registry.ActiveAmong(State(), providerList)
    {
      var count := 0;
      for i := 0 to |providerList|
        invariant count == |Registry.ActiveAmong(State(), providerList[..i])|
      {
        assert providerList[..i + 1][..i] == providerList[..i];
        if providerList[i] in providers && providers[providerList[i]].active {
          count := count + 1;
        }
      }
      assert providerList[..|providerList|] == providerList;
      active := new Registry.Provider[count](_ => Registry.Provider(Zero, "", 0, 0, 0, 0, false));
      var idx := 0;
      for i := 0 to |providerList|
        invariant 0 <= idx <= count == active.Length
        invariant active[..idx] == Registry.ActiveAmong(State(), providerList[..i])
      {
        assert providerList[..i + 1][..i] == providerList[..i];
        AmongGrows(State(), providerList, i + 1);
        if providerList[i] in providers && providers[providerList[i]].active {
          active[idx] := providers[providerList[i]];
          idx := idx + 1;
        }
      }
    }

    method Call(chain: Chain, m: Msg, c: Registry.Call, tx: Tx) returns (ok: bool)
      requires chain.registry == this
      modifies chain, chain.escrow, chain.registry, chain.auction
      ensures Ends(ok, chain.State(), RegistryCall(old(chain.State()), m, c, tx))
      decreases tx, 2
    {
      ghost var p := FromRegistry(chain.State(), Registry.Begin(State(), m, c));
      FinishEnded(Reverted, tx);
      if m.value != 0 && !c.Register? && !c.Stake? {
        return false;
      }
      if !c.Unstake? && !c.SlashStake? {
        FinishEnded(p, tx);
      }
      match c {
        case Register(endpoint, price) => ok := Register(m, endpoint, price);
        case Update(endpoint, price) => ok := Update(m, endpoint, price);
        case Stake => ok := Stake(m);
        case Unstake(amount) => ok := Unstake(chain, m, amount, tx);
        case Deactivate => ok := Deactivate(m);
        case Reactivate => ok := Reactivate(m);
        case SlashStake(provider, evidence) =>
          var asked: bool;
          ok, asked := Slash(chain, m, provider, evidence, tx.first);
          FinishEnded(Advance(p, tx.first), tx);
        case RecordJobCompleted(a) => ok := RecordJobCompleted(m, a);
        case SetSlashAuthority(a) => ok := SetSlashAuthority(m, a);
        case TransferOwnership(a) =>
          ok := false;
          if a != Zero {
            ok := SetOwner(m, a);
          }
        case RenounceOwnership => ok := SetOwner(m, Zero);
      }
    }
  }

  /** A longer stretch of the list has at least as many active providers. */
  lemma {:induction false} AmongGrows(r: Registry.State, list: seq<Address>, n: nat)
    requires n <= |list|
    ensures |Registry.ActiveAmong(r, list[..n])| <= |Registry.ActiveAmong(r, list)|
    decreases |list|
  {
    if n < |list| {
      AmongGrows(r, list[..|list| - 1], n);
      assert list[..|list| - 1][..n] == list[..n];
    } else {
      assert list[..n] == list;
    }
  }

  class JobAuction {
    var jobs: map<Id, Auction.Job>
    var bids: map<Id, seq<Auction.Bid>>
    var hasBid: set<(Id, Address)>
    var fallbackProvider: Address
    var owner: Address
    var entered: bool
    var events: seq<Auction.Event>

    constructor (initialOwner: Address, initialFallback: Address)
      ensures State() == Auction.State(map[], map[], {}, initialFallback, initialOwner, false, [])
    {
      jobs, bids, hasBid, entered, events := map[], map[], {}, false, [];
      fallbackProvider, owner := initialFallback, initialOwner;
    }

    function State(): Auction.State
      reads this
    {
      Auction.State(jobs, bids, hasBid, fallbackProvider, owner, entered, events)
    }

    method Load(a: Auction.State)
      modifies this
      ensures State() == a
    {
      jobs, bids, hasBid, fallbackProvider, owner := a.jobs, a.bids, a.hasBid, a.fallbackProvider, a.owner;
      entered, events := a.entered, a.events;
    }

    method Emit(event: Auction.Event)
      modifies this`events
      ensures events == old(events) + [event]
    {
      events := events + [event];
    }

    method PostJob(m: Msg, id: Id, maxPricePerHour: nat, ramMb: nat, cpuCores: nat, durationSeconds: nat) returns (ok: bool)
      modifies this
      ensures var s := if old(entered) then Auction.Revert else Auction.Post(old(State()), m, id, maxPricePerHour, ramMb, cpuCores, durationSeconds);
              ok == s.Return? && (ok ==> State() == s.a)
    {
      if entered || m.value == 0 || durationSeconds == 0 || id in jobs || m.now + Auction.BID_WINDOW > MAX_UINT256 {
        return false;
      }
      jobs := jobs[id := Auction.Job(m.sender, m.now, maxPricePerHour, ramMb, cpuCores, durationSeconds, Auction.Open, Zero, 0)];
      Emit(Auction.JobPosted(id, m.sender, maxPricePerHour, ramMb, cpuCores, durationSeconds, m.value, m.now + Auction.BID_WINDOW));
      ok := true;
    }

    method CancelJob(chain: Chain, m: Msg, id: Id, tx: Tx) returns (ok: bool)
      requires chain.auction == this && m.value == 0
      modifies chain, chain.escrow, chain.registry, chain.auction
      ensures Ends(ok, chain.State(), AuctionCall(old(chain.State()), m, Auction.CancelJob(id), tx))
      decreases tx, 0
    {
      ghost var p := FromAuction(chain.State(), Auction.Begin(State(), m, Balance(chain.State(), AuctionContract), Active(chain.State()), Auction.CancelJob(id)));
      FinishEnded(Reverted, tx);
      if entered || id !in jobs || jobs[id].status != Auction.Open || m.sender != jobs[id].user
         || jobs[id].depositedAt + Auction.BID_WINDOW > MAX_UINT256 {
        return false;
      }
      var windowClosed := m.now > jobs[id].depositedAt + Auction.BID_WINDOW;
      if !windowClosed && id in bids && |bids[id]| > 0 {
        return false;
      }
      entered := true;
      jobs := jobs[id := jobs[id].(status := Auction.Cancelled)];
      var refundAmount := Lookup(chain.eth, AuctionContract);
      Emit(Auction.JobCancelled(id, jobs[id].user, refundAmount));
      assert p == Calling(chain.State(), AuctionContract, jobs[id].user, refundAmount, AuctionK, None);
      ok := chain.Send(AuctionContract, jobs[id].user, refundAmount, tx.first);
      if ok {
        entered := false;
      }
      FinishEnded(Advance(p, tx.first), tx);
    }

    /** _requireSufficientStake: scan the registry's answer for the wallet. */
    method HasSufficientStake(chain: Chain, provider: Address) returns (ok: bool)
      ensures ok == Auction.SufficientStake(Active(chain.State()), provider)
    {
      var active := chain.registry.GetActiveProviders();
      var i := 0;
      while i < active.Length
        invariant 0 <= i <= active.Length && active[..] == Active(chain.State())
        invariant Auction.SufficientStake(active[i..], provider) == Auction.SufficientStake(active[..], provider)
      {
        assert active[i..][1..] == active[i + 1..];
        if active[i].wallet == provider {
          return active[i].stakedAmount >= Auction.MIN_STAKE;
        }
        i := i + 1;
      }
      return false;
    }

    method SubmitBid(chain: Chain, m: Msg, id: Id, pricePerHour: nat) returns (ok: bool)
      requires chain.auction == this && m.value == 0
      modifies this
      ensures var s := Auction.Submit(old(State()), m, Active(old(chain.State())), id, pricePerHour);
              ok == s.Return? && (ok ==> State() == s.a)
    {
      if id !in jobs || jobs[id].status != Auction.Open || jobs[id].depositedAt + Auction.BID_WINDOW > MAX_UINT256
         || m.now > jobs[id].depositedAt + Auction.BID_WINDOW || (id, m.sender) in hasBid || pricePerHour > jobs[id].maxPricePerHour {
        return false;
      }
      ok := HasSufficientStake(chain, m.sender);
      if ok {
        hasBid := hasBid + {(id, m.sender)};
        bids := bids[id := (if id in bids then bids[id] else []) + [Auction.Bid(m.sender, pricePerHour, m.now)]];
        Emit(Auction.BidSubmitted(id, m.sender, pricePerHour));
      }
    }

    /** closeAuction's loop: lowest price, ties to the earlier submission. */
    method PickWinner(b: seq<Auction.Bid>) returns (winner: Auction.Bid)
      requires b != []
      ensures winner == Auction.Winner(b)
    {
      winner := b[0];
      for i := 1 to |b|
        invariant winner == Auction.Winner(b[..i])
      {
        assert b[..i + 1][..i] == b[..i];
        if b[i].pricePerHour < winner.pricePerHour
           || (b[i].pricePerHour == winner.pricePerHour && b[i].submittedAt < winner.submittedAt) {
          winner := b[i];
        }
      }
      assert b[..|b|] == b;
    }

    /** The view lowestBid. */
    method LowestBid(id: Id) returns (provider: Address, pricePerHour: nat)
      ensures var b := Auction.BidsOf(State(), id);
              if b == [] then provider == Zero && pricePerHour == 0
              else provider == Auction.Lowest(b).provider && pricePerHour == Auction.Lowest(b).pricePerHour
    {
      if id !in bids || |bids[id]| == 0 {
        return Zero, 0;
      }
      var b := bids[id];
      var best := b[0];
      for i := 1 to |b|
        invariant best == Auction.Lowest(b[..i])
      {
        assert b[..i + 1][..i] == b[..i];
        if b[i].pricePerHour < best.pricePerHour {
          best := b[i];
        }
      }
      assert b[..|b|] == b;
      return best.provider, best.pricePerHour;
    }

    /** Record the award, forward the whole balance to escrow.startSession, give the guard back. */
    method AwardTo(chain: Chain, id: Id, provider: Address, ratePerSecond: nat, r: Reaction) returns (ok: bool)
      requires chain.auction == this && entered
      modifies chain, chain.escrow, chain.registry, chain.auction
      ensures var w := old(chain.State());
              Ends(ok, chain.State(), Advance(OpenSession(w, id, provider, ratePerSecond, Balance(w, AuctionContract)), r))
      decreases r, 4
    {
      ghost var w := chain.State();
      var deposit := Lookup(chain.eth, AuctionContract);
      ghost var p := OpenSession(w, id, provider, ratePerSecond, deposit);
      chain.Transfer(AuctionContract, EscrowContract, deposit);
      ghost var c := chain.State();
      assert c == Transferred(w, AuctionContract, EscrowContract, deposit);
      ok := chain.escrow.StartSession(chain, Msg(AuctionContract, deposit, chain.now), id, provider, ratePerSecond, r);
      AwardMatches(c, w, id, provider, ratePerSecond, deposit, r);
      if ok {
        entered := false;
      }
    }

    method CloseAuction(chain: Chain, m: Msg, id: Id, tx: Tx) returns (ok: bool)
      requires chain.auction == this && m.value == 0 && m.now == chain.now
      modifies chain, chain.escrow, chain.registry, chain.auction
      ensures Ends(ok, chain.State(), AuctionCall(old(chain.State()), m, Auction.CloseAuction(id), tx))
      decreases tx, 0
    {
      ghost var p := FromAuction(chain.State(), Auction.Begin(State(), m, Balance(chain.State(), AuctionContract), Active(chain.State()), Auction.CloseAuction(id)));
      FinishEnded(Reverted, tx);
      if entered || id !in jobs || jobs[id].status != Auction.Open || jobs[id].depositedAt + Auction.BID_WINDOW > MAX_UINT256
         || m.now <= jobs[id].depositedAt + Auction.BID_WINDOW {
        return false;
      }
      entered := true;
      var provider, ratePerSecond;
      if id !in bids || |bids[id]| == 0 {
        if fallbackProvider == Zero {
          return false;
        }
        provider, ratePerSecond := fallbackProvider, jobs[id].maxPricePerHour / 3600;
        if ratePerSecond == 0 {
          ratePerSecond := 1;
        }
        jobs := jobs[id := jobs[id].(status := Auction.Awarded, winningProvider := provider, winningRatePerSecond := ratePerSecond)];
        Emit(Auction.JobAwardedToFallback(id, provider, ratePerSecond));
      } else {
        var winner := PickWinner(bids[id]);
        provider, ratePerSecond := winner.provider, winner.pricePerHour / 3600;
        if ratePerSecond == 0 {
          ratePerSecond := 1;
        }
        jobs := jobs[id := jobs[id].(status := Auction.Awarded, winningProvider := provider, winningRatePerSecond := ratePerSecond)];
        Emit(Auction.JobAwarded(id, provider, winner.pricePerHour, ratePerSecond));
      }
      assert p == OpenSession(chain.State(), id, provider, ratePerSecond, Balance(chain.State(), AuctionContract));
      ok := AwardTo(chain, id, provider, ratePerSecond, tx.first);
      OpenSessionPaysOnce(p, tx);
    }

    method SetFallbackProvider(m: Msg, newFallback: Address) returns (ok: bool)
      modifies this
      ensures ok == (m.sender == old(owner))
      ensures ok ==> State() == Auction.Emit(old(State()).(fallbackProvider := newFallback), Auction.FallbackProviderUpdated(newFallback))
    {
      if m.sender != owner {
        return false;
      }
      fallbackProvider := newFallback;
      Emit(Auction.FallbackProviderUpdated(newFallback));
      ok := true;
    }

    method SetOwner(m: Msg, newOwner: Address) returns (ok: bool)
      modifies this`owner
      ensures ok == (m.sender == old(owner)) && owner == if ok then newOwner else old(owner)
    {
      if m.sender != owner {
        return false;
      }
      owner := newOwner;
      ok := true;
    }

    method Call(chain: Chain, m: Msg, c: Auction.Call, tx: Tx) returns (ok: bool)
      requires chain.auction == this && m.now == chain.now
      modifies chain, chain.escrow, chain.registry, chain.auction
      ensures Ends(ok, chain.State(), AuctionCall(old(chain.State()), m, c, tx))
      decreases tx, 2
    {
      ghost var p := FromAuction(chain.State(), Auction.Begin(State(), m, Balance(chain.State(), AuctionContract), Active(chain.State()), c));
      FinishEnded(Reverted, tx);
      if m.value != 0 && !c.PostJob? {
        return false;
      }
      if !c.CancelJob? && !c.CloseAuction? {
        FinishEnded(p, tx);
      }
      match c {
        case PostJob(id, maxPrice, ram, cpu, duration) => ok := PostJob(m, id, maxPrice, ram, cpu, duration);
        case CancelJob(id) => ok := CancelJob(chain, m, id, tx);
        case SubmitBid(id, price) => ok := SubmitBid(chain, m, id, price);
        case CloseAuction(id) => ok := CloseAuction(chain, m, id, tx);
        case SetFallbackProvider(f) => ok := SetFallbackProvider(m, f);
        case TransferOwnership(o) =>
          ok := false;
          if o != Zero {
            ok := SetOwner(m, o);
          }
        case RenounceOwnership => ok := SetOwner(m, Zero);
      }
    }
  }

  /** slashProvider's view of the registry's slash: it goes on from where a success ends, or from before a failure. */
  lemma SlashMatches(w: World, provider: Address, evidence: nat, k: Escrow.Kont, r: Reaction)
    ensures var s := Registry.Begin(w.registry, Msg(EscrowContract, 0, w.now), Registry.SlashStake(provider, evidence));
            var outer := FromEscrow(w, Escrow.Slash(w.escrow, provider, evidence, k));
            var inner := Advance(FromRegistry(w, s), r);
            if s.Pay? then Advance(outer, r) == AfterSlash(if inner.Done? then inner.w else w, k)
            else s.Revert? && outer == AfterSlash(w, k) && !inner.Done?
  {
    var s := Registry.Begin(w.registry, Msg(EscrowContract, 0, w.now), Registry.SlashStake(provider, evidence));
    assert w.(escrow := w.escrow) == w;
    if s.Pay? {
      assert !w.registry.entered && w.(registry := Registry.Exit(w.registry)) == w;
    }
  }

  lemma StartPaysOnce(e: Escrow.State, m: Msg, c: Escrow.Call)
    requires c.StartSession?
    ensures var s := Escrow.Begin(e, m, c); s.Revert? || (s.Pay? && s.k == Escrow.Exit)
  {
  }

  /** Opening the session from the auction is startSession on the moved deposit, with both guards given back at the end. */
  lemma AwardMatches(c: World, w: World, id: Id, provider: Address, rate: nat, deposit: nat, r: Reaction)
    requires deposit <= Balance(w, AuctionContract) && c == Transferred(w, AuctionContract, EscrowContract, deposit)
    ensures var inner := Advance(FromEscrow(c, Escrow.Begin(w.escrow, Msg(AuctionContract, deposit, w.now), Escrow.StartSession(id, provider, rate))), r);
            var outer := Advance(OpenSession(w, id, provider, rate, deposit), r);
            outer.Done? == inner.Done?
            && (inner.Done? ==> outer.w == inner.w.(auction := Auction.Exit(inner.w.auction)))
  {
    StartPaysOnce(w.escrow, Msg(AuctionContract, deposit, w.now), Escrow.StartSession(id, provider, rate));
  }

  lemma OpenSessionPaysOnce(p: Pause, tx: Tx)
    requires p.Reverted? || (p.Calling? && p.k == AwardK && p.rescue.None?)
    ensures Finish(p, tx) == Advance(p, tx.first)
  {
    FinishEnded(Reverted, tx);
    FinishEnded(Advance(p, tx.first), tx);
  }
}
