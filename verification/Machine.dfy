/** The three contracts on one chain. A transaction runs to its end or leaves no trace. Whoever is paid
    may refuse, or first send any number of transactions of its own. */
module Machine {
  import opened Common
  import opened MapSum
  import Escrow = EscrowSpec
  import Registry = RegistrySpec
  import Auction = AuctionSpec

  /** ETH that changed hands. */
  datatype Transfer = Transfer(from: Address, to: Address, amount: nat)

  /** `transfers` is the chain's own record of every movement of ETH, in order; no contract reads it. */
  datatype World = World(
    now: nat, eth: map<Address, nat>, transfers: seq<Transfer>, escrow: Escrow.State, registry: Registry.State, auction: Auction.State)

  datatype Call =
    | ToEscrow(escrow: Escrow.Call)
    | ToRegistry(registry: Registry.Call)
    | ToAuction(auction: Auction.Call)
    | ToWallet(to: Address)

  /** No call of the three contracts makes more than two external payments; `first` and `second` say how their receivers react. */
  datatype Tx = Tx(sender: Address, value: nat, call: Call, first: Reaction, second: Reaction)

  /** What a receiver does before the payment to it succeeds or fails. */
  datatype Reaction = Accept | Reject | Then(tx: Tx, rest: Reaction)

  /** What is left to do in the outer call once a payment has gone through. */
  datatype Kont = EscrowK(k: Escrow.Kont) | SlashK(k: Escrow.Kont) | RegistryK | AuctionK | AwardK | WalletK

  /** Where a transaction has got to. Calling is about to pay; a failed payment reverts everything unless there is
      a rescue state, the one in which slashProvider swallows the registry's failure. */
  datatype Pause =
    | Reverted
    | Done(w: World)
    | Calling(w: World, from: Address, to: Address, amount: nat, k: Kont, rescue: Option<World>)

  // ---- ETH ----

  function Balance(w: World, a: Address): nat {
    Lookup(w.eth, a)
  }

  predicate CanPay(w: World, from: Address, to: Address, amount: nat) {
    amount <= Balance(w, from) && !IsContract(to)
  }

  /** Take from one address, then credit the other. */
  function Move(eth: map<Address, nat>, from: Address, to: Address, amount: nat): map<Address, nat>
    requires amount <= Lookup(eth, from)
  {
    var taken := eth[from := Lookup(eth, from) - amount];
    taken[to := Lookup(taken, to) + amount]
  }

  /** Sending nothing leaves no trace. */
  function Recorded(transfers: seq<Transfer>, from: Address, to: Address, amount: nat): seq<Transfer> {
    if amount == 0 then transfers else transfers + [Transfer(from, to, amount)]
  }

  function Transferred(w: World, from: Address, to: Address, amount: nat): World
    requires amount <= Balance(w, from)
  {
    w.(eth := Move(w.eth, from, to, amount), transfers := Recorded(w.transfers, from, to, amount))
  }

  // ---- From a contract's step to the chain's ----

  function FromEscrow(w: World, s: Escrow.Step): Pause {
    match s
    case Revert => Reverted
    case Return(e) => Done(w.(escrow := e))
    case Pay(e, to, amount, k) => Calling(w.(escrow := e), EscrowContract, to, amount, EscrowK(k), None)
    case Slash(e, provider, evidence, k) =>
      var w' := w.(escrow := e);
      match Registry.Begin(w.registry, Msg(EscrowContract, 0, w.now), Registry.SlashStake(provider, evidence))
      case Pay(r, to, amount) => Calling(w'.(registry := r), RegistryContract, to, amount, SlashK(k), Some(w'))
      case _ => AfterSlash(w', k)
  }

  /** slashProvider after the registry has answered or failed. */
  function AfterSlash(w: World, k: Escrow.Kont): Pause {
    match Escrow.Resume(w.escrow, w.now, k)
    case Return(e) => Done(w.(escrow := e))
    case Pay(e, to, amount, k') => Calling(w.(escrow := e), EscrowContract, to, amount, EscrowK(k'), None)
    case _ => Reverted
  }

  function FromRegistry(w: World, s: Registry.Step): Pause {
    match s
    case Revert => Reverted
    case Return(r) => Done(w.(registry := r))
    case Pay(r, to, amount) => Calling(w.(registry := r), RegistryContract, to, amount, RegistryK, None)
  }

  function FromAuction(w: World, s: Auction.Step): Pause {
    match s
    case Revert => Reverted
    case Return(a) => Done(w.(auction := a))
    case Pay(a, to, amount) => Calling(w.(auction := a), AuctionContract, to, amount, AuctionK, None)
    case Award(a, id, provider, rate, deposit) => OpenSession(w.(auction := a), id, provider, rate, deposit)
  }

  /** closeAuction's call escrow.startSession{value: deposit}. */
  function OpenSession(w: World, id: Id, provider: Address, rate: nat, deposit: nat): Pause {
    if deposit > Balance(w, AuctionContract) then Reverted else
    match Escrow.Begin(w.escrow, Msg(AuctionContract, deposit, w.now), Escrow.StartSession(id, provider, rate))
    case Pay(e, to, upfront, _) =>
      Calling(Transferred(w, AuctionContract, EscrowContract, deposit).(escrow := e), EscrowContract, to, upfront, AwardK, None)
    case _ => Reverted
  }

  /** The transaction up to its first payment. Only wallets send transactions. */
  function Start(w: World, tx: Tx): Pause {
    if !tx.sender.Wallet? || tx.value > Balance(w, tx.sender) then Reverted else
    var m := Msg(tx.sender, tx.value, w.now);
    match tx.call
    case ToEscrow(c) => FromEscrow(Transferred(w, tx.sender, EscrowContract, tx.value), Escrow.Begin(w.escrow, m, c))
    case ToRegistry(c) => FromRegistry(Transferred(w, tx.sender, RegistryContract, tx.value), Registry.Begin(w.registry, m, c))
    case ToAuction(c) =>
      var paid := Transferred(w, tx.sender, AuctionContract, tx.value);
      FromAuction(paid, Auction.Begin(w.auction, m, Balance(paid, AuctionContract), Registry.ActiveAmong(w.registry, w.registry.providerList), c))
    case ToWallet(to) => Calling(w, tx.sender, to, tx.value, WalletK, None)
  }

  /** The transaction from one payment to the next. */
  function Resume(w: World, k: Kont): Pause {
    match k
    case EscrowK(k) => FromEscrow(w, Escrow.Resume(w.escrow, w.now, k))
    case SlashK(k) => AfterSlash(w.(registry := Registry.Exit(w.registry)), k)
    case RegistryK => Done(w.(registry := Registry.Exit(w.registry)))
    case AuctionK => Done(w.(auction := Auction.Exit(w.auction)))
    case AwardK =>
      match Escrow.Resume(w.escrow, w.now, Escrow.Exit) {
        case Return(e) => Done(w.(escrow := e, auction := Auction.Exit(w.auction)))
        case _ => Reverted
      }
    case WalletK => Done(w)
  }

  // ---- Execution ----

  function Paid(w: World, from: Address, to: Address, amount: nat): World
    requires CanPay(w, from, to, amount)
  {
    Transferred(w, from, to, amount)
  }

  /** A call with value: the ETH moves first, then the receiver reacts; None is failure. */
  function Send(w: World, from: Address, to: Address, amount: nat, r: Reaction): Option<World>
    decreases r, 1
  {
    if CanPay(w, from, to, amount) then React(Paid(w, from, to, amount), r) else None
  }

  function React(w: World, r: Reaction): Option<World>
    decreases r, 0
  {
    match r
    case Accept => Some(w)
    case Reject => None
    case Then(tx, rest) => React(Step(w, tx), rest)
  }

  function Advance(p: Pause, r: Reaction): Pause
    decreases r, 2
  {
    match p
    case Calling(w, from, to, amount, k, rescue) =>
      (match Send(w, from, to, amount, r)
       case Some(v) => Resume(v, k)
       case None => if rescue.Some? then Resume(rescue.value, k) else Reverted)
    case _ => p
  }

  function Exec(w: World, tx: Tx): Pause
    decreases tx, 0
  {
    Advance(Advance(Start(w, tx), tx.first), tx.second)
  }

  /** A transaction that does not reach its end leaves the state as it was. */
  function Step(w: World, tx: Tx): World
    decreases tx, 1
  {
    match Exec(w, tx)
    case Done(v) => v
    case _ => w
  }

  // ---- Runs ----

  /** A transaction in a block `wait` seconds after the previous one. */
  datatype Block = Block(wait: nat, tx: Tx)

  function Tick(w: World, wait: nat): World {
    w.(now := w.now + wait)
  }

  function Run(w: World, blocks: seq<Block>): World {
    if blocks == [] then w
    else
      var before := Run(w, blocks[..|blocks| - 1]);
      var b := blocks[|blocks| - 1];
      Step(Tick(before, b.wait), b.tx)
  }

  /** The freshly deployed contracts: no storage, no ETH, and the record begins. */
  predicate Genesis(w: World) {
    && w.transfers == []
    && Balance(w, EscrowContract) == 0 && Balance(w, RegistryContract) == 0 && Balance(w, AuctionContract) == 0
    && w.escrow.escrows == map[] && w.escrow.sessions == map[] && w.escrow.accruedFees == 0
    && !w.escrow.entered && w.escrow.events == []
    && w.registry.providers == map[] && w.registry.providerList == [] && !w.registry.entered && w.registry.events == []
    && w.auction.jobs == map[] && w.auction.bids == map[] && w.auction.hasBid == {} && !w.auction.entered && w.auction.events == []
  }

  ghost predicate Reachable(w: World) {
    exists start, blocks :: Genesis(start) && w == Run(start, blocks)
  }

  // ---- What outside code gets to see ----

  /** The states in which a receiver's code runs while it reacts. */
  ghost function SeenBy(w: World, r: Reaction): seq<World>
    decreases r, 0
  {
    [w] + match r case Then(tx, rest) => SeenDuring(w, tx) + SeenBy(Step(w, tx), rest) case _ => []
  }

  ghost function SeenAt(p: Pause, r: Reaction): seq<World>
    decreases r, 1
  {
    if p.Calling? && CanPay(p.w, p.from, p.to, p.amount) then SeenBy(Paid(p.w, p.from, p.to, p.amount), r) else []
  }

  /** Every state, at any depth of calls, in which outside code runs during a transaction. */
  ghost function SeenDuring(w: World, tx: Tx): seq<World>
    decreases tx, 0
  {
    SeenAt(Start(w, tx), tx.first) + SeenAt(Advance(Start(w, tx), tx.first), tx.second)
  }
}
