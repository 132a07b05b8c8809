/** DeploymentEscrow as a function from storage and message to the next point at which control
    leaves the contract: the end of the call, or an external call whose continuation is named. */
module EscrowSpec {
  import opened Common

  const LOCKUP_PERIOD: nat := 24 * 60 * 60
  const FEE_BPS: nat := 1_000
  const BPS_DENOM: nat := 10_000
  const UPFRONT_BPS: nat := 2_000

  datatype Status = Pending | Released | Refunded | Disputed

  datatype Deposit = Deposit(user: Address, provider: Address, amount: nat, depositedAt: nat, status: Status)

  datatype Session = Session(
    user: Address, provider: Address, ratePerSecond: nat, remainingBalance: nat, lastPaidAt: nat, isActive: bool)

  /** The contract's events; PaymentReleased also carries the fee, which the contract only adds to accruedFees. */
  datatype Event =
    | Deposited(id: Id, user: Address, provider: Address, amount: nat)
    | PaidOut(id: Id, provider: Address, netAmount: nat, fee: nat)
    | RefundedTo(id: Id, user: Address, amount: nat)
    | DisputeOpened(id: Id)
    | FeesWithdrawn(to: Address, amount: nat)
    | AuthorityUpdated(newAuthority: Address)
    | SessionStarted(id: Id, user: Address, provider: Address, totalDeposit: nat, upfrontPaid: nat, escrowed: nat,
                     ratePerSecond: nat)
    | PaymentReleased(id: Id, provider: Address, netAmount: nat, fee: nat, remaining: nat)
    | SessionStopped(id: Id, user: Address, refundAmount: nat)
    | ProviderSlashed(id: Id, provider: Address, evidence: nat)

  /** An event with the block timestamp of its transaction. */
  datatype Entry = Entry(at: nat, event: Event)

  /** A key is in `escrows` or `sessions` exactly when the source's `user` field there is not address(0). */
  datatype State = State(
    escrows: map<Id, Deposit>, sessions: map<Id, Session>, releaseAuthority: Address, proofAuthority: Address,
    owner: Address, accruedFees: nat, entered: bool, events: seq<Entry>)

  datatype Call =
    | DepositFor(id: Id, provider: Address)
    | Refund(id: Id)
    | Release(id: Id)
    | Dispute(id: Id)
    | ResolveDispute(id: Id, toProvider: bool)
    | StartSession(id: Id, provider: Address, ratePerSecond: nat)
    | ReleasePayment(id: Id)
    | SubmitProof(id: Id)
    | StopSession(id: Id)
    | SlashProvider(id: Id, evidence: nat)
    | WithdrawFees
    | SetReleaseAuthority(newAuthority: Address)
    | SetProofAuthority(newAuthority: Address)
    | TransferOwnership(newOwner: Address)
    | RenounceOwnership

  /** What is left to do once an external call has returned successfully. */
  datatype Kont = Exit | FinishStop(id: Id) | RefundAfterSlash(user: Address, amount: nat)

  /** Where a call has got to. Pay sends ETH out; Slash asks the registry, swallowing its failure. */
  datatype Step =
    | Revert
    | Return(e: State)
    | Pay(e: State, to: Address, amount: nat, k: Kont)
    | Slash(e: State, provider: Address, evidence: nat, k: Kont)

  /** (amount * FEE_BPS) / BPS_DENOM in checked arithmetic. */
  function Fee(amount: nat): Option<nat> {
    if amount * FEE_BPS > MAX_UINT256 then None else Some(amount * FEE_BPS / BPS_DENOM)
  }

  function Emit(e: State, now: nat, event: Event): State {
    e.(events := e.events + [Entry(now, event)])
  }

  function SetStatus(e: State, id: Id, status: Status): State
    requires id in e.escrows
  {
    e.(escrows := e.escrows[id := e.escrows[id].(status := status)])
  }

  function Begin(e: State, m: Msg, c: Call): Step {
    if m.value != 0 && !c.DepositFor? && !c.StartSession? then Revert else
    match c
    case Dispute(id) => OpenDispute(e, m, id)
    case SetReleaseAuthority(a) =>
      if m.sender != e.owner then Revert else
      Return(Emit(e.(releaseAuthority := a), m.now, AuthorityUpdated(a)))
    case SetProofAuthority(a) =>
      if m.sender != e.owner then Revert else
      Return(Emit(e.(proofAuthority := a), m.now, AuthorityUpdated(a)))
    case TransferOwnership(a) => if m.sender != e.owner || a == Zero then Revert else Return(e.(owner := a))
    case RenounceOwnership => if m.sender != e.owner then Revert else Return(e.(owner := Zero))
    case _ => if e.entered then Revert else Guarded(e.(entered := true), m, c)
  }

  /** The functions marked nonReentrant, after the guard has been taken. */
  function Guarded(e: State, m: Msg, c: Call): Step {
    match c
    case DepositFor(id, provider) => MakeDeposit(e, m, id, provider)
    case Refund(id) => RefundDeposit(e, m, id)
    case Release(id) => ReleaseDeposit(e, m, id)
    case ResolveDispute(id, toProvider) => Resolve(e, m, id, toProvider)
    case StartSession(id, provider, rate) => Start(e, m, id, provider, rate)
    case ReleasePayment(id) => if !Active(e, id) then Revert else Drip(e, m.now, id, Exit)
    case SubmitProof(id) =>
      if m.sender != e.proofAuthority && m.sender != e.owner then Revert
      else if !Active(e, id) then Revert else Drip(e, m.now, id, Exit)
    case StopSession(id) =>
      if !Active(e, id) || m.sender != e.sessions[id].user then Revert else Drip(e, m.now, id, FinishStop(id))
    case SlashProvider(id, evidence) => SlashSession(e, m, id, evidence)
    case WithdrawFees => Withdraw(e, m)
    case _ => Revert
  }

  function MakeDeposit(e: State, m: Msg, id: Id, provider: Address): Step {
    if m.value == 0 || id in e.escrows then Revert else
    var d := Deposit(m.sender, provider, m.value, m.now, Pending);
    Resume(Emit(e.(escrows := e.escrows[id := d]), m.now, Deposited(id, m.sender, provider, m.value)), m.now, Exit)
  }

  function RefundDeposit(e: State, m: Msg, id: Id): Step {
    if id !in e.escrows || !e.escrows[id].status.Pending? then Revert else
    var d := e.escrows[id];
    if m.sender != d.user || d.depositedAt + LOCKUP_PERIOD > MAX_UINT256 || m.now < d.depositedAt + LOCKUP_PERIOD
    then Revert
    else Pay(Emit(SetStatus(e, id, Refunded), m.now, RefundedTo(id, d.user, d.amount)), d.user, d.amount, Exit)
  }

  function ReleaseDeposit(e: State, m: Msg, id: Id): Step {
    if m.sender != e.releaseAuthority && m.sender != e.owner then Revert
    else if id !in e.escrows || !e.escrows[id].status.Pending? then Revert
    else PayProvider(e, m, id)
  }

  /** Status Released, the fee accrued, the rest sent to the provider. */
  function PayProvider(e: State, m: Msg, id: Id): Step
    requires id in e.escrows
  {
    var d := e.escrows[id];
    match Fee(d.amount)
    case None => Revert
    case Some(fee) =>
      if e.accruedFees + fee > MAX_UINT256 then Revert else
      var paid := SetStatus(e, id, Released).(accruedFees := e.accruedFees + fee);
      Pay(Emit(paid, m.now, PaidOut(id, d.provider, d.amount - fee, fee)), d.provider, d.amount - fee, Exit)
  }

  function OpenDispute(e: State, m: Msg, id: Id): Step {
    if m.sender != e.releaseAuthority && m.sender != e.owner then Revert
    else if id !in e.escrows || !e.escrows[id].status.Pending? then Revert
    else Return(Emit(SetStatus(e, id, Disputed), m.now, DisputeOpened(id)))
  }

  function Resolve(e: State, m: Msg, id: Id, toProvider: bool): Step {
    if m.sender != e.owner || id !in e.escrows || !e.escrows[id].status.Disputed? then Revert
    else if toProvider then PayProvider(e, m, id)
    else
      var d := e.escrows[id];
      Pay(Emit(SetStatus(e, id, Refunded), m.now, RefundedTo(id, d.user, d.amount)), d.user, d.amount, Exit)
  }

  function Start(e: State, m: Msg, id: Id, provider: Address, rate: nat): Step {
    if m.value == 0 || rate == 0 || id in e.sessions || m.value * UPFRONT_BPS > MAX_UINT256 then Revert else
    var upfront := m.value * UPFRONT_BPS / BPS_DENOM;
    var escrowed := m.value - upfront;
    var s := Session(m.sender, provider, rate, escrowed, m.now, true);
    Pay(Emit(e.(sessions := e.sessions[id := s]), m.now,
             SessionStarted(id, m.sender, provider, m.value, upfront, escrowed, rate)),
        provider, upfront, Exit)
  }

  predicate Active(e: State, id: Id) {
    id in e.sessions && e.sessions[id].isActive
  }

  /** elapsed * ratePerSecond, capped by the balance; None when the checked arithmetic reverts. */
  function Owed(s: Session, now: nat): Option<nat> {
    if now < s.lastPaidAt || (now - s.lastPaidAt) * s.ratePerSecond > MAX_UINT256 then None
    else Some(Min((now - s.lastPaidAt) * s.ratePerSecond, s.remainingBalance))
  }

  /** _releaseAccrued followed by the rest of its caller. */
  function Drip(e: State, now: nat, id: Id, k: Kont): Step
    requires id in e.sessions
  {
    var s := e.sessions[id];
    match Owed(s, now)
    case None => Revert
    case Some(owed) =>
      if owed == 0 then Resume(e, now, k) else
      match Fee(owed)
      case None => Revert
      case Some(fee) =>
        if e.accruedFees + fee > MAX_UINT256 then Revert else
        var s' := s.(remainingBalance := s.remainingBalance - owed, lastPaidAt := now);
        var e' := e.(sessions := e.sessions[id := s'], accruedFees := e.accruedFees + fee);
        Pay(Emit(e', now, PaymentReleased(id, s.provider, owed - fee, fee, s'.remainingBalance)),
            s.provider, owed - fee, k)
  }

  /** Stop paying and keep the balance aside for the user. */
  function Close(e: State, now: nat, id: Id): State
    requires id in e.sessions
  {
    var s := e.sessions[id];
    Emit(e.(sessions := e.sessions[id := s.(remainingBalance := 0, isActive := false)]),
         now, SessionStopped(id, s.user, s.remainingBalance))
  }

  function SlashSession(e: State, m: Msg, id: Id, evidence: nat): Step {
    if m.sender != e.proofAuthority && m.sender != e.owner then Revert
    else if !Active(e, id) then Revert
    else
      var s := e.sessions[id];
      var slashed := Emit(e, m.now, ProviderSlashed(id, s.provider, evidence));
      Slash(Close(slashed, m.now, id), s.provider, evidence, RefundAfterSlash(s.user, s.remainingBalance))
  }

  function Withdraw(e: State, m: Msg): Step {
    if m.sender != e.owner || e.accruedFees == 0 then Revert
    else Pay(Emit(e.(accruedFees := 0), m.now, FeesWithdrawn(e.owner, e.accruedFees)), e.owner, e.accruedFees, Exit)
  }

  /** Carry on after a successful external call; Exit gives the guard back. */
  function Resume(e: State, now: nat, k: Kont): Step {
    match k
    case Exit => Return(e.(entered := false))
    case FinishStop(id) =>
      if id !in e.sessions then Revert else
      var s := e.sessions[id];
      PayIfAny(Close(e, now, id), s.user, s.remainingBalance)
    case RefundAfterSlash(user, amount) => PayIfAny(e, user, amount)
  }

  function PayIfAny(e: State, to: Address, amount: nat): Step {
    if amount > 0 then Pay(e, to, amount, Exit) else Return(e.(entered := false))
  }

  /** The view pendingPayment; None when its checked arithmetic reverts. */
  function PendingPayment(e: State, now: nat, id: Id): Option<nat> {
    if !Active(e, id) then Some(0) else Owed(e.sessions[id], now)
  }

  /** The view isLockupExpired. */
  function IsLockupExpired(e: State, now: nat, id: Id): Option<bool> {
    if id !in e.escrows then Some(false)
    else if e.escrows[id].depositedAt + LOCKUP_PERIOD > MAX_UINT256 then None
    else Some(now >= e.escrows[id].depositedAt + LOCKUP_PERIOD)
  }
}
