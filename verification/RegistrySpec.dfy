/** ProviderRegistry as a function from storage and message to the next point at which control leaves it. */
module RegistrySpec {
  import opened Common

  /** 0.01 ether */
  const MIN_STAKE: nat := 10_000_000_000_000_000

  datatype Provider = Provider(
    wallet: Address, endpoint: string, pricePerHour: nat, stakedAmount: nat, slashCount: nat, jobsCompleted: nat,
    active: bool)

  /** The contract's events; Slashed also carries the treasury, which the contract only pays. */
  datatype Event =
    | ProviderRegistered(wallet: Address, endpoint: string, pricePerHour: nat, stakedAmount: nat)
    | ProviderUpdated(wallet: Address, endpoint: string, pricePerHour: nat)
    | ProviderDeactivated(wallet: Address)
    | ProviderReactivated(wallet: Address)
    | Staked(wallet: Address, amount: nat, totalStake: nat)
    | Unstaked(wallet: Address, amount: nat, remainingStake: nat)
    | Slashed(wallet: Address, amount: nat, evidence: nat, treasury: Address)
    | JobCompleted(wallet: Address, totalJobs: nat)
    | SlashAuthorityUpdated(newAuthority: Address)

  /** A key is in `providers` exactly when the source's `wallet` field there is not address(0). */
  datatype State = State(
    providers: map<Address, Provider>, providerList: seq<Address>, slashAuthority: Address, owner: Address,
    entered: bool, events: seq<Event>)

  datatype Call =
    | Register(endpoint: string, pricePerHour: nat)
    | Update(endpoint: string, pricePerHour: nat)
    | Stake
    | Unstake(amount: nat)
    | Deactivate
    | Reactivate
    | SlashStake(provider: Address, evidence: nat)
    | RecordJobCompleted(provider: Address)
    | SetSlashAuthority(newAuthority: Address)
    | TransferOwnership(newOwner: Address)
    | RenounceOwnership

  /** After a Pay only the guard is left to give back. */
  datatype Step = Revert | Return(r: State) | Pay(r: State, to: Address, amount: nat)

  function Emit(r: State, event: Event): State {
    r.(events := r.events + [event])
  }

  function Put(r: State, a: Address, p: Provider): State {
    r.(providers := r.providers[a := p])
  }

  function Begin(r: State, m: Msg, c: Call): Step {
    if m.value != 0 && !c.Register? && !c.Stake? then Revert else
    match c
    case Register(endpoint, price) => if r.entered then Revert else Enrol(r, m, endpoint, price)
    case Stake => if r.entered then Revert else AddStake(r, m)
    case Unstake(amount) => if r.entered then Revert else Withdraw(r, m, amount)
    case SlashStake(provider, evidence) => if r.entered then Revert else Slash(r, m, provider, evidence)
    case Update(endpoint, price) =>
      if m.sender !in r.providers || endpoint == "" then Revert else
      Return(Emit(Put(r, m.sender, r.providers[m.sender].(endpoint := endpoint, pricePerHour := price)),
                  ProviderUpdated(m.sender, endpoint, price)))
    case Deactivate =>
      if m.sender !in r.providers then Revert else
      Return(Emit(Put(r, m.sender, r.providers[m.sender].(active := false)), ProviderDeactivated(m.sender)))
    case Reactivate =>
      if m.sender !in r.providers || r.providers[m.sender].stakedAmount < MIN_STAKE then Revert else
      Return(Emit(Put(r, m.sender, r.providers[m.sender].(active := true)), ProviderReactivated(m.sender)))
    case RecordJobCompleted(a) =>
      if (m.sender != r.slashAuthority && m.sender != r.owner) || a !in r.providers
         || r.providers[a].jobsCompleted + 1 > MAX_UINT256
      then Revert
      else
        var p := r.providers[a].(jobsCompleted := r.providers[a].jobsCompleted + 1);
        Return(Emit(Put(r, a, p), JobCompleted(a, p.jobsCompleted)))
    case SetSlashAuthority(a) =>
      if m.sender != r.owner then Revert else Return(Emit(r.(slashAuthority := a), SlashAuthorityUpdated(a)))
    case TransferOwnership(a) => if m.sender != r.owner || a == Zero then Revert else Return(r.(owner := a))
    case RenounceOwnership => if m.sender != r.owner then Revert else Return(r.(owner := Zero))
  }

  function Enrol(r: State, m: Msg, endpoint: string, price: nat): Step {
    if m.sender in r.providers || m.value < MIN_STAKE || endpoint == "" then Revert else
    var p := Provider(m.sender, endpoint, price, m.value, 0, 0, true);
    Return(Emit(Put(r, m.sender, p).(providerList := r.providerList + [m.sender]),
                ProviderRegistered(m.sender, endpoint, price, m.value)))
  }

  function AddStake(r: State, m: Msg): Step {
    if m.sender !in r.providers || m.value == 0 || r.providers[m.sender].stakedAmount + m.value > MAX_UINT256
    then Revert
    else
      var staked := r.providers[m.sender].stakedAmount + m.value;
      var woken := !r.providers[m.sender].active && staked >= MIN_STAKE;
      var p := r.providers[m.sender].(stakedAmount := staked, active := r.providers[m.sender].active || woken);
      var r' := if woken then Emit(Put(r, m.sender, p), ProviderReactivated(m.sender)) else Put(r, m.sender, p);
      Return(Emit(r', Staked(m.sender, m.value, staked)))
  }

  function Withdraw(r: State, m: Msg, amount: nat): Step {
    if m.sender !in r.providers || amount == 0 || amount > r.providers[m.sender].stakedAmount then Revert else
    var remaining := r.providers[m.sender].stakedAmount - amount;
    var dropped := remaining < MIN_STAKE && r.providers[m.sender].active;
    var p := r.providers[m.sender].(stakedAmount := remaining, active := r.providers[m.sender].active && !dropped);
    var r' := if dropped then Emit(Put(r, m.sender, p), ProviderDeactivated(m.sender)) else Put(r, m.sender, p);
    Pay(Emit(r', Unstaked(m.sender, amount, remaining)).(entered := true), m.sender, amount)
  }

  function Slash(r: State, m: Msg, provider: Address, evidence: nat): Step {
    if (m.sender != r.slashAuthority && m.sender != r.owner) || provider !in r.providers
       || r.providers[provider].slashCount + 1 > MAX_UINT256
    then Revert
    else
      var before := r.providers[provider];
      var amount := before.stakedAmount / 2;
      var staked := before.stakedAmount - amount;
      var p := before.(stakedAmount := staked, slashCount := before.slashCount + 1,
                       active := before.active && staked >= MIN_STAKE);
      var r' := if staked < MIN_STAKE then Emit(Put(r, provider, p), ProviderDeactivated(provider)) else Put(r, provider, p);
      Pay(Emit(r', Slashed(provider, amount, evidence, r.owner)).(entered := true), r.owner, amount)
  }

  function Exit(r: State): State {
    r.(entered := false)
  }

  /** An address without a record reads as an inactive one. */
  predicate IsActive(r: State, a: Address) {
    a in r.providers && r.providers[a].active
  }

  /** getActiveProviders: the active entries of the list, in its order. */
  function ActiveAmong(r: State, list: seq<Address>): seq<Provider> {
    if list == [] then []
    else
      var before := ActiveAmong(r, list[..|list| - 1]);
      if IsActive(r, list[|list| - 1]) then before + [r.providers[list[|list| - 1]]] else before
  }
}

/** ProviderRegistry's invariants, and the stake replayed from the events alone. */
module RegistrySound {
  import opened Common
  import opened MapSum
  import opened RegistrySpec

  ghost function Stakes(r: State): map<Address, nat> {
    map a | a in r.providers :: r.providers[a].stakedAmount
  }

  /** The list names each registered wallet once; an active provider holds at least the minimum stake. */
  ghost predicate RegistryOk(r: State) {
    && (forall i, j | 0 <= i < j < |r.providerList| :: r.providerList[i] != r.providerList[j])
    && (forall a :: a in r.providerList <==> a in r.providers)
    && (forall a | a in r.providers :: r.providers[a].wallet == a && (r.providers[a].active ==> r.providers[a].stakedAmount >= MIN_STAKE))
  }

  /** Independent bookkeeping: a registration sets the stake, staking adds, unstaking takes out, a slash halves rounding up. */
  ghost function PostStake(s: Option<nat>, x: Event, a: Address): Option<nat> {
    match x
    case ProviderRegistered(w, _, _, amount) => if w == a then Some(amount) else s
    case Staked(w, amount, _) => if w == a && s.Some? then Some(s.value + amount) else s
    case Unstaked(w, amount, _) => if w == a && s.Some? && amount <= s.value then Some(s.value - amount) else s
    case Slashed(w, _, _, _) => if w == a && s.Some? then Some((s.value + 1) / 2) else s
    case _ => s
  }

  ghost function StakeOf(events: seq<Event>, a: Address): Option<nat> {
    if events == [] then None else PostStake(StakeOf(events[..|events| - 1], a), events[|events| - 1], a)
  }

  lemma StakeAppend(events: seq<Event>, x: Event, a: Address)
    ensures StakeOf(events + [x], a) == PostStake(StakeOf(events, a), x, a)
  {
    assert (events + [x])[..|events|] == events;
  }

  ghost predicate StakeOk(r: State, a: Address) {
    StakeOf(r.events, a) == if a in r.providers then Some(r.providers[a].stakedAmount) else None
  }

  ghost predicate Grows(r: State, r': State) {
    r.events <= r'.events && r.providers.Keys <= r'.providers.Keys && r.providerList <= r'.providerList
  }

  ghost predicate Keeps(r: State, r': State) {
    && (RegistryOk(r) ==> RegistryOk(r'))
    && (forall a :: StakeOk(r, a) ==> StakeOk(r', a))
  }

  /** What stays while the guard is held: no stake moves, nobody joins. */
  ghost predicate Frozen(r: State, r': State) {
    r'.providerList == r.providerList && Stakes(r') == Stakes(r)
  }

  // ---- Who is paid ----

  /** The payment an event announces: to whom, and how much. */
  function Announced(x: Event): seq<Payout> {
    match x
    case Unstaked(wallet, amount, _) => Payment(wallet, amount)
    case Slashed(_, amount, _, treasury) => Payment(treasury, amount)
    case _ => []
  }

  ghost function Named(events: seq<Event>): seq<Payout> {
    if events == [] then [] else Named(events[..|events| - 1]) + Announced(events[|events| - 1])
  }

  lemma NamedAppend(events: seq<Event>, x: Event)
    ensures Named(events + [x]) == Named(events) + Announced(x)
  {
    assert (events + [x])[..|events|] == events;
  }

  /** A step pays exactly whom its events name; a slash pays the owner. */
  ghost predicate Addressed(r: State, step: Step) {
    match step
    case Revert => true
    case Return(r') => Named(r'.events) == Named(r.events)
    case Pay(r', to, amount) =>
      && Named(r'.events) == Named(r.events) + Payment(to, amount)
      && r'.events != [] && (r'.events[|r'.events| - 1].Slashed? ==> to == r.owner)
  }

  /** At most two new events, and none but the last announces a payment. */
  lemma NewEvents(r: State, r': State)
    requires r.events <= r'.events && |r'.events| <= |r.events| + 2
    requires |r'.events| == |r.events| + 2 ==> Announced(r'.events[|r.events|]) == []
    ensures Named(r'.events) == Named(r.events) + if r'.events == r.events then [] else Announced(r'.events[|r'.events| - 1])
  {
    var n := |r.events|;
    if |r'.events| == n {
      assert r'.events == r.events && Named(r.events) + [] == Named(r.events);
    } else {
      NamedAppend(r.events, r'.events[n]);
      assert r'.events[..n + 1] == r.events + [r'.events[n]];
      if |r'.events| == n + 2 {
        NamedAppend(r.events + [r'.events[n]], r'.events[n + 1]);
        assert r'.events == r.events + [r'.events[n]] + [r'.events[n + 1]];
        assert Named(r.events) + [] == Named(r.events);
      } else {
        assert r'.events == r.events + [r'.events[n]];
      }
    }
  }

  lemma WithdrawAddressed(r: State, m: Msg, amount: nat)
    ensures Addressed(r, Withdraw(r, m, amount))
  {
    match Withdraw(r, m, amount)
    case Pay(r', _, _) => NewEvents(r, r');
    case _ =>
  }

  lemma SlashAddressed(r: State, m: Msg, provider: Address, evidence: nat)
    ensures Addressed(r, Slash(r, m, provider, evidence))
  {
    match Slash(r, m, provider, evidence)
    case Pay(r', _, _) => NewEvents(r, r');
    case _ =>
  }

  lemma AddStakeAddressed(r: State, m: Msg)
    ensures Addressed(r, AddStake(r, m))
  {
    match AddStake(r, m)
    case Return(r') => NewEvents(r, r');
    case _ =>
  }

  lemma BeginAddressed(r: State, m: Msg, c: Call)
    ensures Addressed(r, Begin(r, m, c))
  {
    if c.Unstake? {
      WithdrawAddressed(r, m, c.amount);
    } else if c.SlashStake? {
      SlashAddressed(r, m, c.provider, c.evidence);
    } else if c.Stake? {
      AddStakeAddressed(r, m);
    } else if Begin(r, m, c).Return? {
      NewEvents(r, Begin(r, m, c).r);
    }
  }

  /** The books are kept, and the money goes to whom the events name. */
  ghost predicate StepSound(r: State, total: nat, step: Step) {
    Booked(r, total, step) && Addressed(r, step)
  }

  ghost predicate Booked(r: State, total: nat, step: Step) {
    match step
    case Revert => true
    case Return(r') => Grows(r, r') && Keeps(r, r') && Sum(Stakes(r')) == total && r'.entered == r.entered
    case Pay(r', _, amount) => !r.entered && r'.entered && Grows(r, r') && Keeps(r, r') && Sum(Stakes(r')) + amount == total
  }

  /** One provider record changes; the last event says by how much, an optional one before it does not touch stakes. */
  lemma ProviderStep(r: State, r': State, a: Address, x: Event, y: Event)
    requires a in r.providers && a in r'.providers && r'.providers == r.providers[a := r'.providers[a]]
    requires r'.providerList == r.providerList
    requires x.ProviderDeactivated? || x.ProviderReactivated?
    requires r'.events == r.events + [y] || r'.events == r.events + [x] + [y]
    requires !y.ProviderRegistered?
    requires RegistryOk(r) ==> r'.providers[a].wallet == a && (r'.providers[a].active ==> r'.providers[a].stakedAmount >= MIN_STAKE)
    requires PostStake(Some(r.providers[a].stakedAmount), y, a) == Some(r'.providers[a].stakedAmount)
    requires forall b: Address, s | b != a :: PostStake(s, y, b) == s
    ensures Grows(r, r') && Keeps(r, r')
    ensures Sum(Stakes(r')) == Sum(Stakes(r)) - r.providers[a].stakedAmount + r'.providers[a].stakedAmount
  {
    assert Stakes(r') == Stakes(r)[a := r'.providers[a].stakedAmount];
    SumUpdate(Stakes(r), a, r'.providers[a].stakedAmount);
    forall b
      ensures StakeOk(r, b) ==> StakeOk(r', b)
    {
      StakeAppend(r.events, y, b);
      StakeAppend(r.events, x, b);
      StakeAppend(r.events + [x], y, b);
    }
  }

  lemma EnrolSound(r: State, m: Msg, endpoint: string, price: nat)
    ensures Booked(r, Sum(Stakes(r)) + m.value, Enrol(r, m, endpoint, price))
  {
    match Enrol(r, m, endpoint, price)
    case Return(r') =>
      assert Stakes(r') == Stakes(r)[m.sender := m.value];
      SumUpdate(Stakes(r), m.sender, m.value);
      assert forall a :: a in r'.providerList <==> a in r.providerList || a == m.sender;
      forall a
        ensures StakeOk(r, a) ==> StakeOk(r', a)
      {
        StakeAppend(r.events, ProviderRegistered(m.sender, endpoint, price, m.value), a);
      }
    case _ =>
  }

  lemma AddStakeSound(r: State, m: Msg)
    ensures Booked(r, Sum(Stakes(r)) + m.value, AddStake(r, m))
  {
    match AddStake(r, m)
    case Return(r') =>
      ProviderStep(r, r', m.sender, ProviderReactivated(m.sender), Staked(m.sender, m.value, r'.providers[m.sender].stakedAmount));
    case _ =>
  }

  lemma WithdrawSound(r: State, m: Msg, amount: nat)
    requires !r.entered
    ensures Booked(r, Sum(Stakes(r)), Withdraw(r, m, amount))
  {
    match Withdraw(r, m, amount)
    case Pay(r', _, _) =>
      ProviderStep(r, r', m.sender, ProviderDeactivated(m.sender), Unstaked(m.sender, amount, r'.providers[m.sender].stakedAmount));
    case _ =>
  }

  lemma SlashSound(r: State, m: Msg, provider: Address, evidence: nat)
    requires !r.entered
    ensures Booked(r, Sum(Stakes(r)), Slash(r, m, provider, evidence))
  {
    match Slash(r, m, provider, evidence)
    case Pay(r', to, amount) =>
      ProviderStep(r, r', provider, ProviderDeactivated(provider), Slashed(provider, amount, evidence, to));
    case _ =>
  }

  predicate StakeEvent(y: Event) {
    y.ProviderRegistered? || y.Staked? || y.Unstaked? || y.Slashed?
  }

  lemma RecordSound(r: State, a: Address, p: Provider, y: Event)
    requires a in r.providers && p.stakedAmount == r.providers[a].stakedAmount && p.wallet == r.providers[a].wallet
    requires p.active ==> r.providers[a].active || p.stakedAmount >= MIN_STAKE
    requires !StakeEvent(y)
    ensures var r' := Emit(Put(r, a, p), y);
            Booked(r, Sum(Stakes(r)), Return(r')) && Frozen(r, r')
  {
    var r' := Emit(Put(r, a, p), y);
    ProviderStep(r, r', a, ProviderDeactivated(a), y);
    assert Stakes(r') == Stakes(r);
  }

  lemma SettingsSound(r: State, r': State, y: Event)
    requires r'.providers == r.providers && r'.providerList == r.providerList && r'.entered == r.entered
    requires r'.events == r.events || (r'.events == r.events + [y] && !StakeEvent(y))
    ensures Booked(r, Sum(Stakes(r)), Return(r')) && Frozen(r, r')
  {
    assert Stakes(r') == Stakes(r);
    forall b
      ensures StakeOk(r, b) ==> StakeOk(r', b)
    {
      StakeAppend(r.events, y, b);
    }
  }

  /** The functions without the guard change no stake. */
  lemma UnguardedSound(r: State, m: Msg, c: Call)
    requires !c.Register? && !c.Stake? && !c.Unstake? && !c.SlashStake?
    ensures Booked(r, Sum(Stakes(r)) + m.value, Begin(r, m, c)) && !Begin(r, m, c).Pay?
    ensures Begin(r, m, c).Return? ==> Frozen(r, Begin(r, m, c).r)
  {
    match Begin(r, m, c)
    case Return(r') =>
      match c {
        case Update(endpoint, price) =>
          RecordSound(r, m.sender, r'.providers[m.sender], ProviderUpdated(m.sender, endpoint, price));
        case Deactivate => RecordSound(r, m.sender, r'.providers[m.sender], ProviderDeactivated(m.sender));
        case Reactivate => RecordSound(r, m.sender, r'.providers[m.sender], ProviderReactivated(m.sender));
        case RecordJobCompleted(a) => RecordSound(r, a, r'.providers[a], JobCompleted(a, r'.providers[a].jobsCompleted));
        case SetSlashAuthority(a) => SettingsSound(r, r', SlashAuthorityUpdated(a));
        case TransferOwnership(a) => SettingsSound(r, r', SlashAuthorityUpdated(a));
        case RenounceOwnership => SettingsSound(r, r', SlashAuthorityUpdated(Zero));
      }
    case _ =>
  }

  lemma BeginBooked(r: State, m: Msg, c: Call)
    ensures Booked(r, Sum(Stakes(r)) + m.value, Begin(r, m, c))
    ensures r.entered && Begin(r, m, c).Return? ==> Frozen(r, Begin(r, m, c).r)
  {
    match c
    case Register(endpoint, price) => EnrolSound(r, m, endpoint, price);
    case Stake => AddStakeSound(r, m);
    case Unstake(amount) => if !r.entered { WithdrawSound(r, m, amount); }
    case SlashStake(provider, evidence) => if !r.entered { SlashSound(r, m, provider, evidence); }
    case _ => UnguardedSound(r, m, c);
  }

  lemma BeginSound(r: State, m: Msg, c: Call)
    ensures StepSound(r, Sum(Stakes(r)) + m.value, Begin(r, m, c))
    ensures r.entered && Begin(r, m, c).Return? ==> Frozen(r, Begin(r, m, c).r)
  {
    BeginBooked(r, m, c);
    BeginAddressed(r, m, c);
  }

  lemma ExitSound(r: State)
    ensures Grows(r, Exit(r)) && Keeps(r, Exit(r)) && Stakes(Exit(r)) == Stakes(r) && Frozen(r, Exit(r))
  {
  }

  // ---- Slashing in the long run ----

  /** ceil(s / 2^k) */
  function CeilShift(s: nat, k: nat): nat {
    (s + Pow2(k) - 1) / Pow2(k)
  }

  ghost predicate StakingBy(x: Event, a: Address) {
    (x.ProviderRegistered? || x.Staked? || x.Unstaked?) && x.wallet == a
  }

  ghost function Slashes(events: seq<Event>, a: Address): nat {
    if events == [] then 0
    else Slashes(events[..|events| - 1], a) + if events[|events| - 1].Slashed? && events[|events| - 1].wallet == a then 1 else 0
  }

  lemma HalveAgain(s: nat, k: nat)
    ensures (CeilShift(s, k) + 1) / 2 == CeilShift(s, k + 1)
  {
    var p := Pow2(k);
    var q := (s + p - 1) / p;
    assert p * q <= s + p - 1 < p * (q + 1) by {
      assert s + p - 1 == p * q + (s + p - 1) % p;
    }
    var h := (q + 1) / 2;
    assert 2 * h == q || 2 * h == q + 1;
    assert p * (2 * h) <= s + 2 * p - 1 < p * (2 * h) + 2 * p by {
      if 2 * h == q {
      } else {
        assert p * (2 * h) == p * q + p;
      }
    }
    assert (2 * p) * h == p * (2 * h);
    DivideExactly(s + 2 * p - 1, 2 * p, h);
  }

  lemma MultipleNearZero(d: int, t: int)
    requires -d < d * t < d
    ensures t == 0
  {
    assert t >= 1 ==> d * t >= d;
    assert t <= -1 ==> d * t <= -d;
  }

  lemma DivideExactly(x: nat, d: nat, q: nat)
    requires d > 0 && d * q <= x < d * q + d
    ensures x / d == q
  {
    assert x == d * (x / d) + x % d;
    assert d * (x / d - q) == d * (x / d) - d * q;
    MultipleNearZero(d, x / d - q);
  }

  lemma Regroup(before: seq<Event>, after: seq<Event>)
    requires after != []
    ensures before + after == (before + after[..|after| - 1]) + [after[|after| - 1]]
    ensures after == after[..|after| - 1] + [after[|after| - 1]]
  {
  }

  /** The stake after one more event, with what was left before and what is left now as numbers. */
  lemma OneEventMore(log: seq<Event>, last: Event, a: Address, before: nat, after: nat)
    requires StakeOf(log, a) == Some(before) && !StakingBy(last, a)
    requires after == if last.Slashed? && last.wallet == a then (before + 1) / 2 else before
    ensures StakeOf(log + [last], a) == Some(after)
  {
    StakeAppend(log, last, a);
  }

  lemma OneSlashMore(s: nat, front: seq<Event>, last: Event, a: Address) returns (before: nat, after: nat)
    ensures before == CeilShift(s, Slashes(front, a)) && after == CeilShift(s, Slashes(front + [last], a))
    ensures after == if last.Slashed? && last.wallet == a then (before + 1) / 2 else before
  {
    assert (front + [last])[..|front|] == front;
    HalveAgain(s, Slashes(front, a));
    before, after := CeilShift(s, Slashes(front, a)), CeilShift(s, Slashes(front + [last], a));
  }

  /** k slashes with no staking between leave ceil(s / 2^k), whatever else the log records. */
  lemma {:induction false} SlashesHalve(before: seq<Event>, after: seq<Event>, a: Address)
    requires StakeOf(before, a).Some?
    requires forall x | x in after :: !StakingBy(x, a)
    ensures StakeOf(before + after, a) == Some(CeilShift(StakeOf(before, a).value, Slashes(after, a)))
    decreases |after|
  {
    if after == [] {
      assert before + after == before;
    } else {
      var front, last := after[..|after| - 1], after[|after| - 1];
      assert last in after && forall x | x in front :: x in after;
      SlashesHalve(before, front, a);
      Regroup(before, after);
      var was, left := OneSlashMore(StakeOf(before, a).value, front, last, a);
      OneEventMore(before + front, last, a, was, left);
    }
  }
}
