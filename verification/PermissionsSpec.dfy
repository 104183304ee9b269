/** The permissions contract's entry points as functions on its storage, and its histories. */
module PermissionsSpec {
  import opened Common
  import opened Soroban

  datatype PermissionStatus = Active | Paused | Revoked | Expired

  datatype PermissionRecord = PermissionRecord(
    limitTotal: int, spent: int, limitPerTx: int, allowedMerchants: seq<Address>,
    status: PermissionStatus, expiresAtLedger: nat, createdAt: nat)

  datatype PendingDecrement = PendingDecrement(amount: int, executionTime: nat)

  /** An owner and the delegate who may spend for it. */
  type Pair = (Address, Address)

  datatype Storage = Storage(
    permissions: map<Pair, PermissionRecord>, pending: map<Pair, PendingDecrement>,
    admin: Option<Address>, grantsPaused: bool, allowSelf: bool)

  datatype Env = Env(sequence: nat, timestamp: nat)

  datatype PermissionError =
    | NotFound | ExpiredError | ExceedsPerTxLimit | ExceedsTotalLimit | MerchantNotAllowed | Unauthorized
    | InvalidParam | PermissionPaused | AlreadyPaused | AlreadyActive | GrantsPaused | SelfDelegationNotAllowed
    | Trap

  type Outcome = Result<Storage, PermissionError>

  const TIME_LOCK: nat := 86400

  function Deployed(): Storage { Storage(map[], map[], None, false, false) }

  function Grant(s: Storage, env: Env, pair: Pair, limitTotal: int, limitPerTx: int, merchants: seq<Address>,
      ttl: nat): Outcome {
    if s.grantsPaused then Err(GrantsPaused)
    else if !s.allowSelf && pair.0 == pair.1 then Err(SelfDelegationNotAllowed)
    else if limitPerTx <= 0 || limitTotal < limitPerTx then Err(InvalidParam)
    else if env.sequence + ttl > U32_MAX || !FitsI128(limitTotal) then Err(Trap)
    else Ok(s.(permissions := s.permissions[pair :=
                 PermissionRecord(limitTotal, 0, limitPerTx, merchants, Active, env.sequence + ttl, env.timestamp)]))
  }

  function Revoke(s: Storage, pair: Pair): Outcome {
    if pair !in s.permissions then Err(NotFound)
    else Ok(s.(permissions := s.permissions[pair := s.permissions[pair].(status := Revoked)],
               pending := s.pending - {pair}))
  }

  /** Why a spend would be refused, or None. */
  function CanSpend(s: Storage, env: Env, pair: Pair, amount: int, merchant: Address): Option<PermissionError> {
    if pair !in s.permissions then Some(NotFound)
    else
      var rec := s.permissions[pair];
      match rec.status
      case Paused => Some(PermissionPaused)
      case Expired => Some(ExpiredError)
      case Revoked => Some(Unauthorized)
      case Active =>
        if env.sequence >= rec.expiresAtLedger then Some(ExpiredError)
        else if amount > rec.limitPerTx then Some(ExceedsPerTxLimit)
        else if !FitsI128(rec.limitTotal - rec.spent) then Some(Trap)
        else if amount > rec.limitTotal - rec.spent then Some(ExceedsTotalLimit)
        else if rec.allowedMerchants != [] && merchant !in rec.allowedMerchants then Some(MerchantNotAllowed)
        else None
  }

  function ExecuteSpend(s: Storage, env: Env, pair: Pair, amount: int, merchant: Address): Outcome {
    match CanSpend(s, env, pair, amount, merchant)
    case Some(e) => Err(e)
    case None =>
      var rec := s.permissions[pair];
      var spent := rec.spent + amount;
      if !FitsI128(spent) || !FitsI128(rec.limitTotal - spent) then Err(Trap)
      else Ok(s.(permissions := s.permissions[pair := rec.(spent := spent)]))
  }

  function DecreaseAllowance(s: Storage, env: Env, pair: Pair, amount: int): Outcome {
    if pair !in s.permissions || pair in s.pending || env.timestamp + TIME_LOCK > U64_MAX then Err(Trap)
    else Ok(s.(pending := s.pending[pair := PendingDecrement(amount, env.timestamp + TIME_LOCK)]))
  }

  function ExecuteDecreaseAllowance(s: Storage, env: Env, pair: Pair): Outcome {
    if pair !in s.pending || env.timestamp < s.pending[pair].executionTime || pair !in s.permissions then Err(Trap)
    else
      var rec := s.permissions[pair];
      var newLimit := rec.limitTotal - s.pending[pair].amount;
      if !FitsI128(newLimit) || newLimit < rec.spent then Err(Trap)
      else Ok(s.(permissions := s.permissions[pair := rec.(limitTotal := newLimit)], pending := s.pending - {pair}))
  }

  function Pause(s: Storage, pair: Pair): Outcome {
    if pair !in s.permissions then Err(NotFound)
    else if s.permissions[pair].status != Active then Err(AlreadyPaused)
    else Ok(s.(permissions := s.permissions[pair := s.permissions[pair].(status := Paused)]))
  }

  function Resume(s: Storage, pair: Pair): Outcome {
    if pair !in s.permissions then Err(NotFound)
    else if s.permissions[pair].status == Active then Err(AlreadyActive)
    else Ok(s.(permissions := s.permissions[pair := s.permissions[pair].(status := Active)]))
  }

  function SetAdmin(s: Storage, admin: Address): Outcome {
    if s.admin.Some? then Err(Trap) else Ok(s.(admin := Some(admin)))
  }

  function SetGrantsPaused(s: Storage, admin: Address, paused: bool): Outcome {
    if s.admin.None? then Err(Trap)
    else if admin != s.admin.value then Err(Unauthorized)
    else Ok(s.(grantsPaused := paused))
  }

  function SetAllowSelf(s: Storage, admin: Address, allow: bool): Outcome {
    if s.admin.None? then Err(Trap)
    else if admin != s.admin.value then Err(Unauthorized)
    else Ok(s.(allowSelf := allow))
  }

  // ---- Views

  datatype SpendPreview = SpendPreview(allowed: bool, remainingAfter: int)

  /** preview_spend, without the spelling of its reason; None when it traps. */
  function PreviewSpend(s: Storage, env: Env, pair: Pair, amount: int, merchant: Address): Option<SpendPreview> {
    var current := if pair in s.permissions then s.permissions[pair].limitTotal - s.permissions[pair].spent else 0;
    if !FitsI128(current) then None
    else if CanSpend(s, env, pair, amount, merchant).Some? then Some(SpendPreview(false, current))
    else if !FitsI128(current - amount) then None
    else Some(SpendPreview(true, current - amount))
  }

  /** get_allowance_detail's remaining amount, clamped at zero. */
  function RemainingClamped(rec: PermissionRecord): int {
    var raw := rec.limitTotal - rec.spent;
    if raw < 0 then 0 else raw
  }

  // ---- Histories

  datatype Call =
    | CGrant(pair: Pair, limitTotal: int, limitPerTx: int, merchants: seq<Address>, ttl: nat)
    | CRevoke(pair: Pair)
    | CSpend(pair: Pair, amount: int, merchant: Address)
    | CDecrease(pair: Pair, amount: int)
    | CExecuteDecrease(pair: Pair)
    | CPause(pair: Pair)
    | CResume(pair: Pair)
    | CSetAdmin(admin: Address)
    | CSetGrantsPaused(admin: Address, paused: bool)
    | CSetAllowSelf(admin: Address, allow: bool)

  datatype Invocation = Invocation(env: Env, call: Call)

  function Invoke(s: Storage, inv: Invocation): Outcome {
    match inv.call
    case CGrant(pair, total, perTx, merchants, ttl) => Grant(s, inv.env, pair, total, perTx, merchants, ttl)
    case CRevoke(pair) => Revoke(s, pair)
    case CSpend(pair, amount, merchant) => ExecuteSpend(s, inv.env, pair, amount, merchant)
    case CDecrease(pair, amount) => DecreaseAllowance(s, inv.env, pair, amount)
    case CExecuteDecrease(pair) => ExecuteDecreaseAllowance(s, inv.env, pair)
    case CPause(pair) => Pause(s, pair)
    case CResume(pair) => Resume(s, pair)
    case CSetAdmin(admin) => SetAdmin(s, admin)
    case CSetGrantsPaused(admin, paused) => SetGrantsPaused(s, admin, paused)
    case CSetAllowSelf(admin, allow) => SetAllowSelf(s, admin, allow)
  }

  /** A failed invocation changes nothing. */
  function Next(s: Storage, inv: Invocation): Storage {
    match Invoke(s, inv)
    case Ok(s') => s'
    case Err(_) => s
  }

  /** The storage after a history of invocations on a fresh contract. */
  function Run(history: seq<Invocation>): Storage {
    if history == [] then Deployed()
    else Next(Run(history[..|history| - 1]), history[|history| - 1])
  }
}
