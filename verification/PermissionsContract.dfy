/** The permissions contract as the stateful object it is, each entry point proved to do exactly what
    its specification function says. */
module PermissionsContract {
  import opened Common
  import opened Soroban
  import opened PermissionsSpec

  class PermissionsContract {
    var permissions: map<Pair, PermissionRecord>
    var pending: map<Pair, PendingDecrement>
    var admin: Option<Address>
    var grantsPaused: bool
    var allowSelf: bool

    constructor ()
      ensures View() == Deployed()
    {
      permissions, pending, admin, grantsPaused, allowSelf := map[], map[], None, false, false;
    }

    function View(): Storage
      reads this
    {
      Storage(permissions, pending, admin, grantsPaused, allowSelf)
    }

    ghost predicate Did(res: Result<bool, PermissionError>, before: Storage, outcome: Outcome)
      reads this
    {
      match outcome
      case Ok(after) => res == Ok(true) && View() == after
      case Err(e) => res == Err(e) && View() == before
    }

    method Grant(env: Env, owner: Address, delegate: Address, limitTotal: int, limitPerTx: int,
                 allowedMerchants: seq<Address>, ttlLedgers: nat) returns (res: Result<bool, PermissionError>)
      modifies this
      ensures Did(res, old(View()), PermissionsSpec.Grant(old(View()), env, (owner, delegate), limitTotal, limitPerTx,
                                                          allowedMerchants, ttlLedgers))
    {
      if grantsPaused { return Err(GrantsPaused); }
      if !allowSelf && owner == delegate { return Err(SelfDelegationNotAllowed); }
      if limitPerTx <= 0 || limitTotal < limitPerTx { return Err(InvalidParam); }
      if env.sequence + ttlLedgers > U32_MAX || !FitsI128(limitTotal) { return Err(Trap); }
      var expiresAtLedger := env.sequence + ttlLedgers;
      permissions := permissions[(owner, delegate) :=
        PermissionRecord(limitTotal, 0, limitPerTx, allowedMerchants, Active, expiresAtLedger, env.timestamp)];
      return Ok(true);
    }

    method Revoke(owner: Address, delegate: Address) returns (res: Result<bool, PermissionError>)
      modifies this
      ensures Did(res, old(View()), PermissionsSpec.Revoke(old(View()), (owner, delegate)))
    {
      var key := (owner, delegate);
      if key !in permissions { return Err(NotFound); }
      permissions := permissions[key := permissions[key].(status := Revoked)];
      pending := pending - {key};
      return Ok(true);
    }

    /** Reads only; None when the spend is allowed. */
    method CanSpend(env: Env, owner: Address, delegate: Address, amount: int, merchant: Address)
      returns (refusal: Option<PermissionError>)
      ensures refusal == PermissionsSpec.CanSpend(View(), env, (owner, delegate), amount, merchant)
    {
      var key := (owner, delegate);
      if key !in permissions { return Some(NotFound); }
      var record := permissions[key];
      match record.status {
        case Active =>
        case Paused => return Some(PermissionPaused);
        case Expired => return Some(ExpiredError);
        case Revoked => return Some(Unauthorized);
      }
      if env.sequence >= record.expiresAtLedger { return Some(ExpiredError); }
      if amount > record.limitPerTx { return Some(ExceedsPerTxLimit); }
      var remaining := record.limitTotal - record.spent;
      if !FitsI128(remaining) { return Some(Trap); }
      if amount > remaining { return Some(ExceedsTotalLimit); }
      if |record.allowedMerchants| > 0 {
        var allowed := false;
        var i := 0;
        while i < |record.allowedMerchants| && !allowed
          invariant 0 <= i <= |record.allowedMerchants|
          invariant allowed <==> merchant in record.allowedMerchants[..i]
        {
          allowed := record.allowedMerchants[i] == merchant;
          i := i + 1;
        }
        if !allowed {
          assert record.allowedMerchants[..i] == record.allowedMerchants;
          return Some(MerchantNotAllowed);
        }
      }
      return None;
    }

    method ExecuteSpend(env: Env, owner: Address, delegate: Address, amount: int, merchant: Address)
      returns (res: Result<bool, PermissionError>)
      modifies this
      ensures Did(res, old(View()), PermissionsSpec.ExecuteSpend(old(View()), env, (owner, delegate), amount, merchant))
    {
      var refusal := CanSpend(env, owner, delegate, amount, merchant);
      if refusal.Some? { return Err(refusal.value); }
      var key := (owner, delegate);
      var record := permissions[key];
      var spent := record.spent + amount;
      if !FitsI128(spent) { return Err(Trap); }
      var remaining := record.limitTotal - spent;
      if !FitsI128(remaining) { return Err(Trap); }
      permissions := permissions[key := record.(spent := spent)];
      return Ok(true);
    }

    method DecreaseAllowance(env: Env, owner: Address, delegate: Address, amount: int)
        returns (res: Result<bool, PermissionError>)
      modifies this
      ensures Did(res, old(View()), PermissionsSpec.DecreaseAllowance(old(View()), env, (owner, delegate), amount))
    {
      var key := (owner, delegate);
      if key !in permissions { return Err(Trap); }
      if key in pending { return Err(Trap); }
      if env.timestamp + 86400 > U64_MAX { return Err(Trap); }
      var executionTime := env.timestamp + 86400;
      pending := pending[key := PendingDecrement(amount, executionTime)];
      return Ok(true);
    }

    method ExecuteDecreaseAllowance(env: Env, owner: Address, delegate: Address)
        returns (res: Result<bool, PermissionError>)
      modifies this
      ensures Did(res, old(View()), PermissionsSpec.ExecuteDecreaseAllowance(old(View()), env, (owner, delegate)))
    {
      var key := (owner, delegate);
      if key !in pending { return Err(Trap); }
      var due := pending[key];
      if env.timestamp < due.executionTime { return Err(Trap); }
      if key !in permissions { return Err(Trap); }
      var record := permissions[key];
      var newLimit := record.limitTotal - due.amount;
      if !FitsI128(newLimit) || newLimit < record.spent { return Err(Trap); }
      permissions := permissions[key := record.(limitTotal := newLimit)];
      pending := pending - {key};
      return Ok(true);
    }

    method Pause(owner: Address, delegate: Address) returns (res: Result<bool, PermissionError>)
      modifies this
      ensures Did(res, old(View()), PermissionsSpec.Pause(old(View()), (owner, delegate)))
    {
      var key := (owner, delegate);
      if key !in permissions { return Err(NotFound); }
      if permissions[key].status != Active { return Err(AlreadyPaused); }
      permissions := permissions[key := permissions[key].(status := Paused)];
      return Ok(true);
    }

    method Resume(owner: Address, delegate: Address) returns (res: Result<bool, PermissionError>)
      modifies this
      ensures Did(res, old(View()), PermissionsSpec.Resume(old(View()), (owner, delegate)))
    {
      var key := (owner, delegate);
      if key !in permissions { return Err(NotFound); }
      if permissions[key].status == Active { return Err(AlreadyActive); }
      permissions := permissions[key := permissions[key].(status := Active)];
      return Ok(true);
    }

    method SetAdmin(admin: Address) returns (res: Result<bool, PermissionError>)
      modifies this
      ensures Did(res, old(View()), PermissionsSpec.SetAdmin(old(View()), admin))
    {
      if this.admin.Some? { return Err(Trap); }
      this.admin := Some(admin);
      return Ok(true);
    }

    /** pause_grants and unpause_grants. */
    method SetGrantsPaused(admin: Address, paused: bool) returns (res: Result<bool, PermissionError>)
      modifies this
      ensures Did(res, old(View()), PermissionsSpec.SetGrantsPaused(old(View()), admin, paused))
    {
      if this.admin.None? { return Err(Trap); }
      if admin != this.admin.value { return Err(Unauthorized); }
      grantsPaused := paused;
      return Ok(true);
    }

    method SetAllowSelfDelegation(admin: Address, allow: bool) returns (res: Result<bool, PermissionError>)
      modifies this
      ensures Did(res, old(View()), PermissionsSpec.SetAllowSelf(old(View()), admin, allow))
    {
      if this.admin.None? { return Err(Trap); }
      if admin != this.admin.value { return Err(Unauthorized); }
      allowSelf := allow;
      return Ok(true);
    }
  }
}
