/** What every history of invocations keeps: well-kept lists, a complete escrow book, votes that
    belong to disputes, custody of every open escrow, and payouts that match closed ones. */
module EscrowInvariant {
  import opened Common
  import opened Soroban
  import opened TokenLedger
  import opened EscrowSpec

  ghost predicate ListsOk(s: Storage) {
    && (s.admin.None? ==> s.pendingAdmin.None? && s.adminList == [] && s.lastEscrowId == 0)
    && s.admin.Some? == s.fee.Some? == s.limits.Some?
    && Distinct(s.adminList) && (s.admin.Some? ==> s.admin.value !in s.adminList)
    && Distinct(s.whitelist) && (forall t :: t in s.whitelist <==> IsTokenAllowed(s, t))
    && (s.fee.Some? ==> s.fee.value.feeBps <= 1000)
    && (s.limits.Some? ==> 0 < s.limits.value.minAmount <= s.limits.value.maxAmount)
    && (s.quorum.Some? ==>
          Distinct(s.quorum.value.arbiters) && 0 < s.quorum.value.threshold <= |s.quorum.value.arbiters|)
  }

  ghost predicate BookOk(self: Address, s: Storage) {
    && (forall id :: id in s.escrows <==> 1 <= id <= s.lastEscrowId)
    && (forall id :: id in s.escrows ==> s.escrows[id].escrowId == id && s.escrows[id].amount > 0
                                         && s.escrows[id].buyer != self)
    && s.lastEscrowId <= U64_MAX
  }

  predicate Open(rec: EscrowRecord) { rec.status == Funded || rec.status == Disputed }

  /** No arbiter has two votes on one escrow, and an escrow with votes has left Funded. */
  ghost predicate VotesOk(s: Storage) {
    forall id :: id in s.votes ==>
      && id in s.escrows && s.escrows[id].status != Funded
      && (forall i, j :: 0 <= i < j < |s.votes[id]| ==> s.votes[id][i].arbiter != s.votes[id][j].arbiter)
  }

  /** What the contract owes in `token` over escrows 1..n. */
  ghost function Owed(escrows: map<nat, EscrowRecord>, token: Address, n: nat): nat
    requires forall id :: id in escrows ==> escrows[id].amount > 0
  {
    if n == 0 then 0
    else Owed(escrows, token, n - 1)
         + (if n in escrows && escrows[n].token == token && Open(escrows[n]) then escrows[n].amount else 0)
  }

  ghost predicate Solvent(self: Address, s: Storage)
    requires BookOk(self, s)
  {
    && (forall t :: Supply(s.ledger, t) <= I128_MAX)
    && (forall t :: Owed(s.escrows, t, s.lastEscrowId) <= Balance(s.ledger, t, self))
  }

  function LegsTotal(legs: seq<(Address, int)>): int {
    if legs == [] then 0 else legs[0].1 + LegsTotal(legs[1..])
  }

  function LegsTo(legs: seq<(Address, int)>, a: Address): int {
    if legs == [] then 0 else (if legs[0].0 == a then legs[0].1 else 0) + LegsTo(legs[1..], a)
  }

  /** A payout closes its escrow the way it says, adds up to the deposit, and goes to the buyer
      alone or to the seller less a cut for somebody else. */
  ghost predicate PayoutOk(s: Storage, p: Payout) {
    && p.escrowId in s.escrows
    && var rec := s.escrows[p.escrowId];
       && rec.status == (if p.toSeller then Released else Refunded)
       && LegsTotal(p.legs) == rec.amount
       && (forall i :: 0 <= i < |p.legs| ==> p.legs[i].1 >= 0)
       && 1 <= |p.legs| <= (if p.toSeller then 2 else 1)
       && p.legs[|p.legs| - 1].0 == (if p.toSeller then rec.seller else rec.buyer)
  }

  ghost predicate PayoutsOk(s: Storage) {
    && (forall i :: 0 <= i < |s.payouts| ==> PayoutOk(s, s.payouts[i]))
    && (forall i, j :: 0 <= i < j < |s.payouts| ==> s.payouts[i].escrowId != s.payouts[j].escrowId)
    && (forall id :: id in s.escrows && !Open(s.escrows[id]) ==>
          exists i :: 0 <= i < |s.payouts| && s.payouts[i].escrowId == id)
  }

  ghost predicate Inv(self: Address, s: Storage) {
    && ListsOk(s)
    && BookOk(self, s)
    && VotesOk(s)
    && Solvent(self, s)
    && PayoutsOk(s)
  }

  // ---- Fee arithmetic

  /** The split formula is the exact floor of amount * bps / 10000. */
  lemma FeeIsExact(amount: nat, feeBps: nat)
    ensures FeeOf(amount, feeBps) == (amount * feeBps) / 10_000
  {
    var q, r := amount / 10_000, amount % 10_000;
    assert amount * feeBps == (10_000 * q + r) * feeBps == 10_000 * (q * feeBps) + r * feeBps by {
      assert amount == 10_000 * q + r;
    }
    assert (10_000 * (q * feeBps) + r * feeBps) / 10_000 == q * feeBps + (r * feeBps) / 10_000;
  }

  /** Between nothing and a tenth of the amount, with every intermediate inside an i128. */
  lemma FeeBounds(amount: nat, feeBps: nat)
    requires amount <= I128_MAX && feeBps <= 1000
    ensures 0 <= FeeOf(amount, feeBps) <= amount / 10
    ensures FitsI128((amount / 10_000) * feeBps) && FitsI128((amount % 10_000) * feeBps)
    ensures FitsI128(FeeOf(amount, feeBps)) && FitsI128(amount - FeeOf(amount, feeBps))
  {
    FeeIsExact(amount, feeBps);
    var q, r := amount / 10_000, amount % 10_000;
    Scale(q, feeBps, 1000);
    Scale(r, feeBps, 1000);
    Scale(amount, feeBps, 1000);
  }

  lemma Scale(x: nat, y: nat, z: nat)
    requires y <= z
    ensures 0 <= x * y <= x * z
  {
  }

  // ---- Lists

  lemma {:induction false} RemoveFirstRemoves(list: seq<Address>, a: Address)
    requires Distinct(list)
    ensures Distinct(RemoveFirst(list, a))
    ensures forall x :: x in RemoveFirst(list, a) <==> x in list && x != a
  {
    if list != [] {
      var rest := list[1..];
      assert forall i :: 0 <= i < |rest| ==> rest[i] == list[i + 1];
      RemoveFirstRemoves(rest, a);
      assert list == [list[0]] + rest && list[0] !in rest;
      var shorter := RemoveFirst(rest, a);
      assert list[0] !in shorter;
      if list[0] != a {
        forall i, j | 0 <= i < j < |shorter| + 1 ensures ([list[0]] + shorter)[i] != ([list[0]] + shorter)[j] {
          assert ([list[0]] + shorter)[j] == shorter[j - 1];
        }
      }
    }
  }

  lemma {:induction false} NoRepeatsIsDistinct(list: seq<Address>)
    ensures NoRepeats(list) <==> Distinct(list)
  {
    if list != [] {
      NoRepeatsIsDistinct(list[1..]);
      if Distinct(list) {
        assert forall i :: 0 <= i < |list| - 1 ==> list[1..][i] == list[i + 1];
      } else {
        var i, j :| 0 <= i < j < |list| && list[i] == list[j];
        if i == 0 { assert list[1..][j - 1] == list[0]; } else { assert list[1..][i - 1] == list[1..][j - 1]; }
      }
    }
  }

  // ---- Money

  lemma {:induction false} OwedSet(escrows: map<nat, EscrowRecord>, id: nat, rec: EscrowRecord, token: Address, n: nat)
    requires (forall e :: e in escrows ==> escrows[e].amount > 0) && rec.amount > 0
    ensures Owed(escrows[id := rec], token, n) == Owed(escrows, token, n)
      - (if 1 <= id <= n && id in escrows && escrows[id].token == token && Open(escrows[id])
         then escrows[id].amount else 0)
      + (if 1 <= id <= n && rec.token == token && Open(rec) then rec.amount else 0)
  {
    if n > 0 { OwedSet(escrows, id, rec, token, n - 1); }
  }

  lemma {:induction false} OwedAtLeast(escrows: map<nat, EscrowRecord>, id: nat, n: nat)
    requires forall e :: e in escrows ==> escrows[e].amount > 0
    requires 1 <= id <= n && id in escrows && Open(escrows[id])
    ensures escrows[id].amount <= Owed(escrows, escrows[id].token, n)
  {
    if id < n { OwedAtLeast(escrows, id, n - 1); }
  }

  /** What a row of transfers out of `self` does to every balance, and that it cannot fail when
      `self` can cover it. */
  lemma {:induction false} PayLegsMoves(ledger: Ledger, token: Address, self: Address, legs: seq<(Address, int)>)
    requires Supply(ledger, token) <= I128_MAX
    requires forall i :: 0 <= i < |legs| ==> legs[i].1 >= 0
    requires LegsTotal(legs) <= Balance(ledger, token, self)
    ensures PayLegs(ledger, token, self, legs).Some?
    ensures var after := PayLegs(ledger, token, self, legs).value;
            && (forall t :: Supply(after, t) == Supply(ledger, t))
            && (forall t, a :: t != token ==> Balance(after, t, a) == Balance(ledger, t, a))
            && (forall a :: Balance(after, token, a) == Balance(ledger, token, a) + LegsTo(legs, a)
                              - (if a == self then LegsTotal(legs) else 0))
    decreases |legs|
  {
    if legs != [] {
      LegsTotalNonneg(legs[1..]);
      CoveredTransferSucceeds(ledger, token, self, legs[0].0, legs[0].1);
      TransferConserves(ledger, token, self, legs[0].0, legs[0].1);
      PayLegsMoves(Transfer(ledger, token, self, legs[0].0, legs[0].1).value, token, self, legs[1..]);
    }
  }

  lemma {:induction false} LegsTotalNonneg(legs: seq<(Address, int)>)
    requires forall i :: 0 <= i < |legs| ==> legs[i].1 >= 0
    ensures LegsTotal(legs) >= 0
    ensures forall a :: 0 <= LegsTo(legs, a)
  {
    if legs != [] { LegsTotalNonneg(legs[1..]); }
  }

  /** The legs of a payout as sums. */
  lemma SellerLegsSums(rec: EscrowRecord, fee: FeeConfig)
    requires 0 < rec.amount <= I128_MAX && fee.feeBps <= 1000
    ensures var legs, cut := SellerLegs(rec, fee), FeeOf(rec.amount, fee.feeBps);
            && (forall i :: 0 <= i < |legs| ==> legs[i].1 >= 0)
            && LegsTotal(legs) == rec.amount
            && 1 <= |legs| <= 2 && legs[|legs| - 1].0 == rec.seller
            && (forall a :: LegsTo(legs, a) ==
                  (if a == fee.treasury then cut else 0) + (if a == rec.seller then rec.amount - cut else 0))
  {
    FeeBounds(rec.amount, fee.feeBps);
    var legs, cut := SellerLegs(rec, fee), FeeOf(rec.amount, fee.feeBps);
    if cut > 0 {
      assert legs == [(fee.treasury, cut), (rec.seller, rec.amount - cut)];
      assert legs[1..] == [(rec.seller, rec.amount - cut)];
      assert legs[1..][1..] == [];
      assert LegsTotal(legs[1..]) == rec.amount - cut;
      forall a ensures LegsTo(legs, a) == (if a == fee.treasury then cut else 0) + LegsTo(legs[1..], a) {
      }
      forall a ensures LegsTo(legs[1..], a) == if a == rec.seller then rec.amount - cut else 0 {
        assert LegsTo(legs[1..][1..], a) == 0;
      }
    } else {
      assert legs == [(rec.seller, rec.amount - cut)];
      assert legs[1..] == [];
    }
  }

  lemma BuyerLegsSums(rec: EscrowRecord)
    ensures var legs := [(rec.buyer, rec.amount)];
            LegsTotal(legs) == rec.amount && forall a :: LegsTo(legs, a) == if a == rec.buyer then rec.amount else 0
  {
    assert [(rec.buyer, rec.amount)][1..] == [];
  }
}
