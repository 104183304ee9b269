/** The token contract as a plain ledger: per token, what each address holds. */
module TokenLedger {
  import opened Common
  import opened Soroban

  type Holdings = map<Address, nat>
  type Ledger = map<Address, Holdings>

  function Of(ledger: Ledger, token: Address): Holdings {
    if token in ledger then ledger[token] else map[]
  }

  function Held(h: Holdings, a: Address): nat {
    if a in h then h[a] else 0
  }

  function Balance(ledger: Ledger, token: Address, a: Address): nat {
    Held(Of(ledger, token), a)
  }

  /** Moves `amount`, or traps (None) on a negative amount, a short balance or an i128 overflow. */
  function Transfer(ledger: Ledger, token: Address, from: Address, to: Address, amount: int): Option<Ledger> {
    var h := Of(ledger, token);
    if amount < 0 || Held(h, from) < amount then None
    else if from == to then Some(ledger)
    else if Held(h, to) + amount > I128_MAX then None
    else Some(ledger[token := h[from := Held(h, from) - amount][to := Held(h, to) + amount]])
  }

  /** All of a token there is. */
  ghost function Total(h: Holdings): nat {
    if h == map[] then 0
    else var a :| a in h; h[a] + Total(h - {a})
  }

  ghost function Supply(ledger: Ledger, token: Address): nat {
    Total(Of(ledger, token))
  }

  lemma {:induction false} TotalWithout(h: Holdings, a: Address)
    requires a in h
    ensures Total(h) == h[a] + Total(h - {a})
    decreases |h|
  {
    var b :| b in h && Total(h) == h[b] + Total(h - {b});
    if a != b {
      TotalWithout(h - {b}, a);
      TotalWithout(h - {a}, b);
      assert h - {b} - {a} == h - {a} - {b};
    }
  }

  lemma TotalSet(h: Holdings, a: Address, x: nat)
    ensures Total(h[a := x]) == Total(h) - Held(h, a) + x
  {
    TotalWithout(h[a := x], a);
    assert h[a := x] - {a} == h - {a};
    if a in h {
      TotalWithout(h, a);
    } else {
      assert h - {a} == h;
    }
  }

  lemma TwoHolders(h: Holdings, a: Address, b: Address)
    requires a != b
    ensures Held(h, a) + Held(h, b) <= Total(h)
  {
    if a in h { TotalWithout(h, a); }
    if b in h - {a} { TotalWithout(h - {a}, b); }
    if a !in h && b in h { TotalWithout(h, b); }
  }

  /** A transfer moves exactly `amount` and creates or destroys nothing, in any token. */
  lemma TransferConserves(ledger: Ledger, token: Address, from: Address, to: Address, amount: int)
    requires Transfer(ledger, token, from, to, amount).Some?
    ensures var after := Transfer(ledger, token, from, to, amount).value;
            && (forall t :: Supply(after, t) == Supply(ledger, t))
            && (forall t, a :: Balance(after, t, a) == Balance(ledger, t, a)
                  - (if t == token && a == from then amount else 0)
                  + (if t == token && a == to then amount else 0))
  {
    var h := Of(ledger, token);
    if from != to {
      TotalSet(h, from, Held(h, from) - amount);
      TotalSet(h[from := Held(h, from) - amount], to, Held(h, to) + amount);
    }
  }

  /** While all balances of the token fit an i128, a covered transfer never traps. */
  lemma CoveredTransferSucceeds(ledger: Ledger, token: Address, from: Address, to: Address, amount: int)
    requires Supply(ledger, token) <= I128_MAX
    requires 0 <= amount <= Balance(ledger, token, from)
    ensures Transfer(ledger, token, from, to, amount).Some?
  {
    if from != to {
      TwoHolders(Of(ledger, token), from, to);
    }
  }
}
