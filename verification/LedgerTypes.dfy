/** The bookkeeping tables of src/actions.cpp, in wei: `DustBalance` shows that the split
    rows of the contract implement exactly `Credit` and `Debit`. */
module LedgerTypes {
  import opened Options
  import opened DustBalance

  type Name = nat    // eosio::name by value; 0 is the empty name
  type Address = nat // an EVM address outside the reserved range

  const UINT256_MAX: nat :=
    0xFFFF_FFFF_FFFF_FFFF_FFFF_FFFF_FFFF_FFFF_FFFF_FFFF_FFFF_FFFF_FFFF_FFFF_FFFF_FFFF
  const HUNDRED_PERCENT: nat := 100_000

  /** a * b for amounts and prices, as repeated addition: ledger proofs then see sums only. */
  function Times(a: nat, b: nat): nat {
    if a == 0 then 0 else Times(a - 1, b) + b
  }

  lemma {:induction false} TimesIsProduct(a: nat, b: nat)
    ensures Times(a, b) == a * b
    decreases a
  {
    if a > 0 {
      TimesIsProduct(a - 1, b);
      assert a * b == (a - 1) * b + b;
    }
  }

  function If(condition: bool, x: int): int {
    if condition then x else 0
  }

  function Nat(x: int): nat {
    if x < 0 then 0 else x
  }

  /** Fixed at deployment: the contract's own account and the wei value of one native unit. */
  datatype ChainParameters = ChainParameters(self: Name, unit: nat)

  type Chain = c: ChainParameters | c.self != 0 && 1 <= c.unit <= 1_000_000_000_000_000_000
    witness ChainParameters(1, 1)

  datatype Transfer = Transfer(to: Name, amount: nat)

  /** `held` is the wei worth of the native tokens the contract owns; `evm` holds the persisted EVM
      balances; `sent` logs the outgoing token transfers. */
  datatype Ledger = Ledger(
    balances: map<Name, nat>,
    inevm: nat,
    nonces: map<Name, nat>,
    held: nat,
    evm: map<Address, nat>,
    gasIncome: nat,
    bridgeIncome: nat,
    sent: seq<Transfer>)

  datatype Receiver = Receiver(minFee: nat, forceAtomic: bool)

  /** What an action reads from outside these tables: the configuration in force and the
      rest of the chain. */
  datatype Env = Env(
    version: nat,
    gasPrice: nat,
    minerCut: nat,
    ingressFee: nat,
    accounts: set<Name>,
    coded: set<Name>,
    egressList: set<Name>,
    receivers: map<Name, Receiver>,
    nameOf: map<Bytes, Name>)

  // ---- one row at a time ----

  function CreditRow(c: Chain, balances: map<Name, nat>, n: Name, x: nat): Option<map<Name, nat>> {
    if n !in balances then None
    else
      var w :- Credit(c.unit, balances[n], x);
      Some(balances[n := w])
  }

  function DebitRow(balances: map<Name, nat>, n: Name, x: nat): Option<map<Name, nat>> {
    if n !in balances then None
    else
      var w :- Debit(balances[n], x);
      Some(balances[n := w])
  }

  /** The token contract's `transfer` out of the contract account. */
  function SendTokens(c: Chain, l: Ledger, to: Name, amount: int): Option<Ledger> {
    if !(0 < amount <= MAX_AMOUNT) || to == c.self then None
    else
      :- Need(Times(amount, c.unit) <= l.held);
      Some(l.(held := l.held - Times(amount, c.unit), sent := l.sent + [Transfer(to, amount)]))
  }
}

