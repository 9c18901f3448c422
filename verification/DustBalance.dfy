/** `balance_with_dust` (include/evm_runtime/tables.hpp): a wei number split into an
    `int64_t` count of native token units and a `uint64_t` remainder. */
module DustBalance {
  import opened Options

  const EVM_PRECISION: nat := 18
  const MAX_AMOUNT: nat := 0x3FFF_FFFF_FFFF_FFFF
  const TWO_63: nat := 0x8000_0000_0000_0000
  const TWO_64: nat := 0x1_0000_0000_0000_0000

  datatype Symbol = Symbol(code: nat, precision: nat)

  const EMPTY_SYMBOL := Symbol(0, 0)

  function Pow10(n: nat): (r: nat)
    ensures r >= 1
  {
    if n == 0 then 1 else 10 * Pow10(n - 1)
  }

  lemma {:induction false} Pow10Monotone(m: nat, n: nat)
    requires m <= n
    ensures Pow10(m) <= Pow10(n)
    decreases n
  {
    if m < n {
      Pow10Monotone(m, n - 1);
    }
  }

  lemma Pow10At18()
    ensures Pow10(18) == 1_000_000_000_000_000_000
  {
    assert Pow10(4) == 10_000;
    assert Pow10(8) == 100_000_000;
    assert Pow10(12) == 1_000_000_000_000;
    assert Pow10(16) == 10_000_000_000_000_000;
  }

  // ---- machine integers ----

  function Wrap64(x: int): (r: nat)
    ensures r < TWO_64
    ensures 0 <= x < TWO_64 ==> r == x
    ensures -0x1_0000_0000_0000_0000 <= x < 0 ==> r == x + TWO_64
  {
    x % TWO_64
  }

  function WrapSigned64(x: int): (r: int)
    ensures -0x8000_0000_0000_0000 <= r < 0x8000_0000_0000_0000
    ensures -0x8000_0000_0000_0000 <= x < 0x8000_0000_0000_0000 ==> r == x
  {
    (x + TWO_63) % TWO_64 - TWO_63
  }

  /** The multiply loop, in wrapping 64-bit arithmetic; a negative exponent aborts. */
  method Pow10Const(v: int) returns (r: Option<nat>)
    ensures r.None? <==> v < 0
    ensures 0 <= v <= EVM_PRECISION ==> r == Some(Pow10(v))
  {
    if v < 0 {
      return None;
    }
    var p := 1;
    var n := v;
    while n > 0
      invariant 0 <= n <= v
      invariant v <= EVM_PRECISION ==> p == Pow10(v - n)
    {
      if v <= EVM_PRECISION {
        Pow10Monotone(v - n + 1, EVM_PRECISION);
        Pow10At18();
      }
      p := Wrap64(p * 10);
      n := n - 1;
    }
    return Some(p);
  }

  // ---- the number a row stands for ----

  /** First wei amount a row cannot hold: whole part `asset::max_amount`, dust full. */
  function Cap(unit: nat): (r: nat) {
    (MAX_AMOUNT + 1) * unit
  }

  /** What `+=` does to the wei number of a row. */
  function Credit(unit: nat, wei: nat, x: nat): (r: Option<nat>) {
    if wei + x < Cap(unit) then Some(wei + x) else None
  }

  /** What `-=` does to the wei number of a row. */
  function Debit(wei: nat, x: nat): (r: Option<nat>) {
    if x <= wei then Some(wei - x) else None
  }

  /** A wei number splits into whole units and dust in only one way. */
  lemma SplitUnique(unit: nat, a: int, d: nat, b: int, e: nat)
    requires d < unit && e < unit
    requires a * unit + d == b * unit + e
    ensures a == b && d == e
  {
    if a > b {
      TimesAtLeast(a - b, unit);
      Distribute(a, -b, unit);
    } else if a < b {
      TimesAtLeast(b - a, unit);
      Distribute(b, -a, unit);
    }
  }

  lemma TimesAtLeast(n: int, unit: nat)
    requires n >= 1
    ensures n * unit >= unit
  {
  }

  lemma Distribute(a: int, b: int, unit: nat)
    ensures (a + b) * unit == a * unit + b * unit
    ensures (-b) * unit == -(b * unit)
  {
  }

  lemma SplitSign(unit: nat, a: int, d: nat)
    requires d < unit
    ensures 0 <= a * unit + d <==> 0 <= a
  {
    if a < 0 {
      TimesAtLeast(-a, unit);
      Distribute(0, a, unit);
    } else if a > 0 {
      TimesAtLeast(a, unit);
    }
  }

  lemma SplitBelowCap(unit: nat, a: int, d: nat)
    requires d < unit
    ensures a * unit + d < Cap(unit) <==> a <= MAX_AMOUNT
  {
    SplitSign(unit, a - (MAX_AMOUNT + 1), d);
    Distribute(a, -(MAX_AMOUNT + 1), unit);
    Distribute(0, MAX_AMOUNT + 1, unit);
  }

  /** `intx::udivrem`. */
  method UDivRem(x: nat, unit: nat) returns (quot: nat, rem: nat)
    requires unit > 0
    ensures x == quot * unit + rem && rem < unit
  {
    quot, rem := x / unit, x % unit;
  }

  /** Adding in split form, with the carry out of the dust. */
  lemma SplitAdd(unit: nat, a: int, d: nat, quot: nat, rem: nat)
    requires d < unit && rem < unit
    ensures var wei := a * unit + d + (quot * unit + rem);
            var carry := if d + rem >= unit then 1 else 0;
            && wei == (a + quot + carry) * unit + (if d + rem >= unit then d + rem - unit else d + rem)
            && (wei < Cap(unit) <==> a + quot + carry <= MAX_AMOUNT)
  {
    var carry := if d + rem >= unit then 1 else 0;
    Distribute(a + quot, carry, unit);
    Distribute(a, quot, unit);
    SplitBelowCap(unit, a + quot + carry, if d + rem >= unit then d + rem - unit else d + rem);
  }

  /** Subtracting in split form, with the borrow into the dust. */
  lemma SplitSub(unit: nat, a: int, d: nat, quot: nat, rem: nat)
    requires d < unit && rem < unit
    ensures var wei := a * unit + d - (quot * unit + rem);
            var borrow := if d < rem then 1 else 0;
            && wei == (a - quot - borrow) * unit + (if d < rem then d - rem + unit else d - rem)
            && (0 <= wei <==> 0 <= a - quot - borrow)
  {
    var borrow := if d < rem then 1 else 0;
    Distribute(a - quot, 0 - borrow, unit);
    Distribute(0, borrow, unit);
    Distribute(a, 0 - quot, unit);
    Distribute(0, quot, unit);
    SplitSign(unit, a - quot - borrow, if d < rem then d - rem + unit else d - rem);
  }

  /** Bit 63 of the wrapped dust difference is set exactly when a borrow is due. */
  lemma BorrowBit(unit: nat, d: nat, rem: nat)
    requires d < unit && rem < unit <= 1_000_000_000_000_000_000
    ensures Wrap64(d - rem) >= TWO_63 <==> d < rem
    ensures d < rem ==> Wrap64(Wrap64(d - rem) + unit) == d - rem + unit
    ensures d >= rem ==> Wrap64(d - rem) == d - rem
  {
    if d < rem {
      assert Wrap64(d - rem) == d - rem + TWO_64;
    }
  }

  /** The 64-bit steps of `+=`, from the quotient and remainder of the addend. */
  method AddParts(unit: nat, a: int, d: nat, quot: nat, rem: nat) returns (ok: bool, amount: int, dust: nat)
    requires 0 <= a <= MAX_AMOUNT && d < unit && rem < unit <= 1_000_000_000_000_000_000
    ensures var carry := if d + rem >= unit then 1 else 0;
            && (ok <==> a + quot + carry <= MAX_AMOUNT)
            && (ok ==> amount == a + quot + carry && dust == if d + rem >= unit then d + rem - unit else d + rem)
  {
    amount, dust := a, d;
    if quot > MAX_AMOUNT {
      return false, amount, dust;
    }
    if amount > MAX_AMOUNT {
      return false, amount, dust;
    }
    var base := WrapSigned64(Wrap64(quot));
    amount := WrapSigned64(amount + base);
    dust := Wrap64(dust + rem);
    if dust >= unit {
      amount := WrapSigned64(amount + 1);
      dust := Wrap64(dust - unit);
    }
    ok := amount <= MAX_AMOUNT;
  }

  /** The 64-bit steps of `-=`: the borrow is read off bit 63 of the wrapped dust. */
  method SubParts(unit: nat, a: int, d: nat, quot: nat, rem: nat) returns (ok: bool, amount: int, dust: nat)
    requires 0 <= a <= MAX_AMOUNT && d < unit && rem < unit <= 1_000_000_000_000_000_000
    ensures var borrow := if d < rem then 1 else 0;
            && (ok <==> 0 <= a - quot - borrow)
            && (ok ==> amount == a - quot - borrow && dust == if d < rem then d - rem + unit else d - rem)
  {
    amount, dust := a, d;
    if quot > amount {
      return false, amount, dust;
    }
    amount := WrapSigned64(amount - Wrap64(quot));
    BorrowBit(unit, d, rem);
    dust := Wrap64(dust - rem);
    if dust >= TWO_63 {
      amount := WrapSigned64(amount - 1);
      dust := Wrap64(dust + unit);
      if amount < 0 {
        return false, amount, dust;
      }
    }
    ok := true;
  }

  method AddSplit(unit: nat, a: int, d: nat, x: nat) returns (ok: bool, amount: int, dust: nat)
    requires 0 <= a <= MAX_AMOUNT && d < unit <= 1_000_000_000_000_000_000
    ensures ok <==> a * unit + d + x < Cap(unit)
    ensures ok ==> 0 <= amount <= MAX_AMOUNT && dust < unit && amount * unit + dust == a * unit + d + x
  {
    var quot, rem := UDivRem(x, unit);
    SplitAdd(unit, a, d, quot, rem);
    ok, amount, dust := AddParts(unit, a, d, quot, rem);
  }

  method SubSplit(unit: nat, a: int, d: nat, x: nat) returns (ok: bool, amount: int, dust: nat)
    requires 0 <= a <= MAX_AMOUNT && d < unit <= 1_000_000_000_000_000_000
    ensures ok <==> x <= a * unit + d
    ensures ok ==> 0 <= amount <= MAX_AMOUNT && dust < unit && amount * unit + dust == a * unit + d - x
  {
    var quot, rem := UDivRem(x, unit);
    SplitSub(unit, a, d, quot, rem);
    ok, amount, dust := SubParts(unit, a, d, quot, rem);
  }

  class BalanceWithDust {
    var symbol: Symbol
    var amount: int
    var dust: nat

    /** 10^(18 - precision): wei per native unit. */
    function Unit(): (r: nat)
      reads this
      requires symbol.precision <= EVM_PRECISION
      ensures r >= 1
    {
      Pow10(EVM_PRECISION - symbol.precision)
    }

    /** The two aborts that do not depend on the amounts. */
    predicate Usable()
      reads this
    {
      symbol != EMPTY_SYMBOL && symbol.precision <= EVM_PRECISION
    }

    predicate Valid()
      reads this
    {
      0 <= amount <= MAX_AMOUNT &&
      (symbol.precision <= EVM_PRECISION ==> dust < Unit())
    }

    function Wei(): (r: nat)
      reads this
      requires Valid() && Usable()
    {
      SplitSign(Unit(), amount, dust);
      amount * Unit() + dust
    }

    constructor (symbol: Symbol)
      ensures Valid() && this.symbol == symbol && amount == 0 && dust == 0
      ensures Usable() ==> Wei() == 0
    {
      this.symbol, amount, dust := symbol, 0, 0;
    }

    /** Zero exactly when the wei number is. */
    method IsZero() returns (r: bool)
      requires Valid() && Usable()
      ensures r <==> Wei() == 0
    {
      r := dust == 0 && amount == 0;
      if amount > 0 {
        TimesAtLeast(amount, Unit());
      }
    }

    /** `balance_with_dust::operator==`: rows of one symbol are equal exactly when their worth is. */
    method Equals(o: BalanceWithDust) returns (r: bool)
      requires Valid() && Usable() && o.Valid() && o.Usable() && symbol == o.symbol
      ensures r <==> Wei() == o.Wei()
    {
      r := amount == o.amount && dust == o.dust;
      if Wei() == o.Wei() {
        SplitUnique(Unit(), amount, dust, o.amount, o.dust);
      }
    }

    /** `balance_with_dust::operator+=`. */
    method AddAssign(x: nat) returns (ok: bool)
      requires Valid()
      modifies this
      ensures symbol == old(symbol)
      ensures ok <==> old(Usable()) && Credit(Unit(), old(Wei()), x).Some?
      ensures ok ==> Valid() && Credit(Unit(), old(Wei()), x) == Some(Wei())
    {
      if symbol == EMPTY_SYMBOL {
        return false;
      }
      var unitOpt := Pow10Const(EVM_PRECISION - symbol.precision);
      if unitOpt.None? {
        return false;
      }
      var unit := unitOpt.value;
      UnitIsSmall(symbol.precision);
      ok, amount, dust := AddSplit(unit, amount, dust, x);
    }

    /** `balance_with_dust::operator-=`: the borrow is read off bit 63 of the wrapped dust. */
    method SubAssign(x: nat) returns (ok: bool)
      requires Valid()
      modifies this
      ensures symbol == old(symbol)
      ensures ok <==> old(Usable()) && Debit(old(Wei()), x).Some?
      ensures ok ==> Valid() && Debit(old(Wei()), x) == Some(Wei())
    {
      if symbol == EMPTY_SYMBOL {
        return false;
      }
      var unitOpt := Pow10Const(EVM_PRECISION - symbol.precision);
      if unitOpt.None? {
        return false;
      }
      var unit := unitOpt.value;
      UnitIsSmall(symbol.precision);
      ok, amount, dust := SubSplit(unit, amount, dust, x);
    }

    /** `asset::operator+=` on the native part, as deposits use it. */
    method AddAsset(quantity: nat) returns (ok: bool)
      requires Valid() && Usable() && quantity <= MAX_AMOUNT
      modifies this
      ensures symbol == old(symbol)
      ensures ok <==> Credit(Unit(), old(Wei()), quantity * Unit()).Some?
      ensures ok ==> Valid() && Credit(Unit(), old(Wei()), quantity * Unit()) == Some(Wei())
    {
      SplitAsset(Unit(), amount, dust, quantity);
      amount := WrapSigned64(amount + quantity);
      ok := amount <= MAX_AMOUNT;
    }

    /** `withdraw` takes native units off: the check compares whole units only. */
    method SubAsset(quantity: nat) returns (ok: bool)
      requires Valid() && Usable() && quantity <= MAX_AMOUNT
      modifies this
      ensures symbol == old(symbol)
      ensures ok <==> Debit(old(Wei()), quantity * Unit()).Some?
      ensures ok ==> Valid() && Debit(old(Wei()), quantity * Unit()) == Some(Wei())
    {
      SplitAsset(Unit(), amount, dust, quantity);
      ok := amount >= quantity;
      amount := WrapSigned64(amount - quantity);
    }
  }

  lemma SplitAsset(unit: nat, a: nat, d: nat, quantity: nat)
    requires d < unit
    ensures 0 <= quantity * unit
    ensures a * unit + d + quantity * unit == (a + quantity) * unit + d
    ensures a * unit + d + quantity * unit < Cap(unit) <==> a + quantity <= MAX_AMOUNT
    ensures a * unit + d - quantity * unit == (a - quantity) * unit + d
    ensures quantity * unit <= a * unit + d <==> quantity <= a
  {
    Distribute(a, quantity, unit);
    Distribute(a, 0 - quantity, unit);
    Distribute(0, 0 - quantity, unit);
    Distribute(0, quantity, unit);
    SplitBelowCap(unit, a + quantity, d);
    SplitSign(unit, a - quantity, d);
  }

  lemma UnitIsSmall(precision: nat)
    requires precision <= EVM_PRECISION
    ensures 1 <= Pow10(EVM_PRECISION - precision) <= 1_000_000_000_000_000_000
  {
    Pow10Monotone(EVM_PRECISION - precision, EVM_PRECISION);
    Pow10At18();
  }
}
