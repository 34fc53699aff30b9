/** Machine integers, aborting results, and the rounding facts about division that everything else rests on. */
module Prelude {
  const U64: nat := 0x1_0000_0000_0000_0000
  const U128: nat := 0x1_0000_0000_0000_0000_0000_0000_0000_0000

  /** One whole in the 18-decimal fixed-point format. */
  const FRACTION: nat := 1_000_000_000_000_000_000

  type Uint64 = x: nat | x < U64
  type Uint128 = x: nat | x < U128

  type Address = string

  datatype Option<+T> = None | Some(value: T)

  /** Every way a call can abort. A panic and a returned error both roll the transaction back,
      so the two are not told apart: `Overflow` stands for a failed checked operation of either kind. */
  datatype Error =
    | Overflow
    | DivideByZero
    | NotFound
    | Unauthorized
    | Unfunded
    | InvalidConfig
    | InvalidBlockTime
    | ClosedForBids
    | BidRateTooLow(rate: nat)
    | BidDepositTooLow(deposit: nat)
    | BidInvalidInterval
    | UnexpectedState
    | InsufficientTokens
    | InsufficientFunds

  datatype Result<+T> = Ok(value: T) | Err(error: Error) {
    predicate IsFailure() {
      Err?
    }

    /** Total, though only failures are propagated: a checked operation that cannot fail where it stands
        leaves no precondition to be met in its dead branch. */
    function PropagateFailure<U>(): Result<U> {
      match this
      case Ok(_) => Err(Overflow)
      case Err(e) => Err(e)
    }

    function Extract(): T
      requires Ok?
    {
      value
    }
  }

  function Min(a: nat, b: nat): nat {
    if a <= b then a else b
  }

  function SaturatingSub(a: nat, b: nat): nat {
    if b <= a then a - b else 0
  }

  // ----- Products and quotients, each in a function of its own to keep proof obligations apart

  function FloorDiv(x: nat, d: nat): nat
    requires d > 0
  {
    x / d
  }

  function Times(a: nat, b: nat): nat {
    a * b
  }

  // ----- Checked arithmetic

  function Add64(a: Uint64, b: Uint64): Result<Uint64> {
    if a + b < U64 then Ok(a + b) else Err(Overflow)
  }

  function Sub64(a: Uint64, b: Uint64): Result<Uint64> {
    if b <= a then Ok(a - b) else Err(Overflow)
  }

  function Add128(a: Uint128, b: Uint128): Result<Uint128> {
    if a + b < U128 then Ok(a + b) else Err(Overflow)
  }

  function Sub128(a: Uint128, b: Uint128): Result<Uint128> {
    if b <= a then Ok(a - b) else Err(Overflow)
  }

  /** `a * n / d` rounded down, on a 256-bit intermediate; aborts when the quotient does not fit. */
  function MultiplyRatio(a: Uint128, n: Uint128, d: Uint128): Result<Uint128> {
    if d == 0 then
      Err(DivideByZero)
    else
      var q := FloorDiv(Times(a, n), d);
      if q < U128 then Ok(q) else Err(Overflow)
  }

  // ----- Rounding

  function Mod(x: nat, d: nat): nat
    requires d > 0
  {
    x % d
  }

  /** Rounding up to a multiple of the unit. */
  function CeilDiv(x: nat, d: nat): nat
    requires d > 0
  {
    (x + d - 1) / d
  }

  lemma DivBounds(x: nat, d: nat)
    requires d > 0
    ensures x / d * d <= x < x / d * d + d
  {
  }

  lemma {:induction false} FloorBounds(x: nat, d: nat)
    requires d > 0
    ensures Times(FloorDiv(x, d), d) <= x < Times(FloorDiv(x, d) + 1, d)
  {
    DivBounds(x, d);
    var q := x / d;
    assert (q + 1) * d == q * d + d;
  }

  lemma {:induction false} DivMod(x: nat, d: nat)
    requires d > 0
    ensures x == Times(FloorDiv(x, d), d) + Mod(x, d)
    ensures Mod(x, d) < d
  {
  }

  lemma MulLe(a: nat, b: nat, c: nat)
    requires a <= b
    ensures a * c <= b * c
  {
  }

  /** Floor division is the right adjoint of multiplication. */
  lemma FloorGalois(q: nat, x: nat, d: nat)
    requires d > 0
    ensures q <= x / d <==> q * d <= x
  {
    DivBounds(x, d);
    if q <= x / d {
      MulLe(q, x / d, d);
    } else {
      MulLe(x / d + 1, q, d);
    }
  }

  /** Ceiling division is the left adjoint of multiplication. */
  lemma CeilGalois(x: nat, d: nat, q: nat)
    requires d > 0
    ensures CeilDiv(x, d) <= q <==> x <= q * d
  {
    FloorGalois(q + 1, x + d - 1, d);
    assert (q + 1) * d == q * d + d;
  }

  lemma CeilBounds(x: nat, d: nat)
    requires d > 0
    ensures x <= CeilDiv(x, d) * d <= x + d - 1
  {
    DivBounds(x + d - 1, d);
  }
}
