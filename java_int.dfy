/**
 * bookRoom's pricing as written on Java's 32-bit `int`: the day count is
 * cast from `long` to `int`, and `nights * pricePerNight` and the debit wrap
 * around. The rest of the model prices with unbounded integers; this module
 * records what the 32-bit arithmetic does instead.
 */
module JavaInt {
  import opened Outcomes
  import opened Model

  const Modulus: int := 0x1_0000_0000
  const MinInt: int := -0x8000_0000
  const MaxInt: int := 0x7fff_ffff

  /** The Java `int` that holds the low 32 bits of `x` (two's complement). */
  function Wrap(x: int): (r: int)
    ensures MinInt <= r <= MaxInt
    ensures (x - r) % Modulus == 0
    ensures MinInt <= x <= MaxInt ==> r == x
  {
    var m := x % Modulus;
    if m > MaxInt then m - Modulus else m
  }

  /**
   * Pricing, balance check and debit of bookRoom as written: the new balance
   * of the user, or None when the balance check refuses the booking.
   */
  function DebitAsWritten(balance: int, checkIn: Day, checkOut: Day, pricePerNight: int): Option<int> {
    var nights := Wrap(checkOut - checkIn);
    var totalPrice := Wrap(nights * pricePerNight);
    if balance < totalPrice then None else Some(Wrap(balance - totalPrice))
  }

  /**
   * Two nights at 2^30 per night cost 2^31, which wraps to -2^31: a user
   * with a zero balance passes the balance check and is left with a
   * negative balance.
   */
  lemma DebitAsWrittenOverflows()
    ensures DebitAsWritten(0, 0, 2, 0x4000_0000) == Some(MinInt)
  {
    assert Wrap(2) == 2;
    assert Wrap(2 * 0x4000_0000) == MinInt;
    assert Wrap(0 - MinInt) == MinInt;
  }

  /** Within Java's range the 32-bit computation agrees with the unbounded one, and the balance stays non-negative. */
  lemma DebitAsWrittenInRange(balance: int, checkIn: Day, checkOut: Day, pricePerNight: int)
    requires 0 <= balance <= MaxInt
    requires checkIn < checkOut && 0 < pricePerNight
    requires (checkOut - checkIn) * pricePerNight <= MaxInt
    ensures DebitAsWritten(balance, checkIn, checkOut, pricePerNight) ==
      if balance < (checkOut - checkIn) * pricePerNight then None
      else Some(balance - (checkOut - checkIn) * pricePerNight)
  {
    var nights := checkOut - checkIn;
    var totalPrice := nights * pricePerNight;
    assert totalPrice == nights * (pricePerNight - 1) + nights;
    assert nights * (pricePerNight - 1) >= 0;
    assert Wrap(nights) == nights;
    assert Wrap(totalPrice) == totalPrice;
  }
}
