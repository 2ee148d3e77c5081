/**
 * Order and booking reference codes (`generate_order_number`,
 * `generate_booking_number`): a three-letter prefix followed by eight decimal
 * digits. The digits are drawn at random by the store; here they are a parameter.
 */
module References {
  import opened Common

  const OrderPrefix: string := "ORD"
  const BookingPrefix: string := "BKG"

  /** The number of random digits that follow the prefix. */
  const DigitCount: nat := 8

  predicate IsDigit(c: char) {
    '0' <= c <= '9'
  }

  /** Eight decimal digits, as the random draw produces them. */
  predicate IsDigitString(d: string) {
    |d| == DigitCount && forall i :: 0 <= i < |d| ==> IsDigit(d[i])
  }

  /** A reference code: the prefix, then the digits. */
  function Reference(prefix: string, digits: string): (r: string)
    requires IsDigitString(digits)
    ensures |r| == |prefix| + DigitCount && r[..|prefix|] == prefix
    ensures forall i :: |prefix| <= i < |r| ==> IsDigit(r[i])
  {
    prefix + digits
  }

  /** `generate_order_number`: eleven characters, "ORD" then eight digits. */
  function OrderNumber(digits: string): (r: string)
    requires IsDigitString(digits)
    ensures |r| == 11 && r[..3] == "ORD"
    ensures forall i :: 3 <= i < 11 ==> IsDigit(r[i])
  {
    Reference(OrderPrefix, digits)
  }

  /** `generate_booking_number`: eleven characters, "BKG" then eight digits. */
  function BookingNumber(digits: string): (r: string)
    requires IsDigitString(digits)
    ensures |r| == 11 && r[..3] == "BKG"
    ensures forall i :: 3 <= i < 11 ==> IsDigit(r[i])
  {
    Reference(BookingPrefix, digits)
  }

  /** Reads the digits back out of a code with the given prefix, if it is one. */
  function ParseReference(prefix: string, code: string): (r: Option<string>)
    ensures r.Some? ==> IsDigitString(r.value) && code == prefix + r.value
  {
    if |code| == |prefix| + DigitCount && code[..|prefix|] == prefix && IsDigitString(code[|prefix|..])
    then Some(code[|prefix|..])
    else None
  }

  /** Parsing undoes generation: the digits are recovered from every code. */
  lemma ParseReferenceRoundTrip(prefix: string, digits: string)
    requires IsDigitString(digits)
    ensures ParseReference(prefix, Reference(prefix, digits)) == Some(digits)
  {
    var code := Reference(prefix, digits);
    assert code[..|prefix|] == prefix;
    assert code[|prefix|..] == digits;
  }

  /** Distinct digit strings give distinct codes of the same kind, and no code is of both kinds. */
  lemma ReferencesDistinct(d1: string, d2: string)
    requires IsDigitString(d1) && IsDigitString(d2)
    ensures OrderNumber(d1) == OrderNumber(d2) ==> d1 == d2
    ensures BookingNumber(d1) == BookingNumber(d2) ==> d1 == d2
    ensures OrderNumber(d1) != BookingNumber(d2)
  {
    ParseReferenceRoundTrip(OrderPrefix, d1);
    ParseReferenceRoundTrip(OrderPrefix, d2);
    ParseReferenceRoundTrip(BookingPrefix, d1);
    ParseReferenceRoundTrip(BookingPrefix, d2);
    assert OrderNumber(d1)[0] == 'O' && BookingNumber(d2)[0] == 'B';
  }
}
