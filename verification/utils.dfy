/** `decimalise` from nationwide_parser/utils.py. */
module Utils {
  import opened Outcomes
  import opened Digits

  function Abs(q: int): nat { if q < 0 then -q else q }

  /** Integer pence rendered as `(-)P.pp`: the sign, then the magnitude. */
  function Decimalise(q: int): string
  {
    (if q < 0 then "-" else "") + Unsigned(Abs(q))
  }

  /** A non-negative pence amount as `P.pp`. */
  function Unsigned(n: nat): string
  {
    Decimal(n / 100) + "." + ZeroPad(n % 100, 2)
  }

  /** `P.pp`: n div 100 in plain decimal, a full stop, and n mod 100 as exactly two digits. */
  lemma UnsignedShape(n: nat)
    ensures var body := Unsigned(n);
      && |body| >= 4 && body[0] != '-' && body[|body| - 3] == '.'
      && AllDigits(body[..|body| - 3]) && Value(body[..|body| - 3]) == n / 100
      && AllDigits(body[|body| - 2..]) && Value(body[|body| - 2..]) == n % 100
  {
    var whole, fraction := Decimal(n / 100), ZeroPad(n % 100, 2);
    TwoDigitPad(n % 100);
    var body := whole + "." + fraction;
    assert body[..|body| - 3] == whole;
    assert body[|body| - 2..] == fraction;
  }

  /**
   * The shape of `decimalise`: a minus sign exactly for negative input,
   * followed by |q| as `P.pp`.
   */
  lemma DecimaliseShape(q: int)
    ensures var s := Decimalise(q);
      && ((|s| > 0 && s[0] == '-') <==> q < 0)
      && (if q < 0 then s[1..] else s) == Unsigned(Abs(q))
  {
    UnsignedShape(Abs(q));
    if q < 0 {
      assert ("-" + Unsigned(Abs(q)))[1..] == Unsigned(Abs(q));
    }
  }

  /** Reads text of the form `(-)P.pp` back into pence. */
  function ReadDecimalised(s: string): Option<int>
  {
    if |s| > 0 && s[0] == '-' then
      match ReadUnsigned(s[1..])
      case Some(magnitude) => Some(-(magnitude as int))
      case None => None
    else
      match ReadUnsigned(s)
      case Some(magnitude) => Some(magnitude as int)
      case None => None
  }

  /** Reads `P.pp` back into pence. */
  function ReadUnsigned(body: string): Option<nat>
  {
    if |body| >= 4 && body[|body| - 3] == '.'
       && AllDigits(body[..|body| - 3]) && AllDigits(body[|body| - 2..])
    then Some(Value(body[..|body| - 3]) * 100 + Value(body[|body| - 2..]))
    else None
  }

  /** `decimalise` loses nothing: reading its text back recovers the quantity. */
  lemma DecimaliseRoundTrip(q: int)
    ensures ReadDecimalised(Decimalise(q)) == Some(q)
  {
    DecimaliseShape(q);
    UnsignedShape(Abs(q));
    assert (Abs(q) / 100) * 100 + Abs(q) % 100 == Abs(q);
  }

  lemma DecimaliseZero()
    ensures Decimalise(0) == "0.00"
  {
    assert Decimal(0) == "0";
    assert ZeroPad(0, 2) == "00";
  }
}
