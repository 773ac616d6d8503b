/** Shared vocabulary of the FTP client model: optional values, the exception
    family the client throws, the transport oracle's replies, the character
    classes the listing recognisers use, and PHP's integer parsing and
    rendering of decimal numbers. */
module Common {

  datatype Option<+T> = None | Some(value: T) {
    function GetOr(default: T): T {
      match this
      case Some(v) => v
      case None => default
    }
  }

  /** FtpException and its two subclasses, and PHP's own Error for reading
      a typed property that was never assigned. ConnectException and
      LoginException extend FtpException, so every `catch (FtpException)`
      in the tree walks catches those three kinds; UnsetProperty is not an
      FtpException and escapes them. */
  datatype ErrorKind = General | ConnectFailure | LoginFailure | UnsetProperty

  datatype FtpError = FtpError(kind: ErrorKind, message: string)

  /** A value, or the exception the PHP method would throw instead. */
  datatype Result<+T> = Ok(value: T) | Err(error: FtpError)

  /** The answer of the transport to one command: success, or failure with
      the diagnostic text (`getLastError()?->getErrstr()`), which may be
      missing. */
  datatype Reply = Done | Failed(diag: Option<string>)

  /** The text every failure message carries after its base text: the
      diagnostic in parentheses when there is one, nothing otherwise. */
  function ErrSuffix(diag: Option<string>): (r: string)
    ensures diag.None? <==> r == ""
    ensures diag.Some? ==> |r| == |diag.value| + 3 && r[..2] == " (" && r[|r| - 1] == ')'
                           && r[2..|r| - 1] == diag.value
  {
    match diag
    case None => ""
    case Some(d) => " (" + d + ")"
  }

  /** The failure message built from a base text and an optional diagnostic. */
  function FailMessage(base: string, diag: Option<string>): string
  {
    base + ErrSuffix(diag)
  }

  /** Recovers the diagnostic from a failure message whose base text is known:
      the partner of FailMessage. */
  function DiagOf(base: string, msg: string): Option<string>
  {
    if |msg| >= |base| + 3 && msg[..|base|] == base && msg[|base|..|base| + 2] == " ("
       && msg[|msg| - 1] == ')'
    then Some(msg[|base| + 2..|msg| - 1])
    else None
  }

  /** The failure message always starts with its base text, and the
      diagnostic can be read back from it: the message mentions a
      diagnostic exactly when the transport supplied one. */
  lemma FailMessageRoundTrip(base: string, diag: Option<string>)
    ensures FailMessage(base, diag)[..|base|] == base
    ensures DiagOf(base, FailMessage(base, diag)) == diag
    ensures diag.None? <==> FailMessage(base, diag) == base
  {
    var m := FailMessage(base, diag);
    match diag
    case None =>
    case Some(d) =>
      assert m == base + " (" + d + ")";
      assert m[..|base|] == base;
      assert m[|base|..|base| + 2] == " (";
      assert m[|base| + 2..|m| - 1] == d;
  }

  // ---------------------------------------------------------------------
  // Character classes

  predicate IsDigit(c: char) { '0' <= c <= '9' }

  predicate IsAlpha(c: char) { 'a' <= c <= 'z' || 'A' <= c <= 'Z' }

  predicate IsAlnum(c: char) { IsDigit(c) || IsAlpha(c) }

  predicate AllDigits(s: string) { forall i :: 0 <= i < |s| ==> IsDigit(s[i]) }

  /** True when no character of `s` is `c`. */
  predicate Lacks(s: string, c: char) { forall i :: 0 <= i < |s| ==> s[i] != c }

  // ---------------------------------------------------------------------
  // Sequences

  /** `f` applied to every element, in order. */
  function Map<A, B>(f: A -> B, xs: seq<A>): (ys: seq<B>)
    ensures |ys| == |xs|
    ensures forall i :: 0 <= i < |xs| ==> ys[i] == f(xs[i])
  {
    seq(|xs|, i requires 0 <= i < |xs| => f(xs[i]))
  }

  lemma MapCons<A, B>(f: A -> B, xs: seq<A>)
    requires |xs| > 0
    ensures Map(f, xs) == [f(xs[0])] + Map(f, xs[1..])
  {
    var l, r := Map(f, xs), [f(xs[0])] + Map(f, xs[1..]);
    forall i | 0 <= i < |xs| ensures l[i] == r[i] {
      if i > 0 {
        assert xs[1..][i - 1] == xs[i];
      }
    }
  }

  lemma AppendAssoc<T>(a: seq<T>, b: seq<T>, c: seq<T>)
    ensures a + b + c == a + (b + c)
  {
  }

  // ---------------------------------------------------------------------
  // Decimal numbers

  /** PHP_INT_MAX on a 64-bit build: intval() saturates here. */
  const PhpIntMax: int := 0x7FFF_FFFF_FFFF_FFFF

  function DigitValue(c: char): nat
    requires IsDigit(c)
  {
    (c as int) - ('0' as int)
  }

  function DigitChar(d: nat): (c: char)
    requires d < 10
    ensures IsDigit(c) && DigitValue(c) == d
  {
    ('0' as int + d) as char
  }

  /** The value of a run of decimal digits; the empty run is 0. */
  function DecimalValue(s: string): nat
    requires AllDigits(s)
  {
    if |s| == 0 then 0 else DecimalValue(s[..|s| - 1]) * 10 + DigitValue(s[|s| - 1])
  }

  /** intval() of a digit string: its value, saturated at PHP_INT_MAX. */
  function IntVal(s: string): (r: int)
    requires AllDigits(s)
    ensures 0 <= r <= PhpIntMax
    ensures DecimalValue(s) <= PhpIntMax ==> r == DecimalValue(s)
    ensures DecimalValue(s) > PhpIntMax ==> r == PhpIntMax
  {
    if DecimalValue(s) <= PhpIntMax then DecimalValue(s) else PhpIntMax
  }

  /** Decimal rendering of a natural number, as PHP's string conversion
      writes it: no sign, no leading zero except for 0 itself. */
  function NatToDecimal(n: nat): (r: string)
    ensures |r| >= 1 && AllDigits(r)
    ensures |r| > 1 ==> r[0] != '0'
  {
    if n < 10 then [DigitChar(n)] else NatToDecimal(n / 10) + [DigitChar(n % 10)]
  }

  /** PHP's rendering of an int inside a string concatenation. */
  function IntToDecimal(n: int): string
  {
    if n < 0 then "-" + NatToDecimal(-n) else NatToDecimal(n)
  }

  lemma {:induction false} NatToDecimalRoundTrip(n: nat)
    ensures DecimalValue(NatToDecimal(n)) == n
  {
    if n >= 10 {
      var r := NatToDecimal(n);
      NatToDecimalRoundTrip(n / 10);
      assert r[..|r| - 1] == NatToDecimal(n / 10);
    }
  }

  /** Reading back the rendering of an int gives the int: the sign is
      present exactly for negative numbers and the digits hold |n|. */
  lemma IntToDecimalRoundTrip(n: int)
    ensures var r := IntToDecimal(n);
            (n < 0 <==> (|r| > 0 && r[0] == '-'))
            && (n >= 0 ==> AllDigits(r) && DecimalValue(r) == n)
            && (n < 0 ==> AllDigits(r[1..]) && DecimalValue(r[1..]) == -n)
  {
    if n < 0 {
      NatToDecimalRoundTrip(-n);
      assert IntToDecimal(n)[1..] == NatToDecimal(-n);
    } else {
      NatToDecimalRoundTrip(n);
    }
  }
}
