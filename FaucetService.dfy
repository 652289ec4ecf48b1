/**
  `BitcoinFaucetService.deposit`: the query URL sent to the test-network
  faucet and the way the single response is turned into an outcome. The
  connection itself is left out; what it answers is an input.
 */
module FaucetService {
  import opened Wrappers
  import opened Bitcoin

  const FAUCET_API_URL: string := "https://faucet.triangleplatform.com/bitcoin/testnet"
  const ADDRESS_PARAM: string := "?address="
  const AMOUNT_PARAM: string := "&amount="

  /** `HttpURLConnection.HTTP_OK`. */
  const HTTP_OK: int := 200

  // Decimal text of a Java long, as string concatenation renders it.

  predicate IsDigit(c: char)
  {
    '0' <= c <= '9'
  }

  predicate IsDigits(s: string)
  {
    |s| >= 1 && forall i :: 0 <= i < |s| ==> IsDigit(s[i])
  }

  function DigitChar(d: nat): (c: char)
    requires d < 10
    ensures IsDigit(c) && c as int - '0' as int == d
  {
    ('0' as int + d) as char
  }

  /** The decimal digits of `n`, most significant first, with no leading zero. */
  function NatToDecimal(n: nat): (s: string)
    ensures IsDigits(s)
    ensures s == "0" <==> n == 0
    ensures s[0] == '0' ==> s == "0"
    decreases n
  {
    if n < 10 then [DigitChar(n)] else NatToDecimal(n / 10) + [DigitChar(n % 10)]
  }

  /** The number a string of decimal digits denotes. */
  function DecimalValue(s: string): nat
    requires IsDigits(s)
    decreases |s|
  {
    if |s| == 1 then s[0] as int - '0' as int
    else 10 * DecimalValue(s[..|s| - 1]) + (s[|s| - 1] as int - '0' as int)
  }

  /**
    `Long.toString(v)`: a minus sign exactly for a negative value, then the
    digits of the magnitude, with no leading zero.
   */
  function LongToString(v: Long): (s: string)
    ensures |s| >= 1 && (s[0] == '-' <==> v < 0)
    ensures v >= 0 ==> IsDigits(s) && (s[0] == '0' ==> s == "0")
    ensures v < 0 ==> IsDigits(s[1..]) && s[1] != '0'
  {
    if v < 0 then "-" + NatToDecimal(-(v as int)) else NatToDecimal(v)
  }

  /** Reads back the text of a long: an optional minus sign and decimal digits in range. */
  function ParseLong(s: string): Option<Long>
  {
    if |s| >= 2 && s[0] == '-' && IsDigits(s[1..]) then
      var v: int := 0 - DecimalValue(s[1..]) as int;
      if LONG_MIN <= v then Some(v) else None
    else if IsDigits(s) then
      var v: int := DecimalValue(s);
      if v <= LONG_MAX then Some(v) else None
    else None
  }

  lemma {:induction false} DecimalRoundTrip(n: nat)
    ensures DecimalValue(NatToDecimal(n)) == n
    decreases n
  {
    if n >= 10 {
      var s := NatToDecimal(n);
      assert s[..|s| - 1] == NatToDecimal(n / 10);
      DecimalRoundTrip(n / 10);
    }
  }

  /** The amount text parses back to the amount. */
  lemma LongRoundTrip(v: Long)
    ensures ParseLong(LongToString(v)) == Some(v)
  {
    if v < 0 {
      var s := LongToString(v);
      assert s[1..] == NatToDecimal(-(v as int));
      DecimalRoundTrip(-(v as int));
    } else {
      DecimalRoundTrip(v);
    }
  }

  // The query URL.

  /**
    The URL `deposit` requests for `address` and `amount`: the faucet
    endpoint, `?address=` and the address text, then `&amount=` and the
    decimal amount, with nothing in between.
   */
  function DepositUrl(address: Address, amount: Long): (url: string)
    ensures var a := |FAUCET_API_URL| + |ADDRESS_PARAM|;
            var b := a + |address| + |AMOUNT_PARAM|;
            && |url| == b + |LongToString(amount)|
            && url[..|FAUCET_API_URL|] == FAUCET_API_URL
            && url[|FAUCET_API_URL|..a] == ADDRESS_PARAM
            && url[a..a + |address|] == address
            && url[a + |address|..b] == AMOUNT_PARAM
            && url[b..] == LongToString(amount)
  {
    FAUCET_API_URL + ADDRESS_PARAM + address + AMOUNT_PARAM + LongToString(amount)
  }

  /** The position of the first `c` in `s`, if any. */
  function IndexOf(s: string, c: char): (r: Option<nat>)
    ensures r.Some? ==> r.value < |s| && s[r.value] == c && c !in s[..r.value]
    ensures r.None? ==> c !in s
  {
    if s == [] then None
    else if s[0] == c then Some(0)
    else
      match IndexOf(s[1..], c)
      case None => None
      case Some(k) =>
        assert s[..k + 1] == [s[0]] + s[1..][..k];
        Some(k + 1)
  }

  /** The query of a deposit URL: the address and the amount it names. */
  datatype DepositQuery = DepositQuery(address: Address, amount: Long)

  /**
    Splits a URL of the faucet into its address, the text up to the first `&`
    after `?address=`, and its amount, the long after `&amount=`.
   */
  function ParseDepositUrl(url: string): Option<DepositQuery>
  {
    var prefix := FAUCET_API_URL + ADDRESS_PARAM;
    if |url| < |prefix| || url[..|prefix|] != prefix then None
    else
      var rest := url[|prefix|..];
      match IndexOf(rest, '&')
      case None => None
      case Some(k) =>
        var tail := rest[k..];
        if |tail| < |AMOUNT_PARAM| || tail[..|AMOUNT_PARAM|] != AMOUNT_PARAM then None
        else
          match ParseLong(tail[|AMOUNT_PARAM|..])
          case None => None
          case Some(v) => Some(DepositQuery(rest[..k], v))
  }

  /**
    Round trip: the text between `?address=` and `&amount=` is the address and
    the rest reads back as the amount. A bitcoin address never holds an `&`.
   */
  lemma DepositUrlRoundTrip(address: Address, amount: Long)
    requires '&' !in address
    ensures ParseDepositUrl(DepositUrl(address, amount)) == Some(DepositQuery(address, amount))
  {
    var url := DepositUrl(address, amount);
    var prefix := FAUCET_API_URL + ADDRESS_PARAM;
    var text := LongToString(amount);
    assert url == prefix + (address + AMOUNT_PARAM + text);
    var rest := url[|prefix|..];
    assert rest == address + (AMOUNT_PARAM + text);
    FirstAmpersand(address, AMOUNT_PARAM + text);
    assert rest[..|address|] == address;
    var tail := rest[|address|..];
    assert tail == AMOUNT_PARAM + text;
    assert tail[|AMOUNT_PARAM|..] == text;
    LongRoundTrip(amount);
  }

  /** When `a` has no `&` and `b` starts with one, the first `&` of `a + b` is at `|a|`. */
  lemma {:induction false} FirstAmpersand(a: string, b: string)
    requires '&' !in a && |b| > 0 && b[0] == '&'
    ensures IndexOf(a + b, '&') == Some(|a|)
  {
    if a == [] {
      assert a + b == b;
    } else {
      assert (a + b)[1..] == a[1..] + b;
      FirstAmpersand(a[1..], b);
    }
  }

  // One call of `deposit`.

  /** An HTTP request as issued: its method and URL. */
  datatype HttpRequest = HttpRequest(verb: string, url: string)

  /** What the one connection attempt gives: a response code, or an `IOException`. */
  datatype Response = ResponseCode(code: int) | IOException(message: string)

  /**
    How `deposit` ends: success and failure both return normally (the
    failure is only printed); an `IOException` is rethrown to the caller.
   */
  datatype DepositOutcome =
    | Deposited
    | DepositFailed(responseCode: int)
    | Thrown(message: string)

  /** The requests issued, whether the connection was disconnected, and the outcome. */
  datatype DepositCall = DepositCall(requests: seq<HttpRequest>, disconnected: bool, outcome: DepositOutcome)

  predicate ReturnsNormally(outcome: DepositOutcome)
  {
    !outcome.Thrown?
  }

  function Deposit(address: Address, amount: Long, response: Response): (call: DepositCall)
    // Exactly one GET of the deposit URL, never retried.
    ensures call.requests == [HttpRequest("GET", DepositUrl(address, amount))]
    ensures '&' !in address ==> ParseDepositUrl(call.requests[0].url) == Some(DepositQuery(address, amount))
    // 200 is success; every other code is a failure that still returns normally.
    ensures call.outcome == Deposited <==> response == ResponseCode(HTTP_OK)
    ensures call.outcome.DepositFailed? <==> response.ResponseCode? && response.code != HTTP_OK
    ensures call.outcome.DepositFailed? ==> call.outcome.responseCode == response.code
    // Only an IOException propagates, with its message.
    ensures !ReturnsNormally(call.outcome) <==> response.IOException?
    ensures call.outcome.Thrown? ==> call.outcome.message == response.message
    // The connection is disconnected only on the normal path.
    ensures call.disconnected <==> ReturnsNormally(call.outcome)
  {
    var url := DepositUrl(address, amount);
    var request := HttpRequest("GET", url);
    assert '&' !in address ==> ParseDepositUrl(url) == Some(DepositQuery(address, amount)) by {
      if '&' !in address {
        DepositUrlRoundTrip(address, amount);
      }
    }
    match response
    case ResponseCode(code) =>
      DepositCall([request], true, if code == HTTP_OK then Deposited else DepositFailed(code))
    case IOException(message) =>
      DepositCall([request], false, Thrown(message))
  }
}
