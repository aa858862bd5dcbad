/**
 * The error handler of `/api/metadata`: an error thrown while fetching,
 * scraping or digesting becomes an HTTP status code and a message.
 */
module ErrorStatus {
  import opened Wrappers

  /** What the handler reads of a thrown error: `error.code` and `error.response?.statusCode`. */
  datatype ErrorInfo = ErrorInfo(code: Option<string>, responseStatus: Option<int>)

  predicate IsTimeout(e: ErrorInfo) {
    e.code == Some("ETIMEDOUT") || e.code == Some("ECONNABORTED")
  }

  /** The upstream status is truthy: present and not 0. */
  predicate HasUpstreamStatus(e: ErrorInfo) {
    e.responseStatus.Some? && e.responseStatus.value != 0
  }

  function DigitChar(d: nat): (c: char)
    requires d < 10
    ensures '0' <= c <= '9'
  {
    "0123456789"[d]
  }

  /** The decimal numeral of a natural number, as template literals render it. */
  function Digits(n: nat): (s: string)
    ensures |s| > 0
    ensures forall i :: 0 <= i < |s| ==> '0' <= s[i] <= '9'
    ensures s[0] == '0' ==> n == 0
  {
    if n < 10 then [DigitChar(n)] else Digits(n / 10) + [DigitChar(n % 10)]
  }

  /** The decimal numeral of an integer, with a leading `-` when negative. */
  function Decimal(n: int): string {
    if n < 0 then "-" + Digits(-n) else Digits(n)
  }

  /** Reads a string of decimal digits back as a number. */
  function DigitsValue(s: string): nat {
    if s == [] then 0
    else DigitsValue(s[..|s| - 1]) * 10 + (if '0' <= s[|s| - 1] <= '9' then (s[|s| - 1] - '0') as nat else 0)
  }

  function DecimalValue(s: string): int {
    if |s| > 0 && s[0] == '-' then -(DigitsValue(s[1..]) as int) else DigitsValue(s)
  }

  lemma {:induction false} DigitsRoundTrip(n: nat)
    ensures DigitsValue(Digits(n)) == n
  {
    if n >= 10 {
      DigitsRoundTrip(n / 10);
      var s := Digits(n / 10) + [DigitChar(n % 10)];
      assert s[..|s| - 1] == Digits(n / 10);
    }
  }

  /** Reading the rendered numeral gives back the number. */
  lemma {:induction false} DecimalRoundTrip(n: int)
    ensures DecimalValue(Decimal(n)) == n
  {
    if n < 0 {
      var d := Digits(-n);
      DigitsRoundTrip(-n);
      var s := "-" + d;
      assert s[0] == '-' && s[1..] == d;
      assert Decimal(n) == s;
    } else {
      DigitsRoundTrip(n);
    }
  }

  const UpstreamPrefix: string := "HTTP "
  const UpstreamSuffix: string := " error"

  /**
   * The ordered if/else chain of the handler. A timeout wins over everything,
   * then a truthy upstream status is passed through, then a failed name lookup
   * is 404, and anything else is 500.
   */
  method ClassifyError(e: ErrorInfo) returns (statusCode: int, message: string)
    ensures IsTimeout(e) ==> statusCode == 408 && message == "Request timeout"
    ensures !IsTimeout(e) && HasUpstreamStatus(e) ==>
              statusCode == e.responseStatus.value &&
              message == UpstreamPrefix + Decimal(statusCode) + UpstreamSuffix &&
              DecimalValue(message[|UpstreamPrefix|..|message| - |UpstreamSuffix|]) == statusCode
    ensures !IsTimeout(e) && !HasUpstreamStatus(e) && e.code == Some("ENOTFOUND") ==>
              statusCode == 404 && message == "Domain not found"
    ensures !IsTimeout(e) && !HasUpstreamStatus(e) && e.code != Some("ENOTFOUND") ==>
              statusCode == 500 && message == "Internal server error"
    ensures statusCode != 0
  {
    statusCode := 500;
    message := "Internal server error";
    if e.code == Some("ETIMEDOUT") || e.code == Some("ECONNABORTED") {
      statusCode := 408;
      message := "Request timeout";
    } else if e.responseStatus.Some? && e.responseStatus.value != 0 {
      statusCode := e.responseStatus.value;
      message := UpstreamPrefix + Decimal(statusCode) + UpstreamSuffix;
      DecimalRoundTrip(statusCode);
      assert message[|UpstreamPrefix|..|message| - |UpstreamSuffix|] == Decimal(statusCode);
    } else if e.code == Some("ENOTFOUND") {
      statusCode := 404;
      message := "Domain not found";
    }
  }
}
