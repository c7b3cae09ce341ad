/**
 * The simulated M-Pesa STK push service: the payment-status labels, the
 * initiation step (phone check, then a fabricated checkout-request id) and
 * the four-digit transaction OTP.
 *
 * The sources of randomness are parameters: the initiation receives the
 * base-36 tail of its random draw as `suffix`, and the OTP receives its draw
 * either as a real in [0, 1) or directly as the integer offset it selects.
 * The one-second gateway delay is not modelled: initiation is a pure function
 * whose rejection and acceptance outcomes are its two results.
 */
module PaymentService {
  import opened Options
  import opened Decimal
  import opened SafaricomPhone

  /** The string-literal union of a transaction's lifecycle states. */
  datatype PaymentStatus =
    | Idle | Initiated | SentToPhone | PinEntered | Verifying | Success | Failed
  {
    function Label(): (s: string) {
      match this
      case Idle => "IDLE"
      case Initiated => "INITIATED"
      case SentToPhone => "SENT_TO_PHONE"
      case PinEntered => "PIN_ENTERED"
      case Verifying => "VERIFYING"
      case Success => "SUCCESS"
      case Failed => "FAILED"
    }
  }

  /** The status a label names, if it is one of the seven. */
  function ParseStatus(s: string): (r: Option<PaymentStatus>)
    ensures r.Some? ==> r.value.Label() == s
    ensures r.None? ==> forall st: PaymentStatus :: st.Label() != s
  {
    match s
    case "IDLE" => Some(Idle)
    case "INITIATED" => Some(Initiated)
    case "SENT_TO_PHONE" => Some(SentToPhone)
    case "PIN_ENTERED" => Some(PinEntered)
    case "VERIFYING" => Some(Verifying)
    case "SUCCESS" => Some(Success)
    case "FAILED" => Some(Failed)
    case _ => None
  }

  /** Every status is recovered from its label, so no two share one. */
  lemma ParseLabel(st: PaymentStatus)
    ensures ParseStatus(st.Label()) == Some(st)
  {
  }

  const InvalidNumberMessage: string := "Invalid Safaricom M-Pesa number."

  /** The fixed head of every fabricated checkout-request id. */
  const CheckoutIdMarker: string := "ws_CO_"

  datatype CheckoutRequest = CheckoutRequest(checkoutRequestId: string)

  /** The thrown error, or the resolved `{ checkoutRequestId }`. */
  datatype Initiation = Rejected(message: string) | Accepted(request: CheckoutRequest)

  predicate IsLowerAscii(c: char) {
    'a' <= c <= 'z'
  }

  /** What `Number.prototype.toString(36)` emits: digits and lower-case letters. */
  predicate IsBase36Text(s: string) {
    forall i | 0 <= i < |s| :: IsDigit(s[i]) || IsLowerAscii(s[i])
  }

  function UpperChar(c: char): (u: char) {
    if IsLowerAscii(c) then (c as int - 32) as char else c
  }

  /** `String.prototype.toUpperCase` on the ASCII range. */
  function ToUpperAscii(s: string): (r: string)
    ensures |r| == |s|
    ensures forall i | 0 <= i < |r| :: !IsLowerAscii(r[i])
    ensures forall i | 0 <= i < |s| :: IsLowerAscii(s[i]) ==> r[i] as int == s[i] as int - ('a' as int - 'A' as int)
    ensures forall i | 0 <= i < |s| :: !IsLowerAscii(s[i]) ==> r[i] == s[i]
    decreases |s|
  {
    if s == [] then [] else [UpperChar(s[0])] + ToUpperAscii(s[1..])
  }

  /** Upper-casing twice is upper-casing once. */
  lemma UpperIdempotent(s: string)
    ensures ToUpperAscii(ToUpperAscii(s)) == ToUpperAscii(s)
  {
  }

  /** On base-36 text upper-casing loses nothing: distinct tails stay distinct. */
  lemma UpperInjectiveOnBase36(x: string, y: string)
    requires IsBase36Text(x) && IsBase36Text(y)
    requires ToUpperAscii(x) == ToUpperAscii(y)
    ensures x == y
  {
  }

  /** `'ws_CO_' + tail.toUpperCase()`. */
  function CheckoutRequestId(suffix: string): (id: string)
    requires IsBase36Text(suffix)
    ensures CheckoutIdMarker <= id
    ensures |id| == |CheckoutIdMarker| + |suffix|
    ensures forall i | |CheckoutIdMarker| <= i < |id| :: !IsLowerAscii(id[i])
  {
    CheckoutIdMarker + ToUpperAscii(suffix)
  }

  /**
   * `initiateStkPush(phone, amount, studentName)`: the phone is checked
   * first; a number the pattern refuses yields the error and no id, any other
   * always resolves to a fresh checkout request.
   */
  function InitiateStkPush(phone: string, amount: real, studentName: string, suffix: string): (r: Initiation)
    requires IsBase36Text(suffix)
    ensures r.Accepted? <==> Pattern(phone)
    ensures r.Rejected? ==> r.message == InvalidNumberMessage
    ensures r.Accepted? ==> CheckoutIdMarker <= r.request.checkoutRequestId
    ensures r.Accepted? ==>
      forall i | |CheckoutIdMarker| <= i < |r.request.checkoutRequestId| ::
        !IsLowerAscii(r.request.checkoutRequestId[i])
  {
    AcceptsIffPattern(phone);
    if !Accepts(phone) then Rejected(InvalidNumberMessage)
    else Accepted(CheckoutRequest(CheckoutRequestId(suffix)))
  }

  /** The amount and the payer's name never influence the outcome. */
  lemma InitiationIgnoresPayerDetails(phone: string, a: real, n: string, a': real, n': string, suffix: string)
    requires IsBase36Text(suffix)
    ensures InitiateStkPush(phone, a, n, suffix) == InitiateStkPush(phone, a', n', suffix)
  {
  }

  /** Two accepted initiations whose random tails differ get different ids. */
  lemma DistinctDrawsDistinctIds(phone: string, amount: real, name: string, x: string, y: string)
    requires Accepts(phone)
    requires IsBase36Text(x) && IsBase36Text(y) && x != y
    ensures InitiateStkPush(phone, amount, name, x).Accepted?
    ensures InitiateStkPush(phone, amount, name, x) != InitiateStkPush(phone, amount, name, y)
  {
    AcceptsIffPattern(phone);
    if CheckoutRequestId(x) == CheckoutRequestId(y) {
      var m := |CheckoutIdMarker|;
      assert ToUpperAscii(x) == CheckoutRequestId(x)[m..];
      assert ToUpperAscii(y) == CheckoutRequestId(y)[m..];
      UpperInjectiveOnBase36(x, y);
      assert false;
    }
  }

  /** The lowest one-time code. */
  const OtpBase: int := 1000

  /** The number of distinct one-time codes. */
  const OtpSpan: int := 9000

  /** `Math.floor(1000 + draw * 9000) - 1000` for a draw in [0, 1), in exact real arithmetic. */
  function OtpOffset(draw: real): (k: int)
    requires 0.0 <= draw < 1.0
    ensures 0 <= k < OtpSpan
    ensures k as real <= draw * OtpSpan as real < k as real + 1.0
  {
    (OtpBase as real + draw * OtpSpan as real).Floor - OtpBase
  }

  /** The code selected by offset `k`: `(1000 + k).toString()`. */
  function OtpCode(k: int): (r: string)
    requires 0 <= k < OtpSpan
    ensures |r| == 4 && AllDigits(r) && r[0] != '0'
    ensures Value(r) == OtpBase + k
  {
    assert Pow10(3) == 1000 && Pow10(4) == 10000;
    DecimalLength(OtpBase + k, 4);
    ValueOfDecimal(OtpBase + k);
    ToDecimal(OtpBase + k)
  }

  /** `generateTransactionOtp()` with its random draw as a parameter. */
  function GenerateTransactionOtp(draw: real): (r: string)
    requires 0.0 <= draw < 1.0
    ensures |r| == 4 && AllDigits(r)
    ensures 1000 <= Value(r) <= 9999
    ensures Value(r) == OtpBase + OtpOffset(draw)
  {
    OtpCode(OtpOffset(draw))
  }

  /** Different offsets give different codes. */
  lemma OtpCodeInjective(k: int, k': int)
    requires 0 <= k < OtpSpan && 0 <= k' < OtpSpan
    requires OtpCode(k) == OtpCode(k')
    ensures k == k'
  {
    DecimalInjective(OtpBase + k, OtpBase + k');
  }

  /** Every four-digit string without a leading zero is the code of one offset. */
  lemma OtpCodeCoversRange(s: string)
    requires |s| == 4 && AllDigits(s) && s[0] != '0'
    ensures 0 <= Value(s) - OtpBase < OtpSpan
    ensures OtpCode(Value(s) - OtpBase) == s
  {
    assert Pow10(3) == 1000 && Pow10(4) == 10000;
    ValueBounds(s);
    DecimalOfValue(s);
  }
}
