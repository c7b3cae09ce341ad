# EDU PATH simulated M-Pesa payment service, in Dafny

This project models the payment service of the EDU PATH admissions front-end:
the simulation of a Safaricom Daraja "STK push" transaction. It covers

- the Safaricom phone-number check `^(?:254|\+254|0)?(7|1)(?:[0-9]){8}$` that
  guards every initiation, as a recogniser that follows the regular-expression
  engine's ordered alternatives (`SafaricomPhone.Accepts`), a declarative
  "prefix ++ lead ++ eight digits" pattern (`SafaricomPhone.Pattern`) and the
  split the match induces (`SafaricomPhone.Decompose`);
- `initiateStkPush`, as a pure function from phone, amount, payer name and the
  random id tail to either the "Invalid Safaricom M-Pesa number." error or a
  checkout request whose id is `"ws_CO_"` followed by the upper-cased tail;
- `generateTransactionOtp`, from a draw in [0, 1) (or directly the integer
  offset `k` in [0, 9000) it selects) to the decimal rendering of `1000 + k`;
- the seven labels of the `PaymentStatus` union.

Files: `options.dfy` (the `Option` wrapper), `decimal.dfy` (ASCII digits, the
base-10 rendering of whole numbers and its inverse), `phone.dfy` (the phone
check), `payment.dfy` (statuses, initiation, OTP).

The code never checks `amount`, so `InitiateStkPush` takes any `real` amount
and ignores it.

## Model

| member | source | states |
|---|---|---|
| SafaricomPhone.Accepts | services/paymentService.ts:16 | `phone.match(...)` is truthy: the optional prefix group tried in the engine's order, then the rest; characterised by AcceptsIffPattern and Decompose |
| SafaricomPhone.MatchesFrom | services/paymentService.ts:16 | the optional prefix group ("254", "+254", "0") tried alternative by alternative, falling back to skipping it; characterised through Accepts by AcceptsIffPattern |
| SafaricomPhone.MatchesRest | services/paymentService.ts:16 | the lead '7' or '1', then exactly eight ASCII digits, then the end of input, on what follows the prefix; characterised through Accepts by AcceptsIffPattern and Decompose |
| SafaricomPhone.Decompose | services/paymentService.ts:16 | the regex matches exactly when a split is found, and the split found is a valid prefix/lead/eight-digit decomposition that spells the input |
| SafaricomPhone.DecomposeText | services/paymentService.ts:16 | every valid prefix, lead and eight digits, concatenated, is matched and split back into the same parts (round trip) |
| SafaricomPhone.AcceptsIffPattern | services/paymentService.ts:16 | the backtracking reading of the regex accepts a string if and only if it is some prefix among "", "0", "254", "+254", then '7' or '1', then eight ASCII digits |
| SafaricomPhone.UniqueDecomposition | services/paymentService.ts:16 | two valid splits that spell the same string are identical: prefix, lead and digits of an accepted number are unique |
| SafaricomPhone.AcceptedLength | services/paymentService.ts:16 | an accepted number has length 9, 10, 12 or 13, and the length alone tells which prefix (none, "0", "254", "+254") it carries |
| SafaricomPhone.AcceptedCharacters | services/paymentService.ts:16 | an accepted number is ASCII digits except possibly a first '+', which occurs exactly when the prefix is "+254" |
| SafaricomPhone.TrailingNewlineRejected | services/paymentService.ts:16 | `$` without the multiline flag: no string followed by a line break is accepted |
| SafaricomPhone.AcceptedLocalExamples | services/paymentService.ts:16 | "0712345678", "0799999999" and "712345678" are accepted, with the prefix, lead and digits the match assigns |
| SafaricomPhone.AcceptedInternationalExamples | services/paymentService.ts:16 | "254712345678" and "+254112345678" are accepted, with the prefix, lead and digits the match assigns |
| SafaricomPhone.RejectedExamples | services/paymentService.ts:16 | "12345", "0612345678" and "07123456789" are rejected |
| PaymentService.PaymentStatus.Label | services/paymentService.ts:4 | the seven string literals of the `PaymentStatus` union; characterised by ParseStatus and ParseLabel |
| PaymentService.ParseStatus | services/paymentService.ts:4 | a string names a status exactly when it is the label of one; the status found carries that label |
| PaymentService.ParseLabel | services/paymentService.ts:4 | every status is recovered from its label, so the seven labels are distinct |
| PaymentService.ToUpperAscii | services/paymentService.ts:24 | upper-casing keeps the length, leaves no lower-case ASCII letter, moves each lower-case letter to its capital and keeps every other character |
| PaymentService.UpperIdempotent | services/paymentService.ts:24 | upper-casing an upper-cased string changes nothing |
| PaymentService.UpperInjectiveOnBase36 | services/paymentService.ts:24 | on base-36 text (digits and lower-case letters) upper-casing is injective |
| PaymentService.CheckoutRequestId | services/paymentService.ts:24 | for a base-36 tail, as `toString(36).substring(7)` yields, the id starts with "ws_CO_", is six characters longer than the random tail, and holds no lower-case letter after the marker |
| PaymentService.InitiateStkPush | services/paymentService.ts:14-25 | initiation succeeds if and only if the phone fits the declarative pattern; a refused phone yields the invalid-number message and no id; a success carries an id starting "ws_CO_" with no lower-case letter after it |
| PaymentService.InitiationIgnoresPayerDetails | services/paymentService.ts:14-25 | the outcome does not depend on the amount or the payer's name |
| PaymentService.DistinctDrawsDistinctIds | services/paymentService.ts:16-25 | for an accepted phone, two different base-36 tails always produce two different checkout ids |
| PaymentService.OtpOffset | services/paymentService.ts:32 | the floor of 1000 + draw * 9000, less 1000, lies in [0, 9000) and is the integer part of draw * 9000 |
| PaymentService.OtpCode | services/paymentService.ts:32 | the code for offset k has exactly four characters, all digits, no leading zero, and reads back as 1000 + k |
| PaymentService.GenerateTransactionOtp | services/paymentService.ts:31-33 | for every draw in [0, 1) the code is four digits denoting a value in [1000, 9999] |
| PaymentService.OtpCodeInjective | services/paymentService.ts:32 | different offsets give different codes |
| PaymentService.OtpCodeCoversRange | services/paymentService.ts:32 | every four-digit string without a leading zero is the code of exactly the offset its value selects |
| Decimal.ToDecimal | services/paymentService.ts:32 | `toString()` of a whole number up to 2^53 (the code renders only 1000..9999) is a non-empty digit string with no leading zero |
| Decimal.ValueOfDecimal | services/paymentService.ts:32 | reading a rendering back gives the number rendered |
| Decimal.DecimalOfValue | services/paymentService.ts:32 | a digit string without a leading zero is the rendering of the number it denotes |
| Decimal.DecimalLength | services/paymentService.ts:32 | a number with k decimal digits is rendered with exactly k characters |

## Left out

- The one-second `setTimeout` delay and the `async`/`Promise` wrapping of `initiateStkPush` (services/paymentService.ts:21): timing and scheduling, not logic. The rejection is a result value rather than a thrown error; the order "check before delay" is reflected only in that the rejection does not depend on the random tail.
- `Math.random` and the base-36 rendering `toString(36).substring(7)` (services/paymentService.ts:24): a library float conversion; the tail it yields is the `suffix` parameter of `InitiateStkPush`. Whether that tail is long or ever empty is therefore not modelled.
- PaymentService.ToUpperAscii: upper-cases ASCII letters only, because the tail it is applied to is base-36 text; `toUpperCase` on other Unicode letters is not modelled.
- PaymentService.OtpOffset: uses exact real arithmetic for `Math.floor(1000 + Math.random() * 9000)`, because IEEE-754 rounding is not modelled; for the largest double below 1 the rounded product still floors to 9999.
- Decimal.ToDecimal: renders every natural in plain digits, whereas from 2^53 JavaScript's `toString()` prints the shortest round-trip digits padded with zeros, and from 10^21 it uses exponent notation; the service renders only 1000..9999, where the two agree.
- `triggerVibration` and `navigator.vibrate` (services/paymentService.ts:38-42): a device side effect with no result.
- `PaymentRecord` (services/paymentService.ts:2): defined in `../types`, which is not part of this model, and unused by the service.
- `PaymentStatus` transitions: the union declares seven labels but the service drives none of them.
- App.tsx: React rendering, routing, the menu toggle, scroll restoration, body scroll lock and the WhatsApp link are user-interface plumbing.
