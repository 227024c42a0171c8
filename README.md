# StreamPay stream creation, modelled in Dafny

This project models the client-side logic StreamPay runs before a payment
stream is created:

- **Rate helpers** (`RATE_HELPERS` in `contracts/frontend/utils/contracts.ts`).
  They convert USD per hour to wei per second and back, and parse an ether
  amount into wei. The model covers the bigint steps (`/ 3600n` truncating
  toward zero, `* 3600n`) and the fixed price of 2000 USD per ether in exact
  arithmetic. `parseEther` and `formatEther` are modelled on viem 2.x
  (`parseUnits` and `formatUnits` with 18 decimals) in `EtherUnits`; see
  "## Left out" for why that library is assumed. `formatEther` followed by `parseEther` is
  proved to be the identity on every integer.
- **Fraud detector** (`detectCreationFraud`). One request to the
  fraud-check endpoint. Any failure becomes a fixed "proceed" fallback
  result, so the check fails open. The transport is a parameter.
- **Stream-creation form** (`CreateStreamForm`). The draft fields and the
  fraud gate are fields of the class `StreamForm.CreateStreamForm`. The
  handlers are methods, each proved equal to a pure step function
  (`SubmitStep`, `CheckFraudStep`, `ConfirmStep`, `UsdRateChangeStep`,
  `CloseStep`, `EditStep`). A step returns the new state and the log of calls
  made to the two collaborators: the fraud check and `createStream`. Lemmas
  chain these steps to prove end-to-end properties, such as "block never
  submits". The derived values `durationSeconds`, `amountWei` and
  `flowRateWei`, the risk colour and the submit-button predicate are
  functions.

Files: `Wrappers.dfy` (Option), `Numerics.dfy` (decimal digits, bigint
division, `parseInt`), `EtherUnits.dfy`, `RateHelpers.dfy`,
`FraudDetector.dfy`, `StreamForm.dfy`.

Consequences of the code that the model proves:

- `durationSeconds` keeps only the leading digits of the hours field:
  "0.5" hours is 0 seconds, "1e3" hours is 3600 seconds, and ".5" is NaN.
- A `null` response body is returned by the detector as it is. Reading its
  recommendation then throws, and the `catch` of `handleCheckFraud` calls
  `handleSubmit` directly, with no review. The modal has been asked for but
  stays hidden, because its render needs a result (`NullResultSubmitsUnreviewed`).
- A small enough USD rate makes the computed ether total print with an
  exponent (such as "5e-8"). Any text with an 'e' in it is not a decimal for
  `parseEther`, so the next render throws (`ExponentAmountBreaksRender`), and
  `usdHourToWeiSecond` throws on it (`ExponentTextThrows`).

Where the system's design description and the code disagree, the
model follows the code:

- The handlers' only validation is non-emptiness of four fields; they check
  no address or number. The inputs' own `required`, `min` and `step`
  constraints are enforced by the browser, which is not modelled.
- The sender address falls back to the empty string.
- `flowRateWei` is 0 for a non-positive duration, not an error.
- On success the stream type is kept, not reset.
- The fraud result is kept after a cancel or a close, not discarded.
- A failed `createStream` is only logged.
- `riskScore` is any JSON number, not an integer from 0 to 100.
- The recommendation is a string compared with "block" and "warn", so
  other values are kept (`Unrecognised`). The modal offers them the same
  buttons as "proceed" (`ModalActions`), though its header shows the block
  icon for anything but "proceed" and "warn".
- The `catch` of `handleCheckFraud` is reachable through a `null` body.

## Model

| member | source | states |
|---|---|---|
| Numerics.TruncDiv | contracts/frontend/utils/contracts.ts:33 | bigint division truncates toward zero: floor bounds for a non-negative dividend, ceiling bounds for a negative one |
| Numerics.ParseIntOfDecimal | streampay/components/forms/CreateStreamForm.tsx:59 | `parseInt` of decimal digits followed by a non-digit (other than an 'x' after a lone "0") is the value of those digits |
| Numerics.ParseIntOfHex | streampay/components/forms/CreateStreamForm.tsx:59 | `parseInt` of "0x" and hex digits followed by a non-hex character is the hexadecimal value of those digits |
| Numerics.ParseIntSkipsWhitespace | streampay/components/forms/CreateStreamForm.tsx:59 | leading JavaScript white space (including no-break space, the line and paragraph separators and the byte-order mark) does not change `parseInt` |
| Numerics.ParseIntNoDigits | streampay/components/forms/CreateStreamForm.tsx:59 | text starting with anything but a digit, a sign or white space is NaN |
| EtherUnits.ParseEther | contracts/frontend/utils/contracts.ts:50 | `parseEther` succeeds exactly on text of the form `-?[0-9]*.?[0-9]*`, and throws otherwise |
| EtherUnits.ParseEtherExact | contracts/frontend/utils/contracts.ts:32 | on `[-]whole[.frac]` with at most 18 fraction digits, the wei value is whole·10^18 plus the fraction scaled to 18 digits, with the sign |
| EtherUnits.ParseEtherRounded | contracts/frontend/utils/contracts.ts:32 | on `[-]whole.frac` with more than 18 fraction digits (the last not a zero), the wei value keeps 18 fraction digits and rounds half up on the 19th |
| EtherUnits.ForeignCharRejected | contracts/frontend/utils/contracts.ts:50 | a character other than a digit, '.' or '-' anywhere in the text makes `parseEther` throw |
| EtherUnits.FormatParseRoundTrip | contracts/frontend/utils/contracts.ts:39 | `parseEther(formatEther(w)) == w` for every integer `w`, so the text `weiSecondToUsdHour` converts denotes exactly the wei it was given |
| RateHelpers.UsdToEther | contracts/frontend/utils/contracts.ts:31 | dividing by the price: the result times 2000 is the USD amount |
| RateHelpers.EtherToUsd | contracts/frontend/utils/contracts.ts:40 | multiplying by the price is undone by `UsdToEther` |
| RateHelpers.SamePriceBothWays | contracts/frontend/utils/contracts.ts:29-40 | both directions use the same 2000 USD price: each conversion is the exact inverse of the other |
| RateHelpers.WeiPerHourToWeiPerSecond | contracts/frontend/utils/contracts.ts:33 | result·3600 ≤ weiPerHour < result·3600 + 3600 and the result is non-negative for a non-negative input; truncation bounds for a negative one |
| RateHelpers.WeiPerSecondToWeiPerHour | contracts/frontend/utils/contracts.ts:38 | multiplying by 3600 is exactly undone by the division by 3600 and keeps non-negative rates non-negative |
| RateHelpers.UsdHourToWeiSecond | contracts/frontend/utils/contracts.ts:30-34 | `usdHourToWeiSecond` from the rate text onward returns a value exactly when the text is decimal, and throws otherwise |
| RateHelpers.UsdHourToWeiSecondBounds | contracts/frontend/utils/contracts.ts:32-33 | for any decimal rate text with a non-negative value, whatever its number of fraction digits, the result is the largest rate whose hourly total does not exceed the wei `parseEther` reads |
| RateHelpers.UsdHourToWeiSecondOfDecimal | contracts/frontend/utils/contracts.ts:32-33 | for rate text `whole[.frac]` with at most 18 fraction digits, the result is the largest rate whose hourly total does not exceed whole·10^18 plus the scaled fraction |
| RateHelpers.ExponentTextThrows | contracts/frontend/utils/contracts.ts:31-32 | any rate text containing an exponent's 'e' makes `usdHourToWeiSecond` throw |
| RateHelpers.WeiSecondToEtherPerHourText | contracts/frontend/utils/contracts.ts:38-39 | the ether text `weiSecondToUsdHour` reads parses back to exactly weiPerSecond·3600 |
| RateHelpers.WeiRoundTrip | contracts/frontend/utils/contracts.ts:33-38 | per hour to per second and back never exceeds a non-negative original and loses less than 3600 wei |
| RateHelpers.TextRoundTrip | contracts/frontend/utils/contracts.ts:30-41 | the round trip through both helpers' ether texts stays within [original − 3599, original] wei |
| RateHelpers.ParseToWei | contracts/frontend/utils/contracts.ts:49-51 | `parseToWei` is `parseEther` on the same text, succeeding exactly on decimal text |
| RateHelpers.ParseToWeiOfDecimal | contracts/frontend/utils/contracts.ts:49-51 | `parseToWei` on `whole[.frac]` with at most 18 fraction digits is the exact wei value |
| FraudDetector.Fallback | streampay/lib/stream-fraud-detector.ts:42-47 | the fallback result is risk score 30, the single factor "Detection service error", "proceed", and the fixed unavailability message |
| FraudDetector.DetectCreationFraud | streampay/lib/stream-fraud-detector.ts:25-48 | the result is null exactly when the response body is `null`; every failure gives the fallback; any other result is the decoded body |
| FraudDetector.FailureFallsBack | streampay/lib/stream-fraud-detector.ts:25-47 | an error status, a network error or a body that is not JSON all give the fallback result, with recommendation "proceed" |
| FraudDetector.NotOkLikeNetworkError | streampay/lib/stream-fraud-detector.ts:32-38 | an error status gives the same result as a network error |
| FraudDetector.SuccessPassesThrough | streampay/lib/stream-fraud-detector.ts:36 | a decoded result object is returned unchanged; the result is null exactly when the body is `null` |
| FraudDetector.BlockOnlyFromEndpoint | streampay/lib/stream-fraud-detector.ts:25-48 | a "block" result can only come from a successful response saying "block" |
| StreamForm.DurationSeconds | streampay/components/forms/CreateStreamForm.tsx:59 | an empty field is 0 seconds, and any numeric result is a whole number of hours |
| StreamForm.DurationOfDecimalHours | streampay/components/forms/CreateStreamForm.tsx:59 | `durationSeconds` of hours written as digits followed by a non-digit (a fraction, an exponent) is 3600 times the leading digits |
| StreamForm.ExponentHoursReadAsLeadingDigits | streampay/components/forms/CreateStreamForm.tsx:59 | "1e3" hours is 3600 seconds, not 3,600,000 |
| StreamForm.HalfHourIsZeroSeconds | streampay/components/forms/CreateStreamForm.tsx:59 | "0.5" hours is 0 seconds |
| StreamForm.LeadingDotIsNaN | streampay/components/forms/CreateStreamForm.tsx:59 | ".5" hours is NaN seconds |
| StreamForm.AmountWei | streampay/components/forms/CreateStreamForm.tsx:60 | an empty amount is 0 wei; otherwise it is computed exactly when the text is decimal |
| StreamForm.FlowRateWei | streampay/components/forms/CreateStreamForm.tsx:61 | 0 unless the duration is a positive number; otherwise rate·seconds ≤ amount < rate·seconds + seconds for a non-negative amount, truncation bounds for a negative one |
| StreamForm.GetFraudColor | streampay/components/forms/CreateStreamForm.tsx:150-154 | green exactly below 30, yellow exactly on [30, 60), red exactly from 60 |
| StreamForm.FraudColorMonotone | streampay/components/forms/CreateStreamForm.tsx:150-154 | a higher score is never shown in a milder colour |
| StreamForm.FallbackIsYellow | streampay/components/forms/CreateStreamForm.tsx:150-154 | the fallback score is shown in yellow |
| StreamForm.SubmitDisabled | streampay/components/forms/CreateStreamForm.tsx:321 | an enabled button means all four fields are filled; a pending transaction or a running check disables it |
| StreamForm.SubmitButtonGate | streampay/components/forms/CreateStreamForm.tsx:75-107 | with the button of line 321 enabled, submitting sends the fraud request for the draft and the button is disabled while it runs; at rest a disabled button means the handler does nothing; after a successful submission the button is disabled |
| StreamForm.ModalVisible | streampay/components/forms/CreateStreamForm.tsx:338 | the modal shows only when a result is stored |
| StreamForm.ModalActions | streampay/components/forms/CreateStreamForm.tsx:387-413 | Close is offered exactly for "block", Cancel exactly for anything else, Proceed Anyway exactly for anything else with no transaction pending |
| StreamForm.UsdRateChangeStep | streampay/components/forms/CreateStreamForm.tsx:64-73 | the rate field becomes the new value and only the amount and the rate can change |
| StreamForm.SubmitStep | streampay/components/forms/CreateStreamForm.tsx:126-148 | the draft still renders, the check flag and the modal are untouched, and the only possible call is one `createStream` with the draft's values |
| StreamForm.CheckFraudStep | streampay/components/forms/CreateStreamForm.tsx:75-107 | the draft still renders and is either kept or cleared; on a complete draft the flag ends clear and the modal flag set; at most two calls are made |
| StreamForm.ConfirmStep | streampay/components/forms/CreateStreamForm.tsx:109-124 | the modal is hidden, the check flag untouched, the draft still renders, and the only possible call is `createStream` with the draft's values |
| StreamForm.CloseStep | streampay/components/forms/CreateStreamForm.tsx:407 | the modal is hidden and nothing else changes |
| StreamForm.ClearedRenders | streampay/components/forms/CreateStreamForm.tsx:139-144 | the cleared draft keeps the stream type, is incomplete, and still renders |
| StreamForm.IncompleteDraftIsIgnored | streampay/components/forms/CreateStreamForm.tsx:78-81 | with an empty required field, neither the detector nor `createStream` is called and no field changes (the guard of lines 127-129 too) |
| StreamForm.CheckRunsOnceWithFlag | streampay/components/forms/CreateStreamForm.tsx:83-106 | a complete draft sends one fraud request first, with the draft's values while the check flag is set; the flag is clear afterwards in every outcome |
| StreamForm.CancelKeepsDraft | streampay/components/forms/CreateStreamForm.tsx:110-116 | cancelling only hides the modal: no call, same draft, same stored result |
| StreamForm.BlockedConfirmNeverSubmits | streampay/components/forms/CreateStreamForm.tsx:118-121 | with a stored "block" result, confirming only hides the modal, whatever the user chose |
| StreamForm.BlockNeverSubmits | streampay/components/forms/CreateStreamForm.tsx:387-413 | after a "block" verdict the check does not submit, the visible modal offers only Close, and no modal action or confirmation calls `createStream` |
| StreamForm.ProceedSubmitsDraft | streampay/components/forms/CreateStreamForm.tsx:123-144 | after a non-block verdict, Proceed calls `createStream` once with exactly (recipient, durationSeconds, streamType, description, amountWei); success clears all fields but the stream type and drops the result, failure keeps both |
| StreamForm.FailedCheckFailsOpen | streampay/components/forms/CreateStreamForm.tsx:85-93 | a failed request shows the fallback result in yellow with Proceed Anyway offered, without submitting |
| StreamForm.NullResultSubmitsUnreviewed | streampay/components/forms/CreateStreamForm.tsx:100-103 | a `null` body makes the check call `createStream` at once while the modal stays hidden |
| StreamForm.FailedCreateKeepsDraft | streampay/components/forms/CreateStreamForm.tsx:145-147 | a failed `createStream` is attempted once and changes no field |
| StreamForm.UsdRateGuard | streampay/components/forms/CreateStreamForm.tsx:64-73 | the rate is always stored; the amount changes only when the rate and the duration are both non-empty; no other field changes |
| StreamForm.ExponentAmountBreaksRender | streampay/components/forms/CreateStreamForm.tsx:60-71 | any computed amount containing an exponent's 'e' leaves an amount the next render cannot parse |
| StreamForm.CreateStreamForm.constructor | streampay/components/forms/CreateStreamForm.tsx:29-38 | empty fields, stream type "work", no check running, no result, no modal |
| StreamForm.CreateStreamForm.Edit | streampay/components/forms/CreateStreamForm.tsx:184-280 | an input's setter changes that one field and nothing else |
| StreamForm.CreateStreamForm.HandleUsdRateChange | streampay/components/forms/CreateStreamForm.tsx:64-73 | the new state is `UsdRateChangeStep` of the old draft, the gate unchanged |
| StreamForm.CreateStreamForm.HandleSubmit | streampay/components/forms/CreateStreamForm.tsx:126-148 | the new state and calls are `SubmitStep` of the old state |
| StreamForm.CreateStreamForm.HandleCheckFraud | streampay/components/forms/CreateStreamForm.tsx:75-107 | the new state and calls are `CheckFraudStep` of the old state, the `null`-body `catch` included |
| StreamForm.CreateStreamForm.HandleFraudConfirm | streampay/components/forms/CreateStreamForm.tsx:109-124 | the new state and calls are `ConfirmStep` of the old state |
| StreamForm.CreateStreamForm.CloseModal | streampay/components/forms/CreateStreamForm.tsx:407 | Close only hides the modal |

## Left out

- Floating-point arithmetic. The price conversions are modelled in exact
  arithmetic (`UsdToEther`, `EtherToUsd`), without double rounding. The text
  a float prints as (`toString`, `Number(...)`, `parseFloat`) is not modelled.
  `UsdHourToWeiSecond` starts from the ether text, and `HandleUsdRateChange`
  takes the computed amount text as a parameter.
- `formatWei` (`toFixed(6)`) and `flowRateUsd` are display-only floats and
  are not modelled.
- The conversion of minutes and seconds in the `initialValues` effect is
  float division, so that effect is not modelled.
- `contracts/frontend/utils/contracts.ts` imports neither `parseEther` nor
  `formatEther`, and the `@/lib/contracts` module the form imports is not
  part of this model. The model assumes both come from viem 2.x and follows
  viem's `parseUnits` and `formatUnits` code with 18 decimals. viem's source
  is not part of this model either, so that choice is an assumption.
- `ParseEtherRounded`: viem rounds a fraction longer than 18 digits through
  a double; the model rounds half up on the 19th digit, which can differ
  for long fractions.
- `ParseInt`: JavaScript numbers are doubles, so `parseInt` loses precision
  above 2^53; the model uses unbounded integers. The hours field is a number
  input, so the browser keeps a hex prefix and most other syntax out of it;
  the model reads any text.
- The browser's constraint validation runs before `onSubmit` (line 174):
  the duration and amount inputs are `required` with `min` and `step`
  (lines 221-223 and 264-266). It is not modelled, so the model also covers
  texts the browser would refuse to submit, and only the handler's own
  non-emptiness guard gates a submission.
- `fetch`, the HTTP status and JSON decoding are a transport parameter.
  Only three body shapes are modelled: an object of the result's shape,
  `null`, and text that is not JSON. Other JSON values are not.
- Toasts, `console` logging and the rendering itself are not modelled. The
  modal's visibility and its buttons are modelled (`ModalVisible`,
  `ModalActions`).
- The wallet (`useAccount`) and `useCreateStream` are not modelled. The
  address, whether `createStream` succeeds, and `isPending` are parameters.
- Asynchrony is not modelled: each handler is one atomic step, so edits
  made while a check or a transaction is awaited are not captured.
- `isCheckingFraud` being true during the await is recorded in the request
  effect (`whileChecking`) rather than as an intermediate state.
- React's render closures are not modelled: handlers read the current
  fields.
- A handler only exists after a render that did not throw, so every
  handler requires `Renders`, meaning the amount parses. The crash itself
  is not modelled.
- Static configuration (`CONTRACT_ADDRESSES`, `NETWORK_CONFIG`,
  `DEMO_STREAMS`) is not modelled.
- The create page that hosts the form is not part of this model.
