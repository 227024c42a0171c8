/** The stream-creation form: the draft the user types, the derived integer
    quantities shown and submitted, and the gate that runs the fraud check
    before `createStream`.

    Each handler is one atomic step. The outcomes of the collaborators it
    awaits (the fraud-check transport, whether `createStream` succeeds, the
    connected wallet) are parameters, and the calls it makes to them are
    returned as a log of effects. The pure step functions below specify the
    handlers; the class `CreateStreamForm` implements them on mutable fields. */
module StreamForm {
  import opened Wrappers
  import opened Numerics
  import opened EtherUnits
  import opened RateHelpers
  import opened FraudDetector

  /** The text fields of the form. */
  datatype Draft = Draft(
    recipient: string,
    amount: string,
    duration: string,
    streamType: string,
    description: string,
    usdRate: string)

  /** Both the fraud check and the submission refuse to run unless these four
      fields are non-empty; no other validation is done. */
  predicate Complete(d: Draft) {
    d.recipient != "" && d.amount != "" && d.duration != "" && d.description != ""
  }

  /** `durationSeconds`: the hours field read with `parseInt` (so only its
      leading digits count) times 3600, or 0 for an empty field. `parseInt`
      returns NaN for text with no leading digit, and NaN * 3600 is NaN. */
  function DurationSeconds(duration: string): (seconds: JsNumber)
    ensures duration == "" ==> seconds == Num(0)
    ensures seconds.Num? ==> seconds.value % SecondsPerHour == 0
  {
    if duration == "" then Num(0)
    else
      match ParseInt(duration)
      case NaN => NaN
      case Num(hours) => Num(hours * SecondsPerHour)
  }

  /** Hours written as digits followed by anything that is not a digit (a
      fraction, an exponent) count as their leading digits, times 3600. */
  lemma DurationOfDecimalHours(whole: string, rest: string)
    requires whole != [] && AllDigits(whole)
    requires rest == [] || !IsDigit(rest[0])
    requires !(whole == "0" && rest != [] && (rest[0] == 'x' || rest[0] == 'X'))
    ensures DurationSeconds(whole + rest) == Num(DigitsValue(whole) * SecondsPerHour)
  {
    ParseIntOfDecimal(whole, rest);
  }

  /** Half an hour, which the field accepts, is a duration of 0 seconds. */
  lemma HalfHourIsZeroSeconds()
    ensures DurationSeconds("0.5") == Num(0)
  {
    assert "0.5" == "0" + ".5";
    DurationOfDecimalHours("0", ".5");
  }

  /** An exponent is not read: "1e3" hours is 3600 seconds. */
  lemma ExponentHoursReadAsLeadingDigits()
    ensures DurationSeconds("1e3") == Num(SecondsPerHour)
  {
    assert "1e3" == "1" + "e3";
    DurationOfDecimalHours("1", "e3");
  }

  /** A fraction written without its leading zero is NaN seconds. */
  lemma LeadingDotIsNaN()
    ensures DurationSeconds(".5") == NaN
  {
    ParseIntNoDigits(".5");
  }

  /** `amountWei`: `parseToWei(amount)`, or 0 for an empty field. For text
      that is not a decimal number `parseToWei` throws during rendering. */
  function AmountWei(amount: string): (r: ParseResult)
    ensures amount == "" ==> r == Parsed(0)
    ensures amount != "" ==> (r.Parsed? <==> IsDecimalText(amount))
  {
    if amount == "" then Parsed(0) else ParseToWei(amount)
  }

  /** `flowRateWei`: the amount divided by the duration in seconds (bigint
      division, truncating toward zero) when the duration is positive, and 0
      otherwise, NaN included. For a non-negative amount, streaming the rate
      for the whole duration pays at most the amount and less than one wei
      per second short of it. */
  function FlowRateWei(durationSeconds: JsNumber, amountWei: int): (rate: int)
    ensures !(durationSeconds.Num? && durationSeconds.value > 0) ==> rate == 0
    ensures durationSeconds.Num? && durationSeconds.value > 0 && amountWei >= 0 ==>
              var seconds := durationSeconds.value;
              0 <= rate && rate * seconds <= amountWei < rate * seconds + seconds
    ensures durationSeconds.Num? && durationSeconds.value > 0 && amountWei < 0 ==>
              var seconds := durationSeconds.value;
              rate <= 0 && rate * seconds - seconds < amountWei <= rate * seconds
  {
    if durationSeconds.Num? && durationSeconds.value > 0 then TruncDiv(amountWei, durationSeconds.value)
    else 0
  }

  /** The colour of the risk score in the modal. */
  datatype FraudColor = Green | Yellow | Red

  function Severity(c: FraudColor): nat {
    match c
    case Green => 0
    case Yellow => 1
    case Red => 2
  }

  /** `getFraudColor(score)`: each colour covers exactly one band of scores,
      green below 30, yellow from 30 below 60, red from 60. */
  function GetFraudColor(score: real): (color: FraudColor)
    ensures color == Green <==> score < 30.0
    ensures color == Yellow <==> 30.0 <= score < 60.0
    ensures color == Red <==> 60.0 <= score
  {
    if score < 30.0 then Green
    else if score < 60.0 then Yellow
    else Red
  }

  /** A higher score is never shown in a milder colour. */
  lemma FraudColorMonotone(a: real, b: real)
    requires a <= b
    ensures Severity(GetFraudColor(a)) <= Severity(GetFraudColor(b))
  {
  }

  /** The detector's fallback score is shown as a caution, not as safe. */
  lemma FallbackIsYellow()
    ensures GetFraudColor(Fallback().riskScore) == Yellow
  {
  }

  /** The `disabled` state of the submit button: an enabled button means a
      complete draft, and a pending transaction or a running check always
      disables it. */
  function SubmitDisabled(isPending: bool, isCheckingFraud: bool, d: Draft): (disabled: bool)
    ensures !disabled ==> Complete(d)
    ensures isPending || isCheckingFraud ==> disabled
  {
    isPending || isCheckingFraud || !Complete(d)
  }

  /** The draft and the fraud gate: everything the handlers read and write. */
  datatype FormState = FormState(
    draft: Draft,
    isCheckingFraud: bool,
    fraudResult: Option<FraudCheckResult>,
    showFraudModal: bool)

  /** The first render: empty fields, stream type "work", no check, no modal. */
  function Initial(): FormState {
    FormState(Draft("", "", "", "work", "", ""), false, None, false)
  }

  /** The form renders without throwing: `amountWei` can be computed. A
      handler exists only once a render has produced it. */
  predicate Renders(d: Draft) {
    AmountWei(d.amount).Parsed?
  }

  /** The modal is on screen only when it is asked for and there is a result
      to show. */
  function ModalVisible(s: FormState): (visible: bool)
    ensures visible ==> s.fraudResult.Some?
  {
    s.showFraudModal && s.fraudResult.Some?
  }

  /** The arguments `createStream` is called with. */
  datatype StreamCall = StreamCall(
    recipient: string,
    duration: JsNumber,
    streamType: string,
    description: string,
    amountWei: int)

  /** A call the form makes to a collaborator. `whileChecking` records the
      value of `isCheckingFraud` while the fraud check is awaited. */
  datatype Effect =
    | FraudCheckRequested(input: FraudCheckInput, whileChecking: bool)
    | CreateStreamCalled(call: StreamCall)

  /** A handler's new state and the calls it made, in order. */
  datatype Step = Step(state: FormState, effects: seq<Effect>)

  /** No `createStream` call among the effects. */
  predicate NoSubmission(effects: seq<Effect>) {
    forall i :: 0 <= i < |effects| ==> !effects[i].CreateStreamCalled?
  }

  function StreamCallFor(d: Draft): StreamCall
    requires Renders(d)
  {
    StreamCall(d.recipient, DurationSeconds(d.duration), d.streamType, d.description, AmountWei(d.amount).wei)
  }

  /** The request sent to the detector; with no wallet connected the sender
      is the empty string. */
  function FraudRequestFor(d: Draft, address: Option<string>): FraudCheckInput {
    FraudCheckInput(d.recipient, d.amount, DurationSeconds(d.duration), if address.Some? then address.value else "")
  }

  /** The draft after a successful submission: every field emptied except the
      stream type. */
  function Cleared(d: Draft): Draft {
    d.(recipient := "", amount := "", duration := "", description := "", usdRate := "")
  }

  /** The input fields with a plain setter. */
  datatype Field = RecipientField | AmountField | DurationField | DescriptionField | StreamTypeField

  /** Typing into a field, or picking a stream type, sets that field alone. */
  function EditStep(d: Draft, field: Field, value: string): Draft {
    match field
    case RecipientField => d.(recipient := value)
    case AmountField => d.(amount := value)
    case DurationField => d.(duration := value)
    case DescriptionField => d.(description := value)
    case StreamTypeField => d.(streamType := value)
  }

  /** `handleUsdRateChange(value)`: the rate is always stored; the amount is
      replaced by `computedAmount` (the decimal text of the ether total the
      rate gives over the duration) only when both the rate and the duration
      are non-empty. */
  function UsdRateChangeStep(d: Draft, value: string, computedAmount: string): (r: Draft)
    ensures r.usdRate == value
    ensures r.(amount := d.amount, usdRate := d.usdRate) == d
  {
    var withRate := d.(usdRate := value);
    if value != "" && d.duration != "" then withRate.(amount := computedAmount) else withRate
  }

  /** `handleSubmit()`: nothing unless the draft is complete; otherwise one
      call to `createStream` with the draft's values, and on success the draft
      is cleared and the last fraud result dropped. A failed call changes
      nothing and is not retried. */
  function SubmitStep(s: FormState, createSucceeds: bool): (r: Step)
    requires Renders(s.draft)
    ensures Renders(r.state.draft)
    ensures r.state.isCheckingFraud == s.isCheckingFraud && r.state.showFraudModal == s.showFraudModal
    ensures |r.effects| <= 1
    ensures forall i :: 0 <= i < |r.effects| ==> r.effects[i] == CreateStreamCalled(StreamCallFor(s.draft))
  {
    if !Complete(s.draft) then Step(s, [])
    else
      var call := [CreateStreamCalled(StreamCallFor(s.draft))];
      if createSucceeds then Step(s.(draft := Cleared(s.draft), fraudResult := None), call)
      else Step(s, call)
  }

  /** `handleCheckFraud()`: nothing unless the draft is complete; otherwise
      the check runs with `isCheckingFraud` set, its result is stored and the
      modal asked for. A `null` result makes reading its recommendation throw,
      and the `catch` submits at once. `isCheckingFraud` is reset in every
      case. */
  function CheckFraudStep(s: FormState, address: Option<string>, transport: FraudCheckInput -> TransportOutcome,
                          createSucceeds: bool): (r: Step)
    requires Renders(s.draft)
    ensures Renders(r.state.draft)
    ensures Complete(s.draft) ==> !r.state.isCheckingFraud && r.state.showFraudModal
    ensures |r.effects| <= 2
    ensures r.state.draft == s.draft || r.state.draft == Cleared(s.draft)
  {
    if !Complete(s.draft) then Step(s, [])
    else
      var input := FraudRequestFor(s.draft, address);
      var request := FraudCheckRequested(input, true);
      var result := DetectCreationFraud(input, transport);
      var shown := s.(isCheckingFraud := true, fraudResult := result, showFraudModal := true);
      if result.Some? then Step(shown.(isCheckingFraud := false), [request])
      else
        var submitted := SubmitStep(shown, createSucceeds);
        Step(submitted.state.(isCheckingFraud := false), [request] + submitted.effects)
  }

  /** `handleFraudConfirm(proceed)`: the modal is hidden; nothing more on a
      cancel or when the stored result says "block"; otherwise the draft is
      submitted. */
  function ConfirmStep(s: FormState, proceed: bool, createSucceeds: bool): (r: Step)
    requires Renders(s.draft)
    ensures Renders(r.state.draft)
    ensures !r.state.showFraudModal && r.state.isCheckingFraud == s.isCheckingFraud
    ensures forall i :: 0 <= i < |r.effects| ==> r.effects[i] == CreateStreamCalled(StreamCallFor(s.draft))
  {
    var hidden := s.(showFraudModal := false);
    if !proceed then Step(hidden, [])
    else if s.fraudResult.Some? && s.fraudResult.value.recommendation == Block then Step(hidden, [])
    else SubmitStep(hidden, createSucceeds)
  }

  /** The Close button of the block modal only hides the modal. */
  function CloseStep(s: FormState): (r: FormState)
    ensures !r.showFraudModal && r.(showFraudModal := s.showFraudModal) == s
  {
    s.(showFraudModal := false)
  }

  /** The buttons of the modal for a result: Cancel and Proceed Anyway unless
      it says "block" (Proceed Anyway is disabled while a transaction is
      pending), Close alone when it does. */
  datatype ModalAction = Cancel | ProceedAnyway | Close

  function ModalActions(r: FraudCheckResult, isPending: bool): (actions: set<ModalAction>)
    ensures Close in actions <==> r.recommendation == Block
    ensures Cancel in actions <==> r.recommendation != Block
    ensures ProceedAnyway in actions <==> r.recommendation != Block && !isPending
  {
    if r.recommendation != Block then {Cancel} + (if isPending then {} else {ProceedAnyway})
    else {Close}
  }

  function ApplyModalAction(s: FormState, action: ModalAction, createSucceeds: bool): Step
    requires Renders(s.draft)
  {
    match action
    case Cancel => ConfirmStep(s, false, createSucceeds)
    case ProceedAnyway => ConfirmStep(s, true, createSucceeds)
    case Close => Step(CloseStep(s), [])
  }

  /** A cleared draft still renders, so the form keeps working after a
      successful submission. */
  lemma ClearedRenders(d: Draft)
    ensures Renders(Cleared(d))
    ensures !Complete(Cleared(d))
    ensures Cleared(d).streamType == d.streamType
  {
  }

  /** An incomplete draft calls neither the detector nor `createStream`, and
      changes nothing. */
  lemma IncompleteDraftIsIgnored(s: FormState, address: Option<string>,
                                 transport: FraudCheckInput -> TransportOutcome, createSucceeds: bool)
    requires Renders(s.draft) && !Complete(s.draft)
    ensures CheckFraudStep(s, address, transport, createSucceeds) == Step(s, [])
    ensures SubmitStep(s, createSucceeds) == Step(s, [])
  {
  }

  /** A complete draft asks the detector exactly once, first, with the draft's
      values and while the check flag is set (so the submit button is
      disabled); whatever the outcome, the flag is clear afterwards. */
  lemma CheckRunsOnceWithFlag(s: FormState, address: Option<string>,
                              transport: FraudCheckInput -> TransportOutcome, createSucceeds: bool)
    requires Renders(s.draft) && Complete(s.draft)
    ensures var step := CheckFraudStep(s, address, transport, createSucceeds);
            && |step.effects| >= 1
            && step.effects[0] == FraudCheckRequested(FraudRequestFor(s.draft, address), true)
            && (forall i :: 1 <= i < |step.effects| ==> !step.effects[i].FraudCheckRequested?)
            && !step.state.isCheckingFraud
  {
    var input := FraudRequestFor(s.draft, address);
    if DetectCreationFraud(input, transport).None? {
      var shown := s.(isCheckingFraud := true, fraudResult := None, showFraudModal := true);
      assert SubmitStep(shown, createSucceeds).effects == [CreateStreamCalled(StreamCallFor(s.draft))];
    }
  }

  /** The submit button and the submit handler agree. With the button
      enabled, submitting starts a fraud check on the draft, and the button is
      disabled while that check runs. With no transaction pending and no check
      running, a disabled button means an incomplete draft, on which the
      handler does nothing. After a submission clears the form, the button is
      disabled again. */
  lemma SubmitButtonGate(s: FormState, isPending: bool, address: Option<string>,
                         transport: FraudCheckInput -> TransportOutcome, createSucceeds: bool)
    requires Renders(s.draft)
    ensures var step := CheckFraudStep(s, address, transport, createSucceeds);
            !SubmitDisabled(isPending, s.isCheckingFraud, s.draft) ==>
              && |step.effects| >= 1
              && step.effects[0] == FraudCheckRequested(FraudRequestFor(s.draft, address), true)
              && SubmitDisabled(isPending, step.effects[0].whileChecking, s.draft)
    ensures SubmitDisabled(false, false, s.draft) ==>
              CheckFraudStep(s, address, transport, createSucceeds) == Step(s, [])
    ensures SubmitDisabled(isPending, s.isCheckingFraud, Cleared(s.draft))
  {
    if Complete(s.draft) {
      CheckRunsOnceWithFlag(s, address, transport, createSucceeds);
    }
  }

  /** Cancelling hides the modal and keeps the draft and the stored result. */
  lemma CancelKeepsDraft(s: FormState, createSucceeds: bool)
    requires Renders(s.draft)
    ensures ConfirmStep(s, false, createSucceeds) == Step(s.(showFraudModal := false), [])
  {
  }

  /** With a stored "block" result, confirming never calls `createStream`,
      whatever the user chose, and changes nothing but the modal. */
  lemma BlockedConfirmNeverSubmits(s: FormState, proceed: bool, createSucceeds: bool)
    requires Renders(s.draft)
    requires s.fraudResult.Some? && s.fraudResult.value.recommendation == Block
    ensures ConfirmStep(s, proceed, createSucceeds) == Step(s.(showFraudModal := false), [])
  {
  }

  /** Block never submits: when the detector says "block", the check shows
      the modal without submitting, the modal offers Close alone, and neither
      any button of that modal nor a confirmation calls `createStream`. */
  lemma BlockNeverSubmits(s: FormState, address: Option<string>,
                          transport: FraudCheckInput -> TransportOutcome,
                          createSucceeds: bool, isPending: bool, proceed: bool)
    requires Renders(s.draft) && Complete(s.draft)
    requires var r := DetectCreationFraud(FraudRequestFor(s.draft, address), transport);
             r.Some? && r.value.recommendation == Block
    ensures var checked := CheckFraudStep(s, address, transport, createSucceeds);
            var r := checked.state.fraudResult.value;
            && NoSubmission(checked.effects)
            && ModalVisible(checked.state)
            && ModalActions(r, isPending) == {Close}
            && (forall a :: a in ModalActions(r, isPending) ==>
                  ApplyModalAction(checked.state, a, createSucceeds).effects == [])
            && ConfirmStep(checked.state, proceed, createSucceeds).effects == []
            && checked.state.draft == s.draft
  {
    var checked := CheckFraudStep(s, address, transport, createSucceeds);
    assert checked.effects == [FraudCheckRequested(FraudRequestFor(s.draft, address), true)];
    BlockedConfirmNeverSubmits(checked.state, proceed, createSucceeds);
  }

  /** A reviewed submission: after a result that is not "block", Proceed
      Anyway calls `createStream` once, with exactly the draft's recipient,
      duration in seconds, stream type, description and amount in wei. On
      success every field but the stream type is emptied and the result is
      dropped; on failure the draft and the result are kept. */
  lemma ProceedSubmitsDraft(s: FormState, address: Option<string>,
                            transport: FraudCheckInput -> TransportOutcome, createSucceeds: bool)
    requires Renders(s.draft) && Complete(s.draft)
    requires var r := DetectCreationFraud(FraudRequestFor(s.draft, address), transport);
             r.Some? && r.value.recommendation != Block
    ensures var checked := CheckFraudStep(s, address, transport, createSucceeds);
            var confirmed := ConfirmStep(checked.state, true, createSucceeds);
            && checked.effects + confirmed.effects
               == [FraudCheckRequested(FraudRequestFor(s.draft, address), true),
                   CreateStreamCalled(StreamCall(s.draft.recipient, DurationSeconds(s.draft.duration),
                                                 s.draft.streamType, s.draft.description,
                                                 AmountWei(s.draft.amount).wei))]
            && !confirmed.state.showFraudModal
            && (createSucceeds ==> confirmed.state.draft == Cleared(s.draft) && confirmed.state.fraudResult == None)
            && (!createSucceeds ==> confirmed.state.draft == s.draft && confirmed.state.fraudResult == checked.state.fraudResult)
  {
    var checked := CheckFraudStep(s, address, transport, createSucceeds);
    assert checked.effects == [FraudCheckRequested(FraudRequestFor(s.draft, address), true)];
    assert checked.state.draft == s.draft;
  }

  /** The check fails open: when the request fails, the modal shows the
      fallback result in yellow, and Proceed Anyway is offered. */
  lemma FailedCheckFailsOpen(s: FormState, address: Option<string>,
                             transport: FraudCheckInput -> TransportOutcome, createSucceeds: bool)
    requires Renders(s.draft) && Complete(s.draft)
    requires Failed(transport(FraudRequestFor(s.draft, address)))
    ensures var checked := CheckFraudStep(s, address, transport, createSucceeds);
            && checked.state.fraudResult == Some(Fallback())
            && ModalVisible(checked.state)
            && NoSubmission(checked.effects)
            && ProceedAnyway in ModalActions(Fallback(), false)
            && GetFraudColor(checked.state.fraudResult.value.riskScore) == Yellow
  {
    FailureFallsBack(FraudRequestFor(s.draft, address), transport);
    var checked := CheckFraudStep(s, address, transport, createSucceeds);
    assert checked.effects == [FraudCheckRequested(FraudRequestFor(s.draft, address), true)];
  }

  /** A `null` body reaches the `catch` of the check: `createStream` is called
      at once, without any review, and the modal stays hidden although it was
      asked for. */
  lemma NullResultSubmitsUnreviewed(s: FormState, address: Option<string>,
                                    transport: FraudCheckInput -> TransportOutcome, createSucceeds: bool)
    requires Renders(s.draft) && Complete(s.draft)
    requires transport(FraudRequestFor(s.draft, address)) == Ok(JsonNull)
    ensures var checked := CheckFraudStep(s, address, transport, createSucceeds);
            && checked.effects == [FraudCheckRequested(FraudRequestFor(s.draft, address), true),
                                   CreateStreamCalled(StreamCallFor(s.draft))]
            && checked.state.showFraudModal && !ModalVisible(checked.state)
            && !checked.state.isCheckingFraud
            && checked.state.draft == (if createSucceeds then Cleared(s.draft) else s.draft)
  {
    SuccessPassesThrough(FraudRequestFor(s.draft, address), transport);
  }

  /** A failed `createStream` keeps the whole state and is attempted once. */
  lemma FailedCreateKeepsDraft(s: FormState)
    requires Renders(s.draft) && Complete(s.draft)
    ensures SubmitStep(s, false) == Step(s, [CreateStreamCalled(StreamCallFor(s.draft))])
  {
  }

  /** Changing the USD rate leaves the amount alone when the rate or the
      duration is empty, and never touches any field but the two. */
  lemma UsdRateGuard(d: Draft, value: string, computedAmount: string)
    ensures var e := UsdRateChangeStep(d, value, computedAmount);
            && e.usdRate == value
            && (value == "" || d.duration == "" ==> e.amount == d.amount)
            && (value != "" && d.duration != "" ==> e.amount == computedAmount)
            && e.(amount := d.amount, usdRate := d.usdRate) == d
  {
  }

  /** When the ether total is small enough for JavaScript to print it with an
      exponent, the amount set by a rate change is not decimal text, and the
      next render throws in `parseToWei`. */
  lemma ExponentAmountBreaksRender(d: Draft, value: string, computedAmount: string, i: nat)
    requires value != "" && d.duration != ""
    requires i < |computedAmount| && computedAmount[i] == 'e'
    ensures !Renders(UsdRateChangeStep(d, value, computedAmount))
  {
    ForeignCharRejected(computedAmount, i);
  }

  /** The form component: the draft and the gate as mutable fields, and the
      handlers as methods proved to follow the step functions above. */
  class CreateStreamForm {
    var recipient: string
    var amount: string
    var duration: string
    var streamType: string
    var description: string
    var usdRate: string
    var isCheckingFraud: bool
    var fraudResult: Option<FraudCheckResult>
    var showFraudModal: bool

    function CurrentDraft(): Draft
      reads this
    {
      Draft(recipient, amount, duration, streamType, description, usdRate)
    }

    function State(): FormState
      reads this
    {
      FormState(CurrentDraft(), isCheckingFraud, fraudResult, showFraudModal)
    }

    constructor()
      ensures State() == Initial()
    {
      recipient := "";
      amount := "";
      duration := "";
      streamType := "work";
      description := "";
      usdRate := "";
      isCheckingFraud := false;
      fraudResult := None;
      showFraudModal := false;
    }

    /** The `onChange`/`onClick` setters of the inputs. */
    method Edit(field: Field, value: string)
      modifies this
      ensures State() == old(State()).(draft := EditStep(old(CurrentDraft()), field, value))
    {
      match field
      case RecipientField => recipient := value;
      case AmountField => amount := value;
      case DurationField => duration := value;
      case DescriptionField => description := value;
      case StreamTypeField => streamType := value;
    }

    /** Sets every text field at once. */
    method SetDraft(d: Draft)
      modifies this
      ensures State() == old(State()).(draft := d)
    {
      recipient, amount, duration := d.recipient, d.amount, d.duration;
      streamType, description, usdRate := d.streamType, d.description, d.usdRate;
    }

    /** `handleUsdRateChange(value)`; `computedAmount` is the text of the
        ether total, computed in floating point. */
    method HandleUsdRateChange(value: string, computedAmount: string)
      modifies this
      ensures State() == old(State()).(draft := UsdRateChangeStep(old(CurrentDraft()), value, computedAmount))
    {
      usdRate := value;
      if value != "" && duration != "" {
        amount := computedAmount;
      }
    }

    /** `handleSubmit()`. */
    method HandleSubmit(createSucceeds: bool) returns (effects: seq<Effect>)
      requires Renders(CurrentDraft())
      modifies this
      ensures Step(State(), effects) == SubmitStep(old(State()), createSucceeds)
    {
      if recipient == "" || amount == "" || duration == "" || description == "" {
        return [];
      }
      effects := [CreateStreamCalled(StreamCallFor(CurrentDraft()))];
      if createSucceeds {
        SetDraft(Cleared(CurrentDraft()));
        fraudResult := None;
      }
    }

    /** `handleCheckFraud()`, the form's submit handler. */
    method HandleCheckFraud(address: Option<string>, transport: FraudCheckInput -> TransportOutcome,
                            createSucceeds: bool) returns (effects: seq<Effect>)
      requires Renders(CurrentDraft())
      modifies this
      ensures Step(State(), effects) == CheckFraudStep(old(State()), address, transport, createSucceeds)
    {
      if recipient == "" || amount == "" || duration == "" || description == "" {
        return [];
      }
      isCheckingFraud := true;
      var input := FraudRequestFor(CurrentDraft(), address);
      effects := [FraudCheckRequested(input, isCheckingFraud)];
      var result := DetectCreationFraud(input, transport);
      fraudResult := result;
      showFraudModal := true;
      if result.None? {
        var submitted := HandleSubmit(createSucceeds);
        effects := effects + submitted;
      }
      isCheckingFraud := false;
    }

    /** `handleFraudConfirm(proceed)`. */
    method HandleFraudConfirm(proceed: bool, createSucceeds: bool) returns (effects: seq<Effect>)
      requires Renders(CurrentDraft())
      modifies this
      ensures Step(State(), effects) == ConfirmStep(old(State()), proceed, createSucceeds)
    {
      showFraudModal := false;
      if !proceed {
        return [];
      }
      if fraudResult.Some? && fraudResult.value.recommendation == Block {
        return [];
      }
      effects := HandleSubmit(createSucceeds);
    }

    /** The Close button of the block modal. */
    method CloseModal()
      modifies this
      ensures State() == CloseStep(old(State()))
    {
      showFraudModal := false;
    }
  }
}
