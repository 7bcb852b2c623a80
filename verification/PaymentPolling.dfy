/** Waiting for the confirmation of a payment: a bounded loop over the answers of the payment service. */
module PaymentPolling {
  import opened Options
  import opened Whitespace

  /** A decoded JSON value; `Missing` is a field that is not there. */
  datatype Json =
    | Missing
    | Null
    | Bool(b: bool)
    | Number
    | Text(text: string)
    | List
    | Record(fields: map<string, Json>)

  datatype Reply = Unreachable | TooLarge | NotJson | Answer(ok: bool, body: Json)

  datatype Code =
    | CheckoutRejected
    | InvalidResponse
    | ResponseTooLarge
    | StatusIdentityMismatch
    | PaymentNotCompleted
    | ConfirmationTimeout
    | AuthorityRequired
    | AuthorityAmbiguous
    | InvalidAuthority

  datatype Payment = Payment(
    sessionId: string, reference: string, definitiveBusinessId: Option<string>, activationStatus: Option<string>)

  datatype Failure = Failure(sessionId: string, reason: string, resultId: string)

  datatype Projection = Projection(
    checkoutId: string, sessionId: string, status: string, payment: Option<Payment>, failure: Option<Failure>)

  function Field(j: Json, name: string): Json {
    if j.Record? && name in j.fields then j.fields[name] else Missing
  }

  /** The trimmed text of a value, or nothing if it is no text, blank or too long. */
  function TextOf(j: Json, maxLength: nat): string {
    if j.Text? && |Trim(j.text)| <= maxLength then Trim(j.text) else ""
  }

  function NonBlank(s: string): Option<string> {
    if s == "" then None else Some(s)
  }

  function VerifiedPayment(j: Json): Option<Payment> {
    if !j.Record? || Field(j, "verified") != Bool(true) then None
    else
      var sessionId := TextOf(Field(j, "sessionId"), 120);
      var reference := TextOf(Field(j, "reference"), 160);
      if sessionId == "" || reference == "" then None
      else Some(Payment(sessionId, reference,
                        NonBlank(TextOf(Field(j, "definitiveBusinessId"), 160)),
                        NonBlank(TextOf(Field(j, "activationStatus"), 80))))
  }

  function VerifiedFailure(j: Json): Option<Failure> {
    if !j.Record? || Field(j, "verified") != Bool(true) then None
    else
      var sessionId := TextOf(Field(j, "sessionId"), 120);
      var reason := TextOf(Field(j, "reason"), 80);
      var resultId := TextOf(Field(j, "resultId"), 160);
      if sessionId == "" || reason == "" || resultId == "" then None else Some(Failure(sessionId, reason, resultId))
  }

  function StatusProjection(j: Json): Option<Projection> {
    var data := Field(j, "data");
    if !data.Record? then None
    else
      var checkoutId := TextOf(Field(data, "checkoutId"), 120);
      var sessionId := TextOf(Field(data, "sessionId"), 120);
      var status := TextOf(Field(data, "status"), 40);
      if checkoutId == "" || sessionId == "" || status == "" then None
      else Some(Projection(checkoutId, sessionId, status,
                           VerifiedPayment(Field(data, "verifiedPayment")),
                           VerifiedFailure(Field(data, "verifiedFailure"))))
  }

  datatype Checked = Good(body: Json) | Bad(code: Code)

  /** What a reply comes to before its content is looked at. */
  function CheckedJson(reply: Reply): Checked {
    match reply
    case Unreachable => Bad(CheckoutRejected)
    case TooLarge => Bad(ResponseTooLarge)
    case NotJson => Bad(InvalidResponse)
    case Answer(ok, body) =>
      if !body.Record? then Bad(InvalidResponse) else if !ok then Bad(CheckoutRejected) else Good(body)
  }

  const FINAL_STATUSES := ["FAILED", "CANCELLED", "EXPIRED", "REFUNDED"]

  // ---------------------------------------------------------------- what one answer decides

  datatype Decision = Undecided | Paid(payment: Payment) | Unpaid(code: Code)

  function DecideOn(p: Projection, checkoutId: string, sessionId: string): Decision {
    if p.checkoutId != checkoutId || p.sessionId != sessionId then Unpaid(StatusIdentityMismatch)
    else if p.status == "CONFIRMED" then
      if p.failure.Some? then Unpaid(InvalidResponse)
      else if p.payment.None? then Undecided
      else if p.payment.value.sessionId != sessionId then Unpaid(StatusIdentityMismatch)
      else Paid(p.payment.value)
    else if p.status in FINAL_STATUSES then
      if p.payment.Some? then Unpaid(InvalidResponse)
      else if p.failure.None? then Undecided
      else if p.failure.value.sessionId != sessionId then Unpaid(StatusIdentityMismatch)
      else Unpaid(PaymentNotCompleted)
    else if p.payment.Some? || p.failure.Some? then Unpaid(InvalidResponse)
    else Undecided
  }

  function Decide(reply: Reply, checkoutId: string, sessionId: string): Decision {
    match CheckedJson(reply)
    case Bad(code) => Unpaid(code)
    case Good(body) =>
      match StatusProjection(body)
      case None => Unpaid(InvalidResponse)
      case Some(p) => DecideOn(p, checkoutId, sessionId)
  }

  // ---------------------------------------------------------------- what evidence is

  /** Field `name` of a record holds a text that is `t` once it is trimmed, not blank and not too long. */
  predicate HasText(j: Json, name: string, maxLength: nat, t: string) {
    && j.Record? && name in j.fields && j.fields[name].Text? && TrimmedTo(j.fields[name].text, t)
    && 0 < |t| <= maxLength
  }

  ghost predicate HasOptionalText(j: Json, name: string, maxLength: nat, t: Option<string>) {
    if t.Some? then HasText(j, name, maxLength, t.value) else forall x :: !HasText(j, name, maxLength, x)
  }

  predicate IsVerified(j: Json) {
    j.Record? && "verified" in j.fields && j.fields["verified"] == Bool(true)
  }

  /** The value is verified evidence of payment `p`. */
  ghost predicate IsPayment(j: Json, p: Payment) {
    && IsVerified(j) && HasText(j, "sessionId", 120, p.sessionId) && HasText(j, "reference", 160, p.reference)
    && HasOptionalText(j, "definitiveBusinessId", 160, p.definitiveBusinessId)
    && HasOptionalText(j, "activationStatus", 80, p.activationStatus)
  }

  /** The value is verified evidence of failure `f`. */
  predicate IsFailure(j: Json, f: Failure) {
    && IsVerified(j) && HasText(j, "sessionId", 120, f.sessionId) && HasText(j, "reason", 80, f.reason)
    && HasText(j, "resultId", 160, f.resultId)
  }

  /** What the answer says under its data, if it is a success that says anything. */
  predicate Says(reply: Reply, data: Json) {
    && reply.Answer? && reply.ok && reply.body.Record? && "data" in reply.body.fields
    && reply.body.fields["data"] == data && data.Record?
  }

  /** The answer is well-formed, about this checkout and this session, and names the status. */
  predicate Reports(reply: Reply, data: Json, checkoutId: string, sessionId: string, status: string) {
    && Says(reply, data) && HasText(data, "checkoutId", 120, checkoutId) && HasText(data, "sessionId", 120, sessionId)
    && HasText(data, "status", 40, status)
  }

  ghost predicate CarriesPayment(data: Json, p: Payment) {
    data.Record? && "verifiedPayment" in data.fields && IsPayment(data.fields["verifiedPayment"], p)
  }

  predicate CarriesFailure(data: Json, f: Failure) {
    data.Record? && "verifiedFailure" in data.fields && IsFailure(data.fields["verifiedFailure"], f)
  }

  /** The answer confirms the payment: its evidence is verified and names this session, and it carries no
      verified evidence of a failure. */
  ghost predicate ConfirmsPayment(reply: Reply, checkoutId: string, sessionId: string, p: Payment) {
    exists data ::
      && Reports(reply, data, checkoutId, sessionId, "CONFIRMED")
      && CarriesPayment(data, p) && p.sessionId == sessionId
      && forall f :: !CarriesFailure(data, f)
  }

  /** The answer is about this checkout and carries no verified evidence, whatever status it names. */
  ghost predicate NoEvidence(reply: Reply, checkoutId: string, sessionId: string) {
    exists data, status ::
      && Reports(reply, data, checkoutId, sessionId, status)
      && (forall p :: !CarriesPayment(data, p)) && forall f :: !CarriesFailure(data, f)
  }

  predicate EndsUnpaid(status: string) {
    status == "FAILED" || status == "CANCELLED" || status == "EXPIRED" || status == "REFUNDED"
  }

  /** The answer names a final status and carries verified evidence of a failure for this session, and
      none of a payment. */
  ghost predicate ReportsFailure(reply: Reply, checkoutId: string, sessionId: string) {
    exists data, status, f ::
      && Reports(reply, data, checkoutId, sessionId, status) && EndsUnpaid(status)
      && CarriesFailure(data, f) && f.sessionId == sessionId
      && forall p :: !CarriesPayment(data, p)
  }

  /** The evidence that decides for this status names another session, and nothing contradicts it. */
  ghost predicate EvidenceOfAnother(data: Json, sessionId: string, status: string) {
    || (status == "CONFIRMED" && (exists p :: CarriesPayment(data, p) && p.sessionId != sessionId)
        && forall f :: !CarriesFailure(data, f))
    || (EndsUnpaid(status) && (exists f :: CarriesFailure(data, f) && f.sessionId != sessionId)
        && forall p :: !CarriesPayment(data, p))
  }

  /** The answer is about another checkout or session, or its evidence is. */
  ghost predicate NamesAnother(reply: Reply, checkoutId: string, sessionId: string) {
    exists data, c, s, status ::
      && Reports(reply, data, c, s, status)
      && (c != checkoutId || s != sessionId || EvidenceOfAnother(data, sessionId, status))
  }

  lemma HasTextIff(j: Json, name: string, maxLength: nat, t: string)
    ensures HasText(j, name, maxLength, t) <==> t != "" && TextOf(Field(j, name), maxLength) == t
  {
    if j.Record? && name in j.fields && j.fields[name].Text? {
      TrimIff(j.fields[name].text, t);
    }
  }

  lemma HasOptionalTextIff(j: Json, name: string, maxLength: nat, t: Option<string>)
    ensures HasOptionalText(j, name, maxLength, t) <==> NonBlank(TextOf(Field(j, name), maxLength)) == t
  {
    hide HasText, TextOf, Field;
    var text := TextOf(Field(j, name), maxLength);
    HasTextIff(j, name, maxLength, text);
    if t.Some? { HasTextIff(j, name, maxLength, t.value); }
    forall x ensures HasText(j, name, maxLength, x) <==> x != "" && text == x {
      HasTextIff(j, name, maxLength, x);
    }
  }

  lemma IsPaymentIff(j: Json, p: Payment)
    ensures IsPayment(j, p) <==> VerifiedPayment(j) == Some(p)
  {
    hide HasText, TextOf, HasOptionalText, NonBlank;
    HasTextIff(j, "sessionId", 120, p.sessionId);
    HasTextIff(j, "reference", 160, p.reference);
    HasOptionalTextIff(j, "definitiveBusinessId", 160, p.definitiveBusinessId);
    HasOptionalTextIff(j, "activationStatus", 80, p.activationStatus);
  }

  lemma IsFailureIff(j: Json, f: Failure)
    ensures IsFailure(j, f) <==> VerifiedFailure(j) == Some(f)
  {
    hide HasText, TextOf;
    HasTextIff(j, "sessionId", 120, f.sessionId);
    HasTextIff(j, "reason", 80, f.reason);
    HasTextIff(j, "resultId", 160, f.resultId);
  }

  /** An answer carries the evidence that is read from it, and no other. */
  lemma CarriesIff(data: Json)
    ensures forall p :: CarriesPayment(data, p) <==> VerifiedPayment(Field(data, "verifiedPayment")) == Some(p)
    ensures forall f :: CarriesFailure(data, f) <==> VerifiedFailure(Field(data, "verifiedFailure")) == Some(f)
  {
    hide IsPayment, IsFailure, VerifiedPayment, VerifiedFailure;
    var payment, failure := Field(data, "verifiedPayment"), Field(data, "verifiedFailure");
    forall p ensures CarriesPayment(data, p) <==> VerifiedPayment(payment) == Some(p) {
      IsPaymentIff(payment, p);
      NothingIsVerified(p, Failure("", "", ""));
    }
    forall f ensures CarriesFailure(data, f) <==> VerifiedFailure(failure) == Some(f) {
      IsFailureIff(failure, f);
      NothingIsVerified(Payment("", "", None, None), f);
    }
  }

  lemma NothingIsVerified(p: Payment, f: Failure)
    ensures VerifiedPayment(Missing) == None && VerifiedFailure(Missing) == None
  {
  }

  /** The report of a reply is the projection of its body. */
  lemma ReportsIff(reply: Reply)
    ensures
      forall data, checkoutId, sessionId, status :: Reports(reply, data, checkoutId, sessionId, status) <==>
        && CheckedJson(reply).Good? && data == Field(CheckedJson(reply).body, "data")
        && var projection := StatusProjection(CheckedJson(reply).body);
           && projection.Some? && projection.value.checkoutId == checkoutId && projection.value.sessionId == sessionId
           && projection.value.status == status
  {
    hide HasText, TextOf, VerifiedPayment, VerifiedFailure;
    forall data, name, max, t ensures HasText(data, name, max, t) <==> t != "" && TextOf(Field(data, name), max) == t {
      HasTextIff(data, name, max, t);
    }
  }

  /** The evidence of a projection is read from its data. */
  lemma ProjectedEvidence(body: Json)
    requires StatusProjection(body).Some?
    ensures StatusProjection(body).value.payment == VerifiedPayment(Field(Field(body, "data"), "verifiedPayment"))
    ensures StatusProjection(body).value.failure == VerifiedFailure(Field(Field(body, "data"), "verifiedFailure"))
  {
  }

  /** A payment is taken as made on a confirming answer and on no other. */
  lemma PaidIffConfirmed(reply: Reply, checkoutId: string, sessionId: string, p: Payment)
    ensures Decide(reply, checkoutId, sessionId) == Paid(p) <==> ConfirmsPayment(reply, checkoutId, sessionId, p)
  {
    hide CheckedJson, StatusProjection, Reports, CarriesPayment, CarriesFailure, VerifiedPayment, VerifiedFailure;
    ReportsIff(reply);
    if CheckedJson(reply).Good? && StatusProjection(CheckedJson(reply).body).Some? {
      ProjectedEvidence(CheckedJson(reply).body);
      CarriesIff(Field(CheckedJson(reply).body, "data"));
    }
  }

  /** The loop goes on exactly past the answers without evidence. */
  lemma UndecidedIffNoEvidence(reply: Reply, checkoutId: string, sessionId: string)
    ensures Decide(reply, checkoutId, sessionId) == Undecided <==> NoEvidence(reply, checkoutId, sessionId)
  {
    hide CheckedJson, StatusProjection, Reports, CarriesPayment, CarriesFailure, VerifiedPayment, VerifiedFailure;
    ReportsIff(reply);
    if CheckedJson(reply).Good? && StatusProjection(CheckedJson(reply).body).Some? {
      var data, projection := Field(CheckedJson(reply).body, "data"), StatusProjection(CheckedJson(reply).body).value;
      ProjectedEvidence(CheckedJson(reply).body);
      CarriesIff(data);
      if projection.payment.Some? { assert CarriesPayment(data, projection.payment.value); }
      if projection.failure.Some? { assert CarriesFailure(data, projection.failure.value); }
      if projection.checkoutId == checkoutId && projection.sessionId == sessionId {
        assert Reports(reply, data, checkoutId, sessionId, projection.status);
      }
    }
  }

  /** The failure of a payment is reported as such only on verified evidence for this session. */
  lemma NotCompletedOnlyOnEvidence(reply: Reply, checkoutId: string, sessionId: string)
    ensures Decide(reply, checkoutId, sessionId) == Unpaid(PaymentNotCompleted)
        <==> ReportsFailure(reply, checkoutId, sessionId)
  {
    hide CheckedJson, StatusProjection, Reports, CarriesPayment, CarriesFailure, VerifiedPayment, VerifiedFailure;
    ReportsIff(reply);
    CodesOfReplies(reply);
    if CheckedJson(reply).Good? && StatusProjection(CheckedJson(reply).body).Some? {
      var data, projection := Field(CheckedJson(reply).body, "data"), StatusProjection(CheckedJson(reply).body).value;
      ProjectedEvidence(CheckedJson(reply).body);
      CarriesIff(data);
      if projection.payment.Some? { assert CarriesPayment(data, projection.payment.value); }
      if projection.failure.Some? { assert CarriesFailure(data, projection.failure.value); }
      if projection.checkoutId == checkoutId && projection.sessionId == sessionId {
        assert Reports(reply, data, checkoutId, sessionId, projection.status);
      }
    }
  }

  lemma AnotherIff(body: Json, sessionId: string)
    requires StatusProjection(body).Some?
    ensures
      var projection := StatusProjection(body).value;
      projection.sessionId == sessionId ==>
        (EvidenceOfAnother(Field(body, "data"), sessionId, projection.status)
         <==> DecideOn(projection, projection.checkoutId, sessionId) == Unpaid(StatusIdentityMismatch))
  {
    hide StatusProjection, CarriesPayment, CarriesFailure, VerifiedPayment, VerifiedFailure;
    var data, projection := Field(body, "data"), StatusProjection(body).value;
    ProjectedEvidence(body);
    CarriesIff(data);
    if projection.payment.Some? { assert CarriesPayment(data, projection.payment.value); }
    if projection.failure.Some? { assert CarriesFailure(data, projection.failure.value); }
  }

  /** The mismatch of an answer is told by the names in it. */
  lemma MismatchIffNamesAnother(reply: Reply, checkoutId: string, sessionId: string)
    ensures Decide(reply, checkoutId, sessionId) == Unpaid(StatusIdentityMismatch)
        <==> NamesAnother(reply, checkoutId, sessionId)
  {
    hide CheckedJson, StatusProjection, Reports, EvidenceOfAnother;
    CodesOfReplies(reply);
    ReportsIff(reply);
    if CheckedJson(reply).Good? && StatusProjection(CheckedJson(reply).body).Some? {
      var projection := StatusProjection(CheckedJson(reply).body).value;
      AnotherIff(CheckedJson(reply).body, sessionId);
      assert Reports(reply, Field(CheckedJson(reply).body, "data"),
                     projection.checkoutId, projection.sessionId, projection.status);
    }
  }

  /** Every other answer that ends the poll without a payment is rejected, and only these are. */
  lemma RejectedForWhatTheyAre(reply: Reply, checkoutId: string, sessionId: string)
    ensures
      var decision := Decide(reply, checkoutId, sessionId);
      && (decision == Unpaid(ResponseTooLarge) <==> reply == TooLarge)
      && (decision == Unpaid(CheckoutRejected) <==>
            reply == Unreachable || (reply.Answer? && reply.body.Record? && !reply.ok))
      && (decision.Unpaid? ==> decision.code in {ResponseTooLarge, CheckoutRejected, InvalidResponse,
                                                 StatusIdentityMismatch, PaymentNotCompleted})
  {
    hide CheckedJson, StatusProjection;
    CodesOfReplies(reply);
  }

  /** A reply that is no decoded success is rejected for what it is. */
  lemma CodesOfReplies(reply: Reply)
    ensures CheckedJson(reply) == Bad(ResponseTooLarge) <==> reply == TooLarge
    ensures CheckedJson(reply) == Bad(CheckoutRejected) <==>
            reply == Unreachable || (reply.Answer? && reply.body.Record? && !reply.ok)
    ensures CheckedJson(reply) == Bad(InvalidResponse) <==> reply == NotJson || (reply.Answer? && !reply.body.Record?)
    ensures CheckedJson(reply).Bad? ==> CheckedJson(reply).code in {ResponseTooLarge, CheckoutRejected, InvalidResponse}
  {
  }

  // ---------------------------------------------------------------- the loop

  /** How the two signals of the port behave: each may throw, `verified` with a code of its own. */
  datatype Port = Port(verifiedThrows: Option<Code>, failedThrows: bool)

  datatype Signal = VerifiedSignal(payment: Payment) | FailedSignal(code: Code)

  datatype Outcome = Confirmed(payment: Payment) | Rejected(code: Code) | SignalBroke

  /** What each attempt would decide. */
  function Decisions(answers: nat -> Reply, checkoutId: string, sessionId: string): nat -> Decision {
    (k: nat) => Decide(answers(k), checkoutId, sessionId)
  }

  /** The first attempt at or after `from` whose answer decides, or `max`. */
  function FirstDecisive(decisions: nat -> Decision, from: nat, max: nat): (d: nat)
    requires from <= max
    ensures from <= d <= max
    ensures forall k :: from <= k < d ==> decisions(k) == Undecided
    ensures d < max ==> decisions(d) != Undecided
    decreases max - from
  {
    if from == max || decisions(from) != Undecided then from else FirstDecisive(decisions, from + 1, max)
  }

  function Verdict(decisions: nat -> Decision, max: nat): Decision {
    var d := FirstDecisive(decisions, 0, max);
    if d < max then decisions(d) else Unpaid(ConfirmationTimeout)
  }

  /** The signals that a verdict leads to. */
  function SignalsOf(verdict: Decision, port: Port): seq<Signal> {
    match verdict
    case Paid(p) =>
      [VerifiedSignal(p)] + if port.verifiedThrows.Some? then [FailedSignal(port.verifiedThrows.value)] else []
    case Unpaid(code) => [FailedSignal(code)]
    case Undecided => []
  }

  function OutcomeOf(verdict: Decision, port: Port): Outcome {
    match verdict
    case Paid(p) =>
      if port.verifiedThrows.None? then Confirmed(p)
      else if port.failedThrows then SignalBroke else Rejected(port.verifiedThrows.value)
    case Unpaid(code) => if port.failedThrows then SignalBroke else Rejected(code)
    case Undecided => SignalBroke
  }

  /** The decision rests on what is in the answer. */
  ghost predicate RestsOnAnswer(decision: Decision, reply: Reply, checkoutId: string, sessionId: string) {
    && (forall p :: decision == Paid(p) <==> ConfirmsPayment(reply, checkoutId, sessionId, p))
    && (decision == Undecided <==> NoEvidence(reply, checkoutId, sessionId))
    && (decision == Unpaid(PaymentNotCompleted) <==> ReportsFailure(reply, checkoutId, sessionId))
    && (decision == Unpaid(StatusIdentityMismatch) <==> NamesAnother(reply, checkoutId, sessionId))
  }

  /** What the loop does with one answer, up to its signals. */
  method Judge(reply: Reply, checkoutId: string, sessionId: string) returns (decision: Decision)
    ensures decision == Decide(reply, checkoutId, sessionId)
  {
    if reply.Unreachable? {
      return Unpaid(CheckoutRejected);
    }
    if reply.TooLarge? {
      return Unpaid(ResponseTooLarge);
    }
    if reply.NotJson? || !reply.body.Record? {
      return Unpaid(InvalidResponse);
    }
    if !reply.ok {
      return Unpaid(CheckoutRejected);
    }
    var projected := StatusProjection(reply.body);
    if projected.None? {
      return Unpaid(InvalidResponse);
    }
    var projection := projected.value;
    if projection.checkoutId != checkoutId || projection.sessionId != sessionId {
      return Unpaid(StatusIdentityMismatch);
    }
    if projection.status == "CONFIRMED" {
      if projection.failure.Some? {
        return Unpaid(InvalidResponse);
      }
      if projection.payment.None? {
        return Undecided;
      }
      if projection.payment.value.sessionId != sessionId {
        return Unpaid(StatusIdentityMismatch);
      }
      return Paid(projection.payment.value);
    }
    if projection.status in FINAL_STATUSES {
      if projection.payment.Some? {
        return Unpaid(InvalidResponse);
      }
      if projection.failure.None? {
        return Undecided;
      }
      if projection.failure.value.sessionId != sessionId {
        return Unpaid(StatusIdentityMismatch);
      }
      return Unpaid(PaymentNotCompleted);
    }
    if projection.payment.Some? || projection.failure.Some? {
      return Unpaid(InvalidResponse);
    }
    return Undecided;
  }

  /** One answer confirms the payment, lets the loop go on, or reports a failed payment or a mismatch,
      each exactly on the evidence for it. */
  lemma DecisionRestsOnAnswer(reply: Reply, checkoutId: string, sessionId: string)
    ensures RestsOnAnswer(Decide(reply, checkoutId, sessionId), reply, checkoutId, sessionId)
  {
    hide Decide, ConfirmsPayment, NoEvidence, ReportsFailure, NamesAnother;
    UndecidedIffNoEvidence(reply, checkoutId, sessionId);
    NotCompletedOnlyOnEvidence(reply, checkoutId, sessionId);
    MismatchIffNamesAnother(reply, checkoutId, sessionId);
    forall p
      ensures Decide(reply, checkoutId, sessionId) == Paid(p) <==> ConfirmsPayment(reply, checkoutId, sessionId, p)
    {
      PaidIffConfirmed(reply, checkoutId, sessionId, p);
    }
  }

  /** The poll loop decides what the first decisive answer decides, and reads no further. */
  method Poll(maxPollAttempts: nat, checkoutId: string, sessionId: string, answers: nat -> Reply, port: Port)
    returns (outcome: Outcome, attempts: nat, signals: seq<Signal>)
    ensures attempts <= maxPollAttempts
    ensures
      var d := FirstDecisive(Decisions(answers, checkoutId, sessionId), 0, maxPollAttempts);
      attempts == if d < maxPollAttempts then d + 1 else maxPollAttempts
    ensures outcome == OutcomeOf(Verdict(Decisions(answers, checkoutId, sessionId), maxPollAttempts), port)
    ensures signals == SignalsOf(Verdict(Decisions(answers, checkoutId, sessionId), maxPollAttempts), port)
  {
    ghost var decisions := Decisions(answers, checkoutId, sessionId);
    attempts := 0;
    signals := [];
    var failure := None;
    while attempts < maxPollAttempts && failure.None?
      invariant attempts <= maxPollAttempts && signals == []
      invariant failure.None? ==>
        FirstDecisive(decisions, 0, maxPollAttempts) == FirstDecisive(decisions, attempts, maxPollAttempts)
      invariant failure.Some? ==>
        && attempts > 0
        && FirstDecisive(decisions, 0, maxPollAttempts) == attempts - 1
        && decisions(attempts - 1) == Unpaid(failure.value)
      decreases maxPollAttempts - attempts, if failure.None? then 1 else 0
    {
      var decision := Judge(answers(attempts), checkoutId, sessionId);
      attempts := attempts + 1;
      assert decision == decisions(attempts - 1);
      match decision
      case Undecided =>
      case Unpaid(code) => failure := Some(code);
      case Paid(payment) =>
        signals := [VerifiedSignal(payment)];
        if port.verifiedThrows.None? {
          return Confirmed(payment), attempts, signals;
        }
        signals := signals + [FailedSignal(port.verifiedThrows.value)];
        return if port.failedThrows then SignalBroke else Rejected(port.verifiedThrows.value), attempts, signals;
    }
    var code := if failure.Some? then failure.value else ConfirmationTimeout;
    signals := [FailedSignal(code)];
    outcome := if port.failedThrows then SignalBroke else Rejected(code);
  }

  /** Attempt `k` confirms the payment after attempts that decided nothing. */
  ghost predicate ConfirmsFirst(answers: nat -> Reply, checkoutId: string, sessionId: string, p: Payment, k: nat) {
    && ConfirmsPayment(answers(k), checkoutId, sessionId, p)
    && forall j: nat :: j < k ==> Decisions(answers, checkoutId, sessionId)(j) == Undecided
  }

  /** With a quiet port the payment is confirmed if and only if some answer within the bound confirms
      it and every earlier one was about this checkout and carried no evidence. */
  lemma ConfirmedIffFirstEvidenceConfirms(max: nat, checkoutId: string, sessionId: string, answers: nat -> Reply,
                                          p: Payment)
    ensures OutcomeOf(Verdict(Decisions(answers, checkoutId, sessionId), max), Port(None, false)) == Confirmed(p)
        <==> exists k: nat :: k < max && ConfirmsFirst(answers, checkoutId, sessionId, p, k)
  {
    var decisions := Decisions(answers, checkoutId, sessionId);
    var d := FirstDecisive(decisions, 0, max);
    hide ConfirmsPayment, Decide;
    if d < max {
      PaidIffConfirmed(answers(d), checkoutId, sessionId, p);
      if decisions(d) == Paid(p) {
        assert ConfirmsFirst(answers, checkoutId, sessionId, p, d);
      }
    }
    if k: nat :| k < max && ConfirmsFirst(answers, checkoutId, sessionId, p, k) {
      PaidIffConfirmed(answers(k), checkoutId, sessionId, p);
      assert decisions(k) == Paid(p);
      assert d == k;
    }
  }

  /** A poll emits one signal, and two exactly when the payment was verified and that signal threw. */
  lemma OneSignalUnlessVerifiedThrows(max: nat, checkoutId: string, sessionId: string, answers: nat -> Reply,
                                      port: Port)
    ensures
      var verdict := Verdict(Decisions(answers, checkoutId, sessionId), max);
      && (|SignalsOf(verdict, port)| == 1 <==> !(verdict.Paid? && port.verifiedThrows.Some?))
      && |SignalsOf(verdict, port)| <= 2
      && (forall p :: VerifiedSignal(p) in SignalsOf(verdict, port) <==> verdict == Paid(p))
  {
    var d := FirstDecisive(Decisions(answers, checkoutId, sessionId), 0, max);
    assert d < max ==> Decisions(answers, checkoutId, sessionId)(d) != Undecided;
  }

  /** The last signal is the outcome: the caller sees the payment that was announced last, or the code
      that was, unless announcing the failure threw. */
  lemma LastSignalIsTheOutcome(max: nat, checkoutId: string, sessionId: string, answers: nat -> Reply, port: Port)
    ensures
      var verdict := Verdict(Decisions(answers, checkoutId, sessionId), max);
      var signals, outcome := SignalsOf(verdict, port), OutcomeOf(verdict, port);
      && signals != []
      && (forall p :: outcome == Confirmed(p) <==> signals[|signals| - 1] == VerifiedSignal(p))
      && (forall code :: outcome == Rejected(code) <==>
            signals[|signals| - 1] == FailedSignal(code) && !port.failedThrows)
      && (forall code :: FailedSignal(code) in signals <==>
            || verdict == Unpaid(code) || (verdict.Paid? && port.verifiedThrows == Some(code)))
  {
    OneSignalUnlessVerifiedThrows(max, checkoutId, sessionId, answers, port);
  }

  /** The poll times out exactly if no answer within the bound decides. */
  lemma TimesOutIff(max: nat, checkoutId: string, sessionId: string, answers: nat -> Reply)
    ensures Verdict(Decisions(answers, checkoutId, sessionId), max) == Unpaid(ConfirmationTimeout)
        <==> forall k: nat :: k < max ==> NoEvidence(answers(k), checkoutId, sessionId)
  {
    hide NoEvidence, Decide;
    var decisions := Decisions(answers, checkoutId, sessionId);
    forall k: nat
      ensures decisions(k) == Undecided <==> NoEvidence(answers(k), checkoutId, sessionId)
      ensures decisions(k) != Unpaid(ConfirmationTimeout)
    {
      UndecidedIffNoEvidence(answers(k), checkoutId, sessionId);
      RejectedForWhatTheyAre(answers(k), checkoutId, sessionId);
    }
    var d := FirstDecisive(decisions, 0, max);
    assert d < max ==> decisions(d) != Undecided;
  }

  // ---------------------------------------------------------------- the authority of a checkout

  const HANDOFF_TOKEN := "x-checkout-handoff-token"
  const CSRF_TOKEN := "x-csrf-token"
  const BUSINESS_ID := "x-business-id"

  /** Lower case, as far as it can give one of the names above: besides the capital letters there is
      one other character, the Kelvin sign, whose lower case is plain. */
  function LowerChar(c: char): char {
    if 'A' <= c <= 'Z' then (c as int + 32) as char
    else if c == '\U{212A}' then 'k'
    else c
  }

  function Lower(s: string): string {
    seq(|s|, i requires 0 <= i < |s| => LowerChar(s[i]))
  }

  /** The name under which a header is set. */
  function Canonical(name: string): string {
    Lower(Trim(name))
  }

  /** `t` is header name `key`, in capital letters here and there. */
  predicate SpelledAs(t: string, key: string) {
    && |t| == |key|
    && forall i :: 0 <= i < |t| ==>
         || t[i] == key[i]
         || ('a' <= key[i] <= 'z' && 'A' <= t[i] <= 'Z' && t[i] - 'A' == key[i] - 'a')
         || (key[i] == 'k' && t[i] == '\U{212A}')
  }

  predicate IsPlain(key: string) {
    forall i :: 0 <= i < |key| ==> key[i] == '-' || 'a' <= key[i] <= 'z'
  }

  lemma LowerIff(t: string, key: string)
    requires IsPlain(key)
    ensures Lower(t) == key <==> SpelledAs(t, key)
  {
    if Lower(t) == key {
      forall i | 0 <= i < |key| ensures LowerChar(t[i]) == key[i] { assert Lower(t)[i] == key[i]; }
    }
  }

  /** A name spells a header exactly if it is that name within white space, whatever its case. */
  lemma SpellsIff(name: string, key: string)
    requires IsPlain(key)
    ensures Canonical(name) == key <==> exists t :: TrimmedTo(name, t) && SpelledAs(t, key)
  {
    hide TrimmedTo, Trim, SpelledAs, Lower, IsPlain;
    TrimIff(name, Trim(name));
    LowerIff(Trim(name), key);
    forall t ensures TrimmedTo(name, t) <==> Trim(name) == t { TrimIff(name, t); }
  }

  lemma HeaderNamesArePlain()
    ensures IsPlain(HANDOFF_TOKEN) && IsPlain(CSRF_TOKEN) && IsPlain(BUSINESS_ID)
  {
  }

  function HeaderText(key: string, value: Json): string {
    TextOf(value, if key == HANDOFF_TOKEN then 2048 else 512)
  }

  /** A hand-off token may be long, any other header is shorter. */
  lemma HeaderTextIff(key: string, value: Json, t: string)
    ensures t != "" ==>
      (HeaderText(key, value) == t <==>
       value.Text? && TrimmedTo(value.text, t) && |t| <= if key == "x-checkout-handoff-token" then 2048 else 512)
  {
    if value.Text? {
      TrimIff(value.text, t);
    }
  }

  /** An entry as the caller names it. */
  type Entry = (string, Json)

  predicate Allowed(e: Entry) {
    Canonical(e.0) in {HANDOFF_TOKEN, CSRF_TOKEN, BUSINESS_ID} && HeaderText(Canonical(e.0), e.1) != ""
  }

  predicate AllAllowed(entries: seq<Entry>) {
    forall i :: 0 <= i < |entries| ==> Allowed(entries[i])
  }

  /** The headers that the entries set, one after the other. */
  function HeadersOf(entries: seq<Entry>): map<string, string> {
    if entries == [] then map[]
    else
      var last := entries[|entries| - 1];
      HeadersOf(entries[..|entries| - 1])[Canonical(last.0) := HeaderText(Canonical(last.0), last.1)]
  }

  /** Entry `i` is the last one that spells header `key`. */
  predicate SpellsLast(entries: seq<Entry>, key: string, i: nat) {
    && i < |entries| && Canonical(entries[i].0) == key
    && forall j :: i < j < |entries| ==> Canonical(entries[j].0) != key
  }

  /** A header is set exactly if some entry spells its name, in whatever case and with whatever white
      space around it; of several spellings the last one decides its value. */
  lemma {:induction false} LastSpellingWins(entries: seq<Entry>, key: string)
    ensures key in HeadersOf(entries) <==> exists i :: SpellsLast(entries, key, i)
    ensures forall i: nat :: SpellsLast(entries, key, i) ==>
              key in HeadersOf(entries) && HeadersOf(entries)[key] == HeaderText(key, entries[i].1)
  {
    hide Canonical, HeaderText;
    if entries != [] {
      var n := |entries| - 1;
      var init := entries[..n];
      LastSpellingWins(init, key);
      if Canonical(entries[n].0) == key {
        assert SpellsLast(entries, key, n);
        assert forall i: nat :: SpellsLast(entries, key, i) ==> i == n;
      } else {
        forall i: nat ensures SpellsLast(entries, key, i) == SpellsLast(init, key, i) {
          assert forall j :: 0 <= j < n ==> init[j] == entries[j];
        }
        assert forall i: nat :: SpellsLast(init, key, i) ==> init[i] == entries[i];
      }
    }
  }

  const TITLE_CASE := "X-Csrf-Token"
  const SPACED := " x-csrf-token"

  lemma TitleCaseSpells()
    ensures Canonical(TITLE_CASE) == CSRF_TOKEN
  {
    assert Trim(TITLE_CASE) == TITLE_CASE;
    var lower := Lower(TITLE_CASE);
    assert |lower| == |CSRF_TOKEN|;
    assert lower[..6] == CSRF_TOKEN[..6];
    assert lower[6..] == CSRF_TOKEN[6..];
    assert lower == lower[..6] + lower[6..];
  }

  lemma SpacedSpells()
    ensures Canonical(SPACED) == CSRF_TOKEN
  {
    assert SPACED[1..] == CSRF_TOKEN;
    assert TrimStart(SPACED) == TrimStart(CSRF_TOKEN) == CSRF_TOKEN;
    assert TrimEnd(CSRF_TOKEN) == CSRF_TOKEN;
    assert Lower(CSRF_TOKEN) == CSRF_TOKEN;
  }

  /** Two spellings of one header collide: the earlier value is dropped without an error. */
  lemma TwoSpellingsCollide(first: Json, second: Json)
    requires HeaderText(CSRF_TOKEN, first) != "" && HeaderText(CSRF_TOKEN, second) != ""
    ensures
      var entries := [(TITLE_CASE, first), (SPACED, second)];
      AllAllowed(entries) && HeadersOf(entries) == map[CSRF_TOKEN := HeaderText(CSRF_TOKEN, second)]
  {
    hide Canonical, HeaderText;
    TitleCaseSpells();
    SpacedSpells();
    var entries := [(TITLE_CASE, first), (SPACED, second)];
    assert entries[..1] == [(TITLE_CASE, first)] && entries[..1][..0] == [];
    assert HeadersOf(entries[..1]) == map[CSRF_TOKEN := HeaderText(CSRF_TOKEN, first)];
  }

  datatype Authority = Authority(headers: map<string, string>) | Denied(code: Code)

  /** The headers are passed on if and only if every entry is allowed and together they are a
      hand-off token alone or a CSRF token with its business. */
  method NormalizedAuthorityHeaders(input: seq<Entry>) returns (authority: Authority)
    ensures authority.Authority? <==>
            AllAllowed(input)
            && (HeadersOf(input).Keys == {HANDOFF_TOKEN} || HeadersOf(input).Keys == {CSRF_TOKEN, BUSINESS_ID})
    ensures authority.Authority? ==> authority.headers == HeadersOf(input)
    ensures authority.Denied? ==>
            authority.code == (if !AllAllowed(input) then InvalidAuthority
                               else if HANDOFF_TOKEN in HeadersOf(input) then AuthorityAmbiguous
                               else AuthorityRequired)
  {
    var headers: map<string, string> := map[];
    var i := 0;
    while i < |input|
      invariant 0 <= i <= |input|
      invariant AllAllowed(input[..i])
      invariant headers == HeadersOf(input[..i]) && headers.Keys <= {HANDOFF_TOKEN, CSRF_TOKEN, BUSINESS_ID}
    {
      var key := Canonical(input[i].0);
      var text := HeaderText(key, input[i].1);
      if text == "" {
        return Denied(InvalidAuthority);
      }
      if key != HANDOFF_TOKEN && key != CSRF_TOKEN && key != BUSINESS_ID {
        return Denied(InvalidAuthority);
      }
      headers := headers[key := text];
      assert input[..i + 1][..i] == input[..i];
      i := i + 1;
    }
    assert input[..i] == input;
    var guest := HANDOFF_TOKEN in headers;
    var csrf, business := CSRF_TOKEN in headers, BUSINESS_ID in headers;
    if !guest && !(csrf && business) {
      return Denied(AuthorityRequired);
    }
    if guest && (csrf || business) {
      return Denied(AuthorityAmbiguous);
    }
    if guest {
      assert headers.Keys == {HANDOFF_TOKEN};
    } else {
      assert headers.Keys == {CSRF_TOKEN, BUSINESS_ID};
    }
    return Authority(headers);
  }
}
