/** Odoo responses and PLC payloads as JSON values, and what the worker, the store and the
    duplicate handler each read out of them. */
module Responses {
  import opened Wrappers
  import opened Strings
  import MessageParser

  datatype Json =
    | Null
    | Bool(flag: bool)
    | Int(n: int)
    | Float(digits: string)
    | Str(text: string)
    | Arr(items: seq<Json>)
    | Obj(fields: map<string, Json>)
  {
    /** `value.get(key)` of a dictionary; a missing key reads as None. */
    function Get(key: string): Json
      requires Obj?
    {
      if key in fields then fields[key] else Null
    }
  }

  /** A stored response text: what `json.dumps` wrote, the Python repr that older versions wrote, or neither. */
  datatype Text = Dumped(value: Json) | PythonRepr(value: Json) | Unparseable

  function OptionalInt(value: Json): Option<int> { if value.Int? then Some(value.n) else None }

  function OptionalText(value: Json): Option<string> {
    if value.Str? && value.text != "" then Some(value.text) else None
  }

  // ---------------------------------------------------------------------------------------------
  // Submission: payload_from_record

  datatype Submission = Submission(messageType: string, value: string)

  /** payload is what `json.loads` makes of the raw text; None stands for malformed JSON.
      None in the result is the ValueError that fails the record before any submission. */
  function PayloadFromRecord(payload: Option<Json>): Option<Submission> {
    if payload.None? || !payload.value.Obj? then None
    else
      var fields := payload.value.fields;
      if |fields| != 1 then None
      else if "MN" in fields then Checked("MN", fields["MN"])
      else if "MP" in fields then Checked("MP", fields["MP"])
      else None
  }

  function Checked(messageType: string, value: Json): Option<Submission> {
    if value.Str? && LastThree(value.text) in MessageParser.SUPPORTED_TABLES
    then Some(Submission(messageType, value.text))
    else None
  }

  /** parse_plc_message, after decoding: the parts and the message type, or None for PLCMessageParseError. */
  function ParsePlcMessage(payload: Option<Json>): Option<(string, MessageParser.Parts)> {
    if payload.None? || !payload.value.Obj? then None
    else
      var fields := payload.value.fields;
      if |fields| != 1 then None
      else if "MN" in fields then Split("MN", fields["MN"])
      else if "MP" in fields then Split("MP", fields["MP"])
      else None
  }

  function Split(messageType: string, value: Json): Option<(string, MessageParser.Parts)> {
    if !value.Str? then None
    else
      var result := MessageParser.SplitValue(value.text);
      if result.Parsed? then Some((messageType, result.parts)) else None
  }

  /** The one-field object with this type and value. */
  predicate Carries(payload: Option<Json>, messageType: string, value: string) {
    payload == Some(Obj(map[messageType := Str(value)]))
  }

  lemma OneField(fields: map<string, Json>, key: string)
    requires key in fields
    ensures |fields| == 1 <==> fields == map[key := fields[key]]
  {
    if |fields| == 1 {
      assert |fields.Keys - {key}| == 0;
      assert fields.Keys == {key};
    }
    assert fields == map[key := fields[key]] ==> fields.Keys == {key};
  }

  /** What is handed to Odoo is the payload itself: its type and its value unchanged, and exactly when the type is known
      and the value ends in a known table. */
  lemma SubmissionIsThePayload(payload: Option<Json>, messageType: string, value: string)
    ensures PayloadFromRecord(payload) == Some(Submission(messageType, value))
            <==> Carries(payload, messageType, value) && messageType in {"MN", "MP"}
                 && |value| >= 3 && value[|value| - 3..] in {"T01", "T02", "T03"}
  {
    if payload.Some? && payload.value.Obj? {
      var fields := payload.value.fields;
      if "MN" in fields { OneField(fields, "MN"); }
      if "MP" in fields { OneField(fields, "MP"); }
      if messageType in fields { OneField(fields, messageType); }
    }
  }

  /** What reception accepts, and with which type: the same object, when its value parses. */
  lemma ParsedMessageIsThePayload(payload: Option<Json>, messageType: string, parts: MessageParser.Parts)
    ensures ParsePlcMessage(payload) == Some((messageType, parts))
            <==> messageType in {"MN", "MP"}
                 && exists value :: Carries(payload, messageType, value)
                                    && MessageParser.SplitValue(value) == MessageParser.Parsed(parts)
  {
    if payload.Some? && payload.value.Obj? {
      var fields := payload.value.fields;
      if "MN" in fields { OneField(fields, "MN"); }
      if "MP" in fields { OneField(fields, "MP"); }
      if messageType in fields {
        OneField(fields, messageType);
        if ParsePlcMessage(payload) == Some((messageType, parts)) {
          assert Carries(payload, messageType, fields[messageType].text);
        }
      }
    }
  }

  ghost predicate CarriesKnown(payload: Option<Json>, messageType: string, value: string) {
    messageType in {"MN", "MP"} && Carries(payload, messageType, value) && value != ""
  }

  /** A received message is queued when it parses, yet it can be handed to Odoo only when its value has
      no trailing whitespace; otherwise every attempt fails before submission. */
  lemma QueuedMessageIsSubmittable(payload: Option<Json>)
    requires ParsePlcMessage(payload).Some?
    ensures exists kind, value :: CarriesKnown(payload, kind, value)
              && (PayloadFromRecord(payload).Some? <==> !IsSpace(value[|value| - 1]))
  {
    var fields := payload.value.fields;
    var kind := if "MN" in fields then "MN" else "MP";
    var value := fields[kind].text;
    MessageParser.AcceptedValueIsSubmittable(value);
    assert fields.Keys == {kind} by {
      assert |fields.Keys - {kind}| == 0;
    }
    assert fields == map[kind := Str(value)];
    assert CarriesKnown(payload, kind, value);
  }

  // ---------------------------------------------------------------------------------------------
  // Judging a response

  const NON_RETRYABLE_BUSINESS_ERRORS: set<string> := {"Nothing to check the availability for."}

  const INVALID_RESPONSE: string := "Invalid Odoo response: missing success flag"
  const OPERATION_FAILED: string := "Odoo business operation failed"

  /** get_odoo_business_error. */
  function BusinessError(response: Json): Option<string> {
    if !response.Obj? then Some(INVALID_RESPONSE)
    else if response.Get("success") == Bool(true) then None
    else if response.Get("success") == Bool(false) then
      var error := response.Get("error");
      if error.Str? && error.text != "" then Some(error.text) else Some(OPERATION_FAILED)
    else Some(INVALID_RESPONSE)
  }

  /** extract_ack. */
  function ExtractAck(response: Json): Option<string> {
    if !response.Obj? || response.Get("success") != Bool(true) then None
    else if !response.Get("result").Obj? then None
    else OptionalText(response.Get("result").Get("ACK"))
  }

  datatype Verdict = Success(ack: string) | Retryable | Final

  /** The branches of `_process_record` once a response has arrived. */
  function Judge(response: Json): Verdict {
    var error := BusinessError(response);
    if error.Some? then
      if FinalText(error.value) then Final else Retryable
    else
      match ExtractAck(response)
      case None => Final
      case Some(ack) => Success(ack)
  }

  /** The duplicate handler: parse_stored_odoo_response, the success test and extract_stored_ack. */
  function StoredAck(stored: Option<Text>): Option<string> {
    if stored.None? || stored.value.Unparseable? then None
    else
      var response := stored.value.value;
      if !response.Obj? || response.Get("success") != Bool(true) then None
      else if !response.Get("result").Obj? then None
      else OptionalText(response.Get("result").Get("ACK"))
  }

  // ---------------------------------------------------------------------------------------------
  // What a response says, in its own fields

  predicate Says(response: Json, success: bool) {
    response.Obj? && "success" in response.fields && response.fields["success"] == Bool(success)
  }

  predicate CarriesAck(response: Json, ack: string) {
    && response.Obj? && "result" in response.fields && response.fields["result"].Obj?
    && "ACK" in response.fields["result"].fields && response.fields["result"].fields["ACK"] == Str(ack) && ack != ""
  }

  predicate SaysNothingToCheck(response: Json) {
    && Says(response, false) && "error" in response.fields && response.fields["error"].Str?
    && Strip(response.fields["error"].text) == "Nothing to check the availability for."
  }

  /** A success without an ACK, and the one business error that no retry can mend. */
  ghost predicate MustNotBeRetried(response: Json) {
    (Says(response, true) && !(exists ack :: CarriesAck(response, ack))) || SaysNothingToCheck(response)
  }

  lemma AckIsWhatTheResponseSays(response: Json)
    ensures forall ack :: ExtractAck(response) == Some(ack) <==> Says(response, true) && CarriesAck(response, ack)
  {
  }

  /** The error text that must not be retried, up to surrounding whitespace. */
  predicate FinalText(text: string) { Strip(text) in NON_RETRYABLE_BUSINESS_ERRORS }

  lemma OnlyThisTextIsFinal(text: string)
    ensures FinalText(text) <==> Strip(text) == "Nothing to check the availability for."
  {
  }

  lemma OtherTextMayBeRetried(text: string)
    requires text != "" && Trim(text) && text != "Nothing to check the availability for."
    ensures !FinalText(text)
  {
    StripOfTrim(text);
  }

  lemma EndsShow(text: string, first: char, rest: string, last: char)
    requires text == [first] + rest + [last] && !IsSpace(first) && !IsSpace(last)
    ensures text != "" && Trim(text)
  {
  }

  lemma InvalidResponseMayBeRetried()
    ensures !FinalText(INVALID_RESPONSE)
  {
    EndsShow(INVALID_RESPONSE, 'I', "nvalid Odoo response: missing success fla", 'g');
    OtherTextMayBeRetried(INVALID_RESPONSE);
  }

  lemma OperationFailedMayBeRetried()
    ensures !FinalText(OPERATION_FAILED)
  {
    EndsShow(OPERATION_FAILED, 'O', "doo business operation faile", 'd');
    OtherTextMayBeRetried(OPERATION_FAILED);
  }

  lemma OwnTextsMayBeRetried()
    ensures !FinalText(INVALID_RESPONSE) && !FinalText(OPERATION_FAILED)
  {
    InvalidResponseMayBeRetried();
    OperationFailedMayBeRetried();
  }

  lemma FailureIsJudgedByItsText(response: Json)
    requires Says(response, false)
    ensures BusinessError(response).Some? && (FinalText(BusinessError(response).value) <==> SaysNothingToCheck(response))
  {
    var error := if "error" in response.fields then response.fields["error"] else Null;
    if error.Str? && error.text != "" {
      OnlyThisTextIsFinal(error.text);
    } else {
      OwnTextsMayBeRetried();
      assert Strip("") == "";
    }
  }

  lemma ErrorIsWhatTheResponseSays(response: Json)
    ensures BusinessError(response).None? <==> Says(response, true)
    ensures BusinessError(response).Some? ==> (FinalText(BusinessError(response).value) <==> SaysNothingToCheck(response))
  {
    if Says(response, false) {
      FailureIsJudgedByItsText(response);
    } else {
      OwnTextsMayBeRetried();
      assert BusinessError(response).Some? ==> BusinessError(response).value == INVALID_RESPONSE;
    }
  }

  /** The verdict, said in the fields of the response. */
  lemma VerdictIsWhatTheResponseSays(response: Json)
    ensures forall ack :: Judge(response) == Success(ack) <==> Says(response, true) && CarriesAck(response, ack)
    ensures Judge(response).Final? <==> MustNotBeRetried(response)
    ensures Judge(response).Retryable? <==> !Says(response, true) && !SaysNothingToCheck(response)
  {
    AckIsWhatTheResponseSays(response);
    ErrorIsWhatTheResponseSays(response);
    if ExtractAck(response).Some? {
      assert CarriesAck(response, ExtractAck(response).value);
    }
  }

  /** What the store answers duplicates from. */
  ghost predicate StoresAck(stored: Option<Text>, ack: string) {
    && stored.Some? && !stored.value.Unparseable?
    && Says(stored.value.value, true) && CarriesAck(stored.value.value, ack)
  }

  lemma StoredAckIsWhatTheTextSays(stored: Option<Text>, ack: string)
    ensures StoredAck(stored) == Some(ack) <==> StoresAck(stored, ack)
  {
  }

  // ---------------------------------------------------------------------------------------------
  // Dashboard metadata

  datatype Metadata = Metadata(
    customerId: Option<int>, customerName: Option<string>,
    operatorId: Option<int>, operatorName: Option<string>,
    numberOfOperators: Option<int>, batchNumber: Option<string>)

  const NO_METADATA := Metadata(None, None, None, None, None, None)

  /** extract_dashboard_metadata, which the worker applies to the live response. */
  function DashboardMetadata(response: Json): Metadata {
    if !response.Obj? || !response.Get("result").Obj? then NO_METADATA
    else
      var result := response.Get("result");
      Metadata(OptionalInt(result.Get("customer_id")), OptionalText(result.Get("customer_name")),
               OptionalInt(result.Get("operator_id")), OptionalText(result.Get("operator_name")),
               OptionalInt(result.Get("number_of_operators")), OptionalText(result.Get("batch_number")))
  }

  function MetadataInt(value: Json): Option<int> {
    if value == Null then None else if value.Int? then Some(value.n) else None
  }

  function MetadataStr(value: Json): Option<string> {
    if value == Null || value == Str("") then None else if value.Str? then Some(value.text) else None
  }

  /** _production_metadata_from_response, which the store applies to the text; it reads JSON only. */
  function MetadataFromText(text: Text): Metadata {
    if !text.Dumped? then NO_METADATA
    else
      var parsed := text.value;
      var result := if parsed.Obj? then parsed.Get("result") else Null;
      if !result.Obj? then NO_METADATA
      else
        Metadata(MetadataInt(result.Get("customer_id")), MetadataStr(result.Get("customer_name")),
                 MetadataInt(result.Get("operator_id")), MetadataStr(result.Get("operator_name")),
                 MetadataInt(result.Get("number_of_operators")), MetadataStr(result.Get("batch_number")))
  }

  /** mark_completed prefers the arguments and falls back to the stored text. */
  function Prefer(given: Metadata, stored: Metadata): Metadata {
    Metadata(if given.customerId.Some? then given.customerId else stored.customerId,
             if given.customerName.Some? then given.customerName else stored.customerName,
             if given.operatorId.Some? then given.operatorId else stored.operatorId,
             if given.operatorName.Some? then given.operatorName else stored.operatorName,
             if given.numberOfOperators.Some? then given.numberOfOperators else stored.numberOfOperators,
             if given.batchNumber.Some? then given.batchNumber else stored.batchNumber)
  }

  /** What is completed directly and what reconciliation later rebuilds from the stored text agree. */
  lemma MetadataSurvivesStorage(response: Json)
    ensures Prefer(DashboardMetadata(response), MetadataFromText(Dumped(response)))
            == MetadataFromText(Dumped(response))
  {
  }

  /** The ACK that duplicate replay reads back is the one the worker extracted, and there is one exactly
      when the worker judged the response a success. */
  lemma StoredAckIsExtractedAck(response: Json)
    ensures StoredAck(Some(Dumped(response))) == ExtractAck(response)
    ensures Judge(response).Success? <==> ExtractAck(response).Some?
    ensures Judge(response).Success? ==> StoredAck(Some(Dumped(response))) == Some(Judge(response).ack)
  {
  }
}
