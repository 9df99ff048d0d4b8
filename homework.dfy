/** The validation and formatting functions of the bot: the token gate, the answer of
    the review API, the response check and the status formatter. */
module Homework {
  import opened Wrappers
  import opened Json
  import opened Exceptions
  import opened Verdicts

  // ---------------------------------------------------------------- tokens

  /** An environment variable is truthy when it is set and not empty. */
  predicate IsSet(token: Option<string>) {
    token.Some? && token.value != ""
  }

  /** check_tokens: the value of `PRACTICUM_TOKEN or TELEGRAM_TOKEN or TELEGRAM_CHAT_ID`,
      i.e. the first truthy token, or the last one when none is. */
  function CheckTokens(practicum: Option<string>, telegram: Option<string>, chatId: Option<string>): (r: Option<string>)
    ensures IsSet(r) <==> IsSet(practicum) || IsSet(telegram) || IsSet(chatId)
    ensures IsSet(practicum) ==> r == practicum
    ensures !IsSet(practicum) && IsSet(telegram) ==> r == telegram
    ensures !IsSet(practicum) && !IsSet(telegram) ==> r == chatId
  {
    if IsSet(practicum) then practicum
    else if IsSet(telegram) then telegram
    else chatId
  }

  // ---------------------------------------------------------------- API answer

  /** What the HTTP layer delivered for one request: a RequestException, or a
      response with its status code and decoded JSON body. */
  datatype HttpOutcome = RequestFailed | Received(statusCode: int, body: Value)

  /** The request get_api_answer issues: the endpoint with `from_date` as the one parameter. */
  datatype Request = Request(url: string, fromDate: int)

  const Endpoint: string := "https://practicum.yandex.ru/api/user_api/homework_statuses/"
  const HttpOk: int := 200
  const HttpErrorPrefix: string := "Страница загружена с ошибками! Код страницы "

  function ApiRequest(timestamp: int): (r: Request)
    ensures r.fromDate == timestamp && r.url == Endpoint
  {
    Request(Endpoint, timestamp)
  }

  /** get_api_answer: a non-200 status raises HTTPStatusNotOK naming the code; a
      RequestException is swallowed and yields None; a 200 body is passed on unvalidated. */
  function GetApiAnswer(outcome: HttpOutcome): (r: Result<Value>)
    ensures r.Err? <==> outcome.Received? && outcome.statusCode != HttpOk
    ensures r.Err? ==> r.error == HTTPStatusNotOK(HttpErrorPrefix + IntToString(outcome.statusCode))
    ensures outcome.RequestFailed? ==> r == Ok(Null)
    ensures outcome.Received? && outcome.statusCode == HttpOk ==> r == Ok(outcome.body)
  {
    match outcome
    case RequestFailed => Ok(Null)
    case Received(code, body) =>
      if code != HttpOk then Err(HTTPStatusNotOK(HttpErrorPrefix + IntToString(code)))
      else Ok(body)
  }

  // ---------------------------------------------------------------- check_response

  const NotDictMessage: string := "Объект HTTP-ответа должен быть словарем!"
  const NoHomeworksMessage: string := "Ключ \"homeworks\" отсутсвует в словаре!"
  const NoCurrentDateMessage: string := "Ключ \"current_date\" отсутсвует в словаре!"
  const NotListMessage: string := "Объект \"homeworks\" должен быть списком!"

  /** The shape check_response accepts: a dict holding `homeworks` and `current_date`
      whose `homeworks` is a list. Other keys and the value of `current_date` are free. */
  predicate WellFormedResponse(v: Value) {
    && v.Dict?
    && "homeworks" in v.fields
    && "current_date" in v.fields
    && v.fields["homeworks"].List?
  }

  /** check_response: returns its argument unchanged when it is well formed, else raises
      the error of the first check that fails. */
  function CheckResponse(response: Value): (r: Result<Value>)
    ensures r.Ok? <==> WellFormedResponse(response)
    ensures r.Ok? ==> r.value == response
  {
    if !response.Dict? then Err(TypeError(NotDictMessage))
    else if "homeworks" !in response.fields then Err(ResponseContentError(NoHomeworksMessage))
    else if "current_date" !in response.fields then Err(ResponseContentError(NoCurrentDateMessage))
    else if !response.fields["homeworks"].List? then Err(TypeError(NotListMessage))
    else Ok(response)
  }

  /** The four checks of check_response, each judged on its own, in source order. */
  predicate CheckFails(k: nat, v: Value) {
    match k
    case 0 => !v.Dict?
    case 1 => v.Dict? && "homeworks" !in v.fields
    case 2 => v.Dict? && "current_date" !in v.fields
    case 3 => v.Dict? && "homeworks" in v.fields && !v.fields["homeworks"].List?
    case _ => false
  }

  function CheckError(k: nat): Error {
    match k
    case 0 => TypeError(NotDictMessage)
    case 1 => ResponseContentError(NoHomeworksMessage)
    case 2 => ResponseContentError(NoCurrentDateMessage)
    case _ => TypeError(NotListMessage)
  }

  /** check_response fails exactly when some check fails, and then with the error of the
      first failing check, whatever the later checks would say. */
  lemma FirstFailingCheckDecides(v: Value)
    ensures CheckResponse(v).Err? <==> exists k: nat :: k < 4 && CheckFails(k, v)
    ensures forall k: nat :: k < 4 && CheckFails(k, v) && (forall j: nat :: j < k ==> !CheckFails(j, v))
              ==> CheckResponse(v) == Err(CheckError(k))
  {
    if CheckResponse(v).Err? {
      if !v.Dict? { assert CheckFails(0, v); }
      else if "homeworks" !in v.fields { assert CheckFails(1, v); }
      else if "current_date" !in v.fields { assert CheckFails(2, v); }
      else { assert CheckFails(3, v); }
    }
    forall k: nat | k < 4 && CheckFails(k, v) && (forall j: nat :: j < k ==> !CheckFails(j, v))
      ensures CheckResponse(v) == Err(CheckError(k))
    {
      if k >= 1 { assert !CheckFails(0, v); }
      if k >= 2 { assert !CheckFails(1, v); }
      if k >= 3 { assert !CheckFails(2, v); }
    }
  }

  /** A dict whose `homeworks` is not a list and which lacks `current_date` is rejected
      for the missing key, not for the type of `homeworks`. */
  lemma MissingDateBeatsNonList(fields: map<string, Value>)
    requires "homeworks" in fields && !fields["homeworks"].List? && "current_date" !in fields
    ensures CheckResponse(Dict(fields)) == Err(ResponseContentError(NoCurrentDateMessage))
  {
    FirstFailingCheckDecides(Dict(fields));
    assert CheckFails(2, Dict(fields));
  }

  /** Adding or replacing any key other than `homeworks` keeps a response accepted. */
  lemma ExtraKeysAccepted(fields: map<string, Value>, key: string, x: Value)
    requires WellFormedResponse(Dict(fields)) && key != "homeworks"
    ensures CheckResponse(Dict(fields[key := x])) == Ok(Dict(fields[key := x]))
  {
  }

  // ---------------------------------------------------------------- parse_status

  const NoNameMessage: string := "Ключ \"homework_name\" отсутсвует в словаре!"
  const StatusErrorMessage: string := "Ошибка статуса"

  const NotSubscriptable: string := "' object is not subscriptable"

  /** The TypeError text Python gives for `x['status']` on a value that is not a dict:
      for None, bools and ints it opens with the quoted type name. */
  function SubscriptError(v: Value): (r: string)
    requires !v.Dict?
    ensures v.Null? || v.Bool? || v.Int? ==> "'" + TypeName(v) <= r && r[|TypeName(v)| + 1..] == NotSubscriptable
  {
    match v
    case Null | Bool(_) | Int(_) =>
      ConcatStartsWith("'" + TypeName(v), NotSubscriptable);
      "'" + TypeName(v) + NotSubscriptable
    case Str(_) => "string indices must be integers, not 'str'"
    case List(_) => "list indices must be integers or slices, not str"
  }

  /** Python's `str()` of a homework name inside the f-string; lists and dicts get a stand-in. */
  function NameText(v: Value): (r: string)
    ensures v.Str? ==> r == v.s
    ensures v.Int? ==> r == IntToString(v.i)
  {
    match v
    case Str(s) => s
    case Int(i) => IntToString(i)
    case Bool(b) => if b then "True" else "False"
    case Null => "None"
    case List(_) => "<list>"
    case Dict(_) => "<dict>"
  }

  /** A record parse_status turns into a message: a dict with `status` and `homework_name`
      whose status is one of the table's codes. */
  predicate KnownRecord(h: Value) {
    && h.Dict?
    && "status" in h.fields
    && "homework_name" in h.fields
    && h.fields["status"].Str?
    && h.fields["status"].s in HomeworkVerdicts
  }

  /** parse_status: reads `status` first, then requires `homework_name`, then requires a
      known, non-empty status; only then formats the message. */
  function ParseStatus(homework: Value): (r: Result<string>)
    ensures r.Ok? <==> KnownRecord(homework)
  {
    if !homework.Dict? then Err(TypeError(SubscriptError(homework)))
    else if "status" !in homework.fields then Err(KeyError("status"))
    else
      var status := homework.fields["status"];
      if "homework_name" !in homework.fields then Err(KeyError(NoNameMessage))
      // `status not in HOMEWORK_VERDICTS` hashes the status: a list or dict cannot be hashed
      else if status.List? then Err(TypeError("unhashable type: 'list'"))
      else if status.Dict? then Err(TypeError("unhashable type: 'dict'"))
      else if !(status.Str? && status.s in HomeworkVerdicts) || !Truthy(status) then Err(StatusError(StatusErrorMessage))
      else
        var verdict := HomeworkVerdicts[status.s];
        Ok(StatusMessage(NameText(homework.fields["homework_name"]), verdict))
  }

  /** A record without `status` fails on that key, whether or not it has a name. */
  lemma MissingStatusFirst(fields: map<string, Value>)
    requires "status" !in fields
    ensures ParseStatus(Dict(fields)) == Err(KeyError("status"))
  {
  }

  /** A record with `status` but no `homework_name` fails on the name before its status
      value is looked at, even when that value is unknown or unhashable. */
  lemma MissingNameBeforeStatusValue(fields: map<string, Value>)
    requires "status" in fields && "homework_name" !in fields
    ensures ParseStatus(Dict(fields)) == Err(KeyError(NoNameMessage))
  {
  }

  /** Any hashable status outside the table, the empty string included, raises
      StatusError, and no message is produced. */
  lemma UnknownStatusRejected(fields: map<string, Value>)
    requires "status" in fields && "homework_name" in fields
    requires !fields["status"].List? && !fields["status"].Dict?
    requires !(fields["status"].Str? && fields["status"].s in HomeworkVerdicts)
    ensures ParseStatus(Dict(fields)) == Err(StatusError(StatusErrorMessage))
  {
  }

  /** The `not status` half of the status test never decides: a status in the table is
      never empty, so the test is membership alone. */
  lemma EmptinessTestRedundant(status: Value)
    requires status.Str? && status.s in HomeworkVerdicts
    ensures Truthy(status)
  {
    VerdictTableClosed(status.s);
  }

  /** The status a known record carries. */
  function RecordStatus(h: Value): (s: Status)
    requires KnownRecord(h)
    ensures Code(s) == h.fields["status"].s
  {
    FromCode(h.fields["status"].s).value
  }

  /** A successful message is exactly the fixed format around the record's name and the
      verdict of its status, and decoding it gives back that name and that status. */
  lemma ParseStatusMessage(h: Value)
    requires KnownRecord(h)
    ensures ParseStatus(h) == Ok(StatusMessage(NameText(h.fields["homework_name"]), Verdict(RecordStatus(h))))
    ensures DecodeMessage(ParseStatus(h).value) == Some((NameText(h.fields["homework_name"]), RecordStatus(h)))
  {
    var status := h.fields["status"];
    EmptinessTestRedundant(status);
    DecodeStatusMessage(NameText(h.fields["homework_name"]), RecordStatus(h));
  }

  /** For the same name, two different known statuses give different messages. */
  lemma DistinctStatusesDistinctMessages(h1: Value, h2: Value)
    requires KnownRecord(h1) && KnownRecord(h2)
    requires h1.fields["homework_name"] == h2.fields["homework_name"]
    ensures ParseStatus(h1) == ParseStatus(h2) <==> h1.fields["status"] == h2.fields["status"]
  {
    ParseStatusMessage(h1);
    ParseStatusMessage(h2);
  }
}
