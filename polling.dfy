/** The body of main(): the start-up token gate and the polling loop, whose cycles fetch,
    validate and format the newest homework and report every exception as a message. */
module Polling {
  import opened Wrappers
  import opened Json
  import opened Exceptions
  import opened Verdicts
  import opened Homework

  const FailurePrefix: string := "Сбой в работе программы: "

  /** The text sent when a cycle raised `error`; it can never be taken for a status
      notification. */
  function FailureMessage(error: Error): (m: string)
    ensures FailurePrefix <= m && DecodeMessage(m) == None
    ensures m[|FailurePrefix|..] == Render(error)
  {
    assert FailurePrefix <= FailurePrefix + Render(error);
    assert FailurePrefix[0] != MessagePrefix[0];
    FailurePrefix + Render(error)
  }

  /** The `try` block of one cycle: the messages it sends, or the exception it raises.
      An exception of get_api_answer or check_response leaves the block unchanged. */
  function TryBlock(outcome: HttpOutcome): (r: Result<seq<string>>)
    ensures r.Ok? ==> |r.value| <= 1
    ensures GetApiAnswer(outcome).Err? ==> r == Err(GetApiAnswer(outcome).error)
    ensures (GetApiAnswer(outcome).Ok? && CheckResponse(GetApiAnswer(outcome).value).Err?) ==>
              r == Err(CheckResponse(GetApiAnswer(outcome).value).error)
  {
    match GetApiAnswer(outcome)
    case Err(e) => Err(e)
    case Ok(response) =>
      match CheckResponse(response)
      case Err(e) => Err(e)
      case Ok(checked) =>
        var homeworks := checked.fields["homeworks"];
        if !Truthy(homeworks) then Ok([])
        else
          match ParseStatus(homeworks.items[0])
          case Err(e) => Err(e)
          case Ok(message) => Ok([message])
  }

  /** What one cycle does: the request it makes and the messages it attempts to send. */
  datatype CycleResult = CycleResult(request: Request, sent: seq<string>)

  /** One pass of the `while True` body, with `except Exception` turning any exception
      into a failure report. */
  function Cycle(timestamp: int, outcome: HttpOutcome): (c: CycleResult)
    ensures c.request == ApiRequest(timestamp)
    ensures |c.sent| <= 1
  {
    var sent := match TryBlock(outcome)
      case Ok(messages) => messages
      case Err(e) => [FailureMessage(e)];
    CycleResult(ApiRequest(timestamp), sent)
  }

  /** A 200 answer whose body is accepted and whose `homeworks` list is empty. */
  predicate QuietOutcome(outcome: HttpOutcome) {
    && outcome.Received?
    && outcome.statusCode == HttpOk
    && WellFormedResponse(outcome.body)
    && outcome.body.fields["homeworks"].items == []
  }

  /** A cycle stays silent exactly on an accepted, empty answer; every other cycle
      attempts exactly one message. */
  lemma CycleSilentIffQuiet(timestamp: int, outcome: HttpOutcome)
    ensures Cycle(timestamp, outcome).sent == [] <==> QuietOutcome(outcome)
    ensures !QuietOutcome(outcome) ==> |Cycle(timestamp, outcome).sent| == 1
  {
  }

  /** An accepted answer with homeworks sends what parse_status makes of the first one
      (or its failure report); the rest of the list and `current_date` play no part. */
  lemma CycleUsesFirstHomeworkOnly(timestamp: int, body: Value)
    requires WellFormedResponse(body) && body.fields["homeworks"].items != []
    ensures var first := body.fields["homeworks"].items[0];
      Cycle(timestamp, Received(HttpOk, body)).sent ==
        match ParseStatus(first)
        case Ok(m) => [m]
        case Err(e) => [FailureMessage(e)]
  {
    var first := body.fields["homeworks"].items[0];
    assert GetApiAnswer(Received(HttpOk, body)) == Ok(body);
    assert CheckResponse(body) == Ok(body);
    assert TryBlock(Received(HttpOk, body)) ==
      match ParseStatus(first)
      case Ok(m) => Ok([m])
      case Err(e) => Err(e);
  }

  /** A known newest homework is announced with the formatted verdict message. */
  lemma CycleAnnouncesKnownStatus(timestamp: int, body: Value)
    requires WellFormedResponse(body) && body.fields["homeworks"].items != []
    requires KnownRecord(body.fields["homeworks"].items[0])
    ensures var h := body.fields["homeworks"].items[0];
      Cycle(timestamp, Received(HttpOk, body)).sent ==
        [StatusMessage(NameText(h.fields["homework_name"]), Verdict(RecordStatus(h)))]
  {
    CycleUsesFirstHomeworkOnly(timestamp, body);
    ParseStatusMessage(body.fields["homeworks"].items[0]);
  }

  /** Whatever the `try` block raises is reported as exactly one failure message;
      otherwise the block's own messages are the cycle's. */
  lemma CycleReportsTryBlock(timestamp: int, outcome: HttpOutcome)
    ensures TryBlock(outcome).Err? ==> Cycle(timestamp, outcome).sent == [FailurePrefix + Render(TryBlock(outcome).error)]
    ensures TryBlock(outcome).Ok? ==> Cycle(timestamp, outcome).sent == TryBlock(outcome).value
  {
  }

  /** A 200 body that check_response rejects is reported with that check's error,
      e.g. `{"homeworks": "not-a-list"}` with the missing-`current_date` error. */
  lemma RejectedBodyReported(timestamp: int, body: Value)
    requires CheckResponse(body).Err?
    ensures Cycle(timestamp, Received(HttpOk, body)).sent == [FailurePrefix + Render(CheckResponse(body).error)]
  {
    CycleReportsTryBlock(timestamp, Received(HttpOk, body));
  }

  /** A RequestException makes get_api_answer return None, which check_response rejects
      with a TypeError; that is what gets reported. */
  lemma RequestFailureReported(timestamp: int)
    ensures Cycle(timestamp, RequestFailed).sent == [FailurePrefix + NotDictMessage]
  {
  }

  /** A non-200 status escapes get_api_answer as HTTPStatusNotOK and is reported with its code. */
  lemma HttpErrorReported(timestamp: int, code: int, body: Value)
    requires code != HttpOk
    ensures Cycle(timestamp, Received(code, body)).sent == [FailurePrefix + (HttpErrorPrefix + IntToString(code))]
  {
  }

  /** The messages of a sequence of steps, each step's after the previous one's. */
  function Concat<T>(f: T -> seq<string>, xs: seq<T>): seq<string> {
    if xs == [] then [] else f(xs[0]) + Concat(f, xs[1..])
  }

  lemma {:induction false} ConcatAppend<T>(f: T -> seq<string>, xs: seq<T>, ys: seq<T>)
    ensures Concat(f, xs + ys) == Concat(f, xs) + Concat(f, ys)
  {
    if xs == [] {
      assert xs + ys == ys;
    } else {
      assert (xs + ys)[0] == xs[0] && (xs + ys)[1..] == xs[1..] + ys;
      ConcatAppend(f, xs[1..], ys);
    }
  }

  function Repeat<T>(x: T, n: nat): (r: seq<T>)
    ensures |r| == n && forall k :: 0 <= k < n ==> r[k] == x
  {
    if n == 0 then [] else [x] + Repeat(x, n - 1)
  }

  lemma {:induction false} ConcatRepeat<T>(f: T -> seq<string>, x: T, n: nat)
    requires |f(x)| == 1
    ensures Concat(f, Repeat(x, n)) == Repeat(f(x)[0], n)
  {
    if n > 0 {
      assert Repeat(x, n)[1..] == Repeat(x, n - 1);
      ConcatRepeat(f, x, n - 1);
    }
  }

  /** How many elements satisfy `p`. */
  function CountWhere<T>(p: T -> bool, xs: seq<T>): (n: nat)
    ensures n <= |xs|
  {
    if xs == [] then 0 else (if p(xs[0]) then 1 else 0) + CountWhere(p, xs[1..])
  }

  lemma {:induction false} ConcatCount<T>(f: T -> seq<string>, silent: T -> bool, xs: seq<T>)
    requires forall x :: |f(x)| == if silent(x) then 0 else 1
    ensures |Concat(f, xs)| == |xs| - CountWhere(silent, xs)
  {
    if xs != [] {
      ConcatCount(f, silent, xs[1..]);
    }
  }

  /** The messages one cycle with the given timestamp sends for each fetch outcome. */
  function Sends(timestamp: int): HttpOutcome -> seq<string> {
    outcome => Cycle(timestamp, outcome).sent
  }

  /** The messages of consecutive cycles, all made with the same timestamp. */
  function RunMessages(timestamp: int, outcomes: seq<HttpOutcome>): seq<string> {
    Concat(Sends(timestamp), outcomes)
  }

  /** Running cycles one after the other sends the messages of the first run, then those of the second. */
  lemma RunMessagesAppend(timestamp: int, xs: seq<HttpOutcome>, ys: seq<HttpOutcome>)
    ensures RunMessages(timestamp, xs + ys) == RunMessages(timestamp, xs) + RunMessages(timestamp, ys)
  {
    ConcatAppend(Sends(timestamp), xs, ys);
  }

  lemma ConcatOne<T>(f: T -> seq<string>, x: T)
    ensures Concat(f, [x]) == f(x)
  {
    assert [x][1..] == [];
  }

  /** One more cycle appends that cycle's messages. */
  lemma RunMessagesSnoc(timestamp: int, outcomes: seq<HttpOutcome>, outcome: HttpOutcome)
    ensures RunMessages(timestamp, outcomes + [outcome]) == RunMessages(timestamp, outcomes) + Cycle(timestamp, outcome).sent
  {
    ConcatAppend(Sends(timestamp), outcomes, [outcome]);
    ConcatOne(Sends(timestamp), outcome);
    assert Sends(timestamp)(outcome) == Cycle(timestamp, outcome).sent;
  }

  /** The messages of the first i + 1 cycles extend those of the first i by cycle i's. */
  lemma RunMessagesPrefix(timestamp: int, outcomes: seq<HttpOutcome>, i: nat)
    requires i < |outcomes|
    ensures RunMessages(timestamp, outcomes[..i + 1]) == RunMessages(timestamp, outcomes[..i]) + Cycle(timestamp, outcomes[i]).sent
  {
    assert outcomes[..i + 1] == outcomes[..i] + [outcomes[i]];
    RunMessagesSnoc(timestamp, outcomes[..i], outcomes[i]);
  }

  /** No de-duplication: the same answer on n cycles sends the same message n times. */
  lemma NoDeduplication(timestamp: int, outcome: HttpOutcome, n: nat)
    requires !QuietOutcome(outcome)
    ensures RunMessages(timestamp, Repeat(outcome, n)) == Repeat(Cycle(timestamp, outcome).sent[0], n)
  {
    CycleSilentIffQuiet(timestamp, outcome);
    ConcatRepeat(Sends(timestamp), outcome, n);
  }

  /** Every cycle but the quiet ones sends exactly one message. */
  lemma RunMessagesCount(timestamp: int, outcomes: seq<HttpOutcome>)
    ensures |RunMessages(timestamp, outcomes)| == |outcomes| - CountWhere(QuietOutcome, outcomes)
  {
    forall outcome ensures |Sends(timestamp)(outcome)| == if QuietOutcome(outcome) then 0 else 1 {
      CycleSilentIffQuiet(timestamp, outcome);
    }
    ConcatCount(Sends(timestamp), QuietOutcome, outcomes);
  }

  /** main() over the first |outcomes| cycles of its loop. It exits at once when
      check_tokens is falsy; otherwise it fixes the timestamp from the clock reading
      `now` and runs the loop. */
  method PollMain(practicum: Option<string>, telegram: Option<string>, chatId: Option<string>,
                  now: int, outcomes: seq<HttpOutcome>)
    returns (exited: bool, requests: seq<Request>, sent: seq<string>)
    ensures exited <==> !IsSet(practicum) && !IsSet(telegram) && !IsSet(chatId)
    ensures exited ==> requests == [] && sent == []
    ensures !exited ==> |requests| == |outcomes|
    ensures !exited ==> forall k :: 0 <= k < |requests| ==> requests[k] == ApiRequest(now)
    ensures !exited ==> sent == RunMessages(now, outcomes)
  {
    exited := !IsSet(CheckTokens(practicum, telegram, chatId));
    if exited {
      return exited, [], [];
    }
    var timestamp := now;
    requests, sent := PollLoop(timestamp, outcomes);
  }

  /** The `while True` loop of main() for one cycle per fetch outcome: every request
      carries the same timestamp, and the messages are those of the cycles in order. */
  method PollLoop(timestamp: int, outcomes: seq<HttpOutcome>) returns (requests: seq<Request>, sent: seq<string>)
    ensures |requests| == |outcomes|
    ensures forall k :: 0 <= k < |requests| ==> requests[k] == ApiRequest(timestamp)
    ensures sent == RunMessages(timestamp, outcomes)
  {
    requests, sent := [], [];
    var i := 0;
    while i < |outcomes|
      invariant 0 <= i <= |outcomes|
      invariant |requests| == i
      invariant forall k :: 0 <= k < i ==> requests[k] == ApiRequest(timestamp)
      invariant sent == RunMessages(timestamp, outcomes[..i])
    {
      var cycle := Cycle(timestamp, outcomes[i]);
      RunMessagesPrefix(timestamp, outcomes, i);
      requests := requests + [cycle.request];
      sent := sent + cycle.sent;
      i := i + 1;
    }
    assert outcomes[..i] == outcomes;
  }
}
