# homework_bot — a Dafny model of the polling core

The bot polls the Practicum homework-status API and forwards the review status of the
newest homework to one Telegram chat. This project models the logic of `homework.py`:
the verdict table `HOMEWORK_VERDICTS`, the token gate `check_tokens`, the answer
classification of `get_api_answer`, the structural check `check_response`, the message
formatter `parse_status`, and the body of `main()` (the start-up gate and its
`while True` loop, run over a finite sequence of fetch results).

Modules, leaves first:

- `Wrappers` (`wrappers.dfy`): `Option`.
- `Json` (`json.dfy`): decoded JSON values (`None`, bool, int, str, list, dict), Python truthiness, `str()` of an int.
- `Exceptions` (`exceptions.dfy`): the exceptions the core raises (`TypeError`, `KeyError`, and the `ResponseContentError`, `HTTPStatusNotOK` and `StatusError` classes of `exceptions.py`), `Result`, and `str(error)`.
- `Verdicts` (`verdicts.dfy`): the three statuses, the verdict table, the notification format and its decoder `DecodeMessage`, which is the inverse of the format.
- `Homework` (`homework.dfy`): `CheckTokens`, `GetApiAnswer`, `CheckResponse`, `ParseStatus` and the lemmas about them.
- `Polling` (`polling.dfy`): the `try` block and one cycle of the loop, `RunMessages` (the messages of consecutive cycles), the method `PollMain`, which models `main()`, and the method `PollLoop`, which models its `while True` loop.

The network is an input: each cycle receives an `HttpOutcome`, either a `RequestException`
or a status code with a decoded body. Sending to Telegram is an output: a cycle returns the
messages it attempts to send. The clock reading that fixes `timestamp` is a parameter.

The model follows the code as written:

- `check_tokens` returns `PRACTICUM_TOKEN or TELEGRAM_TOKEN or TELEGRAM_CHAT_ID`, so `main()` goes on when any single token is set.
- `timestamp` is set once before the loop and keeps its value. Every answer with a non-empty `homeworks` sends a message about `homeworks[0]`, on every cycle.
- `check_response` requires `current_date` and checks it before the list test on `homeworks`. A non-dict raises `TypeError`.
- The body's `error` and `code` fields are ignored.
- `get_api_answer` logs a `RequestException` and returns `None`, which `check_response` then rejects with a `TypeError`.
- Messages are the Russian texts of the code.

## Model

| member | source | states |
|---|---|---|
| `Homework.ApiRequest` | homework.py:53-57 | every request goes to the homework-status endpoint with `from_date` equal to the timestamp it was given |
| `Homework.CheckTokens` | homework.py:36-38 | the result is truthy iff at least one of the three tokens is set and non-empty; it is the first truthy token, else the chat id (Python `or` chain) |
| `Homework.GetApiAnswer` | homework.py:51-66 | raises `HTTPStatusNotOK` carrying the code exactly when a response is not 200; a `RequestException` yields `None`; a 200 body is returned unvalidated |
| `Homework.CheckResponse` | homework.py:69-79 | accepts exactly the dicts with `homeworks` and `current_date` whose `homeworks` is a list, and then returns the input unchanged |
| `Homework.FirstFailingCheckDecides` | homework.py:71-78 | the response is rejected iff one of the four checks fails, and then with the error of the first failing check in source order |
| `Homework.MissingDateBeatsNonList` | homework.py:73-78 | a dict with a non-list `homeworks` and no `current_date` gets `ResponseContentError`, not `TypeError` |
| `Homework.ExtraKeysAccepted` | homework.py:69-79 | adding or replacing any key other than `homeworks` (including the value of `current_date`) keeps an accepted response accepted |
| `Homework.SubscriptError` | homework.py:84 | subscripting a `None`, bool or int record raises the `TypeError` that names the record's Python type followed by "' object is not subscriptable" |
| `Homework.NameText` | homework.py:91 | a string name is inserted verbatim, and an int name as its decimal `str()` |
| `Homework.ParseStatus` | homework.py:82-91 | succeeds iff the record is a dict with `status` and `homework_name` whose status is one of the table's codes |
| `Homework.MissingStatusFirst` | homework.py:84-86 | a record without `status` fails with `KeyError('status')`, whether or not `homework_name` is present |
| `Homework.MissingNameBeforeStatusValue` | homework.py:84-86 | a record with `status` but no `homework_name` fails with the name `KeyError` whatever the status value |
| `Homework.UnknownStatusRejected` | homework.py:87-88 | any hashable status outside the table, the empty string included, raises `StatusError` and yields no message |
| `Homework.EmptinessTestRedundant` | homework.py:87 | a status found in the table is never empty, so the `not status` test never decides |
| `Homework.ParseStatusMessage` | homework.py:89-91 | a known record yields exactly the fixed format around its name and its status's verdict, and decoding that message gives back the name and status |
| `Homework.DistinctStatusesDistinctMessages` | homework.py:89-91 | for one homework name, two known records give the same message iff their statuses are equal |
| `Exceptions.Render` | homework.py:112 | `str()` of an exception is its message, and of a `KeyError` its key between single quotes |
| `Json.IntToString` | homework.py:62 | `str()` of an int is the canonical decimal digits denoting its magnitude (no leading zero except for 0 itself), after a minus sign exactly when it is negative |
| `Json.IntToStringInjective` | homework.py:62 | two ints have the same `str()` iff they are equal |
| `Verdicts.FromCode` | homework.py:29-33 | a code is recognised iff it is a key of `HOMEWORK_VERDICTS`, and the recognised status has that code and that verdict |
| `Verdicts.VerdictTableClosed` | homework.py:29-33 | the table's keys are exactly the three status codes; the empty string is not a key |
| `Verdicts.VerdictsDistinct` | homework.py:29-33 | the three verdict texts are pairwise distinct |
| `Verdicts.StatusMessage` | homework.py:90-91 | the notification starts with the fixed prefix and ends with the closing quote, a full stop, a space and the verdict |
| `Verdicts.DecodeStatusMessage` | homework.py:90-91 | decoding the notification for any name and status recovers that name and status exactly |
| `Verdicts.DecodedMessageIsStatusMessage` | homework.py:90-91 | every string the decoder accepts is the notification for what it decodes to |
| `Verdicts.StatusMessageInjective` | homework.py:90-91 | two notifications are equal iff their names and statuses are equal |
| `Polling.FailureMessage` | homework.py:111-114 | the failure report is the failure prefix followed by `str()` of the error, and never decodes as a status notification |
| `Polling.TryBlock` | homework.py:103-110 | the `try` block sends at most one message; an exception of `get_api_answer` or `check_response` leaves it unchanged |
| `Polling.Cycle` | homework.py:103-116 | one cycle requests with the unchanged timestamp and attempts at most one message |
| `Polling.CycleReportsTryBlock` | homework.py:103-114 | a cycle sends the messages of its `try` block, or, when the block raises, exactly one report: the failure prefix followed by `str()` of that exception |
| `Polling.RejectedBodyReported` | homework.py:104-114 | a 200 body that `check_response` rejects ends in exactly one report carrying that check's error |
| `Polling.CycleSilentIffQuiet` | homework.py:105-114 | a cycle sends nothing iff the answer is a 200 with an accepted body and an empty `homeworks`; otherwise it sends exactly one message |
| `Polling.CycleUsesFirstHomeworkOnly` | homework.py:105-108 | with a non-empty `homeworks`, the message depends on `homeworks[0]` only: its notification or the report of its parse error |
| `Polling.CycleAnnouncesKnownStatus` | homework.py:106-108 | a known newest record is announced with the verdict notification for its name and status |
| `Polling.RequestFailureReported` | homework.py:104-114 | a `RequestException` ends in a report of the `TypeError` raised by `check_response` on `None` |
| `Polling.HttpErrorReported` | homework.py:59-63 | a non-200 status ends in a report naming the code |
| `Polling.RunMessagesAppend` | homework.py:102-116 | the messages of two runs of cycles, one after the other, are the concatenation of their messages |
| `Polling.NoDeduplication` | homework.py:102-116 | the same non-quiet answer on n cycles sends the same message n times |
| `Polling.RunMessagesCount` | homework.py:102-116 | a run sends exactly one message per cycle except on accepted answers with an empty `homeworks` |
| `Polling.PollMain` | homework.py:94-116 | exits, with no request and no message, iff all three tokens are absent or empty; otherwise makes one request per cycle, all with the start-up clock reading, and sends exactly the messages of its cycles |
| `Polling.PollLoop` | homework.py:101-116 | the loop makes one request per cycle, every one with the timestamp fixed before the loop, and sends exactly the messages of its cycles in order |

## Left out

- Loading the environment and module globals (`load_dotenv`, `os.getenv`): the three tokens are parameters of `CheckTokens` and `PollMain`.
- The HTTP transport (`requests.get`, the `Authorization` header, `response.json()`): replaced by the `HttpOutcome` input. A body that is not valid JSON is not modelled, because whether its decode error is a `RequestException` depends on the version of `requests`.
- JSON numbers with a fraction part (Python floats) are not among the modelled values.
- `send_message` and the Telegram `Bot`: sending is recorded as an attempted message. A failed send is not modelled. In the code, a send that raises inside the `try` is reported like any other error, and one that raises inside the `except` ends `main()`. Its `except MessageSendingError` re-wrap depends on library behaviour outside this repository.
- `time.sleep(RETRY_PERIOD)`, `sys.exit`, logging and the `__main__` set-up: timing and I/O. `PollMain` runs the loop for a finite number of cycles instead of forever.
- `time.time()`: the start-up clock reading is the parameter `now` of `PollMain`.
- `Homework.ParseStatus`: for a list or dict `homework_name` the message carries a stand-in text instead of Python's `str()` rendering; string, int, bool and `None` names are rendered as Python renders them.
- The interpreter's own `TypeError` texts (subscripting a non-dict, hashing a list or dict) follow Python 3.11 wording; other Python versions word them differently.
- `Polling.PollMain`: `Bot(token=TELEGRAM_TOKEN)` is assumed to succeed whatever the token holds, so with only `PRACTICUM_TOKEN` set the model goes on to make requests; the bot library's own validation of the token is outside this repository.
- `Exceptions.Render`: `str()` of a `KeyError` is modelled as its argument in single quotes, which is Python's repr for the two keys used here but not for strings containing quotes or backslashes.
- `Homework.NameText`: the contract states the rendering of string and int names only; `None` and bool names are rendered as Python renders them in the body, and list and dict names get the stand-in texts named above.
- `Homework.SubscriptError`: the contract states the text for `None`, bool and int records; the texts for str and list records are fixed in the body.
- `Verdicts.StatusMessage`: the contract states the prefix and the ending of the notification; that the name sits between them is stated by `Verdicts.DecodeStatusMessage` and `Verdicts.StatusMessageInjective`.
