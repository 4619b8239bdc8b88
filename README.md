# Exo cluster pipe, modelled in Dafny

The Exo connector is a pipe for Open WebUI. It takes a chat request body, checks the
conversation-turn limit and the presence of messages, and posts an OpenAI-style
chat-completion request to an exo cluster endpoint. From the response it takes
`choices[0].message.content`, removes the `<|eot_id|>` end-of-turn marker, and appends
the answer to the request's `messages` as an assistant message. Along the way it reports
progress to an optional status emitter. Non-terminal events are throttled by a minimum
interval; terminal (`done`) events are always delivered.

The model has four modules:

- `Json` (json.dfy) holds decoded JSON values and the Python operations the pipe applies
  to them: truthiness, `len`, `dict.get`, and subscripts `x["k"]` / `x[0]` with their
  `KeyError`, `IndexError` and `TypeError` outcomes. The small `Wrappers` module
  (wrappers.dfy) holds `Option`, used for the payload a call may or may not post.
- `PyStr` (pystr.dfy) holds `str(n)` of an integer, with a decimal reading it round-trips
  through, and `s.replace(pat, "")` as a left-to-right scan (`RemoveFrom`), characterised by its
  leftmost-occurrence behaviour.
- `ExoPipe` (exo_pipe.dfy) holds the valves (configuration), status events, the throttle
  decision `Delivers`, and its fold over a series of attempts, `Run`. It also holds the
  payload (`ModelFor`, `Copied`, `PayloadFor`, the loop method `BuildPayload`), the answer's
  path (`Extract`), the marker stripping (`Clean`), and `Respond`, which is everything one
  call of `pipe` decides. The class `Forwarder` holds `valves` and `lastEmitTime`. Its
  methods `EmitStatus` and `Pipe` change the emitter's events, the last-emit time and the
  caller's body in place, and are proved against those functions. `Sink` (the emitter) and
  `Body` (the request dictionary) are the caller's objects that `Pipe` changes.
- `ExoPipeProperties` (exo_pipe_properties.dfy) holds what the pipe promises, stated as
  lemmas about those functions. It ends with a client method that drives `Forwarder.Pipe`
  through one successful call.

The clock is a parameter: the i-th emit attempt of a call reads `clock(i)`. The HTTP
exchange is also a parameter, `Transport`: either `Failure(detail)`, a `RequestException`
with its text, or `Delivered(json)`, the decoded body of a 2xx response. An exception the
source does not catch is modelled as the reply `Raised`, not excluded by a precondition.
Examples are `len()` of a non-sized `messages` value, subscripting the wrong kind of JSON
value, `.replace` on non-string content, and `.append` on a non-list.

Behaviour the code has and a reader might not expect, all modelled as written:

- The model falls back to the default whenever `body["model"]` is falsy. This includes an
  empty string, because the code uses `or`.
- The turn limit is checked only when `__user__` is truthy. An empty user dictionary skips
  it too.
- A caller with a negative `max_turns` is refused even with no messages, because the turn
  check comes first.
- One `replace` pass can leave a marker behind: `"<|eot<|eot_id|>_id|>"` becomes
  `"<|eot_id|>"`.
- A call that raises makes no terminal emit attempt, so "exactly one terminal event"
  holds for every call that returns, not for every call.

## Model

| member | source | states |
|---|---|---|
| `ExoPipe.Forwarder.constructor` | exo_cluster_pipe.py:20-46 | A new pipe has the default valves (the local exo endpoint, `llama-3.2-1b`, a 2.0 s interval, status enabled, 100 turns) and last-emit time 0. |
| `ExoPipe.Forwarder.EmitStatus` | exo_cluster_pipe.py:53-79 | When an emitter is present, status is enabled, and `now - last >= interval` or `done`, the event is appended to the emitter and the last-emit time becomes `now`. Otherwise neither changes. |
| `ExoPipe.StatusEvent` | exo_cluster_pipe.py:68-78 | An event has type "status". Its status is "complete" exactly when `done`, and "in_progress" exactly when not. It carries the level, description and `done` unchanged. |
| `ExoPipe.RunSnoc` | exo_cluster_pipe.py:60-79 | Each further emit attempt is one throttle decision, taken against the last-emit time the earlier attempts left. |
| `ExoPipeProperties.RunSilent` | exo_cluster_pipe.py:61-63 | With no emitter, or with status disabled, no attempt delivers anything and the last-emit time stays as it was. |
| `ExoPipeProperties.RunNoTerminal` | exo_cluster_pipe.py:68-79 | Non-terminal attempts deliver no terminal event. |
| `ExoPipeProperties.RunTerminalOnce` | exo_cluster_pipe.py:60-79 | If only the last attempt is terminal and the emitter is enabled, exactly one terminal event is delivered. It is the last event, it carries that attempt's level and message, and the last-emit time is that attempt's clock. |
| `ExoPipeProperties.ThrottleSuppressesRapidProgress` | exo_cluster_pipe.py:65 | Two non-terminal attempts less than the interval apart are not both delivered. |
| `ExoPipeProperties.TerminalNeverSuppressed` | exo_cluster_pipe.py:65 | A terminal attempt to an enabled emitter is delivered whatever the time since the last delivery. |
| `ExoPipeProperties.SuccessEventsOneSecondApart` | exo_cluster_pipe.py:60-79 | With the defaults, starting at time 0 and one second between attempts, both progress attempts are suppressed. Only the terminal success event is delivered, at time 2. |
| `ExoPipe.Forwarder.Pipe` | exo_cluster_pipe.py:81-180 | The reply, the payload posted and the body's fields afterwards are those `Respond` gives. The emitter's events and the last-emit time are those the throttle gives for `Respond`'s attempts, the i-th at `clock(i)`. |
| `ExoPipe.Forwarder.Dispatch` | exo_cluster_pipe.py:116-180 | After validation, the reply, payload, body and delivered events are those of `Forward`: build and post the payload, then extract, clean and append, or report the failure. |
| `ExoPipeProperties.OneTerminalAttempt` | exo_cluster_pipe.py:88-180 | Every call first attempts "Connecting". A call that returns makes exactly one terminal attempt, and makes it last: level "error" with the returned message on an error, or the success message on success. A call that raises makes none. |
| `ExoPipeProperties.OneTerminalEvent` | exo_cluster_pipe.py:60-180 | With an enabled emitter, a call that returns delivers exactly one terminal event, as its last event, with status "complete". On an error, that event has level "error" and the error message. On success, it is the "info" event with the success message. A call that raises delivers none. |
| `ExoPipeProperties.TurnLimitRejects` | exo_cluster_pipe.py:95-104 | When a truthy user has more messages than `max_turns`, the call makes the error attempt and returns the error. Nothing is sent and the body is unchanged. The message is the fixed prefix followed by `max_turns` in decimal, which reads back as `max_turns`. |
| `ExoPipeProperties.AnonymousSkipsTurnLimit` | exo_cluster_pipe.py:95 | Without a truthy user, `max_turns` has no effect on the call. |
| `ExoPipeProperties.NoMessagesRejects` | exo_cluster_pipe.py:106-114 | Once the turn check passes, falsy messages give "No messages found in the request body" and one terminal error attempt. Nothing is sent and the body is unchanged. |
| `ExoPipeProperties.MissingMessagesRejects` | exo_cluster_pipe.py:92-114 | A body with no `messages` key is refused as having no messages, and nothing is sent. |
| `ExoPipeProperties.SentIffAccepted` | exo_cluster_pipe.py:92-144 | A request is posted exactly when both checks pass, and then it is `PayloadFor` the body. |
| `ExoPipe.BuildPayload` | exo_cluster_pipe.py:118-132 | The loop's payload is the model, then the messages, then the allowed parameters present in the body, in allow-list order. |
| `ExoPipeProperties.PayloadShape` | exo_cluster_pipe.py:118-132 | Entry 0 is the model and entry 1 is the messages, unchanged. Every other key is an allowed parameter present in the body, with the body's value. Every allowed parameter present is included, and no key appears twice. |
| `ExoPipeProperties.PayloadSound` | exo_cluster_pipe.py:118-132 | Every key after the first two is an allowed parameter present in the body, with the body's value. |
| `ExoPipeProperties.PayloadComplete` | exo_cluster_pipe.py:118-132 | Every allowed parameter present in the body appears after the first two entries. |
| `ExoPipeProperties.PayloadDistinct` | exo_cluster_pipe.py:118-132 | No key appears twice, so building the payload by appending agrees with assigning dictionary keys. |
| `ExoPipeProperties.CopiedSound` | exo_cluster_pipe.py:124-132 | Every copied entry is an allowed name present in the body, with the body's value. |
| `ExoPipeProperties.CopiedComplete` | exo_cluster_pipe.py:124-132 | Every allowed name present in the body is copied. |
| `ExoPipeProperties.CopiedNone` | exo_cluster_pipe.py:124-132 | A body with none of the allowed names contributes no entries. |
| `ExoPipeProperties.CopiedDistinct` | exo_cluster_pipe.py:124-132 | Copied keys do not repeat. |
| `ExoPipeProperties.ModelFallback` | exo_cluster_pipe.py:119 | A present, truthy model is used. A missing model, `None` or `""` falls back to `default_model`. |
| `Json.Get` | exo_cluster_pipe.py:92 | `dict.get` gives the value under a present key and the default otherwise. |
| `Json.Len` | exo_cluster_pipe.py:95-107 | `len` of a sized value is 0 exactly when the value is falsy. |
| `Json.Subscript` | exo_cluster_pipe.py:155 | A subscript finds a value only in a dict, list or string. It raises an uncaught `TypeError` exactly when the value is neither a dict nor, for `[0]`, a list or string. |
| `ExoPipeProperties.ExtractIff` | exo_cluster_pipe.py:155 | The subscript chain yields the string `s` exactly when the response holds `s` at `choices[0].message.content`. |
| `ExoPipeProperties.ExtractEmptyResponse` | exo_cluster_pipe.py:155-173 | The response `{}` raises a caught `KeyError`, reported as "Error parsing exo response: 'choices'". |
| `ExoPipeProperties.ExtractNoChoices` | exo_cluster_pipe.py:155-173 | An empty `choices` list raises a caught `IndexError`, reported as "...: list index out of range". |
| `PyStr.RemoveAllAbsent` | exo_cluster_pipe.py:157 | A string with no occurrence of the pattern is returned unchanged. |
| `PyStr.RemoveFromAbsent` | exo_cluster_pipe.py:157 | A scan over a stretch with no occurrence keeps that stretch unchanged. |
| `PyStr.RemoveFromLeftmost` | exo_cluster_pipe.py:157 | Up to the next occurrence, the scan keeps every character verbatim, then skips that whole occurrence. |
| `PyStr.RemoveAllLeftmost` | exo_cluster_pipe.py:157 | The text before the leftmost occurrence is kept verbatim, and the scan resumes right after that occurrence. |
| `PyStr.RemoveFromShorter` | exo_cluster_pipe.py:157 | The scan's output is never longer than what it reads. |
| `PyStr.RemoveFromPresent` | exo_cluster_pipe.py:157 | A scan that meets an occurrence drops at least one whole copy of the pattern. |
| `PyStr.RemoveAllPresent` | exo_cluster_pipe.py:157 | If the pattern occurs, the result is at least one pattern-length shorter. With `RemoveAllAbsent`, the string is unchanged exactly when the pattern does not occur. |
| `PyStr.RemoveAllShorter` | exo_cluster_pipe.py:157 | Removal never lengthens the string. |
| `ExoPipeProperties.CleanTrailingMarker` | exo_cluster_pipe.py:157 | "Hello" followed by the marker becomes "Hello". |
| `ExoPipeProperties.CleanUnmarked` | exo_cluster_pipe.py:157 | Content without the marker is returned unchanged. |
| `ExoPipeProperties.CleanMayLeaveMarker` | exo_cluster_pipe.py:157 | One pass turns a marker split around a second marker into the marker itself, so the result is not always marker-free. |
| `ExoPipeProperties.SuccessAppendsOne` | exo_cluster_pipe.py:154-167 | A text reply means the request was accepted and a response was delivered. The text is the cleaned content. The body's messages gain exactly one entry, `{role: assistant, content: text}`, after the unchanged earlier entries. |
| `ExoPipeProperties.SuccessAttempts` | exo_cluster_pipe.py:88-166 | A successful call attempts "Connecting", then "Generating", then the terminal success event. |
| `ExoPipeProperties.OtherRepliesKeepBody` | exo_cluster_pipe.py:92-180 | Every error or exception leaves the body as it was. |
| `ExoPipeProperties.WellFormedResponseSucceeds` | exo_cluster_pipe.py:154-167 | An accepted list of messages and a response holding a string at the content path give that string, cleaned. |
| `ExoPipeProperties.TransportFailureReported` | exo_cluster_pipe.py:175-180 | A transport failure on an accepted request returns "Error calling exo API: " plus its text. The request was sent and the body is unchanged. |
| `ExoPipeProperties.ScenarioHelloThere` | exo_cluster_pipe.py:81-167 | For one user message "hi" with model `llama-3.2-1b`, the answer "hello there" is returned. The messages become the user's and the assistant's, and the payload is exactly the model and the messages. |
| `ExoPipeProperties.ScenarioMarkerStripped` | exo_cluster_pipe.py:154-167 | Content "Hello" followed by the marker is returned and appended as "Hello". |
| `ExoPipeProperties.ScenarioEmptyResponse` | exo_cluster_pipe.py:154-173 | The response `{}` gives the "'choices'" parse error, and the body is unchanged. |
| `PyStr.Digits` | exo_cluster_pipe.py:99 | The decimal digits of a number are non-empty, all digits, and start with '0' only for 0. |
| `PyStr.DigitsRoundTrip` | exo_cluster_pipe.py:99 | Reading the digits of `n` back gives `n`. |
| `PyStr.IntStrRoundTrip` | exo_cluster_pipe.py:99 | `int(str(n)) == n` for every integer, negative ones included. |

## Left out

- The HTTP exchange (`requests.post`, `raise_for_status`, `response.json()`) is the
  `Transport` input. A non-2xx status, a connection error and an undecodable body all
  arrive as `Failure(detail)`, since requests raises a `RequestException` for each.
- The endpoint URL and the `Content-Type` header of the post are not part of `sent`. They
  come unchanged from the valves and a constant.
- `str(e)` of a `RequestException` is the opaque `detail`. `KeyError` and `IndexError` are
  rendered as CPython prints them (`Json.Describe`). For a key containing a quote, Python's
  repr would switch quote style; this is not modelled, since the pipe's keys are fixed
  words.
- `time.time()` is the `clock` parameter. Times and the interval are reals, not
  floating point. JSON numbers are reals too, so the int/float distinction is not kept.
- `log`, `print` and the `debug` flag only write to the console.
- `async`/`await`, exceptions raised by the emitter callback itself, the unused
  `__event_call__` hook, and concurrent use of one pipe object are left out. The emitter is
  modelled as a `Sink` that records what it is given.
- Pydantic's `Field`/`BaseModel` validation of the valves is replaced by a plain record.
- Uncaught exceptions are one reply, `Raised`. Their types and messages are not modelled.
- The payload is a value, a list of key-value pairs in insertion order. In the source, the
  payload's `messages` is the same list object as the body's. That list is appended to
  only after the post, so the value sent is what the model records.
- `BuildPayload` appends each allowed parameter, where the source assigns a dictionary
  key. These agree because the keys never repeat (`PayloadShape`).
- The pipe's `type`, `id` and `name` attributes are constants of `Forwarder` with no
  behaviour.
