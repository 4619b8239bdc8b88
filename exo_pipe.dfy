/**
 The exo connector pipe: it validates a chat request, forwards it to an
 OpenAI-compatible chat-completion endpoint, strips the end-of-turn marker from
 the answer, appends the answer to the conversation, and reports progress to
 an optional status emitter through a throttle.

 The pure decisions are functions: which status events an emit attempt
 delivers (`Delivers`, `Run`), which model and parameters the outbound
 payload carries (`ModelFor`, `PayloadFor`), where the answer sits in the
 response (`Extract`), and what one call of `pipe` does as a whole
 (`Respond`). The class `Forwarder` holds the state the source updates in
 place (`last_emit_time`) and its methods are proved against those functions.
 The clock and the HTTP exchange are inputs.
 */
module ExoPipe {
  import opened Wrappers
  import opened Json
  import opened PyStr

  /** The pipe's valves: configuration that `pipe` reads and never changes. */
  datatype Valves = Valves(
    exoEndpoint: string,
    defaultModel: string,
    emitInterval: real,
    enableStatusIndicator: bool,
    maxTurns: int)

  /** The valves a freshly constructed pipe starts with. */
  const DefaultValves := Valves(
    "http://localhost:52415/v1/chat/completions",
    "llama-3.2-1b",
    2.0,
    true,
    100)

  // ---------------------------------------------------------------------
  // Status events and the throttle
  // ---------------------------------------------------------------------

  /** The `data` record of a status event. */
  datatype StatusData = StatusData(status: string, level: string, description: string, done: bool)

  /** What the emitter callback receives: `{"type": kind, "data": data}`. */
  datatype Event = Event(kind: string, data: StatusData)

  /** The event `emit_status` builds for a level, a description and the `done` flag. */
  function StatusEvent(level: string, description: string, done: bool): (e: Event)
    ensures e.kind == "status"
    ensures e.data.status == "complete" <==> done
    ensures e.data.status == "in_progress" <==> !done
    ensures e.data.level == level && e.data.description == description && e.data.done == done
  {
    Event("status", StatusData(if done then "complete" else "in_progress", level, description, done))
  }

  /** One call of `emit_status` as `pipe` makes it. */
  datatype Attempt = Attempt(level: string, message: string, done: bool)

  /**
   Whether an emit attempt at time `now` is delivered: an emitter was passed,
   status emission is enabled, and either the interval since the last delivery
   has elapsed or the event is terminal.
   */
  predicate Delivers(v: Valves, hasEmitter: bool, last: real, now: real, done: bool) {
    hasEmitter && v.enableStatusIndicator && (now - last >= v.emitInterval || done)
  }

  /** The events delivered by a series of attempts, and the last-emit time they leave. */
  datatype Delivery = Delivery(events: seq<Event>, last: real)

  /**
   The effect of the emit attempts `attempts`, the i-th made at time `clock(i)`,
   starting from last-emit time `last`: each delivered attempt adds its event
   and moves the last-emit time to its own time; a suppressed one changes nothing.
   */
  function Run(v: Valves, hasEmitter: bool, last: real, clock: nat -> real, attempts: seq<Attempt>): Delivery
    decreases |attempts|
  {
    if attempts == [] then Delivery([], last)
    else
      var before := Run(v, hasEmitter, last, clock, attempts[..|attempts| - 1]);
      var a := attempts[|attempts| - 1];
      var now := clock(|attempts| - 1);
      if Delivers(v, hasEmitter, before.last, now, a.done)
      then Delivery(before.events + [StatusEvent(a.level, a.message, a.done)], now)
      else before
  }

  /** `Run` extended by one attempt is one more throttle decision on top of `Run`. */
  lemma RunSnoc(v: Valves, hasEmitter: bool, last: real, clock: nat -> real, attempts: seq<Attempt>, a: Attempt)
    ensures var before := Run(v, hasEmitter, last, clock, attempts);
            var now := clock(|attempts|);
            Run(v, hasEmitter, last, clock, attempts + [a])
              == if Delivers(v, hasEmitter, before.last, now, a.done)
                 then Delivery(before.events + [StatusEvent(a.level, a.message, a.done)], now)
                 else before
  {
    assert (attempts + [a])[..|attempts|] == attempts;
  }

  // ---------------------------------------------------------------------
  // Outbound payload
  // ---------------------------------------------------------------------

  /** The outbound JSON body, as its keys and values in insertion order. */
  type Payload = seq<(string, Json)>

  /** The generation parameters copied from the request when present, in this order. */
  const OptionalParams: seq<string> :=
    ["temperature", "max_tokens", "top_p", "frequency_penalty", "presence_penalty"]

  /** `body.get("model") or default_model`: a missing or falsy model falls back to the default. */
  function ModelFor(v: Valves, fields: map<string, Json>): Json {
    if "model" in fields && Truthy(fields["model"]) then fields["model"] else Str(v.defaultModel)
  }

  /** The entries `(p, fields[p])` for the names `p` of `params` present in `fields`, in order. */
  function Copied(params: seq<string>, fields: map<string, Json>): Payload
    decreases |params|
  {
    if params == [] then []
    else
      var p := params[|params| - 1];
      Copied(params[..|params| - 1], fields) + (if p in fields then [(p, fields[p])] else [])
  }

  /** The payload `pipe` posts: model, messages, then the optional parameters present. */
  function PayloadFor(v: Valves, fields: map<string, Json>, messages: Json): Payload {
    [("model", ModelFor(v, fields)), ("messages", messages)] + Copied(OptionalParams, fields)
  }

  /** Builds the outbound payload by inserting the allowed parameters one by one. */
  method BuildPayload(v: Valves, fields: map<string, Json>, messages: Json) returns (payload: Payload)
    ensures payload == PayloadFor(v, fields, messages)
  {
    payload := [("model", ModelFor(v, fields)), ("messages", messages)];
    for i := 0 to |OptionalParams|
      invariant payload == [("model", ModelFor(v, fields)), ("messages", messages)] + Copied(OptionalParams[..i], fields)
    {
      var param := OptionalParams[i];
      assert OptionalParams[..i + 1][..i] == OptionalParams[..i];
      if param in fields {
        payload := payload + [(param, fields[param])];
      }
    }
    assert OptionalParams[..|OptionalParams|] == OptionalParams;
  }

  // ---------------------------------------------------------------------
  // Response extraction
  // ---------------------------------------------------------------------

  /** The end-of-turn marker the exo endpoint leaves in its answers. */
  const Marker := "<|eot_id|>"

  /** `exo_response["choices"][0]["message"]["content"]`, evaluated left to right. */
  function Extract(response: Json): Step {
    Then(Then(Then(Subscript(response, Name("choices")), First), Name("message")), Name("content"))
  }

  /** The answer text once the marker is stripped: `content.replace("<|eot_id|>", "")`. */
  function Clean(content: string): string {
    RemoveAll(content, Marker)
  }

  // ---------------------------------------------------------------------
  // One call of `pipe`
  // ---------------------------------------------------------------------

  /** What the HTTP exchange gave: a `RequestException` with its text, or the decoded JSON body. */
  datatype Transport = Failure(detail: string) | Delivered(response: Json)

  /**
   What `pipe` gives its caller: the answer text, an `{"error": message}`
   record, or an exception it does not catch.
   */
  datatype Reply = Text(text: string) | Error(message: string) | Raised

  const ConnectingText := "Connecting to exo LLM..."
  const GeneratingText := "Generating response with exo..."
  const SuccessText := "Response generated successfully"
  const NoMessagesText := "No messages found in the request body"

  const TurnLimitPrefix := "Conversation turn limit exceeded. Max turns: "

  function TurnLimitText(maxTurns: int): string {
    TurnLimitPrefix + IntStr(maxTurns)
  }

  const ParseErrorPrefix := "Error parsing exo response: "
  const ApiErrorPrefix := "Error calling exo API: "

  function ParseErrorText(f: Fault): string {
    ParseErrorPrefix + Describe(f)
  }

  function ApiErrorText(detail: string): string {
    ApiErrorPrefix + detail
  }

  /** `body.get("messages", [])` */
  function Messages(fields: map<string, Json>): Json {
    Get(fields, "messages", Arr([]))
  }

  /** The message appended on success. */
  function AssistantMessage(text: string): Json {
    Obj(map["role" := Str("assistant"), "content" := Str(text)])
  }

  /**
   Everything one call of `pipe` decides: the emit attempts in order, the
   payload posted (if any), the reply, and the request body's fields afterwards.
   */
  datatype Response = Response(attempts: seq<Attempt>, sent: Option<Payload>, reply: Reply, fields: map<string, Json>)

  /** The first emit attempt of every call. */
  const Connect := Attempt("info", ConnectingText, false)

  /** The second emit attempt of a call that passed validation. */
  const Generating := Attempt("info", GeneratingText, false)

  /**
   One call of `pipe` on request fields `fields`, caller `user` (`Null` for
   none) and HTTP result `outcome`, step by step as the source takes them:
   the turn limit (checked only for a caller), then the presence of messages,
   then the forwarding itself.
   */
  function Respond(v: Valves, fields: map<string, Json>, user: Json, outcome: Transport): Response {
    var messages := Messages(fields);
    if Truthy(user) && !Sized(messages) then
      // `len(messages)` raises TypeError
      Response([Connect], None, Raised, fields)
    else if Truthy(user) && Len(messages) > v.maxTurns then
      Response([Connect] + [Attempt("error", TurnLimitText(v.maxTurns), true)], None, Error(TurnLimitText(v.maxTurns)), fields)
    else if !Truthy(messages) then
      Response([Connect] + [Attempt("error", NoMessagesText, true)], None, Error(NoMessagesText), fields)
    else
      Forward(v, fields, messages, outcome)
  }

  /**
   The part of `pipe` after validation: build and post the payload, then
   extract, clean and append the answer, or report the failure.
   */
  function Forward(v: Valves, fields: map<string, Json>, messages: Json, outcome: Transport): Response {
    var sent := Some(PayloadFor(v, fields, messages));
    var opening := [Connect] + [Generating];
    match outcome
    case Failure(detail) =>
      Response(opening + [Attempt("error", ApiErrorText(detail), true)], sent, Error(ApiErrorText(detail)), fields)
    case Delivered(response) =>
      match Extract(response)
      case TypeFault =>
        Response(opening, sent, Raised, fields)
      case Fault(f) =>
        Response(opening + [Attempt("error", ParseErrorText(f), true)], sent, Error(ParseErrorText(f)), fields)
      case Found(content) =>
        if !content.Str? || !messages.Arr? then
          // `.replace` on a non-string, or `.append` on a non-list, raises
          Response(opening, sent, Raised, fields)
        else
          var text := Clean(content.s);
          Response(opening + [Attempt("info", SuccessText, true)], sent, Text(text),
                   fields["messages" := Arr(messages.items + [AssistantMessage(text)])])
  }

  // ---------------------------------------------------------------------
  // The objects whose state the pipe changes
  // ---------------------------------------------------------------------

  /** The caller's status emitter; it records every event it is given. */
  class Sink {
    var events: seq<Event>

    constructor ()
      ensures events == []
    {
      events := [];
    }
  }

  /** The caller's request body, a dictionary that `pipe` appends the answer to. */
  class Body {
    var fields: map<string, Json>

    constructor (fields: map<string, Json>)
      ensures this.fields == fields
    {
      this.fields := fields;
    }
  }

  /** The pipe object: its valves and the time of the last delivered status event. */
  class Forwarder {
    const kind: string := "pipe"
    const id: string := "exo_pipe"
    const name: string := "Exo LLM Pipe"
    var valves: Valves
    var lastEmitTime: real

    constructor ()
      ensures valves == DefaultValves && lastEmitTime == 0.0
    {
      valves := DefaultValves;
      lastEmitTime := 0.0;
    }

    /**
     `emit_status`: delivers the event to the emitter when the throttle lets it
     through, and only then moves the last-emit time to `now`.
     */
    method EmitStatus(emitter: Sink?, level: string, message: string, done: bool, now: real)
      modifies this`lastEmitTime, emitter
      ensures Delivers(valves, emitter != null, old(lastEmitTime), now, done) ==>
                lastEmitTime == now
                && emitter.events == old(emitter.events) + [StatusEvent(level, message, done)]
      ensures !Delivers(valves, emitter != null, old(lastEmitTime), now, done) ==>
                lastEmitTime == old(lastEmitTime)
                && (emitter != null ==> emitter.events == old(emitter.events))
    {
      if emitter != null && valves.enableStatusIndicator && (now - lastEmitTime >= valves.emitInterval || done) {
        emitter.events := emitter.events + [StatusEvent(level, message, done)];
        lastEmitTime := now;
      }
    }

    /**
     The emitter and the last-emit time show exactly the effect of the
     attempts `made`, starting from last-emit time `last0` and events `events0`.
     */
    ghost predicate Reflects(emitter: Sink?, clock: nat -> real, last0: real, events0: seq<Event>, made: seq<Attempt>)
      reads this, emitter
    {
      var d := Run(valves, emitter != null, last0, clock, made);
      lastEmitTime == d.last && (emitter != null ==> emitter.events == events0 + d.events)
    }

    /** The `index`-th emit attempt, made at time `clock(index)` after the attempts `made`. */
    method Notify(emitter: Sink?, a: Attempt, clock: nat -> real, index: nat,
                  ghost last0: real, ghost events0: seq<Event>, ghost made: seq<Attempt>)
      requires index == |made|
      requires Reflects(emitter, clock, last0, events0, made)
      modifies this`lastEmitTime, emitter
      ensures Reflects(emitter, clock, last0, events0, made + [a])
    {
      EmitStatus(emitter, a.level, a.message, a.done, clock(index));
      RunSnoc(valves, emitter != null, last0, clock, made, a);
    }

    /**
     `pipe`: the i-th emit attempt reads the clock as `clock(i)`, and the
     HTTP exchange, if one is made, yields `outcome`. Returns the reply and
     the payload posted (`None` when no request was sent).
     */
    method Pipe(body: Body, user: Json, emitter: Sink?, clock: nat -> real, outcome: Transport)
      returns (reply: Reply, sent: Option<Payload>)
      modifies this`lastEmitTime, body, emitter
      ensures var r := Respond(valves, old(body.fields), user, outcome);
              reply == r.reply && sent == r.sent && body.fields == r.fields
      ensures var r := Respond(valves, old(body.fields), user, outcome);
              var d := Run(valves, emitter != null, old(lastEmitTime), clock, r.attempts);
              lastEmitTime == d.last
              && (emitter != null ==> emitter.events == old(emitter.events) + d.events)
    {
      ghost var last0 := lastEmitTime;
      ghost var events0 := if emitter != null then emitter.events else [];
      ghost var fields0 := body.fields;
      assert Reflects(emitter, clock, last0, events0, []);
      Notify(emitter, Connect, clock, 0, last0, events0, []);
      assert [] + [Connect] == [Connect];

      var messages := Get(body.fields, "messages", Arr([]));
      ghost var r := Respond(valves, fields0, user, outcome);
      if Truthy(user) && !Sized(messages) {
        assert r == Response([Connect], None, Raised, fields0);
        reply, sent := Raised, None;
        return;
      }
      if Truthy(user) && Len(messages) > valves.maxTurns {
        var text := TurnLimitText(valves.maxTurns);
        var stop := Attempt("error", text, true);
        assert r == Response([Connect] + [stop], None, Error(text), fields0);
        Notify(emitter, stop, clock, 1, last0, events0, [Connect]);
        reply, sent := Error(text), None;
        return;
      }
      if !Truthy(messages) {
        var stop := Attempt("error", NoMessagesText, true);
        assert r == Response([Connect] + [stop], None, Error(NoMessagesText), fields0);
        Notify(emitter, stop, clock, 1, last0, events0, [Connect]);
        reply, sent := Error(NoMessagesText), None;
        return;
      }
      assert r == Forward(valves, fields0, messages, outcome);
      reply, sent := Dispatch(body, messages, emitter, clock, outcome, last0, events0);
    }

    /** The part of `pipe` after validation, from building the payload on. */
    method Dispatch(body: Body, messages: Json, emitter: Sink?, clock: nat -> real, outcome: Transport,
                    ghost last0: real, ghost events0: seq<Event>)
      returns (reply: Reply, sent: Option<Payload>)
      requires messages == Messages(body.fields)
      requires Reflects(emitter, clock, last0, events0, [Connect])
      modifies this`lastEmitTime, body, emitter
      ensures var r := Forward(valves, old(body.fields), messages, outcome);
              reply == r.reply && sent == r.sent && body.fields == r.fields
              && Reflects(emitter, clock, last0, events0, r.attempts)
    {
      ghost var fields0 := body.fields;
      var payload := BuildPayload(valves, body.fields, messages);
      Notify(emitter, Generating, clock, 1, last0, events0, [Connect]);
      ghost var opening := [Connect] + [Generating];
      sent := Some(payload);

      match outcome {
        case Failure(detail) =>
          var stop := Attempt("error", ApiErrorText(detail), true);
          assert Forward(valves, fields0, messages, outcome) == Response(opening + [stop], sent, Error(ApiErrorText(detail)), fields0);
          Notify(emitter, stop, clock, 2, last0, events0, opening);
          reply := Error(ApiErrorText(detail));
        case Delivered(response) =>
          match Extract(response) {
            case TypeFault =>
              assert Forward(valves, fields0, messages, outcome) == Response(opening, sent, Raised, fields0);
              reply := Raised;
            case Fault(f) =>
              var stop := Attempt("error", ParseErrorText(f), true);
              assert Forward(valves, fields0, messages, outcome) == Response(opening + [stop], sent, Error(ParseErrorText(f)), fields0);
              Notify(emitter, stop, clock, 2, last0, events0, opening);
              reply := Error(ParseErrorText(f));
            case Found(content) =>
              if !content.Str? || !messages.Arr? {
                assert Forward(valves, fields0, messages, outcome) == Response(opening, sent, Raised, fields0);
                reply := Raised;
              } else {
                var text := Clean(content.s);
                var done := Attempt("info", SuccessText, true);
                var updated := body.fields["messages" := Arr(messages.items + [AssistantMessage(text)])];
                assert Forward(valves, fields0, messages, outcome) == Response(opening + [done], sent, Text(text), updated);
                body.fields := updated;
                Notify(emitter, done, clock, 2, last0, events0, opening);
                reply := Text(text);
              }
          }
      }
    }
  }
}
