/**
 What the pipe promises, proved about the functions `Forwarder.Pipe` and
 `Forwarder.EmitStatus` are verified against: the throttle, the validation
 order, the shape of the outbound payload, where the answer is taken from,
 what marker stripping does, and when the conversation is appended to.
 */
module ExoPipeProperties {
  import opened Wrappers
  import opened Json
  import opened PyStr
  import opened ExoPipe

  // ---------------------------------------------------------------------
  // Throttle
  // ---------------------------------------------------------------------

  /** The number of terminal (`done`) events in `events`. */
  function Terminals(events: seq<Event>): nat
    decreases |events|
  {
    if events == [] then 0
    else Terminals(events[..|events| - 1]) + (if events[|events| - 1].data.done then 1 else 0)
  }

  /** Without an emitter, or with status emission disabled, nothing is delivered and the last-emit time stays. */
  lemma {:induction false} RunSilent(v: Valves, hasEmitter: bool, last: real, clock: nat -> real, attempts: seq<Attempt>)
    requires !hasEmitter || !v.enableStatusIndicator
    ensures Run(v, hasEmitter, last, clock, attempts) == Delivery([], last)
    decreases |attempts|
  {
    if attempts != [] {
      RunSilent(v, hasEmitter, last, clock, attempts[..|attempts| - 1]);
    }
  }

  /** Non-terminal attempts deliver only non-terminal events. */
  lemma {:induction false} RunNoTerminal(v: Valves, hasEmitter: bool, last: real, clock: nat -> real, attempts: seq<Attempt>)
    requires forall i :: 0 <= i < |attempts| ==> !attempts[i].done
    ensures Terminals(Run(v, hasEmitter, last, clock, attempts).events) == 0
    decreases |attempts|
  {
    if attempts != [] {
      var prefix := attempts[..|attempts| - 1];
      assert forall i :: 0 <= i < |prefix| ==> prefix[i] == attempts[i];
      RunNoTerminal(v, hasEmitter, last, clock, prefix);
      var before := Run(v, hasEmitter, last, clock, prefix);
      var a := attempts[|attempts| - 1];
      var e := StatusEvent(a.level, a.message, a.done);
      assert (before.events + [e])[..|before.events|] == before.events;
    }
  }

  /**
   A series of attempts whose only terminal one is the last delivers, to an
   enabled emitter, exactly one terminal event: the last one, carrying that
   attempt's level and message, at that attempt's time.
   */
  lemma RunTerminalOnce(v: Valves, last: real, clock: nat -> real, attempts: seq<Attempt>)
    requires v.enableStatusIndicator
    requires attempts != [] && attempts[|attempts| - 1].done
    requires forall i :: 0 <= i < |attempts| - 1 ==> !attempts[i].done
    ensures var d := Run(v, true, last, clock, attempts);
            var a := attempts[|attempts| - 1];
            d.events != []
            && d.events[|d.events| - 1] == StatusEvent(a.level, a.message, true)
            && Terminals(d.events) == 1
            && d.last == clock(|attempts| - 1)
  {
    var prefix := attempts[..|attempts| - 1];
    var a := attempts[|attempts| - 1];
    assert attempts == prefix + [a];
    assert forall i :: 0 <= i < |prefix| ==> !prefix[i].done;
    RunNoTerminal(v, true, last, clock, prefix);
    RunSnoc(v, true, last, clock, prefix, a);
    var before := Run(v, true, last, clock, prefix);
    var events := before.events + [StatusEvent(a.level, a.message, true)];
    assert Run(v, true, last, clock, attempts) == Delivery(events, clock(|prefix|));
    assert events[..|events| - 1] == before.events;
    assert Terminals(events) == Terminals(before.events) + 1;
  }

  /**
   Two non-terminal attempts closer together than the emit interval are not
   both delivered: once the first one is, the second is suppressed.
   */
  lemma ThrottleSuppressesRapidProgress(v: Valves, hasEmitter: bool, last: real, clock: nat -> real, a: Attempt, b: Attempt)
    requires !a.done && !b.done
    requires clock(1) - clock(0) < v.emitInterval
    ensures |Run(v, hasEmitter, last, clock, [a, b]).events| <= 1
  {
    RunSnoc(v, hasEmitter, last, clock, [], a);
    RunSnoc(v, hasEmitter, last, clock, [a], b);
  }

  /** A terminal attempt reaches an enabled emitter whatever the time since the last delivery. */
  lemma TerminalNeverSuppressed(v: Valves, last: real, clock: nat -> real, attempts: seq<Attempt>, a: Attempt)
    requires v.enableStatusIndicator && a.done
    ensures Run(v, true, last, clock, attempts + [a]).events
            == Run(v, true, last, clock, attempts).events + [StatusEvent(a.level, a.message, true)]
  {
    RunSnoc(v, true, last, clock, attempts, a);
  }

  /**
   With the default valves, from last-emit time 0, attempts made one second
   apart: the two progress attempts fall inside the two-second interval and
   are suppressed, and the terminal one is delivered at time 2.
   */
  lemma SuccessEventsOneSecondApart(clock: nat -> real)
    requires clock(0) == 0.0 && clock(1) == 1.0 && clock(2) == 2.0
    ensures Run(DefaultValves, true, 0.0, clock,
                [Connect, Attempt("info", GeneratingText, false), Attempt("info", SuccessText, true)])
            == Delivery([StatusEvent("info", SuccessText, true)], 2.0)
  {
    var a0, a1, a2 := Connect, Attempt("info", GeneratingText, false), Attempt("info", SuccessText, true);
    RunSnoc(DefaultValves, true, 0.0, clock, [], a0);
    RunSnoc(DefaultValves, true, 0.0, clock, [a0], a1);
    RunSnoc(DefaultValves, true, 0.0, clock, [a0, a1], a2);
    assert [] + [a0] == [a0] && [a0] + [a1] == [a0, a1] && [a0, a1] + [a2] == [a0, a1, a2];
  }

  // ---------------------------------------------------------------------
  // Emit attempts of one call
  // ---------------------------------------------------------------------

  /**
   Every call that returns makes exactly one terminal attempt, and makes it
   last: with level "error" and the returned message on an error, with the
   success message on success. A call that raises makes none.
   */
  lemma OneTerminalAttempt(v: Valves, fields: map<string, Json>, user: Json, outcome: Transport)
    ensures var r := Respond(v, fields, user, outcome);
            r.attempts != [] && r.attempts[0] == Connect
    ensures var r := Respond(v, fields, user, outcome);
            r.reply != Raised ==>
              r.attempts[|r.attempts| - 1].done
              && (forall i :: 0 <= i < |r.attempts| - 1 ==> !r.attempts[i].done)
    ensures var r := Respond(v, fields, user, outcome);
            r.reply.Error? ==> r.attempts[|r.attempts| - 1] == Attempt("error", r.reply.message, true)
    ensures var r := Respond(v, fields, user, outcome);
            r.reply.Text? ==> r.attempts[|r.attempts| - 1] == Attempt("info", SuccessText, true)
    ensures var r := Respond(v, fields, user, outcome);
            r.reply == Raised ==> forall i :: 0 <= i < |r.attempts| ==> !r.attempts[i].done
  {
  }

  /**
   With an emitter and status emission enabled, every call that returns
   delivers exactly one terminal event, as its last event, describing the outcome.
   */
  lemma OneTerminalEvent(v: Valves, fields: map<string, Json>, user: Json, outcome: Transport, last: real, clock: nat -> real)
    requires v.enableStatusIndicator
    ensures var r := Respond(v, fields, user, outcome);
            var d := Run(v, true, last, clock, r.attempts);
            r.reply != Raised ==>
              d.events != []
              && d.events[|d.events| - 1].data.done
              && d.events[|d.events| - 1].data.status == "complete"
              && Terminals(d.events) == 1
              && (r.reply.Error? ==> d.events[|d.events| - 1].data.description == r.reply.message
                                     && d.events[|d.events| - 1].data.level == "error")
              && (r.reply.Text? ==> d.events[|d.events| - 1] == StatusEvent("info", SuccessText, true))
    ensures var r := Respond(v, fields, user, outcome);
            r.reply == Raised ==> Terminals(Run(v, true, last, clock, r.attempts).events) == 0
  {
    var r := Respond(v, fields, user, outcome);
    OneTerminalAttempt(v, fields, user, outcome);
    if r.reply != Raised {
      RunTerminalOnce(v, last, clock, r.attempts);
    } else {
      RunNoTerminal(v, true, last, clock, r.attempts);
    }
  }

  // ---------------------------------------------------------------------
  // Validation
  // ---------------------------------------------------------------------

  /** The request passes both checks and is forwarded. */
  predicate Accepted(v: Valves, fields: map<string, Json>, user: Json) {
    var m := Messages(fields);
    (!Truthy(user) || (Sized(m) && Len(m) <= v.maxTurns)) && Truthy(m)
  }

  /**
   A caller with more messages than `max_turns` is refused before anything is
   sent, with one terminal error attempt and the body untouched; the error
   names the limit, which reads back from its decimal text.
   */
  lemma TurnLimitRejects(v: Valves, fields: map<string, Json>, user: Json, outcome: Transport)
    requires Truthy(user) && Sized(Messages(fields)) && Len(Messages(fields)) > v.maxTurns
    ensures var r := Respond(v, fields, user, outcome);
            r == Response([Connect, Attempt("error", TurnLimitText(v.maxTurns), true)], None,
                          Error(TurnLimitText(v.maxTurns)), fields)
    ensures var msg := TurnLimitText(v.maxTurns);
            |msg| > |TurnLimitPrefix| && msg[..|TurnLimitPrefix|] == TurnLimitPrefix
            && ParseInt(msg[|TurnLimitPrefix|..]) == v.maxTurns
  {
    var msg := TurnLimitText(v.maxTurns);
    IntStrRoundTrip(v.maxTurns);
    assert msg[|TurnLimitPrefix|..] == IntStr(v.maxTurns);
  }

  /** Without a caller the turn limit plays no part: any `max_turns` gives the same call. */
  lemma AnonymousSkipsTurnLimit(v: Valves, fields: map<string, Json>, user: Json, outcome: Transport, maxTurns: int)
    requires !Truthy(user)
    ensures Respond(v, fields, user, outcome) == Respond(v.(maxTurns := maxTurns), fields, user, outcome)
  {
    assert PayloadFor(v, fields, Messages(fields)) == PayloadFor(v.(maxTurns := maxTurns), fields, Messages(fields));
  }

  /**
   Once the turn check passes, an empty (or falsy) message list is refused
   with "No messages found in the request body", nothing is sent and the
   body is untouched.
   */
  lemma NoMessagesRejects(v: Valves, fields: map<string, Json>, user: Json, outcome: Transport)
    requires !Truthy(user) || (Sized(Messages(fields)) && Len(Messages(fields)) <= v.maxTurns)
    requires !Truthy(Messages(fields))
    ensures Respond(v, fields, user, outcome)
            == Response([Connect, Attempt("error", NoMessagesText, true)], None, Error(NoMessagesText), fields)
  {
  }

  /** A body without a `messages` key counts as an empty list. */
  lemma MissingMessagesRejects(v: Valves, fields: map<string, Json>, user: Json, outcome: Transport)
    requires "messages" !in fields
    requires !Truthy(user) || v.maxTurns >= 0
    ensures Respond(v, fields, user, outcome).reply == Error(NoMessagesText)
    ensures Respond(v, fields, user, outcome).sent == None
  {
  }

  /** At most one request goes out, and it goes out exactly when the request is accepted (and is then the payload). */
  lemma SentIffAccepted(v: Valves, fields: map<string, Json>, user: Json, outcome: Transport)
    ensures Respond(v, fields, user, outcome).sent.Some? <==> Accepted(v, fields, user)
    ensures Accepted(v, fields, user) ==>
              Respond(v, fields, user, outcome).sent == Some(PayloadFor(v, fields, Messages(fields)))
  {
  }

  // ---------------------------------------------------------------------
  // Outbound payload
  // ---------------------------------------------------------------------

  /** Every copied entry is an allowed name present in the request, with the request's value. */
  lemma {:induction false} CopiedSound(params: seq<string>, fields: map<string, Json>)
    ensures forall i :: 0 <= i < |Copied(params, fields)| ==>
              Copied(params, fields)[i].0 in params
              && Copied(params, fields)[i].0 in fields
              && Copied(params, fields)[i].1 == fields[Copied(params, fields)[i].0]
    decreases |params|
  {
    if params != [] {
      var prefix := params[..|params| - 1];
      CopiedSound(prefix, fields);
      assert forall q :: q in prefix ==> q in params;
    }
  }

  /** Every allowed name present in the request is copied. */
  lemma {:induction false} CopiedComplete(params: seq<string>, fields: map<string, Json>, p: string)
    requires p in params && p in fields
    ensures exists i :: 0 <= i < |Copied(params, fields)| && Copied(params, fields)[i].0 == p
    decreases |params|
  {
    var prefix := params[..|params| - 1];
    var c := Copied(params, fields);
    if p == params[|params| - 1] {
      assert c[|c| - 1].0 == p;
    } else {
      assert p in prefix by {
        var k :| 0 <= k < |params| && params[k] == p;
        assert prefix[k] == p;
      }
      CopiedComplete(prefix, fields, p);
      var i :| 0 <= i < |Copied(prefix, fields)| && Copied(prefix, fields)[i].0 == p;
      assert c[i] == Copied(prefix, fields)[i];
    }
  }

  /** A request carrying none of the allowed names contributes no entries. */
  lemma {:induction false} CopiedNone(params: seq<string>, fields: map<string, Json>)
    requires forall q :: q in params ==> q !in fields
    ensures Copied(params, fields) == []
    decreases |params|
  {
    if params != [] {
      CopiedNone(params[..|params| - 1], fields);
    }
  }

  /** Names without repetition are copied without repetition. */
  lemma {:induction false} CopiedDistinct(params: seq<string>, fields: map<string, Json>)
    requires forall i, j :: 0 <= i < j < |params| ==> params[i] != params[j]
    ensures forall i, j :: 0 <= i < j < |Copied(params, fields)| ==>
              Copied(params, fields)[i].0 != Copied(params, fields)[j].0
    decreases |params|
  {
    if params != [] {
      var prefix := params[..|params| - 1];
      var p := params[|params| - 1];
      CopiedDistinct(prefix, fields);
      CopiedSound(prefix, fields);
    }
  }

  /** Entry `i` of a payload past the first two is entry `i - 2` of the copied parameters. */
  lemma PayloadTail(v: Valves, fields: map<string, Json>, messages: Json, i: int)
    requires 2 <= i < |PayloadFor(v, fields, messages)|
    ensures PayloadFor(v, fields, messages)[i] == Copied(OptionalParams, fields)[i - 2]
  {
  }

  /** Every key past the model and the messages is an allowed parameter the body carries, with its value. */
  lemma PayloadSound(v: Valves, fields: map<string, Json>, messages: Json)
    ensures var p := PayloadFor(v, fields, messages);
            forall i :: 2 <= i < |p| ==> p[i].0 in OptionalParams && p[i].0 in fields && p[i].1 == fields[p[i].0]
  {
    var p := PayloadFor(v, fields, messages);
    CopiedSound(OptionalParams, fields);
    forall i | 2 <= i < |p| ensures p[i].0 in OptionalParams && p[i].0 in fields && p[i].1 == fields[p[i].0] {
      PayloadTail(v, fields, messages, i);
    }
  }

  /** Every allowed parameter the body carries is in the payload. */
  lemma PayloadComplete(v: Valves, fields: map<string, Json>, messages: Json, q: string)
    requires q in OptionalParams && q in fields
    ensures var p := PayloadFor(v, fields, messages);
            exists i :: 2 <= i < |p| && p[i].0 == q
  {
    var p := PayloadFor(v, fields, messages);
    CopiedComplete(OptionalParams, fields, q);
    var k :| 0 <= k < |Copied(OptionalParams, fields)| && Copied(OptionalParams, fields)[k].0 == q;
    assert |p| == 2 + |Copied(OptionalParams, fields)|;
    PayloadTail(v, fields, messages, k + 2);
  }

  /** No key of the payload appears twice. */
  lemma PayloadDistinct(v: Valves, fields: map<string, Json>, messages: Json)
    ensures var p := PayloadFor(v, fields, messages);
            forall i, j :: 0 <= i < j < |p| ==> p[i].0 != p[j].0
  {
    var p := PayloadFor(v, fields, messages);
    CopiedDistinct(OptionalParams, fields);
    PayloadSound(v, fields, messages);
    forall i, j | 0 <= i < j < |p| ensures p[i].0 != p[j].0 {
      if 2 <= i {
        PayloadTail(v, fields, messages, i);
        PayloadTail(v, fields, messages, j);
      } else if 2 <= j {
        assert p[j].0 in OptionalParams;
        assert "model" !in OptionalParams && "messages" !in OptionalParams;
      }
    }
  }

  /**
   The payload's first two entries are the model and the messages, passed
   through unchanged; every other key is an allowed generation parameter the
   request carries, with the request's value; every such parameter is there;
   and no key appears twice.
   */
  lemma PayloadShape(v: Valves, fields: map<string, Json>, messages: Json)
    ensures var p := PayloadFor(v, fields, messages);
            |p| >= 2 && p[0] == ("model", ModelFor(v, fields)) && p[1] == ("messages", messages)
    ensures var p := PayloadFor(v, fields, messages);
            forall i :: 2 <= i < |p| ==> p[i].0 in OptionalParams && p[i].0 in fields && p[i].1 == fields[p[i].0]
    ensures var p := PayloadFor(v, fields, messages);
            forall q :: q in OptionalParams && q in fields ==> exists i :: 2 <= i < |p| && p[i].0 == q
    ensures var p := PayloadFor(v, fields, messages);
            forall i, j :: 0 <= i < j < |p| ==> p[i].0 != p[j].0
  {
    PayloadSound(v, fields, messages);
    PayloadDistinct(v, fields, messages);
    forall q | q in OptionalParams && q in fields
      ensures exists i :: 2 <= i < |PayloadFor(v, fields, messages)| && PayloadFor(v, fields, messages)[i].0 == q
    {
      PayloadComplete(v, fields, messages, q);
    }
  }

  /** The request's model is used when present and truthy; otherwise, an empty string included, the default. */
  lemma ModelFallback(v: Valves, fields: map<string, Json>)
    ensures "model" in fields && Truthy(fields["model"]) ==> ModelFor(v, fields) == fields["model"]
    ensures "model" !in fields ==> ModelFor(v, fields) == Str(v.defaultModel)
    ensures "model" in fields && fields["model"] in {Null, Str("")} ==> ModelFor(v, fields) == Str(v.defaultModel)
  {
  }

  // ---------------------------------------------------------------------
  // Response extraction
  // ---------------------------------------------------------------------

  /** `response` holds the string `s` at `["choices"][0]["message"]["content"]`. */
  predicate HasContent(response: Json, s: string) {
    && response.Obj? && "choices" in response.fields
    && var choices := response.fields["choices"];
    && choices.Arr? && choices.items != []
    && var choice := choices.items[0];
    && choice.Obj? && "message" in choice.fields
    && var message := choice.fields["message"];
    && message.Obj? && "content" in message.fields
    && message.fields["content"] == Str(s)
  }

  /** The subscript chain yields the string `s` exactly when the response holds it at that path. */
  lemma ExtractIff(response: Json, s: string)
    ensures Extract(response) == Found(Str(s)) <==> HasContent(response, s)
  {
  }

  /** A response `{}` is a caught `KeyError` on "choices". */
  lemma ExtractEmptyResponse()
    ensures Extract(Obj(map[])) == Fault(MissingKey(Name("choices")))
    ensures ParseErrorText(MissingKey(Name("choices"))) == ParseErrorPrefix + "'choices'"
  {
  }

  /** A response with no choices is a caught `IndexError`. */
  lemma ExtractNoChoices()
    ensures Extract(Obj(map["choices" := Arr([])])) == Fault(OutOfRange("list"))
    ensures ParseErrorText(OutOfRange("list")) == ParseErrorPrefix + "list index out of range"
  {
    var response := Obj(map["choices" := Arr([])]);
    assert Subscript(response, Name("choices")) == Found(Arr([]));
    assert Then(Found(Arr([])), First) == Fault(OutOfRange("list"));
    assert Describe(OutOfRange("list")) == "list" + " index out of range";
  }

  // ---------------------------------------------------------------------
  // Marker stripping
  // ---------------------------------------------------------------------

  /** In "Hello<|eot_id|>" the marker first occurs at index 5. */
  lemma TrailingMarkerAt5()
    ensures OccursAt("Hello<|eot_id|>", Marker, 5)
    ensures forall j :: 0 <= j < 5 ==> !OccursAt("Hello<|eot_id|>", Marker, j)
  {
    var s := "Hello<|eot_id|>";
    assert s[5..15] == Marker;
    forall j | 0 <= j < 5 ensures !OccursAt(s, Marker, j) {
      MismatchAt(s, Marker, j, 0);
    }
  }

  /** The marker at the end of an answer is removed. */
  lemma CleanTrailingMarker()
    ensures Clean("Hello<|eot_id|>") == "Hello"
  {
    var s := "Hello<|eot_id|>";
    TrailingMarkerAt5();
    RemoveAllLeftmost(s, Marker, 5);
    assert RemoveFrom(s, Marker, 15) == [];
    assert s[..5] == "Hello";
  }

  /** An answer without the marker is returned unchanged. */
  lemma CleanUnmarked(s: string)
    requires forall i :: !OccursAt(s, Marker, i)
    ensures Clean(s) == s
  {
    RemoveAllAbsent(s, Marker);
  }

  /** In "<|eot<|eot_id|>_id|>" the marker first occurs at index 5. */
  lemma InnerMarkerAt5()
    ensures OccursAt("<|eot<|eot_id|>_id|>", Marker, 5)
    ensures forall j :: 0 <= j < 5 ==> !OccursAt("<|eot<|eot_id|>_id|>", Marker, j)
  {
    var s := "<|eot<|eot_id|>_id|>";
    assert s[5..15] == Marker;
    forall j | 0 <= j < 5 ensures !OccursAt(s, Marker, j) {
      MismatchAt(s, Marker, j, if j == 0 then 5 else 0);
    }
  }

  /** What surrounds the inner marker of "<|eot<|eot_id|>_id|>" is, joined, the marker. */
  lemma InnerMarkerHalves()
    ensures var s := "<|eot<|eot_id|>_id|>";
            s[..5] + s[15..] == Marker
  {
    var s := "<|eot<|eot_id|>_id|>";
    assert s[..5] == "<|eot";
    assert s[15..] == "_id|>";
  }

  /**
   One pass does not make the answer marker-free: removing the inner marker
   of "<|eot<|eot_id|>_id|>" joins its two halves into a new one.
   */
  lemma CleanMayLeaveMarker()
    ensures Clean("<|eot<|eot_id|>_id|>") == Marker
  {
    var s := "<|eot<|eot_id|>_id|>";
    InnerMarkerAt5();
    RemoveAllLeftmost(s, Marker, 5);
    assert RemoveFrom(s, Marker, 15) == s[15..];
    InnerMarkerHalves();
  }

  // ---------------------------------------------------------------------
  // Reply and commit
  // ---------------------------------------------------------------------

  /**
   A text reply is the cleaned content of a delivered response, and the body
   then gains exactly one message, the assistant's, after the unchanged
   earlier ones.
   */
  lemma SuccessAppendsOne(v: Valves, fields: map<string, Json>, user: Json, outcome: Transport)
    ensures var r := Respond(v, fields, user, outcome);
            r.reply.Text? ==>
              && Accepted(v, fields, user)
              && outcome.Delivered?
              && Extract(outcome.response).Found? && Extract(outcome.response).value.Str?
              && r.reply.text == Clean(Extract(outcome.response).value.s)
              && "messages" in fields && fields["messages"].Arr?
              && r.fields == fields["messages" := Arr(fields["messages"].items + [AssistantMessage(r.reply.text)])]
              && |r.fields["messages"].items| == |fields["messages"].items| + 1
              && r.fields["messages"].items[..|fields["messages"].items|] == fields["messages"].items
  {
    var r := Respond(v, fields, user, outcome);
    if r.reply.Text? {
      var old_ := fields["messages"].items;
      assert (old_ + [AssistantMessage(r.reply.text)])[..|old_|] == old_;
    }
  }

  /** A successful call makes three attempts: connecting, generating, and the terminal success. */
  lemma SuccessAttempts(v: Valves, fields: map<string, Json>, user: Json, outcome: Transport)
    ensures var r := Respond(v, fields, user, outcome);
            r.reply.Text? ==>
              r.attempts == [Connect, Attempt("info", GeneratingText, false), Attempt("info", SuccessText, true)]
  {
  }

  /** Every reply but text (errors and exceptions alike) leaves the body as it was. */
  lemma OtherRepliesKeepBody(v: Valves, fields: map<string, Json>, user: Json, outcome: Transport)
    ensures var r := Respond(v, fields, user, outcome);
            !r.reply.Text? ==> r.fields == fields
  {
  }

  /** An accepted list of messages and a well-formed response give the cleaned content. */
  lemma WellFormedResponseSucceeds(v: Valves, fields: map<string, Json>, user: Json, response: Json, s: string)
    requires Accepted(v, fields, user) && Messages(fields).Arr?
    requires HasContent(response, s)
    ensures Respond(v, fields, user, Delivered(response)).reply == Text(Clean(s))
  {
    ExtractIff(response, s);
  }

  /** A transport failure on an accepted request is reported with its text, and nothing is appended. */
  lemma TransportFailureReported(v: Valves, fields: map<string, Json>, user: Json, detail: string)
    requires Accepted(v, fields, user)
    ensures var r := Respond(v, fields, user, Failure(detail));
            r.reply == Error(ApiErrorPrefix + detail) && r.fields == fields && r.sent.Some?
  {
  }

  // ---------------------------------------------------------------------
  // Scenarios
  // ---------------------------------------------------------------------

  function UserMessage(text: string): Json {
    Obj(map["role" := Str("user"), "content" := Str(text)])
  }

  function ChatResponse(content: string): Json {
    Obj(map["choices" := Arr([Obj(map["message" := Obj(map["content" := Str(content)])])])])
  }

  /** "hello there" carries no marker. */
  lemma HelloThereUnmarked()
    ensures Clean("hello there") == "hello there"
  {
    var s := "hello there";
    forall j ensures !OccursAt(s, Marker, j) {
      if 0 <= j <= 1 {
        MismatchAt(s, Marker, j, 0);
      }
    }
    CleanUnmarked(s);
  }

  /** The request of the scenarios below: one user message and the default model named. */
  function HelloFields(): map<string, Json> {
    map["messages" := Arr([UserMessage("hi")]), "model" := Str("llama-3.2-1b")]
  }

  /** The scenario request is accepted, whoever the user is, and posts only model and messages. */
  lemma HelloRequest(user: Json)
    ensures Messages(HelloFields()) == Arr([UserMessage("hi")])
    ensures Accepted(DefaultValves, HelloFields(), user)
    ensures PayloadFor(DefaultValves, HelloFields(), Arr([UserMessage("hi")]))
         == [("model", Str("llama-3.2-1b")), ("messages", Arr([UserMessage("hi")]))]
  {
    var fields := HelloFields();
    var messages := Arr([UserMessage("hi")]);
    assert Messages(fields) == messages;
    assert Truthy(user) ==> Len(messages) == 1;
    CopiedNone(OptionalParams, fields);
    assert ModelFor(DefaultValves, fields) == Str("llama-3.2-1b");
  }

  /** One user message and a plain answer: the answer is returned and the conversation grows to two. */
  lemma ScenarioHelloThere(user: Json)
    ensures var r := Respond(DefaultValves, HelloFields(), user, Delivered(ChatResponse("hello there")));
            r.reply == Text("hello there")
            && r.fields["messages"] == Arr([UserMessage("hi"), AssistantMessage("hello there")])
            && r.sent == Some([("model", Str("llama-3.2-1b")), ("messages", Arr([UserMessage("hi")]))])
  {
    var fields := HelloFields();
    var s := "hello there";
    var outcome := Delivered(ChatResponse(s));
    HelloRequest(user);
    assert HasContent(ChatResponse(s), s);
    HelloThereUnmarked();
    WellFormedResponseSucceeds(DefaultValves, fields, user, ChatResponse(s), s);
    SentIffAccepted(DefaultValves, fields, user, outcome);
    SuccessAppendsOne(DefaultValves, fields, user, outcome);
    assert [UserMessage("hi")] + [AssistantMessage(s)] == [UserMessage("hi"), AssistantMessage(s)];
  }

  /** An answer ending in the marker is returned, and appended, without it. */
  lemma ScenarioMarkerStripped(fields: map<string, Json>, user: Json)
    requires Accepted(DefaultValves, fields, user) && Messages(fields).Arr?
    ensures var r := Respond(DefaultValves, fields, user, Delivered(ChatResponse("Hello<|eot_id|>")));
            r.reply == Text("Hello")
            && r.fields["messages"].items[|r.fields["messages"].items| - 1] == AssistantMessage("Hello")
  {
    CleanTrailingMarker();
    WellFormedResponseSucceeds(DefaultValves, fields, user, ChatResponse("Hello<|eot_id|>"), "Hello<|eot_id|>");
    SuccessAppendsOne(DefaultValves, fields, user, Delivered(ChatResponse("Hello<|eot_id|>")));
  }

  /** A response `{}` gives the parse error and leaves the conversation alone. */
  lemma ScenarioEmptyResponse(fields: map<string, Json>, user: Json)
    requires Accepted(DefaultValves, fields, user)
    ensures var r := Respond(DefaultValves, fields, user, Delivered(Obj(map[])));
            r.reply == Error(ParseErrorPrefix + "'choices'") && r.fields == fields
  {
    ExtractEmptyResponse();
  }

  /**
   A caller of `Forwarder.Pipe`: with the default two-second interval and
   attempts one second apart from time 0, the two progress attempts are
   suppressed and only the terminal event reaches the emitter.
   */
  method PipeClient() {
    var pipe := new Forwarder();
    var sink := new Sink();
    var fields := HelloFields();
    var body := new Body(fields);
    var clock := (i: nat) => i as real;
    var outcome := Delivered(ChatResponse("hello there"));
    ScenarioHelloThere(Null);
    SuccessAttempts(DefaultValves, fields, Null, outcome);
    SuccessEventsOneSecondApart(clock);
    var reply, sent := pipe.Pipe(body, Null, sink, clock, outcome);
    assert reply == Text("hello there");
    assert body.fields["messages"] == Arr([UserMessage("hi"), AssistantMessage("hello there")]);
    assert sink.events == [StatusEvent("info", SuccessText, true)];
    assert pipe.lastEmitTime == 2.0;
  }
}
