/**
 * Tool dispatch, response packaging and the multi-round tool-call loop of
 * the chat service. The remote streams are given as input: `rounds[0]` is
 * the reply to the user's message, `rounds[k + 1]` the reply to the k-th
 * batch of tool responses.
 */
module GeminiService {
  import opened Wrappers
  import opened JsString
  import opened MockApis

  /** A function call requested by the remote model. */
  datatype FunctionCall = FunctionCall(name: string, args: Args, id: string)

  /** `{ result: response }`, the payload wrapped around a lookup record. */
  datatype ResponseBody = ResponseBody(result: Record)

  /** `{ functionResponse: { name, response, id } }`. */
  datatype FunctionResponse = FunctionResponse(name: string, response: ResponseBody, id: string)

  /** What can be thrown inside the loop's `try` block. */
  datatype Fault =
    | RemoteFailure(reason: string)  // the remote request or its stream failed
    | LookupThrew(e: TypeError)      // a registered lookup threw

  /**
   * A tool registry: the handler registered under a name, applied to the
   * call's arguments, or `None` when there is none. The chat widget's own
   * registry is `MockApis.Handler`.
   */
  type Registry = (string, Args) -> Option<Result<Record, TypeError>>

  /** One stream increment: its text (`""` when absent) and its calls (`[]` when absent). */
  datatype Chunk = Chunk(text: string, functionCalls: seq<FunctionCall>)

  /**
   * A streamed reply: it yields `chunks` in order and then either ends
   * (`failure == None`) or throws.
   */
  datatype Stream = Stream(chunks: seq<Chunk>, failure: Option<string>)

  /** A message submitted to the chat session. */
  datatype Outgoing = UserText(text: string) | ToolResponses(parts: seq<FunctionResponse>)

  /**
   * How the generator stops: it returns, it re-raises a fault, or it is
   * still waiting for a reply that the input does not supply.
   */
  datatype Outcome = Completed | Failed(fault: Fault) | AwaitingReply

  /** What one run of the loop produces: yielded fragments, submitted messages, outcome. */
  datatype Trace = Trace(fragments: seq<string>, sent: seq<Outgoing>, outcome: Outcome)

  const ErrorFragment := "\n\n*System Error: I'm having trouble accessing my tools right now.*"

  // ------------------------------------------------------------------ dispatch

  /** The synthetic record for a name with no handler. */
  function NotImplemented(name: string): (r: Record)
    ensures HasStr(r, Error, "Function " + name + " not implemented")
    ensures Get(r, Status).None?
  {
    map[Error := Str("Function " + name + " not implemented")]
  }

  /**
   * `apiFunction ? apiFunction(args) : { error: ... }`: a registered
   * handler's record or what it throws; for any other name the
   * not-implemented record, which does not fail the turn.
   */
  function Dispatch(registry: Registry, name: string, args: Args): Result<Record, Fault> {
    match registry(name, args)
    case None => Ok(NotImplemented(name))
    case Some(Ok(record)) => Ok(record)
    case Some(Err(e)) => Err(LookupThrew(e))
  }

  /** Dispatching against the widget's own table. */
  lemma MockDispatch(name: string, args: Args)
    ensures !IsRegistered(name) ==> Dispatch(Handler, name, args) == Ok(NotImplemented(name))
    ensures IsRegistered(name) ==>
      (Dispatch(Handler, name, args).Err? <==> ParamOf(name) !in args)
    ensures name == "trackOrder" && "orderId" in args ==>
      Dispatch(Handler, name, args) == Ok(TrackOrder(args["orderId"]))
    ensures name == "checkStock" && "productName" in args ==>
      Dispatch(Handler, name, args) == Ok(CheckStock(args["productName"]))
    ensures name == "findServiceCenter" && "city" in args ==>
      Dispatch(Handler, name, args) == Ok(FindServiceCenter(args["city"]))
  {
  }

  /** Dispatching one call. */
  function Invoke(registry: Registry, call: FunctionCall): Result<Record, Fault> {
    Dispatch(registry, call.name, call.args)
  }

  /** The response for a call whose lookup returned `record`. */
  function Package(call: FunctionCall, record: Record): FunctionResponse {
    FunctionResponse(call.name, ResponseBody(record), call.id)
  }

  /** `responses` put in front of the responses of the remaining calls. */
  function Prefixed(responses: seq<FunctionResponse>, rest: Result<seq<FunctionResponse>, Fault>)
    : Result<seq<FunctionResponse>, Fault>
  {
    match rest
    case Ok(more) => Ok(responses + more)
    case Err(f) => Err(f)
  }

  /** Putting responses in front, one batch after another. */
  lemma PrefixedTwice(a: seq<FunctionResponse>, b: seq<FunctionResponse>, rest: Result<seq<FunctionResponse>, Fault>)
    ensures Prefixed(a, Prefixed(b, rest)) == Prefixed(a + b, rest)
  {
    if rest.Ok? {
      assert a + (b + rest.value) == (a + b) + rest.value;
    }
  }

  /**
   * The responses for a batch of calls, in call order, or the fault of the
   * first call whose lookup throws.
   */
  function RespondAll(registry: Registry, calls: seq<FunctionCall>): Result<seq<FunctionResponse>, Fault> {
    if calls == [] then Ok([])
    else match Invoke(registry, calls[0])
      case Err(f) => Err(f)
      case Ok(record) => Prefixed([Package(calls[0], record)], RespondAll(registry, calls[1..]))
  }

  /** `calls[k]` is the first call whose lookup throws, and it throws `f`. */
  predicate FirstFaultAt(registry: Registry, calls: seq<FunctionCall>, f: Fault, k: nat) {
    k < |calls| && Invoke(registry, calls[k]) == Err(f) &&
    forall j :: 0 <= j < k ==> Invoke(registry, calls[j]).Ok?
  }

  /**
   * Exactly one response per call, in call order, each carrying the call's
   * name and id around the dispatched record; or, when some lookup throws,
   * the fault of the first call that does.
   */
  lemma {:induction false} RespondAllOnePerCall(registry: Registry, calls: seq<FunctionCall>)
    ensures var r := RespondAll(registry, calls);
      && (r.Ok? <==> forall i :: 0 <= i < |calls| ==> Invoke(registry, calls[i]).Ok?)
      && (r.Ok? ==> |r.value| == |calls|)
      && (r.Ok? ==> forall i :: 0 <= i < |calls| ==>
            r.value[i] == Package(calls[i], Invoke(registry, calls[i]).value))
      && (r.Err? ==> exists k: nat :: FirstFaultAt(registry, calls, r.error, k))
  {
    if calls != [] {
      RespondAllOnePerCall(registry, calls[1..]);
      assert forall j :: 1 <= j < |calls| ==> calls[j] == calls[1..][j - 1];
      var r := RespondAll(registry, calls);
      if Invoke(registry, calls[0]).Err? {
        assert FirstFaultAt(registry, calls, r.error, 0);
      } else if RespondAll(registry, calls[1..]).Err? {
        var k: nat :| FirstFaultAt(registry, calls[1..], r.error, k);
        assert FirstFaultAt(registry, calls, r.error, k + 1);
      }
    }
  }

  // ---------------------------------------------------------- draining a stream

  /** The texts a stream yields: every non-empty chunk text, in arrival order. */
  function Texts(chunks: seq<Chunk>): (r: seq<string>)
    ensures |r| <= |chunks|
    ensures forall t :: t in r ==> t != ""
  {
    if chunks == [] then []
    else (if chunks[0].text != "" then [chunks[0].text] else []) + Texts(chunks[1..])
  }

  /** Every chunk's text, empty or not. */
  function AllText(chunks: seq<Chunk>): seq<string> {
    if chunks == [] then [] else [chunks[0].text] + AllText(chunks[1..])
  }

  /** Every chunk's calls, accumulated in arrival order. */
  function Calls(chunks: seq<Chunk>): seq<FunctionCall> {
    if chunks == [] then [] else chunks[0].functionCalls + Calls(chunks[1..])
  }

  /** Streaming two runs of chunks one after the other yields both texts in order. */
  lemma {:induction false} TextsAppend(a: seq<Chunk>, b: seq<Chunk>)
    ensures Texts(a + b) == Texts(a) + Texts(b)
  {
    if a == [] {
      assert a + b == b;
    } else {
      assert (a + b)[1..] == a[1..] + b;
      TextsAppend(a[1..], b);
    }
  }

  /** Skipping the empty texts loses nothing of the accumulated reply. */
  lemma {:induction false} TextsJoinAllText(chunks: seq<Chunk>)
    ensures Concat(Texts(chunks)) == Concat(AllText(chunks))
  {
    if chunks != [] {
      TextsJoinAllText(chunks[1..]);
      if chunks[0].text != "" {
        assert ([chunks[0].text] + Texts(chunks[1..]))[1..] == Texts(chunks[1..]);
      } else {
        assert Texts(chunks) == Texts(chunks[1..]);
        assert Concat(AllText(chunks)) == "" + Concat(AllText(chunks[1..]));
      }
    }
  }

  /** The calls of two runs of chunks, accumulated in order. */
  lemma {:induction false} CallsAppend(a: seq<Chunk>, b: seq<Chunk>)
    ensures Calls(a + b) == Calls(a) + Calls(b)
  {
    if a == [] {
      assert a + b == b;
    } else {
      assert (a + b)[1..] == a[1..] + b;
      CallsAppend(a[1..], b);
    }
  }

  /** Every call of every chunk is accumulated, and nothing else is. */
  lemma {:induction false} CallsFromEveryChunk(chunks: seq<Chunk>, call: FunctionCall)
    ensures call in Calls(chunks) <==>
      exists i :: 0 <= i < |chunks| && call in chunks[i].functionCalls
  {
    if chunks != [] {
      CallsFromEveryChunk(chunks[1..], call);
      if call in Calls(chunks[1..]) {
        var i :| 0 <= i < |chunks[1..]| && call in chunks[1..][i].functionCalls;
        assert chunks[i + 1] == chunks[1..][i];
      }
      if i :| 0 <= i < |chunks| && call in chunks[i].functionCalls {
        if i > 0 { assert chunks[1..][i - 1] == chunks[i]; }
      }
    }
  }

  // ------------------------------------------------------------------ the loop

  /** A round after which the loop submits responses and asks for another. */
  predicate Resubmits(registry: Registry, s: Stream) {
    s.failure.None? && Calls(s.chunks) != [] && RespondAll(registry, Calls(s.chunks)).Ok?
  }

  /** Reference definition of the loop over the remaining rounds. */
  function Drain(registry: Registry, rounds: seq<Stream>): Trace
    decreases |rounds|
  {
    if rounds == [] then Trace([], [], AwaitingReply)
    else
      var s := rounds[0];
      var texts := Texts(s.chunks);
      if s.failure.Some? then
        Trace(texts + [ErrorFragment], [], Failed(RemoteFailure(s.failure.value)))
      else
        var calls := Calls(s.chunks);
        if calls == [] then Trace(texts, [], Completed)
        else match RespondAll(registry, calls)
          case Err(f) => Trace(texts + [ErrorFragment], [], Failed(f))
          case Ok(responses) =>
            var rest := Drain(registry, rounds[1..]);
            Trace(texts + rest.fragments, [ToolResponses(responses)] + rest.sent, rest.outcome)
  }

  /** `t` after fragments and messages already produced. */
  function Join(fragments: seq<string>, sent: seq<Outgoing>, t: Trace): Trace {
    Trace(fragments + t.fragments, sent + t.sent, t.outcome)
  }

  /** What `sendMessageStream(chat, message)` does when the session replies with `rounds`. */
  function Reply(registry: Registry, message: string, rounds: seq<Stream>): Trace {
    Join([], [UserText(message)], Drain(registry, rounds))
  }

  /** One round of `Drain`, by how the round ends. */
  lemma DrainFirstRound(registry: Registry, rounds: seq<Stream>)
    requires rounds != []
    ensures var s := rounds[0]; var texts := Texts(s.chunks); var calls := Calls(s.chunks);
      var t := Drain(registry, rounds);
      && (s.failure.Some? ==>
            t == Trace(texts + [ErrorFragment], [], Failed(RemoteFailure(s.failure.value))))
      && (s.failure.None? && calls == [] ==> t == Trace(texts, [], Completed))
      && (s.failure.None? && calls != [] && RespondAll(registry, calls).Err? ==>
            t == Trace(texts + [ErrorFragment], [], Failed(RespondAll(registry, calls).error)))
      && (Resubmits(registry, s) ==>
            t == Join(texts, [ToolResponses(RespondAll(registry, calls).value)], Drain(registry, rounds[1..])))
  {
  }

  /**
   * How many rounds resubmit before the first one that does not: the rounds
   * the loop answers with tool responses.
   */
  function Answered(registry: Registry, rounds: seq<Stream>): (n: nat)
    ensures n <= |rounds|
    ensures forall j :: 0 <= j < n ==> Resubmits(registry, rounds[j])
    ensures n < |rounds| ==> !Resubmits(registry, rounds[n])
  {
    if rounds == [] || !Resubmits(registry, rounds[0]) then 0
    else
      var n := Answered(registry, rounds[1..]);
      assert forall j :: 1 <= j <= n ==> rounds[j] == rounds[1..][j - 1];
      1 + n
  }

  /** The texts of a run of rounds, round after round. */
  function RoundTexts(rounds: seq<Stream>): seq<string> {
    if rounds == [] then [] else Texts(rounds[0].chunks) + RoundTexts(rounds[1..])
  }

  /**
   * A new round is requested exactly after the rounds that resubmit: one
   * batch of responses per answered round, those rounds' call responses in
   * order, and nothing else.
   */
  lemma {:induction false} DrainSubmitsPerAnsweredRound(registry: Registry, rounds: seq<Stream>)
    ensures var t := Drain(registry, rounds);
      && |t.sent| == Answered(registry, rounds)
      && forall j :: 0 <= j < |t.sent| ==>
           t.sent[j] == ToolResponses(RespondAll(registry, Calls(rounds[j].chunks)).value)
  {
    if rounds != [] && Resubmits(registry, rounds[0]) {
      DrainSubmitsPerAnsweredRound(registry, rounds[1..]);
      assert forall j :: 1 <= j < |rounds| ==> rounds[j] == rounds[1..][j - 1];
    }
  }

  /**
   * The loop stops at the first round that does not resubmit: it returns
   * when that round ended without calls, re-raises when the round's stream
   * or one of its lookups threw, and is still waiting when the input ran out.
   */
  lemma {:induction false} DrainStopsAtFirstUnanswered(registry: Registry, rounds: seq<Stream>)
    ensures var t := Drain(registry, rounds); var n := Answered(registry, rounds);
      && (t.outcome == AwaitingReply <==> n == |rounds|)
      && (t.outcome == Completed <==>
            n < |rounds| && rounds[n].failure.None? && Calls(rounds[n].chunks) == [])
      && (n < |rounds| && rounds[n].failure.Some? ==>
            t.outcome == Failed(RemoteFailure(rounds[n].failure.value)))
      && (n < |rounds| && rounds[n].failure.None? && Calls(rounds[n].chunks) != [] ==>
            Err(t.outcome.fault) == RespondAll(registry, Calls(rounds[n].chunks)))
  {
    if rounds != [] && Resubmits(registry, rounds[0]) {
      DrainStopsAtFirstUnanswered(registry, rounds[1..]);
      var n := Answered(registry, rounds[1..]);
      assert n < |rounds[1..]| ==> rounds[1..][n] == rounds[n + 1];
    }
  }

  /** The texts of the first `n + 1` rounds: the first round's, then the next `n`. */
  lemma RoundTextsCons(rounds: seq<Stream>, n: nat)
    requires n < |rounds|
    ensures RoundTexts(rounds[..n + 1]) == Texts(rounds[0].chunks) + RoundTexts(rounds[1..][..n])
  {
    assert rounds[..n + 1][1..] == rounds[1..][..n];
  }

  /** A resubmitting first round puts its texts ahead of the rest's fragments. */
  lemma DrainResubmitted(registry: Registry, rounds: seq<Stream>)
    requires rounds != [] && Resubmits(registry, rounds[0])
    ensures var t := Drain(registry, rounds); var rest := Drain(registry, rounds[1..]);
      && t.fragments == Texts(rounds[0].chunks) + rest.fragments
      && t.outcome == rest.outcome
      && Answered(registry, rounds) == Answered(registry, rounds[1..]) + 1
  {
    DrainFirstRound(registry, rounds);
  }

  /** A first round that does not resubmit ends the loop with its own texts. */
  lemma DrainUnanswered(registry: Registry, rounds: seq<Stream>)
    requires rounds != [] && !Resubmits(registry, rounds[0])
    ensures var t := Drain(registry, rounds);
      && t.fragments == Texts(rounds[0].chunks) + (if t.outcome.Failed? then [ErrorFragment] else [])
      && Answered(registry, rounds) == 0
  {
    DrainFirstRound(registry, rounds);
  }

  /**
   * The fragments: every non-empty text of every round drained, in order,
   * and, when the loop fails, exactly one error fragment after them.
   */
  lemma {:induction false} DrainFragments(registry: Registry, rounds: seq<Stream>)
    ensures var t := Drain(registry, rounds); var n := Answered(registry, rounds);
      t.fragments == RoundTexts(rounds[..n]) +
        (if n < |rounds| then Texts(rounds[n].chunks) else []) +
        (if t.outcome.Failed? then [ErrorFragment] else [])
  {
    if rounds != [] && Resubmits(registry, rounds[0]) {
      var texts := Texts(rounds[0].chunks);
      var rest := Drain(registry, rounds[1..]);
      var n := Answered(registry, rounds[1..]);
      DrainResubmitted(registry, rounds);
      DrainFragments(registry, rounds[1..]);
      RoundTextsCons(rounds, n);
      var pending := if n < |rounds[1..]| then Texts(rounds[1..][n].chunks) else [];
      var err := if rest.outcome.Failed? then [ErrorFragment] else [];
      assert pending == (if n + 1 < |rounds| then Texts(rounds[n + 1].chunks) else []) by {
        assert n < |rounds[1..]| ==> rounds[1..][n] == rounds[n + 1];
      }
      AppendAssoc(texts, RoundTexts(rounds[1..][..n]) + pending, err);
      AppendAssoc(texts, RoundTexts(rounds[1..][..n]), pending);
    } else if rounds != [] {
      DrainUnanswered(registry, rounds);
      assert rounds[..0] == [];
    }
  }

  /**
   * What is still to come after round `r` has been read, in the loop's own
   * terms: its fragments and messages so far, then round `r`'s exit or the
   * rest of the rounds.
   */
  lemma ReplyAfterRound(registry: Registry, rounds: seq<Stream>, r: nat,
                        fragments: seq<string>, sent: seq<Outgoing>)
    requires r < |rounds|
    ensures var s := rounds[r]; var texts := Texts(s.chunks); var calls := Calls(s.chunks);
      var t := Join(fragments, sent, Drain(registry, rounds[r..]));
      && (s.failure.Some? ==>
            t == Trace(fragments + texts + [ErrorFragment], sent, Failed(RemoteFailure(s.failure.value))))
      && (s.failure.None? && calls == [] ==> t == Trace(fragments + texts, sent, Completed))
      && (s.failure.None? && calls != [] && RespondAll(registry, calls).Err? ==>
            t == Trace(fragments + texts + [ErrorFragment], sent, Failed(RespondAll(registry, calls).error)))
      && (Resubmits(registry, s) ==>
            t == Join(fragments + texts, sent + [ToolResponses(RespondAll(registry, calls).value)],
                      Drain(registry, rounds[r + 1..])))
  {
    var s, rest := rounds[r], rounds[r..];
    assert rest[0] == s && rest[1..] == rounds[r + 1..];
    DrainFirstRound(registry, rest);
    var texts := Texts(s.chunks);
    AppendAssoc(fragments, texts, [ErrorFragment]);
    if Resubmits(registry, s) {
      var later := Drain(registry, rounds[r + 1..]);
      AppendAssoc(fragments, texts, later.fragments);
      AppendAssoc(sent, [ToolResponses(RespondAll(registry, Calls(s.chunks)).value)], later.sent);
    }
  }

  lemma AppendAssoc<T>(a: seq<T>, b: seq<T>, c: seq<T>)
    ensures a + (b + c) == a + b + c
  {
  }

  /**
   * The `for await` over one stream: the texts it yields (only truthy ones)
   * and the calls it accumulates, both in arrival order.
   */
  method DrainStream(chunks: seq<Chunk>) returns (texts: seq<string>, functionCalls: seq<FunctionCall>)
    ensures texts == Texts(chunks)
    ensures functionCalls == Calls(chunks)
  {
    texts, functionCalls := [], [];
    var i := 0;
    while i < |chunks|
      invariant 0 <= i <= |chunks|
      invariant texts + Texts(chunks[i..]) == Texts(chunks)
      invariant functionCalls + Calls(chunks[i..]) == Calls(chunks)
    {
      var chunk := chunks[i];
      assert chunks[i..][1..] == chunks[i + 1..];
      if chunk.text != "" {
        texts := texts + [chunk.text];
      }
      functionCalls := functionCalls + chunk.functionCalls;
      i := i + 1;
    }
    assert chunks[i..] == [];
  }

  /**
   * The `for` over the accumulated calls: one response per call, in order,
   * each copying the call's name and id; a lookup that throws ends it.
   */
  method RespondToCalls(registry: Registry, functionCalls: seq<FunctionCall>)
    returns (r: Result<seq<FunctionResponse>, Fault>)
    ensures r == RespondAll(registry, functionCalls)
  {
    var functionResponses: seq<FunctionResponse> := [];
    var j := 0;
    assert functionCalls[j..] == functionCalls;
    assert Prefixed([], RespondAll(registry, functionCalls)) == RespondAll(registry, functionCalls) by {
      if RespondAll(registry, functionCalls).Ok? {
        assert [] + RespondAll(registry, functionCalls).value == RespondAll(registry, functionCalls).value;
      }
    }
    while j < |functionCalls|
      invariant 0 <= j <= |functionCalls|
      invariant RespondAll(registry, functionCalls) ==
        Prefixed(functionResponses, RespondAll(registry, functionCalls[j..]))
    {
      var call := functionCalls[j];
      assert functionCalls[j..][1..] == functionCalls[j + 1..];
      var response := Dispatch(registry, call.name, call.args);
      if response.Err? {
        return Err(response.error);
      }
      PrefixedTwice(functionResponses, [Package(call, response.value)], RespondAll(registry, functionCalls[j + 1..]));
      functionResponses := functionResponses + [FunctionResponse(call.name, ResponseBody(response.value), call.id)];
      j := j + 1;
    }
    assert functionCalls[j..] == [];
    assert functionResponses + [] == functionResponses;
    return Ok(functionResponses);
  }

  /**
   * `sendMessageStream`: send the message, then drain each stream, yielding
   * its non-empty texts and collecting its calls; answer the calls and
   * submit the answers for another round; stop at the first round without
   * calls. Any fault yields one error fragment and is re-raised (the
   * `Failed` outcome).
   */
  method SendMessageStream(registry: Registry, message: string, rounds: seq<Stream>)
    returns (fragments: seq<string>, sent: seq<Outgoing>, outcome: Outcome)
    ensures Trace(fragments, sent, outcome) == Reply(registry, message, rounds)
  {
    fragments, sent, outcome := [], [UserText(message)], AwaitingReply;
    var r := 0;
    while r < |rounds|
      invariant 0 <= r <= |rounds|
      invariant Reply(registry, message, rounds) == Join(fragments, sent, Drain(registry, rounds[r..]))
      decreases |rounds| - r
    {
      var result := rounds[r];
      ReplyAfterRound(registry, rounds, r, fragments, sent);
      var texts, functionCalls := DrainStream(result.chunks);
      fragments := fragments + texts;
      if result.failure.Some? {
        fragments := fragments + [ErrorFragment];
        outcome := Failed(RemoteFailure(result.failure.value));
        return;
      }
      if |functionCalls| > 0 {
        var functionResponses := RespondToCalls(registry, functionCalls);
        if functionResponses.Err? {
          fragments := fragments + [ErrorFragment];
          outcome := Failed(functionResponses.error);
          return;
        }
        sent := sent + [ToolResponses(functionResponses.value)];
        r := r + 1;
      } else {
        outcome := Completed;
        return;
      }
    }
  }
}
