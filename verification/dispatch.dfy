/** The dispatcher: per-call execution (version check, method check, lookup,
    handler outcome) and the `Handle` entry point that reads, runs, filters
    and shapes the output (section 6 of the JSON-RPC 2.0 specification). */
module Dispatch {
  import opened Wrappers
  import opened Json
  import opened Errors
  import opened Messages
  import opened Registry

  /** How a handler run ended, as seen when the deadline race is decided.
      `Timeout` carries whatever result the handler had already written
      before the deadline fired; `Done` carries the result and error the
      handler left in the response. */
  datatype Outcome =
    | Timeout(partial: Option<Value>)
    | Done(result: Option<Value>, error: Option<Error>)

  /** Runs a registered handler on a request that carries its call's own
      deadline context. Because that context names the call's position, two
      identical calls of one batch may end differently. */
  type Executor = (HandlerId, Request) -> Outcome

  /** The data of the error for an empty method name. */
  const NoMethodData: string := "Method not specified or empty"

  /** The copy of `req` a handler receives when it is the `call`-th call of
      its batch: same fields, and a fresh context that expires `m.timeout`
      after it was started, as a child of `ctx`. */
  function HandlerView(m: Manager, ctx: Context, call: nat, req: Request): (view: Request)
    ensures view.version == req.version && view.methodName == req.methodName
    ensures view.id == req.id && view.params == req.params
    ensures ContextOf(view) == WithDeadline(ctx, m.timeout, call)
  {
    WithContext(req, Some(WithDeadline(ctx, m.timeout, call))).value
  }

  /** Folds a handler outcome into the response. After a timeout the error is
      ExecutionTimeout without data and the partial result stays; after
      completion a handler error clears the result. */
  function ApplyOutcome(res: Response, outcome: Outcome): (r: Response)
    ensures r.version == res.version && r.id == res.id
    ensures outcome.Done? ==> !(r.result.Some? && r.error.Some?)
    ensures outcome.Done? ==> r.error == outcome.error
    ensures outcome.Done? && outcome.error.None? ==> r.result == outcome.result
    ensures outcome.Timeout? ==> r.error == Some(Catalogued(ExecutionTimeout, None)) && r.result == outcome.partial
  {
    match outcome
    case Timeout(partial) =>
      res.(result := partial, error := Some(Catalogued(ExecutionTimeout, None)))
    case Done(result, error) =>
      if error.Some? then res.(result := None, error := error)
      else res.(result := result, error := None)
  }

  /** Executes the `call`-th call of a batch. The version is checked first,
      then the method name, then the registry; only a registered method
      reaches its handler. The reply always echoes the request's version and
      identifier, and it holds both a result and an error only when the
      handler timed out. */
  function ExecMethod(m: Manager, exec: Executor, ctx: Context, call: nat, req: Request): (r: Response)
    ensures r.version == req.version && r.id == req.id
    ensures r.result.Some? && r.error.Some? ==>
              req.version == Version && req.methodName in m.methods
              && exec(m.methods[req.methodName], HandlerView(m, ctx, call, req)).Timeout?
    ensures r.error.None? ==>
              req.version == Version && req.methodName in m.methods
              && exec(m.methods[req.methodName], HandlerView(m, ctx, call, req)).Done?
  {
    var res := NewResponse(req);
    if req.version != Version then
      res.(error := Some(Catalogued(InvalidRpcVersion, Some(Text(res.version)))))
    else if req.methodName == "" then
      res.(error := Some(Catalogued(MethodNotFound, Some(Text(NoMethodData)))))
    else
      match Lookup(m, req.methodName)
      case None => res.(error := Some(Catalogued(MethodNotFound, Some(Text(req.methodName)))))
      case Some(h) => ApplyOutcome(res, exec(h, HandlerView(m, ctx, call, req)))
  }

  /** A wrong version is reported first, whatever the method, the registry,
      the handlers or the call's position: the data is the version the
      request carried. */
  lemma VersionCheckedFirst(m: Manager, exec: Executor, ctx: Context, call: nat, req: Request,
                            m': Manager, exec': Executor, ctx': Context, call': nat)
    requires req.version != Version
    ensures ExecMethod(m, exec, ctx, call, req).error == Some(Catalogued(InvalidRpcVersion, Some(Text(req.version))))
    ensures ExecMethod(m, exec, ctx, call, req).result.None?
    ensures ExecMethod(m, exec, ctx, call, req) == ExecMethod(m', exec', ctx', call', req)
  {
  }

  /** With the right version, an empty method name is MethodNotFound with a
      fixed data text, and no handler is consulted. */
  lemma EmptyMethodNotFound(m: Manager, exec: Executor, ctx: Context, call: nat, req: Request,
                            m': Manager, exec': Executor, ctx': Context, call': nat)
    requires req.version == Version && req.methodName == ""
    ensures ExecMethod(m, exec, ctx, call, req).error == Some(Catalogued(MethodNotFound, Some(Text(NoMethodData))))
    ensures ExecMethod(m, exec, ctx, call, req).result.None?
    ensures ExecMethod(m, exec, ctx, call, req) == ExecMethod(m', exec', ctx', call', req)
  {
  }

  /** With the right version, a non-empty name missing from the registry is
      MethodNotFound whose data is that name, and no handler is consulted. */
  lemma UnknownMethodNotFound(m: Manager, exec: Executor, ctx: Context, call: nat, req: Request,
                              exec': Executor, ctx': Context, call': nat)
    requires req.version == Version && req.methodName != "" && req.methodName !in m.methods
    ensures ExecMethod(m, exec, ctx, call, req).error == Some(Catalogued(MethodNotFound, Some(Text(req.methodName))))
    ensures ExecMethod(m, exec, ctx, call, req).result.None?
    ensures ExecMethod(m, exec, ctx, call, req) == ExecMethod(m, exec', ctx', call', req)
  {
  }

  /** With the right version and a registered name, the reply is decided by
      the outcome of that name's handler on the call's deadline-carrying copy. */
  lemma RegisteredMethodRunsHandler(m: Manager, exec: Executor, ctx: Context, call: nat, req: Request)
    requires req.version == Version && req.methodName != "" && req.methodName in m.methods
    ensures var outcome := exec(m.methods[req.methodName], HandlerView(m, ctx, call, req));
            var r := ExecMethod(m, exec, ctx, call, req);
            match outcome
            case Timeout(partial) =>
              r.error == Some(Catalogued(ExecutionTimeout, None)) && r.result == partial
            case Done(result, error) =>
              (error.Some? ==> r.error == error && r.result.None?)
              && (error.None? ==> r.error.None? && r.result == result)
  {
  }

  /** A reply is kept for output when its request expects one (it carries an
      identifier) or when the call failed: a failed notification is still
      answered, a successful one is dropped. */
  function Kept(req: Request, resp: Response): (keep: bool)
    ensures !IsNotification(req) ==> keep
    ensures resp.error.Some? ==> keep
    ensures IsNotification(req) && resp.error.None? ==> !keep
  {
    req.id.Some? || resp.error.Some?
  }

  /** Per-call execution against one manager, handler runner and caller context. */
  function Runner(m: Manager, exec: Executor, ctx: Context): (run: (nat, Request) -> Response)
    ensures forall call, req :: run(call, req) == ExecMethod(m, exec, ctx, call, req)
  {
    (call: nat, req: Request) => ExecMethod(m, exec, ctx, call, req)
  }

  /** Runs the calls in order through `run`, the first one at position
      `start`, and keeps the replies that `Kept` selects. When `run` echoes
      identifiers, every kept reply carries an identifier or an error. */
  function Collect(run: (nat, Request) -> Response, reqs: seq<Request>, start: nat): (out: seq<Response>)
    ensures |out| <= |reqs|
    ensures (forall call, req :: run(call, req).id == req.id) ==>
              forall k :: 0 <= k < |out| ==> out[k].id.Some? || out[k].error.Some?
    decreases |reqs|
  {
    if |reqs| == 0 then []
    else
      var resp := run(start, reqs[0]);
      (if Kept(reqs[0], resp) then [resp] else []) + Collect(run, reqs[1..], start + 1)
  }

  /** `out` is the subsequence of the replies to `reqs` (run from position
      `start`) at the strictly increasing positions `idx`, and those are
      exactly the positions whose reply is kept. */
  ghost predicate IsOrderedSelection(run: (nat, Request) -> Response, reqs: seq<Request>, start: nat,
                                     out: seq<Response>, idx: seq<nat>) {
    && |idx| == |out|
    && (forall k :: 0 <= k < |idx| ==> idx[k] < |reqs| && out[k] == run(start + idx[k], reqs[idx[k]]))
    && (forall k, l :: 0 <= k < l < |idx| ==> idx[k] < idx[l])
    && (forall i :: 0 <= i < |reqs| ==> (i in idx <==> Kept(reqs[i], run(start + i, reqs[i]))))
  }

  /** The kept replies are exactly the replies of the kept calls, in the
      order of the calls: `idx` lists, strictly increasing, the positions of
      the calls whose reply is kept, and the output is their replies. */
  lemma {:induction false} CollectIsOrderedSelection(run: (nat, Request) -> Response, reqs: seq<Request>, start: nat)
    returns (idx: seq<nat>)
    ensures IsOrderedSelection(run, reqs, start, Collect(run, reqs, start), idx)
    decreases |reqs|
  {
    if |reqs| == 0 {
      idx := [];
    } else {
      var rest := CollectIsOrderedSelection(run, reqs[1..], start + 1);
      idx := SelectionStep(run, reqs, start, rest);
    }
  }

  /** One step of the selection: the first call's position, if kept, followed
      by the tail's positions moved one place right. */
  lemma SelectionStep(run: (nat, Request) -> Response, reqs: seq<Request>, start: nat, rest: seq<nat>)
    returns (idx: seq<nat>)
    requires |reqs| > 0
    requires IsOrderedSelection(run, reqs[1..], start + 1, Collect(run, reqs[1..], start + 1), rest)
    ensures IsOrderedSelection(run, reqs, start, Collect(run, reqs, start), idx)
  {
    var head: seq<nat> := if Kept(reqs[0], run(start, reqs[0])) then [0] else [];
    idx := head + ShiftPositions(rest);
    StepElements(run, reqs, start, rest, head);
    StepOrder(rest, head);
    StepMembership(run, reqs, start, rest, head);
  }

  /** The step's positions point at the step's replies. */
  lemma StepElements(run: (nat, Request) -> Response, reqs: seq<Request>, start: nat, rest: seq<nat>, head: seq<nat>)
    requires |reqs| > 0
    requires head == if Kept(reqs[0], run(start, reqs[0])) then [0] else []
    requires |rest| == |Collect(run, reqs[1..], start + 1)|
    requires forall k :: 0 <= k < |rest| ==>
               rest[k] < |reqs[1..]| && Collect(run, reqs[1..], start + 1)[k] == run(start + 1 + rest[k], reqs[1..][rest[k]])
    ensures var idx := head + ShiftPositions(rest);
            |idx| == |Collect(run, reqs, start)|
            && forall k :: 0 <= k < |idx| ==> idx[k] < |reqs| && Collect(run, reqs, start)[k] == run(start + idx[k], reqs[idx[k]])
  {
    var tail := reqs[1..];
    var out := Collect(run, reqs, start);
    var restOut := Collect(run, tail, start + 1);
    forall k | 0 <= k < |rest|
      ensures rest[k] + 1 < |reqs| && restOut[k] == run(start + 1 + rest[k], reqs[rest[k] + 1])
    {
      assert tail[rest[k]] == reqs[rest[k] + 1];
    }
    if Kept(reqs[0], run(start, reqs[0])) {
      assert out == [run(start, reqs[0])] + restOut;
      ShiftedAfterKept(run, reqs, start, rest, head, restOut, out);
    } else {
      assert out == restOut && head + ShiftPositions(rest) == ShiftPositions(rest);
      ShiftedAfterDropped(run, reqs, start, rest, restOut);
    }
  }

  /** When the first reply is kept, position 0 followed by the shifted tail
      positions point at the replies. */
  lemma ShiftedAfterKept(run: (nat, Request) -> Response, reqs: seq<Request>, start: nat, rest: seq<nat>,
                         head: seq<nat>, restOut: seq<Response>, out: seq<Response>)
    requires |reqs| > 0 && head == [0] && out == [run(start, reqs[0])] + restOut
    requires |rest| == |restOut|
    requires forall k :: 0 <= k < |rest| ==> rest[k] + 1 < |reqs| && restOut[k] == run(start + 1 + rest[k], reqs[rest[k] + 1])
    ensures var idx := head + ShiftPositions(rest);
            |idx| == |out| && forall k :: 0 <= k < |idx| ==> idx[k] < |reqs| && out[k] == run(start + idx[k], reqs[idx[k]])
  {
    var idx := head + ShiftPositions(rest);
    forall k | 0 < k < |idx|
      ensures idx[k] < |reqs| && out[k] == run(start + idx[k], reqs[idx[k]])
    {
      assert idx[k] == rest[k - 1] + 1;
      assert out[k] == restOut[k - 1];
    }
  }

  /** When the first reply is dropped, the shifted tail positions point at
      the replies. */
  lemma ShiftedAfterDropped(run: (nat, Request) -> Response, reqs: seq<Request>, start: nat, rest: seq<nat>,
                            restOut: seq<Response>)
    requires |rest| == |restOut|
    requires forall k :: 0 <= k < |rest| ==> rest[k] + 1 < |reqs| && restOut[k] == run(start + 1 + rest[k], reqs[rest[k] + 1])
    ensures var idx := ShiftPositions(rest);
            |idx| == |restOut| && forall k :: 0 <= k < |idx| ==> idx[k] < |reqs| && restOut[k] == run(start + idx[k], reqs[idx[k]])
  {
    var idx := ShiftPositions(rest);
    forall k | 0 <= k < |idx|
      ensures idx[k] < |reqs| && restOut[k] == run(start + idx[k], reqs[idx[k]])
    {
      assert idx[k] == rest[k] + 1;
    }
  }

  /** The step's positions are strictly increasing. */
  lemma StepOrder(rest: seq<nat>, head: seq<nat>)
    requires head == [] || head == [0]
    requires forall k, l :: 0 <= k < l < |rest| ==> rest[k] < rest[l]
    ensures var idx := head + ShiftPositions(rest);
            forall k, l :: 0 <= k < l < |idx| ==> idx[k] < idx[l]
  {
  }

  /** The step's positions are exactly the kept calls. */
  lemma StepMembership(run: (nat, Request) -> Response, reqs: seq<Request>, start: nat, rest: seq<nat>, head: seq<nat>)
    requires |reqs| > 0
    requires head == if Kept(reqs[0], run(start, reqs[0])) then [0] else []
    requires forall i :: 0 <= i < |reqs[1..]| ==>
               (i in rest <==> Kept(reqs[1..][i], run(start + 1 + i, reqs[1..][i])))
    ensures var idx := head + ShiftPositions(rest);
            forall i :: 0 <= i < |reqs| ==> (i in idx <==> Kept(reqs[i], run(start + i, reqs[i])))
  {
    var tail := reqs[1..];
    var shifted := ShiftPositions(rest);
    var idx := head + shifted;
    forall i | 0 <= i < |reqs|
      ensures i in idx <==> Kept(reqs[i], run(start + i, reqs[i]))
    {
      if i > 0 {
        assert tail[i - 1] == reqs[i];
        assert start + 1 + (i - 1) == start + i;
        if i - 1 in rest {
          var k :| 0 <= k < |rest| && rest[k] == i - 1;
          assert shifted[k] == i;
        }
        assert i in idx <==> i in shifted;
      } else {
        assert 0 !in shifted;
      }
    }
  }

  /** Every position moved one place to the right, order kept. */
  function ShiftPositions(ps: seq<nat>): (r: seq<nat>)
    ensures |r| == |ps|
    ensures forall k :: 0 <= k < |ps| ==> r[k] == ps[k] + 1
  {
    seq(|ps|, k requires 0 <= k < |ps| => ps[k] + 1)
  }

  /** When every call is a notification that succeeds, nothing is kept. */
  lemma {:induction false} SuccessfulNotificationsAreDropped(run: (nat, Request) -> Response, reqs: seq<Request>, start: nat)
    requires forall i :: 0 <= i < |reqs| ==> IsNotification(reqs[i]) && run(start + i, reqs[i]).error.None?
    ensures Collect(run, reqs, start) == []
    decreases |reqs|
  {
    if |reqs| > 0 {
      var tail := reqs[1..];
      assert IsNotification(reqs[0]) && run(start + 0, reqs[0]).error.None?;
      forall i | 0 <= i < |tail|
        ensures IsNotification(tail[i]) && run(start + 1 + i, tail[i]).error.None?
      {
        assert tail[i] == reqs[i + 1];
        assert start + 1 + i == start + (i + 1);
      }
      SuccessfulNotificationsAreDropped(run, tail, start + 1);
    }
  }

  /** What `Handle` writes: nothing, one bare object, or an array. */
  datatype Output = NoOutput | Single(response: Response) | Batch(responses: seq<Response>)

  /** The replies an output carries, in order. */
  function Written(o: Output): seq<Response> {
    match o
    case NoOutput => []
    case Single(r) => [r]
    case Batch(rs) => rs
  }

  /** Chooses the output shape for the kept replies: none are written as
      nothing, one as a bare object (even when it came from a batch), two or
      more as an array. Every kept reply is written, in order. */
  function Shape(kept: seq<Response>): (o: Output)
    ensures Written(o) == kept
    ensures o.NoOutput? <==> |kept| == 0
    ensures o.Single? <==> |kept| == 1
    ensures o.Batch? ==> |kept| >= 2
  {
    if |kept| > 1 then Batch(kept)
    else if |kept| == 1 then Single(kept[0])
    else NoOutput
  }

  /** The byte sink with its JSON encoder, taken as given: encoding and
      writing an output returns the error that occurred, if any. The encoder
      marshals the whole output before writing, so a marshalling failure
      writes no bytes, while a failing sink may have taken part of them. */
  datatype Writer = Writer(encode: Output -> Option<Value>)

  /** Why `Handle` returned an error: a protocol-class error it refused the
      input with, or the encoder's or writer's own failure. */
  datatype Failure = Rpc(error: Error) | Io(cause: Value)

  /** The output `Handle` handed to the encoder (nothing when it handed none)
      and the error it returned. On an `Io` error the bytes that reached the
      sink may be none or only part of that output. */
  datatype HandleResult = HandleResult(written: Output, err: Option<Failure>)

  const NilReaderData: string := "r io.Reader can't be nil"
  const NilWriterData: string := "w io.Writer can't be nil"
  const NoMethodsData: string := "no methods specified"

  /** A refusal: the error is returned and nothing is written. */
  function Refuse(e: Error): (res: HandleResult)
    ensures res.written.NoOutput? && res.err == Some(Rpc(e))
  {
    HandleResult(NoOutput, Some(Rpc(e)))
  }

  /** The entry point: reads the calls from `src`, runs them in order under
      the caller's context (the background one when none is given) and
      writes the kept replies to `w`. A nil reader or writer, a read failure
      and an empty batch are returned as errors with nothing written. */
  function Handle(m: Manager, ctx: Option<Context>, src: Option<Source>, w: Option<Writer>,
                  dec: Decoder, exec: Executor): (res: HandleResult)
    ensures res.err.Some? && res.err.value.Rpc? ==> res.written.NoOutput?
    ensures res.err.Some? && res.err.value.Io? ==> !res.written.NoOutput? && w.Some?
                                                    && w.value.encode(res.written) == Some(res.err.value.cause)
    ensures src.None? || w.None? ==>
              res.written.NoOutput? && res.err.Some? && res.err.value.Rpc? && res.err.value.error.code == Internal
    ensures res.written.Batch? ==> |res.written.responses| >= 2
    ensures forall k :: 0 <= k < |Written(res.written)| ==>
              Written(res.written)[k].id.Some? || Written(res.written)[k].error.Some?
  {
    if src.None? then Refuse(Catalogued(Internal, Some(Text(NilReaderData))))
    else if w.None? then Refuse(Catalogued(Internal, Some(Text(NilWriterData))))
    else
      match ParseMethodRequest(src.value, dec)
      case Err(e) => Refuse(e)
      case Ok(reqs) =>
        if |reqs| == 0 then Refuse(Catalogued(InvalidRequest, Some(Text(NoMethodsData))))
        else
          var out := Shape(Collect(Runner(m, exec, BaseContext(ctx)), reqs, 0));
          if out.NoOutput? then HandleResult(NoOutput, None)
          else
            match w.value.encode(out)
            case None => HandleResult(out, None)
            case Some(cause) => HandleResult(out, Some(Io(cause)))
  }

  /** A nil reader is refused with an Internal error before anything else is
      looked at: the writer, the input and the handlers play no part. */
  lemma NilReaderRefused(m: Manager, ctx: Option<Context>, w: Option<Writer>, dec: Decoder, exec: Executor)
    ensures Handle(m, ctx, None, w, dec, exec) == Refuse(Catalogued(Internal, Some(Text(NilReaderData))))
  {
  }

  /** A nil writer is refused with an Internal error before the input is read. */
  lemma NilWriterRefused(m: Manager, ctx: Option<Context>, src: Source, dec: Decoder, exec: Executor)
    ensures Handle(m, ctx, Some(src), None, dec, exec) == Refuse(Catalogued(Internal, Some(Text(NilWriterData))))
  {
  }

  /** A read failure is returned unchanged, and nothing is written. */
  lemma ReadFailureReturned(m: Manager, ctx: Option<Context>, src: Source, w: Writer, dec: Decoder, exec: Executor)
    requires ParseMethodRequest(src, dec).Err?
    ensures Handle(m, ctx, Some(src), Some(w), dec, exec) == Refuse(ParseMethodRequest(src, dec).error)
  {
  }

  /** An empty input is a ParseError and nothing is written. */
  lemma EmptyInputIsParseError(m: Manager, ctx: Option<Context>, src: Source, w: Writer, dec: Decoder, exec: Executor)
    requires |src.content| == 0
    ensures var res := Handle(m, ctx, Some(src), Some(w), dec, exec);
            res.written.NoOutput? && res.err.Some? && res.err.value.Rpc? && res.err.value.error.code == ParseError
  {
  }

  /** A batch that decodes to no calls is refused as InvalidRequest. */
  lemma EmptyBatchRefused(m: Manager, ctx: Option<Context>, src: Source, w: Writer, dec: Decoder, exec: Executor)
    requires ParseMethodRequest(src, dec) == Ok([])
    ensures Handle(m, ctx, Some(src), Some(w), dec, exec) == Refuse(Catalogued(InvalidRequest, Some(Text(NoMethodsData))))
  {
  }

  /** For a non-empty read, the output carries exactly the kept replies in
      call order; nothing at all reaches the writer when none is kept, and
      otherwise the writer's error, if any, is what is returned. */
  lemma OutputIsKeptReplies(m: Manager, ctx: Option<Context>, src: Source, w: Writer, dec: Decoder, exec: Executor)
    requires ParseMethodRequest(src, dec).Ok? && |ParseMethodRequest(src, dec).value| > 0
    ensures var kept := Collect(Runner(m, exec, BaseContext(ctx)), ParseMethodRequest(src, dec).value, 0);
            var res := Handle(m, ctx, Some(src), Some(w), dec, exec);
            && Written(res.written) == kept
            && (|kept| == 0 ==> res.err.None?)
            && (|kept| > 0 ==> (res.err.None? <==> w.encode(res.written).None?))
  {
  }

  /** A batch of notifications that all succeed writes nothing and reports
      no error. */
  lemma SilentNotifications(m: Manager, ctx: Option<Context>, src: Source, w: Writer, dec: Decoder, exec: Executor)
    requires ParseMethodRequest(src, dec).Ok? && |ParseMethodRequest(src, dec).value| > 0
    requires var reqs := ParseMethodRequest(src, dec).value;
             forall i :: 0 <= i < |reqs| ==>
               IsNotification(reqs[i]) && ExecMethod(m, exec, BaseContext(ctx), i, reqs[i]).error.None?
    ensures Handle(m, ctx, Some(src), Some(w), dec, exec) == HandleResult(NoOutput, None)
  {
    var reqs := ParseMethodRequest(src, dec).value;
    var run := Runner(m, exec, BaseContext(ctx));
    forall i | 0 <= i < |reqs|
      ensures IsNotification(reqs[i]) && run(0 + i, reqs[i]).error.None?
    {
      assert 0 + i == i;
    }
    SuccessfulNotificationsAreDropped(run, reqs, 0);
  }

  /** A single notification that fails is still answered, as one bare object
      with no identifier. */
  lemma FailedNotificationAnswered(m: Manager, ctx: Option<Context>, src: Source, w: Writer, dec: Decoder,
                                   exec: Executor, req: Request)
    requires ParseMethodRequest(src, dec) == Ok([req])
    requires IsNotification(req) && ExecMethod(m, exec, BaseContext(ctx), 0, req).error.Some?
    ensures Handle(m, ctx, Some(src), Some(w), dec, exec).written == Single(ExecMethod(m, exec, BaseContext(ctx), 0, req))
    ensures Handle(m, ctx, Some(src), Some(w), dec, exec).written.response.id.None?
  {
    assert [req][1..] == [];
  }

  /** End to end: whatever is written is the replies of the calls that expect
      one or that failed, each exactly once and in the order of the calls. */
  lemma WrittenInCallOrder(m: Manager, ctx: Option<Context>, src: Source, w: Writer, dec: Decoder, exec: Executor)
    returns (idx: seq<nat>)
    requires ParseMethodRequest(src, dec).Ok? && |ParseMethodRequest(src, dec).value| > 0
    ensures var reqs := ParseMethodRequest(src, dec).value;
            IsOrderedSelection(Runner(m, exec, BaseContext(ctx)), reqs, 0,
                               Written(Handle(m, ctx, Some(src), Some(w), dec, exec).written), idx)
  {
    idx := CollectIsOrderedSelection(Runner(m, exec, BaseContext(ctx)), ParseMethodRequest(src, dec).value, 0);
    OutputIsKeptReplies(m, ctx, src, w, dec, exec);
  }

  /** A batch whose calls leave a single kept reply is answered with a bare
      object, not a one-element array. */
  lemma OneKeptReplyIsBareObject(m: Manager, ctx: Option<Context>, src: Source, w: Writer, dec: Decoder, exec: Executor)
    requires ParseMethodRequest(src, dec).Ok? && |ParseMethodRequest(src, dec).value| > 0
    requires |Collect(Runner(m, exec, BaseContext(ctx)), ParseMethodRequest(src, dec).value, 0)| == 1
    ensures Handle(m, ctx, Some(src), Some(w), dec, exec).written.Single?
  {
  }

  /** Each call of a batch has its own deadline, so the same call made twice
      in one batch can end differently: here the first run completes and the
      second times out. */
  lemma SameCallMayEndDifferently(m: Manager, ctx: Context, req: Request)
    requires req.version == Version && req.methodName != "" && req.methodName in m.methods
    requires !IsNotification(req)
    ensures var exec: Executor := (h, view) =>
              if ContextOf(view).WithDeadline? && ContextOf(view).call == 0 then Done(Some(Number(1)), None)
              else Timeout(None);
            var out := Collect(Runner(m, exec, ctx), [req, req], 0);
            |out| == 2 && out[0].error.None? && out[1].error == Some(Catalogued(ExecutionTimeout, None))
  {
    var exec: Executor := (h, view) =>
      if ContextOf(view).WithDeadline? && ContextOf(view).call == 0 then Done(Some(Number(1)), None)
      else Timeout(None);
    var reqs := [req, req];
    assert reqs[1..] == [req];
    assert reqs[1..][1..] == [];
    RegisteredMethodRunsHandler(m, exec, ctx, 0, req);
    RegisteredMethodRunsHandler(m, exec, ctx, 1, req);
  }

  /** The registry of the test suite: `add` and `sum` with a one-second deadline. */
  function TestManager(): Manager {
    Manager(map["add" := 1, "sum" := 2], Second)
  }

  /** The test registry is what the builder produces from a one-second
      timeout followed by registering `add` and then `sum`. */
  lemma TestManagerBuilt()
    ensures var b := Add(SetTimeout(NewManagerBuilder(), Second), "add", Some(1));
            b.Ok? && Add(b.value, "sum", Some(2)).Ok?
            && Build(Add(b.value, "sum", Some(2)).value) == TestManager()
  {
  }

  /** A read that yields one call expecting a reply writes exactly that
      call's reply, as a bare object. */
  lemma OneCallWritten(m: Manager, ctx: Option<Context>, src: Source, w: Writer, dec: Decoder,
                       exec: Executor, req: Request)
    requires ParseMethodRequest(src, dec) == Ok([req]) && !IsNotification(req)
    ensures Handle(m, ctx, Some(src), Some(w), dec, exec).written == Single(ExecMethod(m, exec, BaseContext(ctx), 0, req))
  {
    assert [req][1..] == [];
  }

  /** A read that yields two calls expecting replies writes both replies, in
      call order, as an array; the second call runs at position 1. */
  lemma TwoCallsWritten(m: Manager, ctx: Option<Context>, src: Source, w: Writer, dec: Decoder,
                        exec: Executor, r1: Request, r2: Request)
    requires ParseMethodRequest(src, dec) == Ok([r1, r2]) && !IsNotification(r1) && !IsNotification(r2)
    ensures Handle(m, ctx, Some(src), Some(w), dec, exec).written
            == Batch([ExecMethod(m, exec, BaseContext(ctx), 0, r1), ExecMethod(m, exec, BaseContext(ctx), 1, r2)])
  {
    var run := Runner(m, exec, BaseContext(ctx));
    var reqs := [r1, r2];
    assert reqs[1..] == [r2] && reqs[1..][1..] == [];
    assert Collect(run, reqs, 0) == [run(0, r1), run(1, r2)];
  }

  /** The type the test handler decodes its parameters into: two integers. */
  const AddParams: Target := 0

  /** The two operands of the test handler from its decoded parameters;
      fields the decoder did not fill stay zero, as in a Go struct. */
  function Operands(v: Value): (int, int) {
    match v
    case Fields(vs) =>
      (if |vs| > 0 && vs[0].Number? then vs[0].n else 0,
       if |vs| > 1 && vs[1].Number? then vs[1].n else 0)
    case _ => (0, 0)
  }

  /** The test suite's handler behind both `add` and `sum`: it decodes its
      parameters with `ParseParams` through `unmarshal` and adds the two
      operands. A sum of 20 sleeps for ten seconds, so it times out under any
      shorter deadline; a sum of 1 reports an error after setting the result.
      Int64 wrap-around of the sum is not modelled. */
  function TestAdder(unmarshal: (Value, Target) -> Result<Value, Value>): Executor {
    (h, view) =>
      match ParseParams(view, Some(AddParams), unmarshal)
      case Err(e) => Done(None, Some(e))
      case Ok(v) =>
        var sum := Operands(v).0 + Operands(v).1;
        if sum == 20 && ContextOf(view).WithDeadline? && ContextOf(view).timeout < 10 * Second then Timeout(None)
        else if sum == 1 then Done(Some(Number(1)), Some(Custom(1, "Fake error for test")))
        else Done(Some(Number(sum)), None)
  }

  /** The test handler on parameters that decode to operands `a` and `b`:
      the sum, the sum with an error when it is 1, no result when a sum of 20
      outlives a deadline shorter than ten seconds. */
  lemma TestAdderOutcome(unmarshal: (Value, Target) -> Result<Value, Value>, h: HandlerId, view: Request, a: int, b: int)
    requires view.params.Some? && unmarshal(view.params.value, AddParams) == Ok(Fields([Number(a), Number(b)]))
    ensures a + b == 1 ==> TestAdder(unmarshal)(h, view) == Done(Some(Number(1)), Some(Custom(1, "Fake error for test")))
    ensures a + b != 1 && a + b != 20 ==> TestAdder(unmarshal)(h, view) == Done(Some(Number(a + b)), None)
    ensures a + b == 20 && ContextOf(view).WithDeadline? && ContextOf(view).timeout < 10 * Second ==>
              TestAdder(unmarshal)(h, view) == Timeout(None)
  {
    assert ParseParams(view, Some(AddParams), unmarshal) == Ok(Fields([Number(a), Number(b)]));
    assert Operands(Fields([Number(a), Number(b)])) == (a, b);
  }

  /** A well-formed call of either test method whose operands sum to neither
      20 nor 1 is answered with the sum, whatever its position and context. */
  lemma TestAdderSums(unmarshal: (Value, Target) -> Result<Value, Value>, ctx: Context, call: nat,
                      name: string, id: Option<Value>, params: Value, a: int, b: int)
    requires name == "add" || name == "sum"
    requires unmarshal(params, AddParams) == Ok(Fields([Number(a), Number(b)]))
    requires a + b != 20 && a + b != 1
    ensures ExecMethod(TestManager(), TestAdder(unmarshal), ctx, call, Request(Version, name, id, Some(params), None))
            == Response(Version, id, Some(Number(a + b)), None)
  {
    var req := Request(Version, name, id, Some(params), None);
    var view := HandlerView(TestManager(), ctx, call, req);
    TestAdderOutcome(unmarshal, TestManager().methods[name], view, a, b);
    RegisteredMethodRunsHandler(TestManager(), TestAdder(unmarshal), ctx, call, req);
  }

  /** Example: the empty object `{}` decodes to a request with empty version
      and method and no identifier; it is answered, although a notification,
      with InvalidRpcVersion whose data is the empty version. */
  lemma EmptyObjectAnswered(ctx: Option<Context>, src: Source, w: Writer, exec: Executor)
    requires src.content == "{}"
    requires w.encode(Single(Response("", None, None, Some(Catalogued(InvalidRpcVersion, Some(Text("")))))))
             .None?
    ensures var dec := Decoder(_ => Ok(Request("", "", None, None, None)), _ => Err(GoError("unused")));
            Handle(TestManager(), ctx, Some(src), Some(w), dec, exec)
            == HandleResult(Single(Response("", None, None, Some(Catalogued(InvalidRpcVersion, Some(Text("")))))), None)
  {
    var dec := Decoder(_ => Ok(Request("", "", None, None, None)), _ => Err(GoError("unused")));
    assert ParseMethodRequest(src, dec) == Ok([Request("", "", None, None, None)]);
  }

  /** Example: a call of `add` with identifier "1" and operands 10 and 120 is
      answered with that identifier and the sum 130. */
  lemma AddCallAnswered(ctx: Option<Context>, src: Source, w: Writer, params: Value,
                        unmarshal: (Value, Target) -> Result<Value, Value>)
    requires |src.content| > 0 && src.content[0] == '{'
    requires unmarshal(params, AddParams) == Ok(Fields([Number(10), Number(120)]))
    requires w.encode(Single(Response("2.0", Some(Text("1")), Some(Number(130)), None))).None?
    ensures var req := Request("2.0", "add", Some(Text("1")), Some(params), None);
            var dec := Decoder(_ => Ok(req), _ => Err(GoError("unused")));
            Handle(TestManager(), ctx, Some(src), Some(w), dec, TestAdder(unmarshal))
            == HandleResult(Single(Response("2.0", Some(Text("1")), Some(Number(130)), None)), None)
  {
    var req := Request("2.0", "add", Some(Text("1")), Some(params), None);
    var dec := Decoder(_ => Ok(req), _ => Err(GoError("unused")));
    assert ParseMethodRequest(src, dec) == Ok([req]);
    OneCallWritten(TestManager(), ctx, src, w, dec, TestAdder(unmarshal), req);
    TestAdderSums(unmarshal, BaseContext(ctx), 0, "add", Some(Text("1")), params, 10, 120);
  }

  /** Example: a call of `sum` with operands 10 and 10 outlives the
      one-second deadline and is answered with ExecutionTimeout, no data
      and no result. */
  lemma SumCallTimesOut(ctx: Option<Context>, src: Source, w: Writer, params: Value,
                        unmarshal: (Value, Target) -> Result<Value, Value>)
    requires |src.content| > 0 && src.content[0] == '{'
    requires unmarshal(params, AddParams) == Ok(Fields([Number(10), Number(10)]))
    ensures var req := Request("2.0", "sum", Some(Text("1")), Some(params), None);
            var dec := Decoder(_ => Ok(req), _ => Err(GoError("unused")));
            Handle(TestManager(), ctx, Some(src), Some(w), dec, TestAdder(unmarshal)).written
            == Single(Response("2.0", Some(Text("1")), None, Some(Catalogued(ExecutionTimeout, None))))
  {
    var req := Request("2.0", "sum", Some(Text("1")), Some(params), None);
    var dec := Decoder(_ => Ok(req), _ => Err(GoError("unused")));
    assert ParseMethodRequest(src, dec) == Ok([req]);
    OneCallWritten(TestManager(), ctx, src, w, dec, TestAdder(unmarshal), req);
    RegisteredMethodRunsHandler(TestManager(), TestAdder(unmarshal), BaseContext(ctx), 0, req);
  }

  /** Example: a call of `sum` with operands 0 and 1, whose handler sets both
      a result and an error, is answered with the error alone. */
  lemma ErrorClearsResult(ctx: Option<Context>, src: Source, w: Writer, params: Value,
                          unmarshal: (Value, Target) -> Result<Value, Value>)
    requires |src.content| > 0 && src.content[0] == '{'
    requires unmarshal(params, AddParams) == Ok(Fields([Number(0), Number(1)]))
    ensures var req := Request("2.0", "sum", Some(Text("1")), Some(params), None);
            var dec := Decoder(_ => Ok(req), _ => Err(GoError("unused")));
            Handle(TestManager(), ctx, Some(src), Some(w), dec, TestAdder(unmarshal)).written
            == Single(Response("2.0", Some(Text("1")), None, Some(Error(1, "Fake error for test", None))))
  {
    var req := Request("2.0", "sum", Some(Text("1")), Some(params), None);
    var dec := Decoder(_ => Ok(req), _ => Err(GoError("unused")));
    assert ParseMethodRequest(src, dec) == Ok([req]);
    OneCallWritten(TestManager(), ctx, src, w, dec, TestAdder(unmarshal), req);
    RegisteredMethodRunsHandler(TestManager(), TestAdder(unmarshal), BaseContext(ctx), 0, req);
  }

  /** Example: a batch of an `add` call (operands 10 and 120, identifier "1")
      and a `sum` call (operands 10 and 20, identifier "2") is answered with
      an array of both replies, in call order: 130 and 30. */
  lemma BatchAnsweredInOrder(ctx: Option<Context>, src: Source, w: Writer, dec: Decoder, p1: Value, p2: Value,
                             unmarshal: (Value, Target) -> Result<Value, Value>)
    requires StartsBatch(src.content)
    requires dec.batch(src.content) == Ok([Request(Version, "add", Some(Text("1")), Some(p1), None),
                                           Request(Version, "sum", Some(Text("2")), Some(p2), None)])
    requires unmarshal(p1, AddParams) == Ok(Fields([Number(10), Number(120)]))
    requires unmarshal(p2, AddParams) == Ok(Fields([Number(10), Number(20)]))
    ensures Handle(TestManager(), ctx, Some(src), Some(w), dec, TestAdder(unmarshal)).written
            == Batch([Response(Version, Some(Text("1")), Some(Number(130)), None),
                      Response(Version, Some(Text("2")), Some(Number(30)), None)])
  {
    var r1 := Request(Version, "add", Some(Text("1")), Some(p1), None);
    var r2 := Request(Version, "sum", Some(Text("2")), Some(p2), None);
    assert ParseMethodRequest(src, dec) == Ok([r1, r2]);
    TwoCallsWritten(TestManager(), ctx, src, w, dec, TestAdder(unmarshal), r1, r2);
    TestAdderSums(unmarshal, BaseContext(ctx), 0, "add", Some(Text("1")), p1, 10, 120);
    TestAdderSums(unmarshal, BaseContext(ctx), 1, "sum", Some(Text("2")), p2, 10, 20);
  }
}
