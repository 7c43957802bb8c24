/** The ACP client object: its fields change step by step, and each method is proved
    to leave exactly the state the session model gives. */
module AcpClients {
  import opened Wrappers
  import opened ReadLoop
  import Plain = PlainRequests
  import Session
  import Deadlines = ReadLoopDeadlines
  import Answers = ReadLoopAnswers

  class AcpClient {
    var nextId: nat
    var activeRunId: Option<string>
    var steeringSupported: bool
    var pendingPermission: Option<JsonId>
    var permissionResponded: bool
    var lastPromptId: Option<nat>
    var currentHardDeadline: Option<Time>
    /** The observer's record of the wire. */
    var feed: seq<Feed>
    /** The installed steer receiver and what its channel holds. */
    var steerRx: Option<seq<SteerRequest>>
    /** The steer oneshots settled so far. */
    var settled: seq<Resolved>

    constructor (steering: bool)
      ensures Abs() == Client(0, None, steering, None, false, None, None, [])
      ensures steerRx.None? && settled == []
    {
      nextId, activeRunId, steeringSupported := 0, None, steering;
      pendingPermission, permissionResponded := None, false;
      lastPromptId, currentHardDeadline := None, None;
      feed, steerRx, settled := [], None, [];
    }

    function Abs(): Client
      reads this
    {
      Client(nextId, activeRunId, steeringSupported, pendingPermission, permissionResponded,
             lastPromptId, currentHardDeadline, feed)
    }

    function Queued(): seq<SteerRequest>
      reads this
    {
      if steerRx.Some? then steerRx.value else []
    }

    function Receiver(): Session.Inbox
      reads this
    {
      Session.Inbox(steerRx.Some?, Queued())
    }

    /** A second receiver would misroute the first one's requests. */
    method InstallSteerRx(requests: seq<SteerRequest>)
      requires steerRx.None?
      modifies this`steerRx
      ensures steerRx == Some(requests)
    {
      steerRx := Some(requests);
    }

    /** Dropping the receiver drops the oneshots of the requests it holds. */
    method ClearSteerRx()
      modifies this`steerRx, this`settled
      ensures steerRx.None? && settled == old(settled) + DropAll(old(Queued()))
    {
      settled := settled + DropAll(Queued());
      steerRx := None;
    }

    method WriteNdjson(w: Wire, ok: bool)
      modifies this`feed
      ensures Abs() == if ok then Write(old(Abs()), w) else old(Abs())
    {
      if ok { feed := feed + [Wrote(w)]; }
    }

    /** Choose an answer, write it, and only then mark the request as answered. */
    method HandlePermissionRequest(m: Message, writeOk: bool) returns (err: Option<Stop>)
      modifies this`pendingPermission, this`permissionResponded, this`feed
      ensures (Abs(), err) == HandlePermission(old(Abs()), m, writeOk)
      ensures Answers.AnswersPermission(old(Abs()), m, writeOk, Abs(), err)
    {
      hide Answers.AnswersPermission;
      Answers.HandlingAnswers(Abs(), m, writeOk);
      if m.id.None? { return Some(ProtocolError); }
      pendingPermission := m.id;
      permissionResponded := false;
      if m.options.None? { return Some(ProtocolError); }
      var options, i := m.options.value, 0;
      while i < |options| && options[i].kind != AllowOnce
        invariant i <= |options|
        invariant forall j :: 0 <= j < i ==> options[j].kind != AllowOnce
      {
        i := i + 1;
      }
      FirstIsUnique(options, AllowOnce, i);
      var choice: Choice;
      if i < |options| {
        if options[i].optionId.None? { return Some(ProtocolError); }
        choice := Selected(options[i].optionId.value);
      } else {
        i := 0;
        while i < |options| && options[i].kind != RejectOnce
          invariant i <= |options|
          invariant forall j :: 0 <= j < i ==> options[j].kind != RejectOnce
        {
          i := i + 1;
        }
        FirstIsUnique(options, RejectOnce, i);
        if i == |options| { return Some(ProtocolError); }
        choice := Selected(options[i].optionId.GetOr("reject"));
      }
      WriteNdjson(PermissionReply(m.id.value, choice), writeOk);
      if !writeOk { return Some(WriteFailed); }
      permissionResponded := true;
      pendingPermission := None;
      return None;
    }

    method HandleSessionUpdate(u: Update) returns (toolCall: bool)
      modifies this`activeRunId
      ensures Abs() == HandleUpdate(old(Abs()), u)
      ensures toolCall == u.ToolCall?
    {
      match u
      case ToolCall => return true;
      case SessionInfo(Running(run)) => activeRunId := Some(run); return false;
      case SessionInfo(Cleared) => activeRunId := None; return false;
      case _ => return false;
    }

    /** The steer arm: pick the transport, write the request or settle it at once. */
    method SteerArm(request: SteerRequest, writeOk: bool, ghost l: Loop)
      returns (pending: Option<Pending>, acks: seq<Resolved>)
      requires l.client == Abs() && l.inbox != [] && l.inbox[0] == request && l.pending.None?
      modifies this`nextId, this`feed
      ensures var r := OnSteer(l, writeOk);
        Abs() == r.client && pending == r.pending && l.resolved + acks == r.resolved
    {
      pending, acks := None, [];
      var transport: Transport;
      if activeRunId.Some? {
        transport := Goose;
      } else if steeringSupported {
        transport := AcpExtension;
      } else {
        acks := [Resolved(request, Sent(ExpectedRunIdMissing))];
        return;
      }
      var id := nextId;
      nextId := nextId + 1;
      WriteNdjson(Steer(id, transport, if transport.Goose? then activeRunId else None, request), writeOk);
      if writeOk {
        pending := Some(Pending(id, transport, request));
      } else {
        acks := [Resolved(request, Sent(TransportFailed))];
      }
    }

    /** What a steer reply means, and whether it renews the turn's budget. */
    method JudgeSteer(transport: Transport, m: Message, hard0: Time, renewed: Time) returns (ack: SteerAck, hard: Time)
      modifies this`currentHardDeadline
      ensures ack == Verdict(transport, m)
      ensures hard == if Renews(transport, m) && renewed > hard0 then renewed else hard0
      ensures currentHardDeadline == if hard != hard0 then Some(hard) else old(currentHardDeadline)
    {
      hard := hard0;
      if m.error.Some? {
        return AgentError(m.error.value.GetOr(-1)), hard;
      }
      if transport.Goose? || m.outcome.Injected? {
        if renewed > hard {
          hard := renewed;
          currentHardDeadline := Some(renewed);
        }
        return Success, hard;
      }
      return if m.outcome.StartedNewTurn? then Success else OutcomeRejected, hard;
    }

    /** One parsed message: a steer reply, the awaited response, or something to
        dispatch.  `stop` leaves `pending` alone when the exit drops it unacked. */
    method ProcessMessage(m: Message, s: Stimulus, expected: nat, idleTimeout: nat, maxDuration: nat,
                          pending0: Option<Pending>, hard0: Time, ghost l: Loop)
      returns (pending: Option<Pending>, idleAt: Time, lastActivity: Time, hard: Time,
               acks: seq<Resolved>, stop: Option<Stop>)
      requires l.client == Abs() && l.stop.None? && l.pending == pending0 && l.hardAt == hard0
      requires l.expected == expected && l.idleTimeout == idleTimeout && l.maxDuration == maxDuration
      modifies this`feed, this`currentHardDeadline, this`activeRunId, this`pendingPermission, this`permissionResponded
      ensures var r := OnMessage(l, m, s);
        && Abs() == r.client && idleAt == r.idleAt && lastActivity == r.lastActivity && hard == r.hardAt && stop == r.stop
        && (stop.None? ==> pending == r.pending && l.resolved + acks == r.resolved)
        && (stop.Some? ==> l.resolved + acks + Settle(pending, Dropped) + DropAll(l.inbox) == r.resolved)
    {
      hide Dispatch, Verdict, Renews, OnMessage, OnSteerReply, Halt, IsReply;
      feed := feed + [Read(m)];
      pending, hard, acks, stop := pending0, hard0, [], None;
      idleAt := s.at + idleTimeout;
      lastActivity := s.at;
      if pending.Some? && IsReply(m, pending.value.id) {
        SteerReplySettles(l, m, s);
        var ack;
        ack, hard := JudgeSteer(pending.value.transport, m, hard, s.later + maxDuration);
        acks := [Resolved(pending.value.request, Sent(ack))];
        pending := None;
      } else if IsReply(m, expected) {
        ResponseHalts(l, m, s);
        if pending.Some? {
          acks := [Resolved(pending.value.request, Sent(PromptCompletedNeutral))];
          pending := None;
        }
        stop := if m.error.Some? then Some(AgentFailed(m.error.value.GetOr(-32000))) else Some(Answered);
      } else {
        OtherIsDispatched(l, m, s);
        DispatchShape(Noted(l, m, s.at), m, s);
        idleAt, lastActivity, stop := DispatchMessage(m, s, idleTimeout, idleAt, lastActivity, Noted(l, m, s.at));
      }
    }

    /** Notifications and requests of the agent.  `stop` is a `?` return. */
    method DispatchMessage(m: Message, s: Stimulus, idleTimeout: nat, idle0: Time, activity0: Time, ghost l: Loop)
      returns (idleAt: Time, lastActivity: Time, stop: Option<Stop>)
      requires l.client == Abs() && l.stop.None? && l.idleTimeout == idleTimeout && l.idleAt == idle0 && l.lastActivity == activity0
      modifies this`feed, this`activeRunId, this`pendingPermission, this`permissionResponded
      ensures var r := Dispatch(l, m, s);
        Abs() == r.client && idleAt == r.idleAt && lastActivity == r.lastActivity && stop == r.stop
    {
      hide HandlePermission;
      idleAt, lastActivity, stop := idle0, activity0, None;
      match m.verb
      case SessionUpdate =>
        var toolCall := HandleSessionUpdate(m.update);
        if toolCall {
          idleAt := s.later + idleTimeout;
          lastActivity := s.later;
        }
      case RequestPermission =>
        stop := HandlePermissionRequest(m, s.writeOk);
      case UnknownMethod(_) =>
        if m.id.Some? {
          WriteNdjson(MethodNotFound(m.id.value), s.writeOk);
          if !s.writeOk { stop := Some(WriteFailed); }
        }
      case _ =>
    }

    /** One iteration of the read loop: the deadline check, then the biased select. */
    method IterateOnce(s: Stimulus, expected: nat, idleTimeout: nat, maxDuration: nat, locals: Locals, ghost l: Loop)
      returns (after: Locals, halted: Option<Stop>)
      requires Tracks(l, Abs(), expected, idleTimeout, maxDuration, locals, None)
      modifies this`nextId, this`feed, this`currentHardDeadline, this`activeRunId, this`pendingPermission, this`permissionResponded
      ensures Tracks(Iterate(l, s), Abs(), expected, idleTimeout, maxDuration, after, halted)
    {
      hide Iterate, OnMessage, OnSteer, Halt;
      var Locals(idleAt, hard, lastActivity, pending, hasRx, rx, acks) := locals;
      ghost var o := Offer(l, s.offer);
      if s.offer.Some? && hasRx && rx == [] { rx := [s.offer.value]; }
      var idleFirst := idleAt < hard;
      var next := if idleFirst then idleAt else hard;
      halted := None;
      if s.check >= next {
        halted := Some(TimeoutOf(idleFirst, lastActivity, s.later));
      } else {
        match s.ready
        case Readable(Got(Parsed(m))) =>
          ReadsMessage(l, s);
          MessageKeepsInbox(o, m, s);
          var more;
          pending, idleAt, lastActivity, hard, more, halted :=
            ProcessMessage(m, s, expected, idleTimeout, maxDuration, pending, hard, o);
          after := Locals(idleAt, hard, lastActivity, pending, hasRx, rx, acks + more);
          return;
        case Readable(Got(_)) =>
          SkipsLine(l, s);
          after := Locals(idleAt, hard, lastActivity, pending, hasRx, rx, acks);
          return;
        case Readable(Eof) => halted := Some(AgentExited);
        case Readable(TooLong) => halted := Some(ProtocolError);
        case Readable(ReadError) => halted := Some(IoError);
        case Quiet =>
          if pending.None? && rx != [] {
            SteersOnce(l, s);
            var more;
            pending, more := SteerArm(rx[0], s.writeOk, o);
            after := Locals(idleAt, hard, lastActivity, pending, hasRx, rx[1..], acks + more);
            return;
          } else if s.at >= next {
            halted := Some(TimeoutOf(idleFirst, lastActivity, s.later));
          } else {
            WaitsOn(l, s);
            after := Locals(idleAt, hard, lastActivity, pending, hasRx, rx, acks);
            return;
          }
      }
      HaltsWith(l, s);
      if pending.Some? {
        acks := acks + [Resolved(pending.value.request, Sent(PromptCompletedNeutral))];
        pending := None;
      }
      after := Locals(idleAt, hard, lastActivity, pending, hasRx, rx, acks);
    }

    /** The read loop.  When the script ends the future is dropped.  Whatever is still
        pending or queued when the method returns is dropped with its scope. */
    method ReadUntilResponse(expected: nat, idleTimeout: nat, hardDeadline: Time, maxDuration: nat,
                             now: Time, script: seq<Stimulus>) returns (stop: Stop)
      modifies this
      ensures var l := Finish(Run(Enter(old(Abs()), expected, idleTimeout, hardDeadline, maxDuration, now,
                                        old(steerRx).Some?, old(Queued())), script));
        Abs() == l.client && Some(stop) == l.stop && settled == old(settled) + l.resolved && steerRx.None?
      ensures Answers.Refuses(old(feed), feed, Some(stop))
    {
      hide Iterate, Run, Answers.Debt;
      ghost var l0 := Enter(Abs(), expected, idleTimeout, hardDeadline, maxDuration, now, steerRx.Some?, Queued());
      var locals := Locals(now + idleTimeout, hardDeadline, now, None, steerRx.Some?, Queued(), []);
      steerRx := None;
      var halted: Option<Stop>, i := None, 0;
      ghost var l := l0;
      RunStarts(l0, script);
      while i < |script| && halted.None?
        invariant i <= |script| && steerRx.None? && settled == old(settled)
        invariant l == Run(l0, script[..i])
        invariant Tracks(l, Abs(), expected, idleTimeout, maxDuration, locals, halted)
      {
        RunExtends(l0, script, i);
        locals, halted := IterateOnce(script[i], expected, idleTimeout, maxDuration, locals, l);
        l := Iterate(l, script[i]);
        i := i + 1;
      }
      if halted.Some? {
        Deadlines.StoppedStaysStopped(l0, script, i);
        stop := halted.value;
      } else {
        assert script[..i] == script;
        stop := Abandoned;
      }
      forall id {
        Answers.UnknownRequestsAreRefused(l0, script, id);
      }
      settled := settled + (locals.acks + Settle(locals.pending, Dropped) + DropAll(locals.rx));
    }

    /** One message for the plain reader. */
    method ProcessPlainMessage(m: Message, expected: nat, writeOk: bool) returns (stop: Option<Stop>)
      modifies this`feed, this`activeRunId, this`pendingPermission, this`permissionResponded
      ensures Plain.Reader(Abs(), stop) == Plain.OnPlainMessage(old(Abs()), expected, m, writeOk)
    {
      hide HandlePermission;
      feed := feed + [Read(m)];
      if IsReply(m, expected) {
        return Some(if m.error.Some? then AgentFailed(m.error.value.GetOr(-32000)) else Answered);
      }
      stop := None;
      match m.verb
      case SessionUpdate =>
        var _ := HandleSessionUpdate(m.update);
      case RequestPermission =>
        stop := HandlePermissionRequest(m, writeOk);
      case UnknownMethod(_) =>
        if m.id.Some? {
          WriteNdjson(MethodNotFound(m.id.value), writeOk);
          if !writeOk { stop := Some(WriteFailed); }
        }
      case _ =>
    }

    /** The plain reader: no deadlines of its own and no steers. */
    method ReadPlainResponse(expected: nat, script: seq<Plain.Input>) returns (stop: Option<Stop>)
      modifies this`feed, this`activeRunId, this`pendingPermission, this`permissionResponded
      ensures Plain.Reader(Abs(), stop) == Plain.PlainRun(Plain.Reader(old(Abs()), None), expected, script)
      ensures Answers.Refuses(old(feed), feed, stop)
    {
      hide Plain.OnPlainMessage, Answers.Debt;
      ghost var r0 := Plain.Reader(Abs(), None);
      var i := 0;
      stop := None;
      assert script[..0] == [];
      while i < |script| && stop.None?
        invariant i <= |script|
        invariant Plain.Reader(Abs(), stop) == Plain.PlainRun(r0, expected, script[..i])
      {
        Plain.PlainExtends(r0, expected, script, i);
        match script[i].read {
          case Eof => stop := Some(AgentExited);
          case TooLong => stop := Some(ProtocolError);
          case ReadError => stop := Some(IoError);
          case Got(Parsed(m)) => stop := ProcessPlainMessage(m, expected, script[i].writeOk);
          case Got(_) =>
        }
        i := i + 1;
      }
      if stop.Some? {
        Plain.PlainStays(r0, expected, script, i);
      } else {
        assert script[..i] == script;
      }
      forall id {
        Answers.PlainReaderRefuses(r0.client, expected, script, id);
      }
    }

    /** Any request but a prompt. */
    method SendRequest(writeOk: bool, script: seq<Plain.Input>) returns (stop: Stop)
      modifies this`nextId, this`feed, this`activeRunId, this`pendingPermission, this`permissionResponded
      ensures Plain.Reader(Abs(), Some(stop)) == Plain.SendRequest(old(Abs()), writeOk, script)
    {
      hide Plain.PlainRun;
      var id := nextId;
      nextId := nextId + 1;
      WriteNdjson(Request(id), writeOk);
      if !writeOk {
        return WriteFailed;
      }
      var answer := ReadPlainResponse(id, script);
      stop := answer.GetOr(Abandoned);
    }

    /** Send a prompt and wait for its answer. */
    method SessionPrompt(now: Time, idleTimeout: nat, maxDuration: nat, writeOk: bool, entered: Time,
                         script: seq<Stimulus>) returns (stop: Stop)
      modifies this
      ensures Follows(Session.SessionPrompt(old(Abs()), now, idleTimeout, maxDuration, writeOk, entered, old(Receiver()), script),
                      stop, old(settled), old(steerRx))
    {
      hide Run, Leave, Abandon;
      var hardDeadline := now + maxDuration;
      currentHardDeadline := Some(hardDeadline);
      lastPromptId := Some(nextId);
      var id := nextId;
      nextId := nextId + 1;
      WriteNdjson(Prompt(id), writeOk);
      if !writeOk {
        lastPromptId, currentHardDeadline := None, None;
        return WriteFailed;
      }
      stop := ReadUntilResponse(id, idleTimeout, hardDeadline, maxDuration, entered, script);
      if !Session.IsTimeout(stop) && !stop.Abandoned? {
        lastPromptId, currentHardDeadline := None, None;
      }
    }

    /** Answer a pending permission request with `cancelled`, unless already answered. */
    method CancelPendingPermission(replyOk: bool) returns (ok: bool)
      modifies this`feed, this`pendingPermission, this`permissionResponded
      ensures ok == Session.CancelPermission(old(Abs()), replyOk).Some?
      ensures Abs() == if ok then Session.CancelPermission(old(Abs()), replyOk).value else old(Abs())
    {
      if pendingPermission.Some? {
        if !permissionResponded {
          WriteNdjson(PermissionReply(pendingPermission.value, Cancelled), replyOk);
          if !replyOk { return false; }
        }
        pendingPermission := None;
        permissionResponded := false;
      }
      return true;
    }

    method CancelUntil(hardDeadline: Time, replyOk: bool, cancelOk: bool, now: Time, script: seq<Stimulus>)
      returns (stop: Stop)
      modifies this
      ensures Follows(Session.CancelUntil(old(Abs()), hardDeadline, replyOk, cancelOk, now, old(Receiver()), script),
                      stop, old(settled), old(steerRx))
    {
      hide Run, Leave, Abandon, Session.CancelPermission;
      if lastPromptId.None? { return ProtocolError; }
      var promptId := lastPromptId.value;
      lastPromptId := None;
      var answered := CancelPendingPermission(replyOk);
      if !answered { return WriteFailed; }
      WriteNdjson(CancelNotice, cancelOk);
      if !cancelOk { return WriteFailed; }
      var remaining := if hardDeadline >= now then hardDeadline - now else 0;
      stop := ReadUntilResponse(promptId, Session.CLEANUP_GRACE, hardDeadline, remaining, now, script);
    }

    method CancelWithCleanup(now: Time, replyOk: bool, cancelOk: bool, entered: Time, script: seq<Stimulus>)
      returns (stop: Stop)
      modifies this
      ensures Follows(Session.CancelWithCleanup(old(Abs()), now, replyOk, cancelOk, entered, old(Receiver()), script),
                      stop, old(settled), old(steerRx))
    {
      hide Session.CancelUntil;
      var stored := currentHardDeadline;
      currentHardDeadline := None;
      var floor := now + Session.CLEANUP_GRACE;
      var hardDeadline := match stored
        case Some(d) => if d > floor then d else floor
        case None => floor;
      stop := CancelUntil(hardDeadline, replyOk, cancelOk, entered, script);
    }

    method CancelWithCleanupGrace(now: Time, grace: nat, replyOk: bool, cancelOk: bool, entered: Time,
                                  script: seq<Stimulus>) returns (stop: Stop)
      modifies this
      ensures Follows(Session.CancelWithGrace(old(Abs()), now, grace, replyOk, cancelOk, entered, old(Receiver()), script),
                      stop, old(settled), old(steerRx))
    {
      hide Session.CancelUntil;
      currentHardDeadline := None;
      stop := CancelUntil(now + grace, replyOk, cancelOk, entered, script);
      if stop.HardTimeout? { stop := CancelDrainTimeout(grace); }
    }

    /** The client is as the model's turn left it. */
    predicate Follows(t: Session.Turn, stop: Stop, settledBefore: seq<Resolved>, steerRxBefore: Option<seq<SteerRequest>>)
      reads this
    {
      && Abs() == t.client && stop == t.stop && settled == settledBefore + t.resolved
      && steerRx == if t.tookInbox then None else steerRxBefore
    }
  }

  /** The loop's own variables: deadlines, the steer in flight, the steer receiver and
      the oneshots settled so far. */
  datatype Locals = Locals(
    idleAt: Time, hard: Time, lastActivity: Time,
    pending: Option<Pending>, hasRx: bool, rx: seq<SteerRequest>, acks: seq<Resolved>)

  /** The loop model and the running variables agree.  After a halt, what is still
      pending or queued is about to be dropped with the scope. */
  ghost predicate Tracks(l: Loop, c: Client, expected: nat, idleTimeout: nat, maxDuration: nat, v: Locals, halted: Option<Stop>) {
    && l.client == c && l.stop == halted
    && (halted.None? ==>
          && l.expected == expected && l.idleTimeout == idleTimeout && l.maxDuration == maxDuration
          && l.idleAt == v.idleAt && l.hardAt == v.hard && l.lastActivity == v.lastActivity
          && l.pending == v.pending && l.hasInbox == v.hasRx && l.inbox == v.rx && l.resolved == v.acks)
    && (halted.Some? ==> l.resolved == v.acks + Settle(v.pending, Dropped) + DropAll(v.rx))
  }

  function TimeoutOf(idleFirst: bool, lastActivity: Time, now: Time): Stop {
    if idleFirst then IdleTimeout else HardTimeout(if now >= lastActivity then now - lastActivity else 0)
  }

  lemma {:induction false} FirstIsUnique(options: seq<PermissionOption>, kind: OptionKind, i: nat)
    requires i <= |options|
    requires i < |options| ==> options[i].kind == kind
    requires forall j :: 0 <= j < i ==> options[j].kind != kind
    ensures FirstOfKind(options, kind) == i
  {
  }

  lemma RunStarts(l: Loop, script: seq<Stimulus>)
    ensures script[..0] == [] && Run(l, script[..0]) == l
  {
  }

  lemma RunExtends(l: Loop, script: seq<Stimulus>, i: nat)
    requires i < |script|
    ensures Run(l, script[..i + 1]) == Iterate(Run(l, script[..i]), script[i])
  {
    hide Iterate;
    assert script[..i + 1][..i] == script[..i];
  }

  lemma ReadsMessage(l: Loop, s: Stimulus)
    requires l.stop.None? && s.check < Deadline(l)
    requires s.ready.Readable? && s.ready.read.Got? && s.ready.read.line.Parsed?
    ensures Iterate(l, s) == OnMessage(Offer(l, s.offer), s.ready.read.line.msg, s)
  {
    hide OnMessage;
  }

  lemma SkipsLine(l: Loop, s: Stimulus)
    requires l.stop.None? && s.check < Deadline(l)
    requires s.ready.Readable? && s.ready.read.Got? && !s.ready.read.line.Parsed?
    ensures Iterate(l, s) == Offer(l, s.offer)
  {
    hide OnMessage;
  }

  lemma SteersOnce(l: Loop, s: Stimulus)
    requires l.stop.None? && s.check < Deadline(l) && s.ready.Quiet?
    requires l.pending.None? && Offer(l, s.offer).inbox != []
    ensures Iterate(l, s) == OnSteer(Offer(l, s.offer), s.writeOk)
    ensures var o, r := Offer(l, s.offer), Iterate(l, s);
      r == o.(client := r.client, pending := r.pending, inbox := o.inbox[1..], resolved := r.resolved)
  {
  }

  lemma WaitsOn(l: Loop, s: Stimulus)
    requires l.stop.None? && s.check < Deadline(l) && s.ready.Quiet? && s.at < Deadline(l)
    requires l.pending.Some? || Offer(l, s.offer).inbox == []
    ensures Iterate(l, s) == Offer(l, s.offer)
  {
    hide OnSteer;
  }

  /** The exits that ack neutrally: a passed deadline, or a stream that ended or broke. */
  function NeutralExit(l: Loop, s: Stimulus): Option<Stop>
    requires l.stop.None?
  {
    if s.check >= Deadline(l) || (s.ready.Quiet? && (l.pending.Some? || Offer(l, s.offer).inbox == []) && s.at >= Deadline(l))
    then Some(TimedOut(l, s.later))
    else if s.ready.Readable? then
      match s.ready.read
      case Eof => Some(AgentExited)
      case TooLong => Some(ProtocolError)
      case ReadError => Some(IoError)
      case Got(_) => None
    else None
  }

  lemma HaltsWith(l: Loop, s: Stimulus)
    requires l.stop.None? && NeutralExit(l, s).Some?
    ensures var o, r := Offer(l, s.offer), Iterate(l, s);
      && r.client == o.client && r.stop == NeutralExit(l, s)
      && r.resolved == o.resolved + Settle(o.pending, Sent(PromptCompletedNeutral)) + DropAll(o.inbox)
  {
    hide OnMessage, OnSteer;
  }

  lemma SteerReplySettles(l: Loop, m: Message, s: Stimulus)
    requires l.stop.None? && l.pending.Some? && IsReply(m, l.pending.value.id)
    ensures
      var p, r, renewed := l.pending.value, OnMessage(l, m, s), s.later + l.maxDuration;
      var n := Noted(l, m, s.at);
      && r.stop.None? && r.pending.None? && r.idleAt == n.idleAt && r.lastActivity == n.lastActivity
      && r.hardAt == (if Renews(p.transport, m) && renewed > l.hardAt then renewed else l.hardAt)
      && r.client == (if r.hardAt != l.hardAt then n.client.(hardCap := Some(r.hardAt)) else n.client)
      && r.resolved == l.resolved + [Resolved(p.request, Sent(Verdict(p.transport, m)))]
  {
    hide Verdict, Renews;
  }

  lemma ResponseHalts(l: Loop, m: Message, s: Stimulus)
    requires l.stop.None? && !(l.pending.Some? && IsReply(m, l.pending.value.id)) && IsReply(m, l.expected)
    ensures
      var r, n := OnMessage(l, m, s), Noted(l, m, s.at);
      && r.client == n.client && r.idleAt == n.idleAt && r.lastActivity == n.lastActivity && r.hardAt == l.hardAt
      && r.stop == Some(if m.error.Some? then AgentFailed(m.error.value.GetOr(-32000)) else Answered)
      && r.resolved == l.resolved + Settle(l.pending, Sent(PromptCompletedNeutral)) + DropAll(l.inbox)
  {
  }

  lemma OtherIsDispatched(l: Loop, m: Message, s: Stimulus)
    requires !(l.pending.Some? && IsReply(m, l.pending.value.id)) && !IsReply(m, l.expected)
    ensures OnMessage(l, m, s) == Dispatch(Noted(l, m, s.at), m, s)
  {
    hide Dispatch;
  }

  lemma MessageKeepsInbox(l: Loop, m: Message, s: Stimulus)
    requires l.stop.None?
    ensures var r := OnMessage(l, m, s);
      r.stop.None? ==>
        && r.hasInbox == l.hasInbox && r.inbox == l.inbox && r.from == l.from
        && r.expected == l.expected && r.idleTimeout == l.idleTimeout && r.maxDuration == l.maxDuration
  {
    hide Dispatch;
    DispatchShape(Noted(l, m, s.at), m, s);
  }
}
