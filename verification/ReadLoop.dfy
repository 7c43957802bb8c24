/** The idle-aware ACP read loop: two deadlines, one awaited prompt response and
    at most one steer request in flight.

    A `Client` is the part of the agent client that outlives one loop; a `Loop`
    adds the loop's own variables.  A `Stimulus` is everything one iteration sees
    of the outside world: a steer request offered by the main loop, the clock
    readings in the order the iteration takes them, what `select!` finds ready,
    and whether a write succeeds. */
module ReadLoop {
  import opened Wrappers

  type Time = nat

  // ---------------------------------------------------------------- wire data

  /** A JSON-RPC id: the client only ever issues numbers, the agent may use anything. */
  datatype JsonId = NumberId(n: int) | OtherId(text: string)

  /** The `method` member, sorted by how the loop dispatches it.  `OddMethod` is a
      member that is present but not a string. */
  datatype Method =
    | NoMethod
    | OddMethod
    | SessionUpdate
    | UsageUpdate
    | RequestPermission
    | UnknownMethod(name: string)

  /** `result.outcome` of a response. */
  datatype Outcome = NoOutcome | Injected | StartedNewTurn | OtherOutcome(text: string)

  /** `_meta.goose.activeRunId` of a session-info update. */
  datatype RunField = Untouched | Cleared | Running(run: string)

  /** `params.update` of a `session/update` notification. */
  datatype Update = ToolCall | SessionInfo(run: RunField) | OtherUpdate

  datatype OptionKind = AllowOnce | RejectOnce | OtherKind

  datatype PermissionOption = PermissionOption(kind: OptionKind, optionId: Option<string>)

  /** One parsed line.  `error` is `Some` whenever the member is present, and then
      holds its numeric code if there is one. */
  datatype Message = Message(
    id: Option<JsonId>,
    verb: Method,
    error: Option<Option<int>>,
    outcome: Outcome,
    update: Update,
    options: Option<seq<PermissionOption>>)

  datatype Line = Blank | Unparsable | Parsed(msg: Message)

  datatype ReadResult = Eof | TooLong | ReadError | Got(line: Line)

  datatype Transport = Goose | AcpExtension

  datatype Choice = Selected(optionId: string) | Cancelled

  datatype Wire =
    | Prompt(promptId: nat)
    | Request(requestId: nat)
    | Steer(steerId: nat, transport: Transport, run: Option<string>, request: SteerRequest)
    | PermissionReply(permission: JsonId, choice: Choice)
    | MethodNotFound(unknown: JsonId)
    | CancelNotice

  /** The observer's record of the wire: completed writes and parsed reads, in order. */
  datatype Feed = Wrote(wire: Wire) | Read(msg: Message)

  // ------------------------------------------------------------ steer requests

  /** A request the main loop hands to the read loop; `ticket` stands for its
      oneshot and `event` for the withheld event it carries. */
  datatype SteerRequest = SteerRequest(ticket: nat, event: nat)

  datatype SteerAck =
    | Success
    | AgentError(code: int)
    | TransportFailed
    | ExpectedRunIdMissing
    | OutcomeRejected
    | PromptCompletedNeutral

  /** How a request's oneshot ends: an ack is sent, or the sender is dropped. */
  datatype Resolution = Sent(ack: SteerAck) | Dropped

  datatype Resolved = Resolved(request: SteerRequest, how: Resolution)

  datatype Pending = Pending(id: nat, transport: Transport, request: SteerRequest)

  // -------------------------------------------------------------------- states

  datatype Stop =
    | Answered
    | AgentFailed(code: int)
    | IdleTimeout
    | HardTimeout(silence: nat)
    | AgentExited
    | ProtocolError
    | IoError
    | WriteFailed
    | CancelDrainTimeout(grace: nat)
    | Abandoned

  datatype Client = Client(
    nextId: nat,
    activeRun: Option<string>,
    steeringSupported: bool,
    permission: Option<JsonId>,
    responded: bool,
    lastPrompt: Option<nat>,
    hardCap: Option<Time>,
    feed: seq<Feed>)

  /** `hasInbox` says that a steer receiver is installed, `inbox` is the channel's
      content, `from` is the length of the feed when the loop began, and
      `resolved` lists the oneshots this loop has settled. */
  datatype Loop = Loop(
    client: Client,
    expected: nat,
    idleTimeout: nat,
    maxDuration: nat,
    idleAt: Time,
    hardAt: Time,
    lastActivity: Time,
    pending: Option<Pending>,
    hasInbox: bool,
    inbox: seq<SteerRequest>,
    from: nat,
    resolved: seq<Resolved>,
    stop: Option<Stop>)

  datatype Ready = Readable(read: ReadResult) | Quiet

  /** `check` is read at the top of the iteration, `at` when an arm completes and
      `later` by the second reading some arms take. */
  datatype Stimulus = Stimulus(
    offer: Option<SteerRequest>,
    check: Time,
    ready: Ready,
    at: Time,
    later: Time,
    writeOk: bool)

  // ----------------------------------------------------------------- the client

  function Write(c: Client, w: Wire): Client {
    c.(feed := c.feed + [Wrote(w)])
  }

  /** Position of the first option of a kind, or the length. */
  function FirstOfKind(options: seq<PermissionOption>, kind: OptionKind): (i: nat)
    ensures i <= |options|
    ensures i < |options| ==> options[i].kind == kind
    ensures forall j :: 0 <= j < i ==> options[j].kind != kind
  {
    if options == [] then 0
    else if options[0].kind == kind then 0
    else 1 + FirstOfKind(options[1..], kind)
  }

  /** What is answered to a permission request: the first `allow_once` option,
      else the first `reject_once`, else nothing that can be said. */
  function PermissionChoice(options: seq<PermissionOption>): Option<Choice> {
    var allow := FirstOfKind(options, AllowOnce);
    if allow < |options| then
      match options[allow].optionId
      case Some(o) => Some(Selected(o))
      case None => None
    else
      var reject := FirstOfKind(options, RejectOnce);
      if reject < |options| then
        match options[reject].optionId
        case Some(o) => Some(Selected(o))
        case None => Some(Selected("reject"))
      else None
  }

  /** Answer a permission request.  The second component is the error that leaves
      the loop, if any. */
  function HandlePermission(c: Client, m: Message, writeOk: bool): (Client, Option<Stop>) {
    if m.id.None? then (c, Some(ProtocolError))
    else
      var c1 := c.(permission := m.id, responded := false);
      if m.options.None? then (c1, Some(ProtocolError))
      else match PermissionChoice(m.options.value)
        case None => (c1, Some(ProtocolError))
        case Some(choice) =>
          if !writeOk then (c1, Some(WriteFailed))
          else (Write(c1, PermissionReply(m.id.value, choice)).(permission := None, responded := true), None)
  }

  function HandleUpdate(c: Client, u: Update): Client {
    match u
    case SessionInfo(Running(run)) => c.(activeRun := Some(run))
    case SessionInfo(Cleared) => c.(activeRun := None)
    case _ => c
  }

  // ------------------------------------------------------------------- the loop

  function Enter(c: Client, expected: nat, idleTimeout: nat, hardAt: Time, maxDuration: nat,
                 now: Time, hasInbox: bool, inbox: seq<SteerRequest>): Loop
  {
    Loop(c, expected, idleTimeout, maxDuration, now + idleTimeout, hardAt, now, None,
         hasInbox, inbox, |c.feed|, [], None)
  }

  function Deadline(l: Loop): Time {
    if l.idleAt < l.hardAt then l.idleAt else l.hardAt
  }

  function DropAll(requests: seq<SteerRequest>): (r: seq<Resolved>)
    ensures |r| == |requests|
  {
    seq(|requests|, i requires 0 <= i < |requests| => Resolved(requests[i], Dropped))
  }

  function Settle(pending: Option<Pending>, how: Resolution): seq<Resolved> {
    match pending
    case None => []
    case Some(p) => [Resolved(p.request, how)]
  }

  /** Leave the loop: the in-flight steer is settled with `how`, and whatever is
      still in the channel is dropped with the receiver. */
  function Leave(l: Loop, stop: Stop, how: Resolution): Loop {
    l.(stop := Some(stop), pending := None, hasInbox := false, inbox := [],
       resolved := l.resolved + Settle(l.pending, how) + DropAll(l.inbox))
  }

  /** The ordinary exit: the in-flight steer is acked neutrally. */
  function Halt(l: Loop, stop: Stop): Loop {
    Leave(l, stop, Sent(PromptCompletedNeutral))
  }

  /** The future is dropped at a suspension point (a control signal won the race). */
  function Abandon(l: Loop): Loop {
    Leave(l, Abandoned, Dropped)
  }

  function TimedOut(l: Loop, now: Time): Stop {
    if l.idleAt < l.hardAt then IdleTimeout
    else HardTimeout(if now >= l.lastActivity then now - l.lastActivity else 0)
  }

  /** The main loop's `try_send` into the capacity-1 channel. */
  predicate Accepts(l: Loop) {
    l.stop.None? && l.hasInbox && l.inbox == []
  }

  function Offer(l: Loop, offer: Option<SteerRequest>): Loop {
    if offer.Some? && Accepts(l) then l.(inbox := [offer.value]) else l
  }

  function ChooseTransport(c: Client): Option<Transport> {
    if c.activeRun.Some? then Some(Goose)
    else if c.steeringSupported then Some(AcpExtension)
    else None
  }

  function OnSteer(l: Loop, writeOk: bool): Loop
    requires l.inbox != []
  {
    var r := l.inbox[0];
    var l1 := l.(inbox := l.inbox[1..]);
    match ChooseTransport(l.client)
    case None => l1.(resolved := l.resolved + [Resolved(r, Sent(ExpectedRunIdMissing))])
    case Some(t) =>
      var id := l.client.nextId;
      var c := l.client.(nextId := id + 1);
      if writeOk then
        l1.(client := Write(c, Steer(id, t, if t.Goose? then c.activeRun else None, r)),
            pending := Some(Pending(id, t, r)))
      else
        l1.(client := c, resolved := l.resolved + [Resolved(r, Sent(TransportFailed))])
  }

  /** What a response to an in-flight steer means. */
  function Verdict(transport: Transport, m: Message): SteerAck {
    match m.error
    case Some(code) => AgentError(code.GetOr(-1))
    case None =>
      if transport.Goose? || m.outcome.Injected? || m.outcome.StartedNewTurn? then Success
      else OutcomeRejected
  }

  /** Only a steer that lands in the awaited turn renews its budget. */
  predicate Renews(transport: Transport, m: Message) {
    m.error.None? && (transport.Goose? || m.outcome.Injected?)
  }

  function OnSteerReply(l: Loop, m: Message, renewNow: Time): Loop
    requires l.pending.Some?
  {
    var p := l.pending.value;
    var renewed := renewNow + l.maxDuration;
    var l1 := l.(pending := None, resolved := l.resolved + [Resolved(p.request, Sent(Verdict(p.transport, m)))]);
    if Renews(p.transport, m) && renewed > l.hardAt
    then l1.(hardAt := renewed, client := l.client.(hardCap := Some(renewed)))
    else l1
  }

  predicate IsReply(m: Message, id: nat) {
    m.id == Some(NumberId(id)) && m.verb == NoMethod
  }

  function Dispatch(l: Loop, m: Message, s: Stimulus): Loop {
    match m.verb
    case SessionUpdate =>
      var l1 := l.(client := HandleUpdate(l.client, m.update));
      if m.update.ToolCall?
      then l1.(idleAt := s.later + l.idleTimeout, lastActivity := s.later)
      else l1
    case RequestPermission =>
      var (c, err) := HandlePermission(l.client, m, s.writeOk);
      var l1 := l.(client := c);
      if err.Some? then Leave(l1, err.value, Dropped) else l1
    case UnknownMethod(_) =>
      if m.id.None? then l
      else if s.writeOk then l.(client := Write(l.client, MethodNotFound(m.id.value)))
      else Leave(l, WriteFailed, Dropped)
    case _ => l
  }

  /** Dispatching a message touches the client and the idle clock only, or leaves
      the loop by `?`, which drops the steer in flight instead of acking it. */
  lemma DispatchShape(l: Loop, m: Message, s: Stimulus)
    requires l.stop.None?
    ensures var r := Dispatch(l, m, s);
      if r.stop.None? then r == l.(client := r.client, idleAt := r.idleAt, lastActivity := r.lastActivity)
      else (r == Leave(l.(client := r.client), r.stop.value, Dropped) && r.stop.value in {ProtocolError, WriteFailed})
  {
    hide HandlePermission, HandleUpdate;
    PermissionErrors(l.client, m, s.writeOk);
  }

  lemma PermissionErrors(c: Client, m: Message, writeOk: bool)
    ensures var err := HandlePermission(c, m, writeOk).1; err.None? || err.value in {ProtocolError, WriteFailed}
  {
  }

  /** A parsed line is recorded and restarts the idle clock. */
  function Noted(l: Loop, m: Message, at: Time): Loop {
    l.(client := l.client.(feed := l.client.feed + [Read(m)]),
       idleAt := at + l.idleTimeout, lastActivity := at)
  }

  /** A steer reply is recognized by its id before the prompt's response is. */
  function OnMessage(l: Loop, m: Message, s: Stimulus): Loop {
    var l1 := Noted(l, m, s.at);
    if l.pending.Some? && IsReply(m, l.pending.value.id) then OnSteerReply(l1, m, s.later)
    else if IsReply(m, l.expected) then
      Halt(l1, if m.error.Some? then AgentFailed(m.error.value.GetOr(-32000)) else Answered)
    else Dispatch(l1, m, s)
  }

  function OnRead(l: Loop, r: ReadResult, s: Stimulus): Loop {
    match r
    case Eof => Halt(l, AgentExited)
    case TooLong => Halt(l, ProtocolError)
    case ReadError => Halt(l, IoError)
    case Got(Blank) => l
    case Got(Unparsable) => l
    case Got(Parsed(m)) => OnMessage(l, m, s)
  }

  /** One iteration.  `select!` is biased: a readable line first, then a queued
      steer unless one is in flight, then the timer.  When nothing is ready before
      the deadline the iteration is still waiting and nothing changes. */
  function Iterate(l0: Loop, s: Stimulus): Loop {
    if l0.stop.Some? then l0
    else
      var l := Offer(l0, s.offer);
      if s.check >= Deadline(l) then Halt(l, TimedOut(l, s.later))
      else match s.ready
        case Readable(r) => OnRead(l, r, s)
        case Quiet =>
          if l.pending.None? && l.inbox != [] then OnSteer(l, s.writeOk)
          else if s.at >= Deadline(l) then Halt(l, TimedOut(l, s.later))
          else l
  }

  function Run(l: Loop, script: seq<Stimulus>): Loop {
    if script == [] then l
    else Iterate(Run(l, script[..|script| - 1]), script[|script| - 1])
  }

  /** A run that the caller gives up on when the script ends. */
  function Finish(l: Loop): Loop {
    if l.stop.None? then Abandon(l) else l
  }
}
