/** A client's prompts and cancellations: what each leaves in `lastPrompt`,
    `hardCap` and the pending permission, and what it writes.  Writes are atomic:
    they complete and are recorded, or fail and are not. */
module Session {
  import opened Wrappers
  import opened ReadLoop
  import Deadlines = ReadLoopDeadlines
  import Steers = ReadLoopSteers

  const CLEANUP_GRACE: nat := 30_000

  /** `tookInbox` says that the read loop ran and so consumed the steer receiver; when
      it did not, the receiver stays installed until `clear_steer_rx` drops it. */
  datatype Turn = Turn(client: Client, stop: Stop, resolved: seq<Resolved>, tookInbox: bool)

  /** The steer receiver a turn starts with: whether one is installed, and its content. */
  datatype Inbox = Inbox(installed: bool, requests: seq<SteerRequest>)

  predicate IsTimeout(stop: Stop) {
    stop.IdleTimeout? || stop.HardTimeout?
  }

  /** What the prompt call does once the loop is over.  A dropped future does nothing. */
  function AfterPrompt(l: Loop): Client
    requires l.stop.Some?
  {
    if IsTimeout(l.stop.value) || l.stop.value.Abandoned? then l.client
    else l.client.(lastPrompt := None, hardCap := None)
  }

  function PromptLoop(c: Client, now: Time, idleTimeout: nat, maxDuration: nat,
                      entered: Time, inbox: Inbox): Loop
  {
    var id := c.nextId;
    var c1 := c.(hardCap := Some(now + maxDuration), lastPrompt := Some(id), nextId := id + 1);
    Enter(Write(c1, Prompt(id)), id, idleTimeout, now + maxDuration, maxDuration, entered, inbox.installed, inbox.requests)
  }

  /** `session/prompt` with its read loop. */
  function SessionPrompt(c: Client, now: Time, idleTimeout: nat, maxDuration: nat, writeOk: bool,
                         entered: Time, inbox: Inbox, script: seq<Stimulus>): Turn
  {
    if !writeOk then
      Turn(c.(lastPrompt := None, hardCap := None, nextId := c.nextId + 1), WriteFailed, [], false)
    else
      var l := Finish(Run(PromptLoop(c, now, idleTimeout, maxDuration, entered, inbox), script));
      Turn(AfterPrompt(l), l.stop.value, l.resolved, true)
  }

  /** Answer a pending permission request with `cancelled`, unless already answered. */
  function CancelPermission(c: Client, writeOk: bool): Option<Client> {
    match c.permission
    case None => Some(c)
    case Some(id) =>
      if c.responded then Some(c.(permission := None, responded := false))
      else if !writeOk then None
      else Some(Write(c, PermissionReply(id, Cancelled)).(permission := None, responded := false))
  }

  function CancelLoop(c: Client, promptId: nat, hardAt: Time, now: Time, inbox: Inbox): Loop {
    Enter(Write(c, CancelNotice), promptId, CLEANUP_GRACE, hardAt, if hardAt >= now then hardAt - now else 0,
          now, inbox.installed, inbox.requests)
  }

  function CancelUntil(c: Client, hardAt: Time, replyOk: bool, cancelOk: bool, now: Time, inbox: Inbox,
                       script: seq<Stimulus>): Turn
  {
    match c.lastPrompt
    case None => Turn(c, ProtocolError, [], false)
    case Some(id) =>
      var c1 := c.(lastPrompt := None);
      match CancelPermission(c1, replyOk)
      case None => Turn(c1, WriteFailed, [], false)
      case Some(c2) =>
        if !cancelOk then Turn(c2, WriteFailed, [], false)
        else
          var l := Finish(Run(CancelLoop(c2, id, hardAt, now, inbox), script));
          Turn(l.client, l.stop.value, l.resolved, true)
  }

  /** The stored deadline when it leaves more than the grace, else the grace. */
  function CleanupDeadline(c: Client, now: Time): Time {
    if c.hardCap.Some? && c.hardCap.value > now + CLEANUP_GRACE then c.hardCap.value else now + CLEANUP_GRACE
  }

  function CancelWithCleanup(c: Client, now: Time, replyOk: bool, cancelOk: bool, entered: Time, inbox: Inbox, script: seq<Stimulus>): Turn {
    CancelUntil(c.(hardCap := None), CleanupDeadline(c, now), replyOk, cancelOk, entered, inbox, script)
  }

  function CancelWithGrace(c: Client, now: Time, grace: nat, replyOk: bool, cancelOk: bool, entered: Time, inbox: Inbox, script: seq<Stimulus>): Turn {
    var t := CancelUntil(c.(hardCap := None), now + grace, replyOk, cancelOk, entered, inbox, script);
    if t.stop.HardTimeout? then t.(stop := CancelDrainTimeout(grace)) else t
  }

  // ------------------------------------------------------------- prompt lifecycle

  /** A loop that belongs to a prompt keeps the prompt's id and deadline on the client. */
  predicate PromptInv(l: Loop) {
    l.client.lastPrompt == Some(l.expected) && l.client.hardCap == Some(l.hardAt)
  }

  lemma IterationKeepsPrompt(l: Loop, s: Stimulus)
    requires PromptInv(l)
    ensures PromptInv(Iterate(l, s)) && Iterate(l, s).expected == l.expected
  {
    hide OnMessage;
    if l.stop.None? {
      var o := Offer(l, s.offer);
      if s.check < Deadline(o) && s.ready.Readable? && s.ready.read.Got? && s.ready.read.line.Parsed? {
        MessageKeepsPrompt(o, s.ready.read.line.msg, s);
      }
    }
  }

  lemma MessageKeepsPrompt(l: Loop, m: Message, s: Stimulus)
    requires PromptInv(l) && l.stop.None?
    ensures PromptInv(OnMessage(l, m, s)) && OnMessage(l, m, s).expected == l.expected
  {
    hide Dispatch;
    DispatchShape(Noted(l, m, s.at), m, s);
    DispatchTouches(Noted(l, m, s.at), m, s);
  }

  /** Dispatching leaves the prompt id, the stored deadline and the id counter alone. */
  lemma DispatchTouches(l: Loop, m: Message, s: Stimulus)
    ensures var c := Dispatch(l, m, s).client;
      c.lastPrompt == l.client.lastPrompt && c.hardCap == l.client.hardCap && c.nextId == l.client.nextId
  {
    hide HandlePermission, HandleUpdate;
    HandlersTouch(l.client, m, s.writeOk);
  }

  lemma HandlersTouch(c: Client, m: Message, writeOk: bool)
    ensures forall r :: r in {HandlePermission(c, m, writeOk).0, HandleUpdate(c, m.update)} ==>
      r.lastPrompt == c.lastPrompt && r.hardCap == c.hardCap && r.nextId == c.nextId
  {
    hide PermissionChoice;
  }

  lemma {:induction false} RunKeepsPrompt(l: Loop, script: seq<Stimulus>)
    requires PromptInv(l)
    ensures PromptInv(Run(l, script)) && Run(l, script).expected == l.expected
  {
    hide Iterate, PromptInv;
    if script != [] {
      RunKeepsPrompt(l, script[..|script| - 1]);
      IterationKeepsPrompt(Run(l, script[..|script| - 1]), script[|script| - 1]);
    }
  }

  /** After a prompt an in-flight prompt is remembered, with the deadline it last had,
      exactly when it timed out or its future was dropped; otherwise both are cleared. */
  lemma PromptLifecycle(c: Client, now: Time, idleTimeout: nat, maxDuration: nat, writeOk: bool,
                        entered: Time, inbox: Inbox, script: seq<Stimulus>)
    ensures var t := SessionPrompt(c, now, idleTimeout, maxDuration, writeOk, entered, inbox, script);
      if writeOk && (IsTimeout(t.stop) || t.stop.Abandoned?)
      then t.client.lastPrompt == Some(c.nextId) && t.client.hardCap.Some? && t.client.hardCap.value >= now + maxDuration
      else t.client.lastPrompt.None? && t.client.hardCap.None?
  {
    hide Iterate, Run, Leave;
    if writeOk {
      var l := PromptLoop(c, now, idleTimeout, maxDuration, entered, inbox);
      RunKeepsPrompt(l, script);
      RunNeverShortens(l, script);
      LeaveKeepsClient(Run(l, script));
    }
  }

  lemma LeaveKeepsClient(l: Loop)
    ensures Abandon(l).client == l.client && Abandon(l).stop == Some(Abandoned)
  {
  }

  lemma {:induction false} RunNeverShortens(l: Loop, script: seq<Stimulus>)
    requires l.idleAt == l.lastActivity + l.idleTimeout
    ensures var r := Run(l, script); r.idleAt == r.lastActivity + r.idleTimeout && r.hardAt >= l.hardAt
  {
    hide Iterate;
    if script != [] {
      RunNeverShortens(l, script[..|script| - 1]);
      Deadlines.IterationDeadlines(Run(l, script[..|script| - 1]), script[|script| - 1]);
    }
  }

  /** Cancelling consumes the in-flight prompt; without one it fails and writes nothing. */
  lemma CancelConsumesPrompt(c: Client, hardAt: Time, replyOk: bool, cancelOk: bool, now: Time, inbox: Inbox,
                             script: seq<Stimulus>)
    ensures var t := CancelUntil(c, hardAt, replyOk, cancelOk, now, inbox, script);
      && t.client.lastPrompt.None?
      && (c.lastPrompt.None? ==> t.client == c && t.stop == ProtocolError)
  {
    hide Iterate, Run, Leave;
    if c.lastPrompt.Some? && CancelPermission(c.(lastPrompt := None), replyOk).Some? && cancelOk {
      var l := CancelLoop(CancelPermission(c.(lastPrompt := None), replyOk).value, c.lastPrompt.value, hardAt, now, inbox);
      RunSetsNoPrompt(l, script);
      LeaveKeepsClient(Run(l, script));
    }
  }

  lemma {:induction false} RunSetsNoPrompt(l: Loop, script: seq<Stimulus>)
    ensures Run(l, script).client.lastPrompt == l.client.lastPrompt
  {
    hide Iterate;
    if script != [] {
      RunSetsNoPrompt(l, script[..|script| - 1]);
      IterationSetsNoPrompt(Run(l, script[..|script| - 1]), script[|script| - 1]);
    }
  }

  lemma IterationSetsNoPrompt(l: Loop, s: Stimulus)
    ensures Iterate(l, s).client.lastPrompt == l.client.lastPrompt
  {
    hide Dispatch;
    if l.stop.None? && s.ready.Readable? && s.ready.read.Got? && s.ready.read.line.Parsed? {
      var m := s.ready.read.line.msg;
      DispatchTouches(Noted(Offer(l, s.offer), m, s.at), m, s);
    }
  }

  /** A turn and the clearing of its receiver together settle every request the turn
      was given, before or during the loop, exactly once. */
  lemma TurnSettlesEveryRequest(c: Client, now: Time, idleTimeout: nat, maxDuration: nat, writeOk: bool,
                                entered: Time, inbox: Inbox, script: seq<Stimulus>)
    ensures var t := SessionPrompt(c, now, idleTimeout, maxDuration, writeOk, entered, inbox, script);
      var l := PromptLoop(c, now, idleTimeout, maxDuration, entered, inbox);
      multiset(Steers.Requests(t.resolved + (if t.tookInbox then [] else DropAll(inbox.requests))))
        == multiset(inbox.requests + (if writeOk then Steers.Taken(l, script) else []))
  {
    hide Iterate, Run, Leave, Steers.Taken;
    if writeOk {
      var l := PromptLoop(c, now, idleTimeout, maxDuration, entered, inbox);
      Steers.EveryRequestSettledOnce(l, script);
      var f := Finish(Run(l, script));
      assert f.resolved + [] == f.resolved;
    } else {
      assert Steers.Requests([] + DropAll(inbox.requests)) == inbox.requests;
      assert inbox.requests + [] == inbox.requests;
    }
  }

  // ------------------------------------------------------------------ cleanup budget

  /** The script's clock readings, from entry on and before `limit`. */
  predicate Within(script: seq<Stimulus>, entered: Time, limit: Time) {
    forall i :: 0 <= i < |script| ==> entered <= script[i].check <= script[i].at <= script[i].later && script[i].at < limit
  }

  lemma {:induction false} NoEarlyTimeout(l: Loop, script: seq<Stimulus>, entered: Time, limit: Time)
    requires l.stop.None?
    requires l.idleAt == l.lastActivity + l.idleTimeout && l.lastActivity >= entered
    requires limit <= entered + l.idleTimeout && limit <= l.hardAt
    requires Within(script, entered, limit)
    ensures var r := Run(l, script);
      && r.hardAt >= l.hardAt && r.idleTimeout == l.idleTimeout
      && r.idleAt == r.lastActivity + r.idleTimeout && r.lastActivity >= entered
      && (r.stop.Some? ==> !IsTimeout(r.stop.value))
  {
    hide Iterate;
    if script != [] {
      var n := |script| - 1;
      assert Within(script[..n], entered, limit);
      NoEarlyTimeout(l, script[..n], entered, limit);
      var before, s := Run(l, script[..n]), script[n];
      Deadlines.IterationDeadlines(before, s);
      if before.stop.None? {
        Deadlines.TimeoutsAreDue(before, s);
      } else {
        StoppedIsFinal(before, s);
      }
    }
  }

  lemma StoppedIsFinal(l: Loop, s: Stimulus)
    requires l.stop.Some?
    ensures Iterate(l, s) == l
  {
  }

  /** Plain cleanup: however late the turn already is, the agent has at least the grace
      to answer the cancel before a timeout is reported. */
  lemma CleanupGetsItsGrace(c: Client, now: Time, replyOk: bool, cancelOk: bool, entered: Time, inbox: Inbox, script: seq<Stimulus>)
    requires now <= entered && Within(script, entered, now + CLEANUP_GRACE)
    ensures !IsTimeout(CancelWithCleanup(c, now, replyOk, cancelOk, entered, inbox, script).stop)
  {
    hide Iterate, Run, Leave;
    var c0 := c.(hardCap := None, lastPrompt := None);
    var c1 := CancelPermission(c0, replyOk);
    if c.lastPrompt.Some? && c1.Some? && cancelOk {
      var l := CancelLoop(c1.value, c.lastPrompt.value, CleanupDeadline(c, now), entered, inbox);
      NoEarlyTimeout(l, script, entered, now + CLEANUP_GRACE);
      LeaveKeepsClient(Run(l, script));
    }
  }

  /** The grace variant never reports a hard timeout, and reports its own only after
      the grace (or the cleanup idle time) has passed. */
  lemma GraceNeverHardTimeout(c: Client, now: Time, grace: nat, replyOk: bool, cancelOk: bool, entered: Time, inbox: Inbox, script: seq<Stimulus>)
    ensures !CancelWithGrace(c, now, grace, replyOk, cancelOk, entered, inbox, script).stop.HardTimeout?
    ensures now <= entered && grace <= CLEANUP_GRACE && Within(script, entered, now + grace) ==>
      var stop := CancelWithGrace(c, now, grace, replyOk, cancelOk, entered, inbox, script).stop;
      !stop.CancelDrainTimeout? && !stop.IdleTimeout?
  {
    hide Iterate, Run, Leave;
    var c0 := c.(hardCap := None, lastPrompt := None);
    var c1 := CancelPermission(c0, replyOk);
    if now <= entered && grace <= CLEANUP_GRACE && Within(script, entered, now + grace) && c.lastPrompt.Some? && c1.Some? && cancelOk {
      var l := CancelLoop(c1.value, c.lastPrompt.value, now + grace, entered, inbox);
      NoEarlyTimeout(l, script, entered, now + grace);
      LeaveKeepsClient(Run(l, script));
      NoDrainTimeoutInside(l, script);
    }
  }

  /** The loop itself never reports a drain timeout. */
  lemma {:induction false} NoDrainTimeoutInside(l: Loop, script: seq<Stimulus>)
    requires l.stop.None?
    ensures var r := Run(l, script); r.stop.Some? ==> !r.stop.value.CancelDrainTimeout?
  {
    hide Iterate;
    if script != [] {
      NoDrainTimeoutInside(l, script[..|script| - 1]);
      NoDrainTimeoutStep(Run(l, script[..|script| - 1]), script[|script| - 1]);
    }
  }

  lemma NoDrainTimeoutStep(l: Loop, s: Stimulus)
    requires l.stop.Some? ==> !l.stop.value.CancelDrainTimeout?
    ensures var r := Iterate(l, s); r.stop.Some? ==> !r.stop.value.CancelDrainTimeout?
  {
    hide Dispatch;
    if l.stop.None? && s.ready.Readable? && s.ready.read.Got? && s.ready.read.line.Parsed? {
      var m := s.ready.read.line.msg;
      DispatchShape(Noted(Offer(l, s.offer), m, s.at), m, s);
    }
  }
}
