/** The coordinator: the BLE connection lifecycle, the idle-disconnect timer and
    the notification handler, as transitions on an immutable state record.
    Each section the coordinator runs under its connection lock is one atomic
    transition; the outcomes of the BLE stack (device found, connect and
    subscribe succeed, close raises) are inputs. */
module Coordinator {
  import opened Wrappers
  import opened Wire
  import opened Telemetry

  /** The coordinator's client object: whether the BLE stack reports it
      connected, and whether the telemetry subscription was established. */
  datatype Client = Client(connected: bool, subscribed: bool)

  /** The links the coordinator no longer references but that the BLE stack
      still holds open, each with whether its telemetry subscription is still
      active. Such a link stays wired to the notification handler and to the
      disconnect callback. */
  type Orphans = multiset<bool>

  /** A delayed disconnect task (the idle timer), identified by the order in
      which it was created. A finished task stays referenced until replaced. */
  datatype Task = Task(id: nat, done: bool)

  datatype State = State(
    client: Option<Client>,
    expectedDisconnect: bool,
    disconnectTask: Option<Task>,
    tasksCreated: nat,
    reconnectsScheduled: nat,
    connectAttempts: nat,
    orphans: Orphans,
    data: Store)

  /** A freshly constructed coordinator: no client, no timer, empty store. */
  const Initial: State := State(None, false, None, 0, 0, 0, multiset{}, Telemetry.Empty)

  predicate IsConnected(s: State) {
    s.client.Some? && s.client.value.connected
  }

  predicate IsSubscribed(s: State) {
    IsConnected(s) && s.client.value.subscribed
  }

  /** The link orphaned when the coordinator drops its reference to `client`:
      one link if the client is still connected, none otherwise. */
  function Orphaned(client: Option<Client>): (o: Orphans)
    ensures |o| <= 1
    ensures |o| == 1 <==> client.Some? && client.value.connected
  {
    if client.Some? && client.value.connected then multiset{client.value.subscribed} else multiset{}
  }

  /** The idle timer is counting down: a task is referenced and has not run. */
  predicate TimerPending(s: State) {
    s.disconnectTask.Some? && !s.disconnectTask.value.done
  }

  /** Two states that differ at most in the idle timer. */
  predicate SameExceptTimer(s: State, t: State) {
    t == s.(disconnectTask := t.disconnectTask, tasksCreated := t.tasksCreated)
  }

  /** Cancels the referenced idle task, if any, and starts a new one: afterwards
      exactly one task is pending and it is younger than every earlier task. */
  function ResetDisconnectTimer(s: State): (r: State)
    ensures TimerPending(r)
    ensures r.disconnectTask.value.id == s.tasksCreated < r.tasksCreated
    ensures s.disconnectTask.Some? && s.disconnectTask.value.id < s.tasksCreated ==>
              r.disconnectTask != s.disconnectTask
    ensures SameExceptTimer(s, r) && r.data == s.data
  {
    var cancelled := if s.disconnectTask.Some? then s.(disconnectTask := None) else s;
    cancelled.(disconnectTask := Some(Task(cancelled.tasksCreated, false)),
               tasksCreated := cancelled.tasksCreated + 1)
  }

  /** The handler's effect: the new state and whether listeners were notified. */
  datatype Notified = Notified(state: State, published: bool)

  /** Handles one notification. The delimiter and undecodable frames change
      nothing. A decoded packet overwrites its slot, is published and restarts
      the idle timer, whether or not the value differs from the stored one. */
  function NotificationHandler(s: State, data: seq<byte>): (r: Notified)
    ensures data == FrameDelimiter ==> r == Notified(s, false)
    ensures ParsePacket(data).None? ==> r == Notified(s, false)
    ensures ParsePacket(data).Some? ==>
              && r.published
              && r.state.data == Write(s.data, ParsePacket(data).value).store
              && TimerPending(r.state)
              && r.state.disconnectTask.value.id == s.tasksCreated
              && SameExceptTimer(s.(data := r.state.data), r.state)
  {
    if data == FrameDelimiter then Notified(s, false)
    else
      match ParsePacket(data)
      case None => Notified(s, false)
      case Some(packet) =>
        var written := Write(s.data, packet);
        var s' := s.(data := written.store);
        if written.updated then Notified(ResetDisconnectTimer(s'), true)
        else Notified(s', false)
  }

  /** The explicit delimiter check is redundant: the handler behaves the same
      on every frame when only the decoder filters. */
  lemma DelimiterCheckIsRedundant(s: State, data: seq<byte>)
    ensures NotificationHandler(s, data) ==
              match ParsePacket(data)
              case None => Notified(s, false)
              case Some(p) => Notified(ResetDisconnectTimer(s.(data := Write(s.data, p).store)), true)
  {
    if data == FrameDelimiter {
      DelimiterDecodesToNothing();
    }
  }

  /** A repeated reading leaves the store as it was, yet is published again and
      replaces the pending idle task with a new one. */
  lemma RepeatedReadingRepublishes(s: State, data: seq<byte>)
    requires ParsePacket(data).Some?
    ensures var first := NotificationHandler(s, data);
            var second := NotificationHandler(first.state, data);
            && second.published
            && second.state.data == first.state.data
            && TimerPending(second.state)
            && second.state.disconnectTask != first.state.disconnectTask
  {
    var first := NotificationHandler(s, data);
    RepeatedWriteStillUpdates(s.data, ParsePacket(data).value);
  }

  /** The errors `_ensure_connection` raises as UpdateFailed. */
  datatype Failure = DeviceNotFound | ConnectionFailed

  /** What the BLE stack does on a connection attempt: the device is not
      known to the adapter; establishing the link raises a Bleak or timeout
      error; the link is established but subscribing raises; or both succeed. */
  datatype ConnectOutcome = NoDevice | ConnectError | SubscribeError | Connected

  /** The state after a locked connection attempt, and the error it raised. */
  datatype Attempt = Attempt(state: State, failure: Option<Failure>)

  /** Connects unless already connected. A missing device and a connect or
      subscribe error surface as failures; a subscribe error happens after the
      client was stored, so the client stays connected but unsubscribed. */
  function EnsureConnection(s: State, outcome: ConnectOutcome): (r: Attempt)
    ensures IsConnected(s) ==> r == Attempt(s, None)
    ensures r.failure.None? <==> IsConnected(s) || outcome == Connected
    ensures !IsConnected(s) && outcome == NoDevice ==> r.failure == Some(DeviceNotFound)
    ensures !IsConnected(s) && outcome in {ConnectError, SubscribeError} ==>
              r.failure == Some(ConnectionFailed)
    ensures !IsConnected(s) && outcome == Connected ==> IsSubscribed(r.state)
    ensures !IsConnected(s) && outcome in {NoDevice, ConnectError} ==> r.state.client == s.client
    ensures !IsConnected(s) && outcome == SubscribeError ==> r.state.client == Some(Client(true, false))
    ensures r.state.connectAttempts ==
              s.connectAttempts + (if IsConnected(s) || outcome == NoDevice then 0 else 1)
    ensures r.state == s.(client := r.state.client, connectAttempts := r.state.connectAttempts)
  {
    if IsConnected(s) then Attempt(s, None)
    else
      match outcome
      case NoDevice => Attempt(s, Some(DeviceNotFound))
      case ConnectError =>
        Attempt(s.(connectAttempts := s.connectAttempts + 1), Some(ConnectionFailed))
      case SubscribeError =>
        Attempt(s.(client := Some(Client(true, false)), connectAttempts := s.connectAttempts + 1),
                Some(ConnectionFailed))
      case Connected =>
        Attempt(s.(client := Some(Client(true, true)), connectAttempts := s.connectAttempts + 1), None)
  }

  /** The state after a poll, and the store returned or the error raised. */
  datatype Polled = Polled(state: State, result: Result<Store, Failure>)

  /** The periodic fallback update: reconnects when not connected and returns
      the store as it is. It never decodes or writes telemetry. */
  function UpdateData(s: State, outcome: ConnectOutcome): (r: Polled)
    ensures r.result.Success? ==> r.result.value == s.data
    ensures r.state.data == s.data
    ensures r.result.Success? <==> IsConnected(s) || outcome == Connected
    ensures IsConnected(s) ==> r == Polled(s, Success(s.data))
    ensures r.result.Failure? ==> r.result.error == EnsureConnection(s, outcome).failure.value
    ensures r.state == EnsureConnection(s, outcome).state
  {
    if !IsConnected(s) then
      var attempt := EnsureConnection(s, outcome);
      match attempt.failure
      case Some(e) => Polled(attempt.state, Failure(e))
      case None => Polled(attempt.state, Success(attempt.state.data))
    else
      Polled(s, Success(s.data))
  }

  /** The BLE stack's disconnect callback. While a disconnect is expected it
      does nothing, not even clear the client. Otherwise it drops the client
      and schedules exactly one reconnection attempt. */
  function DisconnectedCallback(s: State): (r: State)
    ensures s.expectedDisconnect ==> r == s
    ensures !s.expectedDisconnect ==>
              r == s.(client := None, reconnectsScheduled := s.reconnectsScheduled + 1)
  {
    if s.expectedDisconnect then s
    else s.(client := None, reconnectsScheduled := s.reconnectsScheduled + 1)
  }

  /** What the BLE stack does when the coordinator closes the link: both steps
      succeed (the stack then calls the disconnect callback); unsubscribing
      raises a Bleak error, so closing is never attempted and the link stays
      open and subscribed; or unsubscribing succeeds and closing raises a
      Bleak error, which leaves the link open without a subscription. */
  datatype DisconnectOutcome = Closed | StopNotifyError | CloseError

  /** Disconnects under the lock. A no-op unless connected. Otherwise the
      disconnect is marked expected while closing, so the callback the stack
      fires meanwhile schedules nothing, and the client reference is dropped
      and the mark cleared whether or not a step raised. Only a clean close
      closes the link; after a raised step the link is left open, orphaned. */
  function AsyncDisconnect(s: State, outcome: DisconnectOutcome): (r: State)
    ensures !IsConnected(s) ==> r == s
    ensures IsConnected(s) ==>
              r == s.(client := None, expectedDisconnect := false, orphans := r.orphans)
    ensures IsConnected(s) && outcome == Closed ==> r.orphans == s.orphans
    ensures IsConnected(s) && outcome == StopNotifyError ==>
              r.orphans == s.orphans + multiset{s.client.value.subscribed}
    ensures IsConnected(s) && outcome == CloseError ==> r.orphans == s.orphans + multiset{false}
  {
    if !IsConnected(s) then s
    else
      var marked := s.(expectedDisconnect := true);
      var closing :=
        match outcome
        case Closed => DisconnectedCallback(marked.(client := Some(Client(false, false))))
        case StopNotifyError => marked
        case CloseError => marked.(client := Some(Client(true, false)));
      closing.(client := None, expectedDisconnect := false,
               orphans := closing.orphans + Orphaned(closing.client))
  }

  /** The disconnect as evidently intended: unsubscribing is best effort and
      closing is attempted even when it raised, so whenever closing succeeds
      the link is closed. */
  function AsyncDisconnectCorrected(s: State, stopRaises: bool, closeRaises: bool): (r: State)
    ensures !IsConnected(s) ==> r == s
    ensures IsConnected(s) ==>
              r == s.(client := None, expectedDisconnect := false, orphans := r.orphans)
    ensures IsConnected(s) && !closeRaises ==> r.orphans == s.orphans
    ensures IsConnected(s) && closeRaises ==> |r.orphans| == |s.orphans| + 1
  {
    if !IsConnected(s) then s
    else
      var marked := s.(expectedDisconnect := true);
      var unsubscribed :=
        if stopRaises then marked else marked.(client := Some(marked.client.value.(subscribed := false)));
      var closing :=
        if closeRaises then unsubscribed
        else DisconnectedCallback(unsubscribed.(client := Some(Client(false, false))));
      closing.(client := None, expectedDisconnect := false,
               orphans := closing.orphans + Orphaned(closing.client))
  }

  /** The code as written leaves the link open when unsubscribing raises,
      although closing would have succeeded; the corrected disconnect closes
      it in that case. */
  lemma StopNotifyErrorLeavesLinkOpen(s: State)
    requires IsSubscribed(s)
    ensures AsyncDisconnect(s, StopNotifyError).orphans == s.orphans + multiset{true}
    ensures AsyncDisconnect(s, StopNotifyError).orphans != s.orphans
    ensures AsyncDisconnectCorrected(s, true, false).orphans == s.orphans
  {
  }

  /** Cancels the idle timer and disconnects. Afterwards no timer is
      referenced and nothing is connected: a connected client is dropped and
      the expected mark cleared, and otherwise only the timer reference
      changes. The link is closed unless a step raised. */
  function Shutdown(s: State, outcome: DisconnectOutcome): (r: State)
    ensures r.disconnectTask.None? && !TimerPending(r)
    ensures !IsConnected(r)
    ensures IsConnected(s) ==> r.client.None?
    ensures !IsConnected(s) ==> r.client == s.client
    ensures r.data == s.data && r.reconnectsScheduled == s.reconnectsScheduled
    ensures r.orphans == s.orphans <==> !IsConnected(s) || outcome == Closed
    ensures r == s.(client := r.client, expectedDisconnect := r.expectedDisconnect,
                    disconnectTask := None, orphans := r.orphans)
    ensures IsConnected(s) ==> !r.expectedDisconnect
    ensures !IsConnected(s) ==> r == s.(disconnectTask := None)
    ensures IsConnected(s) && outcome == StopNotifyError ==>
              r.orphans == s.orphans + multiset{s.client.value.subscribed}
    ensures IsConnected(s) && outcome == CloseError ==> r.orphans == s.orphans + multiset{false}
  {
    var cancelled := if s.disconnectTask.Some? then s.(disconnectTask := None) else s;
    AsyncDisconnect(cancelled, outcome)
  }

  /** Shutting down twice is the same as shutting down once. */
  lemma ShutdownIdempotent(s: State, first: DisconnectOutcome, second: DisconnectOutcome)
    ensures Shutdown(Shutdown(s, first), second) == Shutdown(s, first)
  {
  }

  /** Shutting down a coordinator that never connected is harmless. */
  lemma ShutdownWhenNeverConnected(outcome: DisconnectOutcome)
    ensures Shutdown(Initial, outcome) == Initial
  {
  }

  /** The idle timer's delay elapses for task `id`. Only the referenced task
      that has not yet run disconnects; a cancelled or finished task does
      nothing. The finished task stays referenced. */
  function TimerElapsed(s: State, id: nat, outcome: DisconnectOutcome): (r: State)
    ensures s.disconnectTask != Some(Task(id, false)) ==> r == s
    ensures s.disconnectTask == Some(Task(id, false)) ==>
              && !IsConnected(r) && !TimerPending(r)
              && r.data == s.data && r.reconnectsScheduled == s.reconnectsScheduled
              && (r.orphans == s.orphans <==> !IsConnected(s) || outcome == Closed)
    ensures s.disconnectTask == Some(Task(id, false)) ==>
              r == s.(client := r.client, expectedDisconnect := r.expectedDisconnect,
                      disconnectTask := Some(Task(id, true)), orphans := r.orphans)
    ensures s.disconnectTask == Some(Task(id, false)) && IsConnected(s) ==>
              r.client.None? && !r.expectedDisconnect
    ensures s.disconnectTask == Some(Task(id, false)) && !IsConnected(s) ==>
              r == s.(disconnectTask := Some(Task(id, true)))
    ensures s.disconnectTask == Some(Task(id, false)) && IsConnected(s) && outcome == StopNotifyError ==>
              r.orphans == s.orphans + multiset{s.client.value.subscribed}
    ensures s.disconnectTask == Some(Task(id, false)) && IsConnected(s) && outcome == CloseError ==>
              r.orphans == s.orphans + multiset{false}
  {
    if s.disconnectTask == Some(Task(id, false)) then
      AsyncDisconnect(s, outcome).(disconnectTask := Some(Task(id, true)))
    else s
  }

  /** Everything that can happen to the coordinator, one atomic step each. A
      notification arrives over the client's link or over an orphaned one; an
      orphaned link that drops is named by its subscription flag. */
  datatype Event =
    | Notification(frame: seq<byte>, overOrphan: bool)
    | LinkLost
    | OrphanLost(subscribed: bool)
    | TimerFired(id: nat, closing: DisconnectOutcome)
    | Poll(connecting: ConnectOutcome)
    | Reconnect(connecting: ConnectOutcome)
    | ShutdownRequested(closing: DisconnectOutcome)

  /** One event. The BLE stack delivers notifications only over a subscribed
      link, whether or not the coordinator still references it, and calls the
      disconnect callback when any link it opened drops. That callback ignores
      which link dropped: when an orphaned link drops, the current client
      reference is cleared too, orphaning a link that is still up. A scheduled
      reconnection runs the fallback update. */
  function Step(s: State, e: Event): (r: State)
    ensures r.tasksCreated >= s.tasksCreated
    ensures r.connectAttempts >= s.connectAttempts
    ensures r.data != s.data ==> e.Notification?
  {
    match e
    case Notification(frame, overOrphan) =>
      var delivered := if overOrphan then true in s.orphans else IsSubscribed(s);
      if delivered then NotificationHandler(s, frame).state else s
    case LinkLost =>
      if s.client.Some? then DisconnectedCallback(s.(client := Some(s.client.value.(connected := false))))
      else s
    case OrphanLost(subscribed) =>
      if subscribed in s.orphans then
        var t := s.(orphans := s.orphans - multiset{subscribed});
        var u := DisconnectedCallback(t);
        if t.expectedDisconnect then u else u.(orphans := u.orphans + Orphaned(t.client))
      else s
    case TimerFired(id, closing) => TimerElapsed(s, id, closing)
    case Poll(connecting) => UpdateData(s, connecting).state
    case Reconnect(connecting) =>
      if s.reconnectsScheduled > 0 then
        UpdateData(s.(reconnectsScheduled := s.reconnectsScheduled - 1), connecting).state
      else s
    case ShutdownRequested(closing) => Shutdown(s, closing)
  }

  /** The events in order. Tasks and connect attempts are only ever counted up. */
  function Run(s: State, events: seq<Event>): (r: State)
    ensures r.tasksCreated >= s.tasksCreated
    ensures r.connectAttempts >= s.connectAttempts
    decreases |events|
  {
    if |events| == 0 then s else Run(Step(s, events[0]), events[1..])
  }

  /** What holds between locked sections: no disconnect is marked expected, a
      stored client is connected, and the referenced idle task was created. */
  ghost predicate Valid(s: State) {
    && !s.expectedDisconnect
    && (s.client.Some? ==> s.client.value.connected)
    && (s.disconnectTask.Some? ==> s.disconnectTask.value.id < s.tasksCreated)
  }

  lemma StepPreservesValid(s: State, e: Event)
    requires Valid(s)
    ensures Valid(Step(s, e))
  {
  }

  lemma {:induction false} RunPreservesValid(s: State, events: seq<Event>)
    requires Valid(s)
    ensures Valid(Run(s, events))
    decreases |events|
  {
    if |events| > 0 {
      StepPreservesValid(s, events[0]);
      RunPreservesValid(Step(s, events[0]), events[1..]);
    }
  }

  /** Only notifications write the store: a run without notifications ends
      with the store it started with. */
  lemma {:induction false} OnlyNotificationsWriteStore(s: State, events: seq<Event>)
    requires forall i :: 0 <= i < |events| ==> !events[i].Notification?
    ensures Run(s, events).data == s.data
    decreases |events|
  {
    if |events| > 0 {
      OnlyNotificationsWriteStore(Step(s, events[0]), events[1..]);
    }
  }

  /** An unexpected link loss drops the client and schedules exactly one
      reconnection. */
  lemma UnexpectedLossSchedulesOneReconnect(s: State)
    requires Valid(s) && IsConnected(s)
    ensures Step(s, LinkLost).client.None?
    ensures Step(s, LinkLost).reconnectsScheduled == s.reconnectsScheduled + 1
    ensures Step(s, LinkLost).data == s.data && Step(s, LinkLost).orphans == s.orphans
  {
  }

  /** When an orphaned link drops, the callback cannot tell it from the
      current link: it clears the current client, whose link stays up and is
      orphaned in turn, and schedules one reconnection. */
  lemma OrphanLossDropsCurrentClient(s: State, subscribed: bool)
    requires Valid(s) && IsConnected(s) && subscribed in s.orphans
    ensures Step(s, OrphanLost(subscribed)).client.None?
    ensures Step(s, OrphanLost(subscribed)).reconnectsScheduled == s.reconnectsScheduled + 1
    ensures Step(s, OrphanLost(subscribed)).orphans ==
              s.orphans - multiset{subscribed} + multiset{s.client.value.subscribed}
  {
  }

  /** A disconnect the coordinator makes itself schedules no reconnection,
      although the stack calls the disconnect callback during it. */
  lemma ExpectedDisconnectSchedulesNothing(s: State, outcome: DisconnectOutcome)
    requires Valid(s) && IsConnected(s)
    ensures AsyncDisconnect(s, outcome).reconnectsScheduled == s.reconnectsScheduled
    ensures AsyncDisconnect(s, outcome).client.None?
  {
  }

  /** With no reading after the last one, the idle task runs the disconnect
      when its delay elapses: the client is dropped, and the link is closed
      exactly when closing raised nothing. */
  lemma IdleTimeoutDisconnects(s: State, frame: seq<byte>, closing: DisconnectOutcome)
    requires Valid(s) && IsSubscribed(s) && ParsePacket(frame).Some?
    ensures var t := Step(s, Notification(frame, false));
            var u := Step(t, TimerFired(t.disconnectTask.value.id, closing));
            && !IsConnected(u)
            && (u.orphans == s.orphans <==> closing == Closed)
  {
    var t := Step(s, Notification(frame, false));
    var u := Step(t, TimerFired(t.disconnectTask.value.id, closing));
    assert closing != Closed ==> |u.orphans| == |s.orphans| + 1;
  }

  /** A link left open by a raised unsubscribe keeps feeding the coordinator:
      its readings are written, published and restart the idle timer, the
      timer's disconnect finds no client and closes nothing, and when the link
      finally drops, a reconnection is scheduled. */
  lemma OrphanedLinkOutlivesDisconnect(s: State, frame: seq<byte>, later: DisconnectOutcome)
    requires Valid(s) && IsSubscribed(s) && ParsePacket(frame).Some?
    ensures var t := AsyncDisconnect(s, StopNotifyError);
            var u := Step(t, Notification(frame, true));
            var v := Step(u, TimerFired(u.disconnectTask.value.id, later));
            var w := Step(v, OrphanLost(true));
            && !IsConnected(t) && true in t.orphans
            && u.data == Write(s.data, ParsePacket(frame).value).store && TimerPending(u)
            && v.orphans == t.orphans
            && w.reconnectsScheduled == s.reconnectsScheduled + 1
  {
  }

  /** A reading that arrives before the delay elapses restarts the window: the
      earlier task has been cancelled and its elapse does nothing. */
  lemma ReadingRestartsIdleWindow(s: State, first: seq<byte>, second: seq<byte>,
                                  closing: DisconnectOutcome)
    requires Valid(s) && IsSubscribed(s)
    requires ParsePacket(first).Some? && ParsePacket(second).Some?
    ensures var t := Step(s, Notification(first, false));
            var u := Step(t, Notification(second, false));
            && Step(u, TimerFired(t.disconnectTask.value.id, closing)) == u
            && IsSubscribed(u)
  {
  }

  /** Two serialized connection attempts while disconnected reach the BLE stack
      once when the first succeeds: the second finds the link up. */
  lemma SecondEnsureConnectionIsNoOp(s: State, second: ConnectOutcome)
    requires !IsConnected(s)
    ensures var first := EnsureConnection(s, Connected);
            && EnsureConnection(first.state, second) == Attempt(first.state, None)
            && first.state.connectAttempts == s.connectAttempts + 1
  {
  }

  /** A subscribe failure is sticky: the stored client is connected, so later
      polls do not retry and no notification arrives over the client's link
      while it lasts. */
  lemma SubscribeFailureIsSticky(s: State, later: ConnectOutcome, frame: seq<byte>)
    requires Valid(s) && !IsConnected(s)
    ensures var t := Step(s, Poll(SubscribeError));
            && IsConnected(t) && !IsSubscribed(t)
            && Step(t, Poll(later)) == t
            && Step(t, Notification(frame, false)) == t
  {
  }

  /** Shutdown does not cancel a reconnection the callback already scheduled:
      when it runs afterwards, the coordinator connects again. */
  lemma ShutdownDoesNotCancelReconnect(s: State, closing: DisconnectOutcome)
    requires Valid(s) && s.reconnectsScheduled > 0
    ensures IsConnected(Run(s, [ShutdownRequested(closing), Reconnect(Connected)]))
  {
    var events := [ShutdownRequested(closing), Reconnect(Connected)];
    var t := Step(s, events[0]);
    assert !IsConnected(t) && t.reconnectsScheduled > 0;
    var u := Step(t, events[1]);
    assert events[1..] == [events[1]] && events[1..][1..] == [];
    assert Run(u, []) == u;
    assert Run(t, events[1..]) == u;
    assert Run(s, events) == u;
  }

  /** A fallback poll returns the store unchanged whatever happens to the
      connection, and a failed first refresh still leaves the coordinator able
      to connect later. */
  lemma PollKeepsStore(s: State, first: ConnectOutcome)
    requires Valid(s) && !IsConnected(s) && first in {NoDevice, ConnectError}
    ensures UpdateData(s, first).state.data == s.data
    ensures IsConnected(Step(Step(s, Poll(first)), Poll(Connected)))
  {
  }
}
