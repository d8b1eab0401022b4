/**
  Sending a power command and settling its result once, whatever order validation, the write callback,
  the acknowledgement, the timeout and a socket replacement arrive in.
*/
module PowerDispatch {
  import opened Common

  type Socket = nat

  /** A connection object; `id` is its identity. Viewers are the connections that validate layouts. */
  datatype Connection = Connection(id: nat, socket: Socket, viewer: bool, validatesPower: bool)

  datatype Ack = Unregistered | Awaited | Answered(accepted: bool) | Done

  datatype Phase = Validating | Transmitted | Stopped

  datatype Dispatch = Dispatch(
    kiosk: string, connection: Connection, request: string, phase: Phase, validated: bool,
    written: bool, accepted: bool, ack: Ack,
    settled: Option<bool>,
    sends: nat, resolves: nat)          // how often it sent, how often it resolved its promise

  datatype State = State(
    connections: map<string, Connection>, open: set<Socket>,
    busy: set<Socket>, pending: map<string, nat>, dispatches: seq<Dispatch>)

  datatype Event =
    | Call(kiosk: string, powerMessage: bool, transmission: Transmission)
    | Validated(i: nat, valid: bool, transmission: Transmission)
    | WriteDone(i: nat, failed: bool)
    | PowerResult(request: string, kiosk: string, socket: Socket, wellFormed: bool, accepted: bool)
    | AckLost(i: nat)
    | AckHandled(i: nat)
    | TimedOut(i: nat)
    | Connect(kiosk: string, connection: Connection)
    | Disconnect(kiosk: string)
    | SocketChange(socket: Socket, isOpen: bool)

  /** How the synchronous part after validation goes: the drawn request id, and whether sending throws. */
  datatype Transmission = Transmission(request: string, canRegister: bool, throws: bool)

  predicate StillCurrent(s: State, d: Dispatch) {
    && d.settled.None? && d.kiosk in s.connections && s.connections[d.kiosk] == d.connection
    && d.connection.socket in s.open
  }

  function Updated(s: State, i: nat, d: Dispatch): State
    requires i < |s.dispatches|
  {
    s.(dispatches := s.dispatches[i := d])
  }

  function SettledAs(d: Dispatch, value: bool): Dispatch {
    if d.settled.Some? then d
    else d.(settled := Some(value), resolves := d.resolves + 1, ack := if d.ack == Awaited then Done else d.ack)
  }

  /** Settles the promise unless it is settled: frees the socket, cancels the acknowledgement, resolves. */
  function Finish(s: State, i: nat, value: bool): State
    requires i < |s.dispatches|
  {
    var d := s.dispatches[i];
    if d.settled.Some? then s
    else
      Updated(s, i, SettledAs(d, value)).(
        busy := if d.connection.viewer then s.busy - {d.connection.socket} else s.busy,
        pending := if d.ack == Awaited then s.pending - {d.request} else s.pending)
  }

  /** The acknowledgement is registered, for a viewer, and the message sent. */
  function Registered(s: State, i: nat, t: Transmission): State
    requires i < |s.dispatches|
  {
    var d := s.dispatches[i];
    var d' := d.(phase := Transmitted, sends := d.sends + 1, request := t.request,
                 ack := if d.connection.viewer then Awaited else d.ack);
    Updated(s, i, d').(pending := if d.connection.viewer then s.pending[t.request := i] else s.pending)
  }

  /** From the check after validation to the send. */
  function Transmit(s: State, i: nat, t: Transmission): State
    requires i < |s.dispatches|
  {
    var d := s.dispatches[i];
    if !StillCurrent(s, d) then Finish(Updated(s, i, d.(phase := Stopped)), i, false)
    else if d.connection.viewer && !t.canRegister then Finish(Updated(s, i, d.(phase := Stopped)), i, false)
    else if t.throws then Finish(Registered(s, i, t), i, false)
    else Registered(s, i, t)
  }

  function Started(s: State, kiosk: string, t: Transmission): State
    requires kiosk in s.connections
  {
    var c := s.connections[kiosk];
    var i := |s.dispatches|;
    var d := Dispatch(kiosk, c, "", Validating, !c.viewer, false, false, Unregistered, None, 0, 0);
    var s' := s.(dispatches := s.dispatches + [d], busy := if c.viewer then s.busy + {c.socket} else s.busy);
    if !c.viewer then Transmit(s', i, t)
    else if !c.validatesPower then Finish(Updated(s', i, d.(phase := Stopped)), i, false)
    else s'
  }

  /** A call that is refused at once makes no dispatch. */
  predicate Refused(s: State, kiosk: string, powerMessage: bool) {
    || kiosk !in s.connections || s.connections[kiosk].socket !in s.open || !powerMessage
    || (s.connections[kiosk].viewer && s.connections[kiosk].socket in s.busy)
  }

  /** The acknowledgement is bound to its request, kiosk and socket; a malformed one is ignored. */
  predicate AcceptsResult(s: State, request: string, kiosk: string, socket: Socket, wellFormed: bool) {
    && request in s.pending && s.pending[request] < |s.dispatches| && wellFormed
    && s.dispatches[s.pending[request]].kiosk == kiosk
    && s.dispatches[s.pending[request]].connection.socket == socket
  }

  predicate Enabled(s: State, e: Event) {
    match e
    case Call(_, _, t) => t.request !in s.pending
    case Validated(i, _, t) => i < |s.dispatches| && s.dispatches[i].phase == Validating && t.request !in s.pending
    case WriteDone(i, _) => i < |s.dispatches| && s.dispatches[i].phase == Transmitted
    case AckLost(i) => i < |s.dispatches| && s.dispatches[i].ack == Awaited
    case AckHandled(i) => i < |s.dispatches| && s.dispatches[i].ack.Answered?
    case TimedOut(i) => i < |s.dispatches|
    case _ => true
  }

  function Step(s: State, e: Event): State
    requires Enabled(s, e)
  {
    match e
    case Call(kiosk, powerMessage, t) => if Refused(s, kiosk, powerMessage) then s else Started(s, kiosk, t)
    case Validated(i, valid, t) =>
      var d := s.dispatches[i];
      if !valid then Finish(Updated(s, i, d.(phase := Stopped)), i, false)
      else Transmit(Updated(s, i, d.(validated := true)), i, t)
    case WriteDone(i, failed) =>
      var d := s.dispatches[i];
      if failed || !StillCurrent(s, d) then Finish(s, i, false)
      else
        var s' := Updated(s, i, d.(written := true));
        if !d.connection.viewer || d.accepted then Finish(s', i, true) else s'
    case PowerResult(request, kiosk, socket, wellFormed, accepted) =>
      if !AcceptsResult(s, request, kiosk, socket, wellFormed) then s
      else
        var i := s.pending[request];
        Updated(s, i, s.dispatches[i].(ack := Answered(accepted))).(pending := s.pending - {request})
    case AckLost(i) =>
      Updated(s, i, s.dispatches[i].(ack := Answered(false))).(pending := s.pending - {s.dispatches[i].request})
    case AckHandled(i) =>
      var d := s.dispatches[i];
      var s1 := Updated(s, i, d.(ack := Done));
      if !d.ack.accepted || !StillCurrent(s, d) then Finish(s1, i, false)
      else
        var s' := Updated(s, i, d.(ack := Done, accepted := true));
        if d.written then Finish(s', i, true) else s'
    case TimedOut(i) => Finish(s, i, false)
    case Connect(kiosk, c) => s.(connections := s.connections[kiosk := c])
    case Disconnect(kiosk) => s.(connections := s.connections - {kiosk})
    case SocketChange(socket, isOpen) => s.(open := if isOpen then s.open + {socket} else s.open - {socket})
  }

  // ---------------------------------------------------------------- invariants

  ghost predicate HoldsSocket(s: State, i: int, socket: Socket)
    requires 0 <= i < |s.dispatches|
  {
    s.dispatches[i].connection.viewer && s.dispatches[i].settled.None? && s.dispatches[i].connection.socket == socket
  }

  ghost predicate DispatchInv(d: Dispatch) {
    && d.resolves == (if d.settled.Some? then 1 else 0)
    && d.sends == (if d.phase == Transmitted then 1 else 0)
    && (d.phase == Stopped ==> d.settled == Some(false))
    && (d.phase == Transmitted ==> d.validated)
    && (d.phase != Transmitted ==> d.ack == Unregistered && !d.written && !d.accepted && d.settled != Some(true))
    && (d.settled == Some(true) ==> d.written && (d.connection.viewer ==> d.accepted))
    && (d.settled.None? && d.written ==> d.connection.viewer && !d.accepted)
    && (d.ack != Unregistered ==> d.connection.viewer)
    && (d.ack == Awaited ==> d.settled.None?)
    && (d.accepted ==> d.ack == Done)
  }

  ghost predicate BusyInv(s: State) {
    && (forall socket :: socket in s.busy <==> exists i :: 0 <= i < |s.dispatches| && HoldsSocket(s, i, socket))
    && (forall i, j | 0 <= i < j < |s.dispatches| ::
          !(HoldsSocket(s, i, s.dispatches[i].connection.socket)
            && HoldsSocket(s, j, s.dispatches[i].connection.socket)))
  }

  ghost predicate PendingInv(s: State) {
    && (forall r | r in s.pending :: && s.pending[r] < |s.dispatches| && s.dispatches[s.pending[r]].request == r
                                     && s.dispatches[s.pending[r]].ack == Awaited)
    && (forall i | 0 <= i < |s.dispatches| && s.dispatches[i].ack == Awaited ::
          s.dispatches[i].request in s.pending && s.pending[s.dispatches[i].request] == i)
  }

  ghost predicate Inv(s: State) {
    && (forall i | 0 <= i < |s.dispatches| :: DispatchInv(s.dispatches[i]))
    && BusyInv(s) && PendingInv(s)
  }

  /** A changed dispatch that keeps its connection and stays settled or unsettled holds the same socket. */
  lemma UpdateBusy(s: State, i: nat, d: Dispatch)
    requires i < |s.dispatches| && BusyInv(s)
    requires d.connection == s.dispatches[i].connection && d.settled.None? == s.dispatches[i].settled.None?
    ensures BusyInv(Updated(s, i, d))
  {
    var s' := Updated(s, i, d);
    assert forall j, socket | 0 <= j < |s.dispatches| :: HoldsSocket(s', j, socket) == HoldsSocket(s, j, socket);
  }

  lemma FinishBusy(s: State, i: nat, value: bool)
    requires i < |s.dispatches| && BusyInv(s)
    ensures BusyInv(Finish(s, i, value))
  {
    var s', d := Finish(s, i, value), s.dispatches[i];
    if d.settled.None? {
      forall socket
        ensures socket in s'.busy <==> exists j :: 0 <= j < |s'.dispatches| && HoldsSocket(s', j, socket)
      {
        if j :| 0 <= j < |s.dispatches| && HoldsSocket(s, j, socket) {
          if j != i {
            assert HoldsSocket(s', j, socket);
            assert d.connection.viewer ==> HoldsSocket(s, i, d.connection.socket);
          }
        }
        if j :| 0 <= j < |s'.dispatches| && HoldsSocket(s', j, socket) {
          assert HoldsSocket(s, j, socket);
        }
      }
      assert forall j, socket | 0 <= j < |s.dispatches| :: HoldsSocket(s', j, socket) ==> HoldsSocket(s, j, socket);
    }
  }

  lemma FinishPending(s: State, i: nat, value: bool)
    requires i < |s.dispatches| && PendingInv(s)
    ensures PendingInv(Finish(s, i, value))
  {
  }

  /** Everything but dispatch i is in order. */
  ghost predicate InvBut(s: State, i: nat) {
    (forall j | 0 <= j < |s.dispatches| && j != i :: DispatchInv(s.dispatches[j])) && BusyInv(s) && PendingInv(s)
  }

  lemma FinishInv(s: State, i: nat, value: bool)
    requires i < |s.dispatches| && InvBut(s, i) && DispatchInv(Finish(s, i, value).dispatches[i])
    ensures Inv(Finish(s, i, value))
  {
    FinishBusy(s, i, value);
    FinishPending(s, i, value);
  }

  /** Stopping, writing or answering: a dispatch changes in place and its acknowledgement stays as awaited as it was. */
  lemma UpdateInv(s: State, i: nat, d: Dispatch)
    requires i < |s.dispatches| && InvBut(s, i)
    requires d.connection == s.dispatches[i].connection && d.settled == s.dispatches[i].settled
    requires d.request == s.dispatches[i].request && (d.ack == Awaited <==> s.dispatches[i].ack == Awaited)
    ensures InvBut(Updated(s, i, d), i)
    ensures DispatchInv(d) ==> Inv(Updated(s, i, d))
  {
    UpdateBusy(s, i, d);
  }

  lemma TransmitInv(s: State, i: nat, t: Transmission)
    requires i < |s.dispatches| && InvBut(s, i) && t.request !in s.pending
    requires var d := s.dispatches[i]; d.phase == Validating && d.validated && DispatchInv(d)
    ensures Inv(Transmit(s, i, t))
  {
    var d := s.dispatches[i];
    assert d.settled.Some? ==> !d.settled.value;
    if !StillCurrent(s, d) || (d.connection.viewer && !t.canRegister) {
      UpdateInv(s, i, d.(phase := Stopped));
      FinishInv(Updated(s, i, d.(phase := Stopped)), i, false);
    } else {
      var s' := Registered(s, i, t);
      var d' := s'.dispatches[i];
      assert BusyInv(s') by {
        UpdateBusy(s, i, d');
        SameBusy(Updated(s, i, d'), s');
      }
      assert PendingInv(s') by { RegisterPending(s, s', i, d'); }
      if t.throws {
        FinishInv(s', i, false);
      }
    }
  }

  /** A dispatch that starts to wait under a fresh request id, or sends without waiting. */
  lemma RegisterPending(s: State, s': State, i: nat, d: Dispatch)
    requires i < |s.dispatches| && PendingInv(s) && s.dispatches[i].ack == Unregistered && d.request !in s.pending
    requires s'.dispatches == s.dispatches[i := d]
    requires || (d.ack == Awaited && s'.pending == s.pending[d.request := i])
             || (d.ack == Unregistered && s'.pending == s.pending)
    ensures PendingInv(s')
  {
  }

  lemma SameBusy(s: State, s': State)
    requires BusyInv(s) && s'.busy == s.busy && s'.dispatches == s.dispatches
    ensures BusyInv(s')
  {
    assert forall j, socket | 0 <= j < |s.dispatches| :: HoldsSocket(s', j, socket) == HoldsSocket(s, j, socket);
  }

  lemma StartedInv(s: State, kiosk: string, t: Transmission)
    requires Inv(s) && !Refused(s, kiosk, true) && t.request !in s.pending
    ensures Inv(Started(s, kiosk, t))
  {
    var c, i := s.connections[kiosk], |s.dispatches|;
    var d := Dispatch(kiosk, c, "", Validating, !c.viewer, false, false, Unregistered, None, 0, 0);
    var s' := s.(dispatches := s.dispatches + [d], busy := if c.viewer then s.busy + {c.socket} else s.busy);
    AppendBusy(s, s', d);
    if !c.viewer {
      TransmitInv(s', i, t);
    } else if !c.validatesPower {
      UpdateInv(s', i, d.(phase := Stopped));
      FinishInv(Updated(s', i, d.(phase := Stopped)), i, false);
    }
  }

  lemma AppendBusy(s: State, s': State, d: Dispatch)
    requires BusyInv(s) && d.settled.None? && s'.dispatches == s.dispatches + [d]
    requires d.connection.viewer ==> d.connection.socket !in s.busy
    requires s'.busy == if d.connection.viewer then s.busy + {d.connection.socket} else s.busy
    ensures BusyInv(s')
  {
    assert forall j, socket | 0 <= j < |s.dispatches| :: HoldsSocket(s', j, socket) == HoldsSocket(s, j, socket);
    var last := |s.dispatches|;
    assert forall socket :: HoldsSocket(s', last, socket) <==> d.connection.viewer && d.connection.socket == socket;
    forall socket
      ensures socket in s'.busy <==> exists j :: 0 <= j < |s'.dispatches| && HoldsSocket(s', j, socket)
    {
      if socket in s.busy {
        var j :| 0 <= j < |s.dispatches| && HoldsSocket(s, j, socket);
        assert HoldsSocket(s', j, socket);
      } else if socket in s'.busy {
        assert HoldsSocket(s', last, socket);
      }
    }
  }

  lemma AnswerInv(s: State, i: nat, accepted: bool)
    requires Inv(s) && i < |s.dispatches| && s.dispatches[i].ack == Awaited
    ensures Inv(Updated(s, i,
        s.dispatches[i].(ack := Answered(accepted))).(pending := s.pending - {s.dispatches[i].request}))
  {
    var d := s.dispatches[i].(ack := Answered(accepted));
    UpdateBusy(s, i, d);
    var s' := Updated(s, i, d).(pending := s.pending - {d.request});
    SameBusy(Updated(s, i, d), s');
  }

  lemma WriteInv(s: State, i: nat, failed: bool)
    requires Inv(s) && Enabled(s, WriteDone(i, failed))
    ensures Inv(Step(s, WriteDone(i, failed)))
  {
    var d := s.dispatches[i];
    if failed || !StillCurrent(s, d) {
      FinishInv(s, i, false);
    } else {
      UpdateInv(s, i, d.(written := true));
      if !d.connection.viewer || d.accepted {
        FinishInv(Updated(s, i, d.(written := true)), i, true);
      }
    }
  }

  lemma AckInv(s: State, i: nat)
    requires Inv(s) && Enabled(s, AckHandled(i))
    ensures Inv(Step(s, AckHandled(i)))
  {
    var d := s.dispatches[i];
    if !d.ack.accepted || !StillCurrent(s, d) {
      UpdateInv(s, i, d.(ack := Done));
      FinishInv(Updated(s, i, d.(ack := Done)), i, false);
    } else {
      UpdateInv(s, i, d.(ack := Done, accepted := true));
      if d.written {
        FinishInv(Updated(s, i, d.(ack := Done, accepted := true)), i, true);
      }
    }
  }

  lemma StepInv(s: State, e: Event)
    requires Inv(s) && Enabled(s, e)
    ensures Inv(Step(s, e))
  {
    match e
    case Call(kiosk, powerMessage, t) =>
      if !Refused(s, kiosk, powerMessage) { StartedInv(s, kiosk, t); }
    case Validated(i, valid, t) =>
      var d := s.dispatches[i];
      assert d.settled.Some? ==> !d.settled.value;
      if !valid {
        UpdateInv(s, i, d.(phase := Stopped));
        FinishInv(Updated(s, i, d.(phase := Stopped)), i, false);
      } else {
        UpdateInv(s, i, d.(validated := true));
        TransmitInv(Updated(s, i, d.(validated := true)), i, t);
      }
    case WriteDone(i, failed) => WriteInv(s, i, failed);
    case PowerResult(request, kiosk, socket, wellFormed, accepted) =>
      if AcceptsResult(s, request, kiosk, socket, wellFormed) { AnswerInv(s, s.pending[request], accepted); }
    case AckLost(i) => AnswerInv(s, i, false);
    case AckHandled(i) => AckInv(s, i);
    case TimedOut(i) => FinishInv(s, i, false);
    case _ => SameBusy(s, Step(s, e));
  }

  ghost predicate IsRun(states: seq<State>, events: seq<Event>) {
    && |states| == |events| + 1
    && states[0].busy == {} && states[0].pending == map[] && states[0].dispatches == []
    && forall i | 0 <= i < |events| :: Happens(states, events, i)
  }

  ghost predicate Happens(states: seq<State>, events: seq<Event>, i: int)
    requires 0 <= i < |events| < |states|
  {
    Enabled(states[i], events[i]) && states[i+1] == Step(states[i], events[i])
  }

  lemma {:induction false} RunInv(states: seq<State>, events: seq<Event>, i: nat)
    requires IsRun(states, events) && i <= |events|
    ensures Inv(states[i])
  {
    if i > 0 {
      RunInv(states, events, i - 1);
      assert Happens(states, events, i - 1);
      StepInv(states[i-1], events[i-1]);
    }
  }

  // ---------------------------------------------------------------- what every interleaving gives

  /** A dispatch resolves its promise at most once, exactly when it is settled, and sends at most once. */
  lemma SettlesOnce(states: seq<State>, events: seq<Event>, n: nat, i: nat)
    requires IsRun(states, events) && n <= |events| && i < |states[n].dispatches|
    ensures var d := states[n].dispatches[i];
            d.resolves == (if d.settled.Some? then 1 else 0) && d.sends <= 1
  {
    RunInv(states, events, n);
  }

  /** How one dispatch may change in a step: identity kept, a settled one final, true only as `mayConfirm` says. */
  ghost predicate Evolves(d: Dispatch, d': Dispatch, mayConfirm: bool, mayAnswer: bool) {
    && d'.kiosk == d.kiosk && d'.connection == d.connection
    && (d.settled.Some? ==> d'.settled == d.settled && d'.sends == d.sends && d'.resolves == d.resolves)
    && (d'.settled == Some(true) && d.settled.None? ==> mayConfirm)
    && (d'.ack == Answered(true) && d.ack != Answered(true) ==> mayAnswer)
  }

  lemma FinishEvolves(s: State, i: nat, value: bool, j: nat)
    requires i < |s.dispatches| && j < |s.dispatches|
    ensures |Finish(s, i, value).dispatches| == |s.dispatches|
    ensures Evolves(s.dispatches[j], Finish(s, i, value).dispatches[j], i == j && value, false)
  {
  }

  lemma TransmitEvolves(s: State, i: nat, t: Transmission, j: nat)
    requires i < |s.dispatches| && j < |s.dispatches|
    ensures |Transmit(s, i, t).dispatches| == |s.dispatches|
    ensures Evolves(s.dispatches[j], Transmit(s, i, t).dispatches[j], false, false)
  {
  }

  ghost predicate Confirming(s: State, e: Event, i: nat)
    requires i < |s.dispatches|
  {
    var d := s.dispatches[i];
    && StillCurrent(s, d)
    && (|| (e == WriteDone(i, false) && (d.connection.viewer ==> d.accepted))
        || (e == AckHandled(i) && d.ack == Answered(true) && d.written))
  }

  lemma StepEvolves(s: State, e: Event, j: nat)
    requires Inv(s) && Enabled(s, e) && j < |s.dispatches|
    ensures j < |Step(s, e).dispatches|
    ensures var d := s.dispatches[j];
            Evolves(d, Step(s, e).dispatches[j], Confirming(s, e, j),
                    e == PowerResult(d.request, d.kiosk, d.connection.socket, true, true))
  {
    match e
    case Call(kiosk, powerMessage, t) =>
      if !Refused(s, kiosk, powerMessage) { StartedEvolves(s, kiosk, t, j); }
    case Validated(i, valid, t) =>
      var d := s.dispatches[i];
      if !valid {
        FinishEvolves(Updated(s, i, d.(phase := Stopped)), i, false, j);
      } else {
        TransmitEvolves(Updated(s, i, d.(validated := true)), i, t, j);
      }
    case WriteDone(i, failed) => WriteEvolves(s, i, failed, j);
    case PowerResult(_, _, _, _, _) =>
    case AckLost(i) =>
    case AckHandled(i) => AckEvolves(s, i, j);
    case TimedOut(i) => FinishEvolves(s, i, false, j);
    case _ =>
  }

  lemma WriteEvolves(s: State, i: nat, failed: bool, j: nat)
    requires Enabled(s, WriteDone(i, failed)) && j < |s.dispatches|
    ensures |Step(s, WriteDone(i, failed)).dispatches| == |s.dispatches|
    ensures Evolves(s.dispatches[j], Step(s, WriteDone(i, failed)).dispatches[j],
                    Confirming(s, WriteDone(i, failed), j), false)
  {
    var d := s.dispatches[i];
    if failed || !StillCurrent(s, d) {
      FinishEvolves(s, i, false, j);
    } else {
      FinishEvolves(Updated(s, i, d.(written := true)), i, true, j);
    }
  }

  lemma AckEvolves(s: State, i: nat, j: nat)
    requires Enabled(s, AckHandled(i)) && j < |s.dispatches|
    ensures |Step(s, AckHandled(i)).dispatches| == |s.dispatches|
    ensures Evolves(s.dispatches[j], Step(s, AckHandled(i)).dispatches[j], Confirming(s, AckHandled(i), j), false)
  {
    var d := s.dispatches[i];
    if !d.ack.accepted || !StillCurrent(s, d) {
      FinishEvolves(Updated(s, i, d.(ack := Done)), i, false, j);
    } else {
      FinishEvolves(Updated(s, i, d.(ack := Done, accepted := true)), i, true, j);
    }
  }

  lemma StartedEvolves(s: State, kiosk: string, t: Transmission, j: nat)
    requires kiosk in s.connections && j < |s.dispatches|
    ensures |Started(s, kiosk, t).dispatches| == |s.dispatches| + 1
    ensures Evolves(s.dispatches[j], Started(s, kiosk, t).dispatches[j], false, false)
  {
  }

  /** Dispatches are never dropped, and a settled one never changes its answer, sends or resolves again. */
  lemma SettledIsFinal(states: seq<State>, events: seq<Event>, n: nat, i: nat)
    requires IsRun(states, events) && n < |events| && i < |states[n].dispatches|
    ensures i < |states[n+1].dispatches|
    ensures var d, d' := states[n].dispatches[i], states[n+1].dispatches[i];
            && d'.kiosk == d.kiosk && d'.connection == d.connection
            && (d.settled.Some? ==> d'.settled == d.settled && d'.sends == d.sends && d'.resolves == d.resolves)
  {
    RunInv(states, events, n);
    assert Happens(states, events, n);
    StepEvolves(states[n], events[n], i);
  }

  /** Whatever else happens, the timeout settles. */
  lemma TimeoutSettles(s: State, i: nat)
    requires i < |s.dispatches|
    ensures Step(s, TimedOut(i)).dispatches[i].settled.Some?
  {
  }

  // ---------------------------------------------------------------- what had to happen for a true answer

  /** Each flag of a dispatch is raised by its own event only, and its request id is fixed once it waits. */
  ghost predicate Raises(d: Dispatch, d': Dispatch, e: Event, j: nat) {
    && (d'.validated && !d.validated ==> e.Validated? && e.i == j && e.valid)
    && (d'.written && !d.written ==> e == WriteDone(j, false) && d.phase == Transmitted)
    && (d'.accepted && !d.accepted ==> d.ack == Answered(true))
    && (d.ack != Unregistered ==> d'.request == d.request)
    && (d'.ack == Answered(true) && d.ack != Answered(true) ==> d.ack == Awaited)
  }

  lemma FinishRaises(s: State, i: nat, value: bool, e: Event, j: nat)
    requires i < |s.dispatches| && j < |s.dispatches|
    ensures |Finish(s, i, value).dispatches| == |s.dispatches|
    ensures Raises(s.dispatches[j], Finish(s, i, value).dispatches[j], e, j)
    ensures var d, d' := s.dispatches[j], Finish(s, i, value).dispatches[j];
            d'.validated == d.validated && d'.written == d.written && d'.accepted == d.accepted
  {
    if i == j { FinishOwn(s, i, value); } else { FinishTouchesOne(s, i, value, j); }
  }

  lemma FinishTouchesOne(s: State, i: nat, value: bool, j: nat)
    requires i < |s.dispatches| && j < |s.dispatches| && i != j
    ensures |Finish(s, i, value).dispatches| == |s.dispatches| && Finish(s, i, value).dispatches[j] == s.dispatches[j]
  {
  }

  lemma TransmitTouchesOne(s: State, i: nat, t: Transmission, j: nat)
    requires i < |s.dispatches| && j < |s.dispatches| && i != j
    ensures |Transmit(s, i, t).dispatches| == |s.dispatches| && Transmit(s, i, t).dispatches[j] == s.dispatches[j]
  {
    FinishTouchesOne(Updated(s, i, s.dispatches[i].(phase := Stopped)), i, false, j);
    FinishTouchesOne(Registered(s, i, t), i, false, j);
  }

  /** Sending raises no flag. */
  lemma TransmitKeepsFlags(s: State, i: nat, t: Transmission)
    requires i < |s.dispatches| && s.dispatches[i].ack == Unregistered
    ensures |Transmit(s, i, t).dispatches| == |s.dispatches|
    ensures var d, d' := s.dispatches[i], Transmit(s, i, t).dispatches[i];
            && d'.validated == d.validated && d'.written == d.written && d'.accepted == d.accepted
            && d'.ack != Answered(true)
  {
    var d := s.dispatches[i];
    FinishOwn(Updated(s, i, d.(phase := Stopped)), i, false);
    FinishOwn(Registered(s, i, t), i, false);
    assert Transmit(s, i, t).dispatches[i] in {
      SettledAs(d.(phase := Stopped), false), Registered(s, i, t).dispatches[i],
      SettledAs(Registered(s, i, t).dispatches[i], false)};
  }

  lemma FinishOwn(s: State, i: nat, value: bool)
    requires i < |s.dispatches|
    ensures |Finish(s, i, value).dispatches| == |s.dispatches|
    ensures Finish(s, i, value).dispatches[i] == SettledAs(s.dispatches[i], value)
  {
  }

  lemma TransmitRaises(s: State, i: nat, t: Transmission, e: Event, j: nat)
    requires i < |s.dispatches| && j < |s.dispatches| && s.dispatches[i].ack == Unregistered
    ensures |Transmit(s, i, t).dispatches| == |s.dispatches|
    ensures Raises(s.dispatches[j], Transmit(s, i, t).dispatches[j], e, j)
    ensures Transmit(s, i, t).dispatches[j].validated == s.dispatches[j].validated
  {
    if i == j { TransmitKeepsFlags(s, i, t); } else { TransmitTouchesOne(s, i, t, j); }
  }

  lemma StepRaises(s: State, e: Event, j: nat)
    requires Inv(s) && Enabled(s, e) && j < |s.dispatches|
    ensures j < |Step(s, e).dispatches| && Raises(s.dispatches[j], Step(s, e).dispatches[j], e, j)
  {
    match e
    case Call(kiosk, powerMessage, t) =>
      if !Refused(s, kiosk, powerMessage) { StartedKeeps(s, kiosk, t, j); }
    case Validated(i, valid, t) =>
      var d := s.dispatches[i];
      if !valid {
        FinishRaises(Updated(s, i, d.(phase := Stopped)), i, false, e, j);
      } else {
        TransmitRaises(Updated(s, i, d.(validated := true)), i, t, e, j);
      }
    case WriteDone(i, failed) => WriteRaises(s, i, failed, j);
    case PowerResult(_, _, _, _, _) =>
    case AckLost(i) =>
    case AckHandled(i) => AckRaises(s, i, j);
    case TimedOut(i) => FinishRaises(s, i, false, e, j);
    case _ =>
  }

  lemma WriteRaises(s: State, i: nat, failed: bool, j: nat)
    requires Enabled(s, WriteDone(i, failed)) && j < |s.dispatches|
    ensures |Step(s, WriteDone(i, failed)).dispatches| == |s.dispatches|
    ensures Raises(s.dispatches[j], Step(s, WriteDone(i, failed)).dispatches[j], WriteDone(i, failed), j)
  {
    var d, e := s.dispatches[i], WriteDone(i, failed);
    if failed || !StillCurrent(s, d) {
      FinishRaises(s, i, false, e, j);
    } else {
      FinishRaises(Updated(s, i, d.(written := true)), i, true, e, j);
    }
  }

  lemma AckRaises(s: State, i: nat, j: nat)
    requires Enabled(s, AckHandled(i)) && j < |s.dispatches|
    ensures |Step(s, AckHandled(i)).dispatches| == |s.dispatches|
    ensures Raises(s.dispatches[j], Step(s, AckHandled(i)).dispatches[j], AckHandled(i), j)
  {
    var d, e := s.dispatches[i], AckHandled(i);
    if !d.ack.accepted || !StillCurrent(s, d) {
      FinishRaises(Updated(s, i, d.(ack := Done)), i, false, e, j);
    } else {
      FinishRaises(Updated(s, i, d.(ack := Done, accepted := true)), i, true, e, j);
    }
  }

  lemma StartedKeeps(s: State, kiosk: string, t: Transmission, j: nat)
    requires kiosk in s.connections && j < |s.dispatches|
    ensures |Started(s, kiosk, t).dispatches| == |s.dispatches| + 1
    ensures Started(s, kiosk, t).dispatches[j] == s.dispatches[j]
  {
  }

  /** A dispatch starts with no flag raised, but a desktop's needs no validation. */
  lemma BornBare(s: State, kiosk: string, t: Transmission)
    requires kiosk in s.connections
    ensures |Started(s, kiosk, t).dispatches| == |s.dispatches| + 1
    ensures var d := Started(s, kiosk, t).dispatches[|s.dispatches|];
            !d.written && !d.accepted && d.ack != Answered(true) && (d.connection.viewer ==> !d.validated)
  {
  }

  /** Only a call that is not refused makes a dispatch. */
  lemma OnlyCallsStart(s: State, e: Event)
    requires Enabled(s, e) && |Step(s, e).dispatches| > |s.dispatches|
    ensures e.Call? && !Refused(s, e.kiosk, e.powerMessage) && Step(s, e) == Started(s, e.kiosk, e.transmission)
    ensures |Step(s, e).dispatches| == |s.dispatches| + 1
  {
    match e
    case Call(kiosk, powerMessage, t) =>
      if !Refused(s, kiosk, powerMessage) { BornBare(s, kiosk, t); }
    case Validated(i, valid, t) =>
      FinishOwn(Updated(s, i, s.dispatches[i].(phase := Stopped)), i, false);
    case _ =>
  }

  lemma BornHistory(s: State, events: seq<Event>, n: nat)
    requires n < |events| && Enabled(s, events[n]) && |Step(s, events[n]).dispatches| > |s.dispatches|
    ensures |Step(s, events[n]).dispatches| == |s.dispatches| + 1
    ensures History(events, n + 1, |s.dispatches|, Step(s, events[n]).dispatches[|s.dispatches|])
  {
    OnlyCallsStart(s, events[n]);
    BornBare(s, events[n].kiosk, events[n].transmission);
  }

  /** Before step n the viewer's validation of dispatch i answered yes. */
  ghost predicate WasValidated(events: seq<Event>, n: nat, i: nat) {
    exists v: nat | v < n && v < |events| :: events[v].Validated? && events[v].i == i && events[v].valid
  }

  /** Before step n its write succeeded, after the validation. */
  ghost predicate WasWritten(events: seq<Event>, n: nat, i: nat, viewer: bool) {
    exists w: nat | w < n && w < |events| :: events[w] == WriteDone(i, false) && (viewer ==> WasValidated(events, w, i))
  }

  /** Before step n the kiosk's own socket accepted its request, after the validation. */
  ghost predicate WasAccepted(events: seq<Event>, n: nat, i: nat, d: Dispatch) {
    exists a: nat | a < n && a < |events| ::
      events[a] == PowerResult(d.request, d.kiosk, d.connection.socket, true, true) && WasValidated(events, a, i)
  }

  ghost predicate History(events: seq<Event>, n: nat, i: nat, d: Dispatch) {
    && (d.validated && d.connection.viewer ==> WasValidated(events, n, i))
    && (d.written ==> WasWritten(events, n, i, d.connection.viewer))
    && (d.accepted || d.ack == Answered(true) ==> WasAccepted(events, n, i, d))
  }

  lemma HistoryStays(events: seq<Event>, n: nat, i: nat, d: Dispatch)
    requires n < |events| && History(events, n, i, d)
    ensures History(events, n + 1, i, d)
  {
  }

  /** Every flag that is up stands for an event of the run. */
  lemma {:induction false} FlagsHaveHistory(states: seq<State>, events: seq<Event>, n: nat, i: nat)
    requires IsRun(states, events) && n <= |events| && i < |states[n].dispatches|
    ensures History(events, n, i, states[n].dispatches[i])
  {
    if n > 0 {
      assert Inv(states[n-1]) by { RunInv(states, events, n - 1); }
      if i < |states[n-1].dispatches| { FlagsHaveHistory(states, events, n - 1, i); }
      HistoryStep(states, events, n - 1, i);
    }
  }

  lemma HistoryStep(states: seq<State>, events: seq<Event>, n: nat, i: nat)
    requires n < |events| < |states| && Inv(states[n]) && Happens(states, events, n) && i < |states[n+1].dispatches|
    requires i < |states[n].dispatches| ==> History(events, n, i, states[n].dispatches[i])
    ensures History(events, n + 1, i, states[n+1].dispatches[i])
  {
    if i < |states[n].dispatches| { HistoryGrows(states[n], events, n, i); } else { BornHistory(states[n], events, n); }
  }

  lemma HistoryGrows(s: State, events: seq<Event>, n: nat, i: nat)
    requires Inv(s) && n < |events| && Enabled(s, events[n]) && i < |s.dispatches|
        && History(events, n, i, s.dispatches[i])
    ensures i < |Step(s, events[n]).dispatches| && History(events, n + 1, i, Step(s, events[n]).dispatches[i])
  {
    var e := events[n];
    StepRaises(s, e, i);
    StepEvolves(s, e, i);
    var d, d' := s.dispatches[i], Step(s, e).dispatches[i];
    HistoryStays(events, n, i, d);
    assert DispatchInv(d);
    if d'.ack == Answered(true) && d.ack != Answered(true) {
      assert e == PowerResult(d'.request, d'.kiosk, d'.connection.socket, true, true) && WasValidated(events, n, i);
    }
    if d'.written && !d.written {
      assert e == WriteDone(i, false) && (d.connection.viewer ==> WasValidated(events, n, i));
    }
    if d'.accepted || d'.ack == Answered(true) {
      assert d'.request == d.request;
    }
  }

  /**
    A promise becomes true only on the connection that is still the kiosk's and still open, after one send, and
    only if its write has succeeded; for a viewer, validation had answered yes before that, and the kiosk's own
    socket has accepted the request.
  */
  lemma TrueOnlyWhenConfirmed(states: seq<State>, events: seq<Event>, n: nat, i: nat)
    requires IsRun(states, events) && n < |events| && i < |states[n].dispatches|
    requires states[n].dispatches[i].settled.None?
    requires i < |states[n+1].dispatches| && states[n+1].dispatches[i].settled == Some(true)
    ensures
      var s, d := states[n], states[n].dispatches[i];
      && d.kiosk in s.connections && s.connections[d.kiosk] == d.connection && d.connection.socket in s.open
      && d.sends == 1 && events[n] in {WriteDone(i, false), AckHandled(i)}
      && WasWritten(events, n + 1, i, d.connection.viewer)
      && (d.connection.viewer ==> WasValidated(events, n, i) && WasAccepted(events, n, i, d))
  {
    RunInv(states, events, n);
    assert Happens(states, events, n);
    StepEvolves(states[n], events[n], i);
    var d := states[n].dispatches[i];
    assert DispatchInv(d);
    FlagsHaveHistory(states, events, n, i);
    HistoryStays(events, n, i, d);
    if !d.written { assert events[n] == WriteDone(i, false); }
  }

  // ---------------------------------------------------------------- exactly when a dispatch settles, and how

  /** The dispatch's connection is still the kiosk's, and open. */
  predicate OnCurrentConnection(s: State, d: Dispatch) {
    && d.kiosk in s.connections && s.connections[d.kiosk] == d.connection && d.connection.socket in s.open
  }

  /** The last thing a true answer waits for: the error-free write, or the accepted result after it. */
  predicate Completes(s: State, e: Event, i: nat)
    requires i < |s.dispatches|
  {
    var d := s.dispatches[i];
    && OnCurrentConnection(s, d)
    && (|| (e == WriteDone(i, false) && (d.connection.viewer ==> d.accepted))
        || (e == AckHandled(i) && d.ack == Answered(true) && d.written))
  }

  /** What a false answer comes from: a refused validation, a send that cannot be made or that throws, a failed write, a
      refused or lost result, a connection that is no longer current at any of these, or the timeout. */
  predicate Breaks(s: State, e: Event, i: nat)
    requires i < |s.dispatches|
  {
    var d := s.dispatches[i];
    || (e.Validated? && e.i == i
        && (!e.valid || !OnCurrentConnection(s, d) || (d.connection.viewer && !e.transmission.canRegister)
          || e.transmission.throws))
    || (e.WriteDone? && e.i == i && (e.failed || !OnCurrentConnection(s, d)))
    || (e == AckHandled(i) && (d.ack != Answered(true) || !OnCurrentConnection(s, d)))
    || e == TimedOut(i)
  }

  /** How an unsettled dispatch stands after the event. */
  ghost predicate SettlesAsSaid(s: State, e: Event, i: nat, d': Dispatch)
    requires i < |s.dispatches|
  {
    && (d'.settled == Some(true) <==> Completes(s, e, i))
    && (d'.settled == Some(false) <==> Breaks(s, e, i))
  }

  lemma ValidatedSettles(s: State, i: nat, valid: bool, t: Transmission)
    requires Enabled(s, Validated(i, valid, t)) && s.dispatches[i].settled.None?
    ensures |Step(s, Validated(i, valid, t)).dispatches| == |s.dispatches|
    ensures SettlesAsSaid(s, Validated(i, valid, t), i, Step(s, Validated(i, valid, t)).dispatches[i])
  {
    var d := s.dispatches[i];
    if !valid {
      FinishOwn(Updated(s, i, d.(phase := Stopped)), i, false);
    } else {
      var s1 := Updated(s, i, d.(validated := true));
      FinishOwn(Updated(s1, i, s1.dispatches[i].(phase := Stopped)), i, false);
      FinishOwn(Registered(s1, i, t), i, false);
    }
  }

  lemma WriteSettles(s: State, i: nat, failed: bool)
    requires Enabled(s, WriteDone(i, failed)) && s.dispatches[i].settled.None?
    ensures |Step(s, WriteDone(i, failed)).dispatches| == |s.dispatches|
    ensures SettlesAsSaid(s, WriteDone(i, failed), i, Step(s, WriteDone(i, failed)).dispatches[i])
  {
    var d := s.dispatches[i];
    FinishOwn(s, i, false);
    FinishOwn(Updated(s, i, d.(written := true)), i, true);
  }

  lemma AckSettles(s: State, i: nat)
    requires Enabled(s, AckHandled(i)) && s.dispatches[i].settled.None?
    ensures |Step(s, AckHandled(i)).dispatches| == |s.dispatches|
    ensures SettlesAsSaid(s, AckHandled(i), i, Step(s, AckHandled(i)).dispatches[i])
  {
    var d := s.dispatches[i];
    FinishOwn(Updated(s, i, d.(ack := Done)), i, false);
    FinishOwn(Updated(s, i, d.(ack := Done, accepted := true)), i, true);
  }

  /** An event about another dispatch leaves this one as it is; one about no dispatch leaves all as they are. */
  lemma OthersUntouched(s: State, e: Event, i: nat)
    requires Inv(s) && Enabled(s, e) && i < |s.dispatches|
    requires match e
             case Call(_, _, _) => true
             case Validated(j, _, _) => j != i
             case WriteDone(j, _) => j != i
             case AckHandled(j) => j != i
             case TimedOut(j) => j != i
             case _ => true
    ensures i < |Step(s, e).dispatches| && Step(s, e).dispatches[i].settled == s.dispatches[i].settled
  {
    match e
    case Call(kiosk, powerMessage, t) =>
      if !Refused(s, kiosk, powerMessage) { StartedKeeps(s, kiosk, t, i); }
    case Validated(j, valid, t) =>
      var d := s.dispatches[j];
      FinishTouchesOne(Updated(s, j, d.(phase := Stopped)), j, false, i);
      TransmitTouchesOne(Updated(s, j, d.(validated := true)), j, t, i);
    case WriteDone(j, failed) =>
      FinishTouchesOne(s, j, false, i);
      FinishTouchesOne(Updated(s, j, s.dispatches[j].(written := true)), j, true, i);
    case AckHandled(j) =>
      FinishTouchesOne(Updated(s, j, s.dispatches[j].(ack := Done)), j, false, i);
      FinishTouchesOne(Updated(s, j, s.dispatches[j].(ack := Done, accepted := true)), j, true, i);
    case TimedOut(j) => FinishTouchesOne(s, j, false, i);
    case _ =>
  }

  lemma StepSettles(s: State, e: Event, i: nat)
    requires Inv(s) && Enabled(s, e) && i < |s.dispatches| && s.dispatches[i].settled.None?
    ensures i < |Step(s, e).dispatches| && SettlesAsSaid(s, e, i, Step(s, e).dispatches[i])
  {
    if e.Validated? && e.i == i {
      ValidatedSettles(s, i, e.valid, e.transmission);
    } else if e.WriteDone? && e.i == i {
      WriteSettles(s, i, e.failed);
    } else if e == AckHandled(i) {
      AckSettles(s, i);
    } else if e == TimedOut(i) {
      FinishOwn(s, i, false);
    } else {
      OthersUntouched(s, e, i);
    }
  }

  /**
    In every run an unsettled dispatch settles true in a step exactly when the step completes it, and false exactly when
    the step breaks it; a desktop's error-free write completes it, a viewer's needs the accepted result too.
  */
  lemma SettlesExactlyWhen(states: seq<State>, events: seq<Event>, n: nat, i: nat)
    requires IsRun(states, events) && n < |events| && i < |states[n].dispatches|
        && states[n].dispatches[i].settled.None?
    ensures i < |states[n+1].dispatches|
    ensures var d' := states[n+1].dispatches[i];
            && (d'.settled == Some(true) <==> Completes(states[n], events[n], i))
            && (d'.settled == Some(false) <==> Breaks(states[n], events[n], i))
  {
    RunInv(states, events, n);
    assert Happens(states, events, n);
    StepSettles(states[n], events[n], i);
  }

  /**
    A call starts a dispatch exactly for a power message to a kiosk that is connected and whose viewer, if it is
    one, is free.
  */
  lemma CallStartsExactly(s: State, kiosk: string, powerMessage: bool, t: Transmission)
    requires Enabled(s, Call(kiosk, powerMessage, t))
    ensures var started := Step(s, Call(kiosk, powerMessage, t));
            && |started.dispatches| == |s.dispatches| + (if powerMessage && kiosk in s.connections
                 && s.connections[kiosk].socket in s.open
                 && (s.connections[kiosk].viewer ==> s.connections[kiosk].socket !in s.busy) then 1 else 0)
  {
    if !Refused(s, kiosk, powerMessage) { BornBare(s, kiosk, t); }
  }

  /** A desktop is sent to at once, a viewer after it validated; one that cannot validate is refused without a send. */
  lemma StartedStands(s: State, kiosk: string, t: Transmission)
    requires !Refused(s, kiosk, true)
    ensures |Started(s, kiosk, t).dispatches| == |s.dispatches| + 1
    ensures
      var c, d := s.connections[kiosk], Started(s, kiosk, t).dispatches[|s.dispatches|];
      && d.kiosk == kiosk && d.connection == c
      && d.sends == (if c.viewer then 0 else 1)
      && d.settled == (if c.viewer then (if c.validatesPower then None else Some(false))
                       else if t.throws then Some(false) else None)
  {
  }

  /**
    After a validation that said yes the message goes out exactly if the connection is current and can be answered
    on.
  */
  lemma ValidatedSends(s: State, i: nat, t: Transmission)
    requires Enabled(s, Validated(i, true, t)) && s.dispatches[i].settled.None? && s.dispatches[i].sends == 0
    ensures |Step(s, Validated(i, true, t)).dispatches| == |s.dispatches|
    ensures var d := s.dispatches[i];
            Step(s, Validated(i, true, t)).dispatches[i].sends ==
              if OnCurrentConnection(s, d) && (d.connection.viewer ==> t.canRegister) then 1 else 0
  {
    var d := s.dispatches[i];
    var s1 := Updated(s, i, d.(validated := true));
    FinishOwn(Updated(s1, i, s1.dispatches[i].(phase := Stopped)), i, false);
    FinishOwn(Registered(s1, i, t), i, false);
  }

  /** A write that ends after the kiosk was disconnected or replaced, or its socket closed, does not confirm. */
  lemma LostConnectionFails(s: State, e: Event, i: nat)
    requires i < |s.dispatches| && Enabled(s, WriteDone(i, false)) && s.dispatches[i].settled.None?
    requires var d := s.dispatches[i];
             || e == Disconnect(d.kiosk) || e == SocketChange(d.connection.socket, false)
             || (e.Connect? && e.kiosk == d.kiosk && e.connection != d.connection)
    ensures Enabled(s, e) && Enabled(Step(s, e), WriteDone(i, false))
    ensures var after := Step(Step(s, e), WriteDone(i, false));
            i < |after.dispatches| && after.dispatches[i].settled == Some(false)
  {
    FinishOwn(Step(s, e), i, false);
  }

  /** Once a kiosk has connected on a socket that is open, a power message to it starts a dispatch. */
  lemma ConnectedIsReached(s: State, kiosk: string, c: Connection, t: Transmission)
    requires c.socket !in s.busy && Enabled(s, Connect(kiosk, c)) && Enabled(s, SocketChange(c.socket, true))
    ensures var ready := Step(Step(s, Connect(kiosk, c)), SocketChange(c.socket, true));
            !Refused(ready, kiosk, true) && ready.connections == s.connections[kiosk := c]
            && ready.dispatches == s.dispatches
  {
  }

  /** A dispatch that starts in a step is not already true. */
  lemma NeverBornTrue(states: seq<State>, events: seq<Event>, n: nat, i: nat)
    requires IsRun(states, events) && n < |events| && |states[n].dispatches| <= i < |states[n+1].dispatches|
    ensures states[n+1].dispatches[i].settled != Some(true)
  {
    assert Happens(states, events, n);
    OnlyCallsStart(states[n], events[n]);
    BornUntrue(states[n], events[n].kiosk, events[n].transmission);
  }

  lemma BornUntrue(s: State, kiosk: string, t: Transmission)
    requires kiosk in s.connections
    ensures |Started(s, kiosk, t).dispatches| == |s.dispatches| + 1
    ensures Started(s, kiosk, t).dispatches[|s.dispatches|].settled != Some(true)
  {
  }

  /** An acknowledgement counts only from the kiosk and socket it was asked of, under its own request id. */
  lemma AckOnlyFromOwnSocket(states: seq<State>, events: seq<Event>, n: nat, i: nat)
    requires IsRun(states, events) && n < |events| && i < |states[n].dispatches| && i < |states[n+1].dispatches|
    requires states[n].dispatches[i].ack != Answered(true) && states[n+1].dispatches[i].ack == Answered(true)
    ensures var d := states[n].dispatches[i];
            events[n] == PowerResult(d.request, d.kiosk, d.connection.socket, true, true)
  {
    RunInv(states, events, n);
    assert Happens(states, events, n);
    StepEvolves(states[n], events[n], i);
  }

  /** A socket is marked busy exactly while it has an unsettled viewer dispatch, and then it has just one. */
  lemma BusyExactlyWhileUnsettled(states: seq<State>, events: seq<Event>, n: nat, socket: Socket)
    requires IsRun(states, events) && n <= |events|
    ensures socket in states[n].busy <==>
              exists i :: 0 <= i < |states[n].dispatches| && HoldsSocket(states[n], i, socket)
    ensures forall i, j | 0 <= i < j < |states[n].dispatches| ::
              !(HoldsSocket(states[n], i, socket) && HoldsSocket(states[n], j, socket))
  {
    RunInv(states, events, n);
  }

  function Twice(s: State, e: Event, f: Event): State
    requires Enabled(s, e) && Enabled(Step(s, e), f)
  {
    Step(Step(s, e), f)
  }

  /** The socket's answer arrives while the dispatch waits for it: it is consumed and remembered. */
  lemma AnswerArrives(s: State, i: nat)
    requires Inv(s) && i < |s.dispatches| && s.dispatches[i].ack == Awaited
    ensures var d := s.dispatches[i];
            Step(s, PowerResult(d.request, d.kiosk, d.connection.socket, true, true))
            == Updated(s, i, d.(ack := Answered(true))).(pending := s.pending - {d.request})
  {
  }

  /** With the answer there, the write callback and the handling of the answer confirm in either order. */
  lemma HandlersConfirm(s: State, i: nat)
    requires i < |s.dispatches| && StillCurrent(s, s.dispatches[i]) && s.dispatches[i].connection.viewer
    requires s.dispatches[i].phase == Transmitted && s.dispatches[i].ack == Answered(true)
    requires !s.dispatches[i].written && !s.dispatches[i].accepted
    ensures Enabled(s, WriteDone(i, false)) && Enabled(Step(s, WriteDone(i, false)), AckHandled(i))
    ensures Enabled(s, AckHandled(i)) && Enabled(Step(s, AckHandled(i)), WriteDone(i, false))
    ensures Twice(s, WriteDone(i, false), AckHandled(i)).dispatches[i].settled == Some(true)
    ensures Twice(s, AckHandled(i), WriteDone(i, false)).dispatches[i].settled == Some(true)
  {
  }

  /**
    A waiting viewer dispatch is confirmed in every order of the three events: the socket's answer before the write
    callback, with its handling before or after it, or the write callback first.
  */
  lemma EitherOrderConfirms(s: State, i: nat)
    requires Inv(s) && i < |s.dispatches| && StillCurrent(s, s.dispatches[i]) && s.dispatches[i].connection.viewer
    requires s.dispatches[i].phase == Transmitted && s.dispatches[i].ack == Awaited && !s.dispatches[i].written
    ensures
      var d := s.dispatches[i];
      var result, written, handled :=
        PowerResult(d.request, d.kiosk, d.connection.socket, true, true), WriteDone(i, false), AckHandled(i);
      && Enabled(s, result) && Enabled(s, written)
      && var answered, wrote := Step(s, result), Step(s, written);
      && Enabled(answered, written) && Enabled(Step(answered, written), handled)
      && Twice(answered, written, handled).dispatches[i].settled == Some(true)
      && Enabled(answered, handled) && Enabled(Step(answered, handled), written)
      && Twice(answered, handled, written).dispatches[i].settled == Some(true)
      && Enabled(wrote, result) && Enabled(Step(wrote, result), handled)
      && Twice(wrote, result, handled).dispatches[i].settled == Some(true)
  {
    assert DispatchInv(s.dispatches[i]);
    AnswerArrives(s, i);
    HandlersConfirm(Step(s, AnswerEvent(s.dispatches[i])), i);
    WriteInv(s, i, false);
    AnswerArrives(Step(s, WriteDone(i, false)), i);
  }

  function AnswerEvent(d: Dispatch): Event {
    PowerResult(d.request, d.kiosk, d.connection.socket, true, true)
  }

  // ---------------------------------------------------------------- the coordinator's callbacks

  class Coordinator {
    var connections: map<string, Connection>
    var open: set<Socket>
    var busy: set<Socket>
    var pending: map<string, nat>
    var dispatches: seq<Dispatch>

    ghost function Now(): State
      reads this
    {
      State(connections, open, busy, pending, dispatches)
    }

    constructor ()
      ensures Now() == State(map[], {}, {}, map[], [])
    {
      connections, open, busy, pending, dispatches := map[], {}, {}, map[], [];
    }

    /** The `finish` closure of one dispatch. */
    method Settle(i: nat, sent: bool)
      requires i < |dispatches|
      modifies this
      ensures Now() == Finish(old(Now()), i, sent)
    {
      var d := dispatches[i];
      if d.settled.Some? { return; }
      if d.connection.viewer { busy := busy - {d.connection.socket}; }
      if d.ack == Awaited {
        pending := pending - {d.request};
        d := d.(ack := Done);
      }
      dispatches := dispatches[i := d.(settled := Some(sent), resolves := d.resolves + 1)];
    }

    method Send(i: nat, t: Transmission)
      requires i < |dispatches|
      modifies this
      ensures Now() == Transmit(old(Now()), i, t)
    {
      var d := dispatches[i];
      var current := StillCurrent(State(connections, open, busy, pending, dispatches), d);
      if !current || (d.connection.viewer && !t.canRegister) {
        dispatches := dispatches[i := d.(phase := Stopped)];
        Settle(i, false);
        return;
      }
      if d.connection.viewer {
        pending := pending[t.request := i];
        d := d.(ack := Awaited);
      }
      dispatches := dispatches[i := d.(phase := Transmitted, sends := d.sends + 1, request := t.request)];
      if t.throws { Settle(i, false); }
    }

    /** `refused` is the immediate false; otherwise the new dispatch's promise is `i`. */
    method DispatchPower(kiosk: string, powerMessage: bool, t: Transmission) returns (refused: bool, i: nat)
      requires t.request !in pending
      modifies this
      ensures Now() == Step(old(Now()), Call(kiosk, powerMessage, t))
      ensures refused == Refused(old(Now()), kiosk, powerMessage) && i == |old(dispatches)|
    {
      i := |dispatches|;
      if kiosk !in connections || connections[kiosk].socket !in open || !powerMessage { return true, i; }
      var c := connections[kiosk];
      if c.viewer && c.socket in busy { return true, i; }
      refused := false;
      if c.viewer { busy := busy + {c.socket}; }
      var d := Dispatch(kiosk, c, "", Validating, !c.viewer, false, false, Unregistered, None, 0, 0);
      dispatches := dispatches + [d];
      if !c.viewer {
        Send(i, t);
      } else if !c.validatesPower {
        dispatches := dispatches[i := d.(phase := Stopped)];
        Settle(i, false);
      }
    }

    method OnValidated(i: nat, valid: bool, t: Transmission)
      requires Enabled(Now(), Validated(i, valid, t))
      modifies this
      ensures Now() == Step(old(Now()), Validated(i, valid, t))
    {
      if !valid {
        dispatches := dispatches[i := dispatches[i].(phase := Stopped)];
        Settle(i, false);
      } else {
        dispatches := dispatches[i := dispatches[i].(validated := true)];
        Send(i, t);
      }
    }

    method OnWritten(i: nat, failed: bool)
      requires Enabled(Now(), WriteDone(i, failed))
      modifies this
      ensures Now() == Step(old(Now()), WriteDone(i, failed))
    {
      var d := dispatches[i];
      var current := StillCurrent(State(connections, open, busy, pending, dispatches), d);
      if failed || !current {
        Settle(i, false);
      } else {
        dispatches := dispatches[i := d.(written := true)];
        if !d.connection.viewer || d.accepted { Settle(i, true); }
      }
    }

    method AcceptPowerResult(request: string, kiosk: string, socket: Socket, wellFormed: bool, accepted: bool)
      returns (consumed: bool)
      modifies this
      ensures Now() == Step(old(Now()), PowerResult(request, kiosk, socket, wellFormed, accepted))
      ensures consumed == AcceptsResult(old(Now()), request, kiosk, socket, wellFormed)
    {
      if request !in pending || pending[request] >= |dispatches| || !wellFormed { return false; }
      var i := pending[request];
      if dispatches[i].kiosk != kiosk || dispatches[i].connection.socket != socket { return false; }
      pending := pending - {request};
      dispatches := dispatches[i := dispatches[i].(ack := Answered(accepted))];
      return true;
    }

    method OnAck(i: nat)
      requires Enabled(Now(), AckHandled(i))
      modifies this
      ensures Now() == Step(old(Now()), AckHandled(i))
    {
      var d := dispatches[i];
      var current := StillCurrent(State(connections, open, busy, pending, dispatches), d);
      dispatches := dispatches[i := d.(ack := Done)];
      if !d.ack.accepted || !current {
        Settle(i, false);
      } else {
        dispatches := dispatches[i := d.(ack := Done, accepted := true)];
        if d.written { Settle(i, true); }
      }
    }

    method OnTimeout(i: nat)
      requires i < |dispatches|
      modifies this
      ensures Now() == Step(old(Now()), TimedOut(i))
    {
      Settle(i, false);
    }
  }
}
