/** Counting connections (Serve, handle and Stop of daemon/daemon.go) as a machine of atomic steps:
    the accept loop, one Stop, and any number of handlers. */
module Connections {
  const MIN_DELAY: nat := 5
  const MAX_DELAY: nat := 1000

  /** Where the accept loop stands. `Accepted` is before the count goes up, `Counted` is before the
      handler is started. */
  datatype ServePhase = Accepting | Accepted(conn: nat) | Counted(conn: nat) | BackingOff | Exited

  datatype StopPhase = NotCalled | Cancelled | Polling | SawZero | GaveUp

  /** `handlers` are the started and unfinished handlers; the flag tells whether the handler has
      closed its connection already, which it does before it counts itself out. `started` are the
      connections that ever got a handler. */
  datatype State = State(numConns: int, serve: ServePhase, listening: bool, cancelled: bool, tempDelay: nat,
                         nextConn: nat, handlers: map<nat, bool>, started: seq<nat>, stop: StopPhase)

  datatype Step =
    | Accept | AcceptFailsForNow | AcceptFails | CountIn | Start | TimerFires | ContextDone
    | CloseConn(conn: nat) | CountOut(conn: nat)
    | Cancel | CloseListener | Poll | GiveUp

  /** A closed listener accepts nothing; its error is not temporary. */
  predicate Enabled(s: State, step: Step) {
    match step
    case Accept => s.serve.Accepting? && s.listening
    case AcceptFailsForNow => s.serve.Accepting? && s.listening
    case AcceptFails => s.serve.Accepting?
    case CountIn => s.serve.Accepted?
    case Start => s.serve.Counted?
    case TimerFires => s.serve.BackingOff?
    case ContextDone => s.serve.BackingOff? && s.cancelled
    case CloseConn(c) => c in s.handlers && !s.handlers[c]
    case CountOut(c) => c in s.handlers && s.handlers[c]
    case Cancel => s.stop.NotCalled?
    case CloseListener => s.stop.Cancelled?
    case Poll => s.stop.Polling?
    case GiveUp => s.stop.Polling?
  }

  function NextDelay(d: nat): nat {
    var e := if d == 0 then MIN_DELAY else 2 * d;
    if e > MAX_DELAY then MAX_DELAY else e
  }

  function Next(s: State, step: Step): State
    requires Enabled(s, step)
  {
    match step
    case Accept => s.(serve := Accepted(s.nextConn), nextConn := s.nextConn + 1)
    case AcceptFailsForNow => s.(serve := BackingOff, tempDelay := NextDelay(s.tempDelay))
    case AcceptFails => s.(serve := Exited, listening := false)
    case CountIn => s.(serve := Counted(s.serve.conn), numConns := s.numConns + 1, tempDelay := 0)
    case Start =>
      s.(serve := Accepting, handlers := s.handlers[s.serve.conn := false], started := s.started + [s.serve.conn])
    case TimerFires => s.(serve := Accepting)
    case ContextDone => s.(serve := Exited, listening := false)
    case CloseConn(c) => s.(handlers := s.handlers[c := true])
    case CountOut(c) => s.(handlers := s.handlers - {c}, numConns := s.numConns - 1)
    case Cancel => s.(stop := Cancelled, cancelled := true)
    case CloseListener => s.(stop := Polling, listening := false)
    case Poll => if s.numConns > 0 then s else s.(stop := SawZero)
    case GiveUp => s.(stop := GaveUp)
  }

  const START: State := State(0, Accepting, true, false, 0, 0, map[], [], NotCalled)

  ghost predicate Run(s: State, steps: seq<Step>, s': State) {
    if steps == [] then s' == s
    else
      var n := |steps| - 1;
      exists mid :: Run(s, steps[..n], mid) && Enabled(mid, steps[n]) && s' == Next(mid, steps[n])
  }

  /** The connections counted in and not counted out. */
  function Unfinished(s: State): set<nat> {
    s.handlers.Keys + if s.serve.Counted? then {s.serve.conn} else {}
  }

  /** Connections in hand are new, and each got at most one handler. */
  ghost predicate Tokens(s: State) {
    && (forall c :: c in s.handlers ==> c in s.started)
    && (forall c :: c in s.started ==> c < s.nextConn)
    && (s.serve.Accepted? || s.serve.Counted? ==> s.serve.conn < s.nextConn && s.serve.conn !in s.started)
    && (forall i, j :: 0 <= i < j < |s.started| ==> s.started[i] != s.started[j])
  }

  ghost predicate Delays(s: State) {
    && (s.stop.Polling? || s.stop.SawZero? || s.stop.GaveUp? ==> !s.listening)
    && (s.tempDelay == 0 || MIN_DELAY <= s.tempDelay <= MAX_DELAY)
    && (s.serve.BackingOff? ==> s.tempDelay > 0)
  }

  ghost predicate Inv(s: State) {
    s.numConns == |Unfinished(s)| && Tokens(s) && Delays(s)
  }

  lemma StepKeepsTokens(s: State, step: Step)
    requires Tokens(s) && Enabled(s, step)
    ensures Tokens(Next(s, step))
  {
  }

  /** What a step does to the set of unfinished connections. */
  lemma UnfinishedAfter(s: State, step: Step)
    requires Tokens(s) && Enabled(s, step)
    ensures var u, u' := Unfinished(s), Unfinished(Next(s, step));
      if step.CountIn? then s.serve.conn !in u && u' == u + {s.serve.conn}
      else if step.CountOut? then step.conn in u && u' == u - {step.conn}
      else u' == u
  {
  }

  lemma StepKeepsCount(s: State, step: Step)
    requires s.numConns == |Unfinished(s)| && Tokens(s) && Enabled(s, step)
    ensures Next(s, step).numConns == |Unfinished(Next(s, step))|
  {
    UnfinishedAfter(s, step);
    CountAfter(s, step);
    hide Tokens, Unfinished, Next, Enabled;
    if step.CountIn? {
      assert |Unfinished(s) + {s.serve.conn}| == |Unfinished(s)| + 1;
    } else if step.CountOut? {
      assert |Unfinished(s) - {step.conn}| == |Unfinished(s)| - 1;
    }
  }

  lemma CountAfter(s: State, step: Step)
    requires Enabled(s, step)
    ensures Next(s, step).numConns == s.numConns + (if step.CountIn? then 1 else if step.CountOut? then -1 else 0)
  {
  }

  lemma StepKeepsInv(s: State, step: Step)
    requires Inv(s) && Enabled(s, step)
    ensures Inv(Next(s, step))
  {
    StepKeepsTokens(s, step);
    StepKeepsCount(s, step);
    hide Tokens, Unfinished;
  }

  lemma {:induction false} RunKeepsInv(s: State, steps: seq<Step>, s': State)
    requires Inv(s) && Run(s, steps, s')
    ensures Inv(s')
  {
    hide Inv, Enabled, Next;
    if steps != [] {
      var n := |steps| - 1;
      var mid :| Run(s, steps[..n], mid) && Enabled(mid, steps[n]) && s' == Next(mid, steps[n]);
      RunKeepsInv(s, steps[..n], mid);
      StepKeepsInv(mid, steps[n]);
    }
  }

  lemma ReachedInv(steps: seq<Step>, s: State)
    requires Run(START, steps, s)
    ensures Inv(s)
  {
    hide Run;
    RunKeepsInv(START, steps, s);
  }

  /** In every interleaving the counter is the number of connections counted in and not out, so it is
      never negative; and no connection gets two handlers. */
  lemma CounterIsExact(steps: seq<Step>, s: State)
    requires Run(START, steps, s)
    ensures s.numConns == |Unfinished(s)| && s.numConns >= 0
    ensures forall i, j :: 0 <= i < j < |s.started| ==> s.started[i] != s.started[j]
    ensures s.serve.BackingOff? ==> MIN_DELAY <= s.tempDelay <= MAX_DELAY
  {
    hide Run;
    RunKeepsInv(START, steps, s);
  }

  /** When Stop sees zero, no handler is left and none has been counted in. */
  lemma ZeroMeansIdle(steps: seq<Step>, s: State)
    requires Run(START, steps, s) && Enabled(s, Poll)
    ensures Next(s, Poll).stop.SawZero? <==> s.handlers == map[] && !s.serve.Counted?
  {
    hide Run;
    RunKeepsInv(START, steps, s);
    if s.handlers == map[] && !s.serve.Counted? {
      assert Unfinished(s) == {};
    } else if s.serve.Counted? {
      assert s.serve.conn in Unfinished(s);
    } else {
      assert s.handlers.Keys != {} by { assert s.handlers != map[]; NonEmptyKeys(s.handlers); }
    }
  }

  lemma NonEmptyKeys(m: map<nat, bool>)
    requires m != map[]
    ensures m.Keys != {}
  {
  }

  // ---------- backing off ----------

  /** How often accepting has failed for now since the last connection was counted in. */
  function Failures(steps: seq<Step>): nat {
    if steps == [] then 0
    else
      match steps[|steps| - 1]
      case CountIn => 0
      case AcceptFailsForNow => Failures(steps[..|steps| - 1]) + 1
      case _ => Failures(steps[..|steps| - 1])
  }

  function TwoTo(n: nat): (p: nat)
    ensures p > 0
  {
    if n == 0 then 1 else 2 * TwoTo(n - 1)
  }

  lemma DelayAfter(s: State, step: Step)
    requires Enabled(s, step)
    ensures var d, d' := s.tempDelay, Next(s, step).tempDelay;
      d' == match step
            case CountIn => 0
            case AcceptFailsForNow => if d == 0 then 5 else if 2 * d > 1000 then 1000 else 2 * d
            case _ => d
  {
  }

  /** In every run the wait doubles from 5 ms with each failure in a row, up to a second. */
  lemma {:induction false} DelaysDouble(steps: seq<Step>, s: State)
    requires Run(START, steps, s)
    ensures var n := Failures(steps);
      s.tempDelay == if n == 0 then 0 else if 5 * TwoTo(n - 1) > 1000 then 1000 else 5 * TwoTo(n - 1)
  {
    hide Enabled, Next;
    if steps != [] {
      var n := |steps| - 1;
      var mid :| Run(START, steps[..n], mid) && Enabled(mid, steps[n]) && s == Next(mid, steps[n]);
      DelaysDouble(steps[..n], mid);
      DelayAfter(mid, steps[n]);
      var before := Failures(steps[..n]);
      assert before > 0 ==> TwoTo(before) == 2 * TwoTo(before - 1);
    }
  }

  // ---------- after Stop has seen zero ----------

  /** How many connections are past Accept and without a handler yet. */
  function InHand(s: State): nat {
    if s.serve.Accepted? || s.serve.Counted? then 1 else 0
  }

  /** Once the listener is closed, every connection in hand or started was in hand or started before. */
  lemma {:induction false} NothingNewAfterClose(s: State, steps: seq<Step>, s': State)
    requires !s.listening && Run(s, steps, s')
    ensures !s'.listening && s.started <= s'.started
    ensures |s'.started| + InHand(s') <= |s.started| + InHand(s)
  {
    if steps != [] {
      var n := |steps| - 1;
      var mid :| Run(s, steps[..n], mid) && Enabled(mid, steps[n]) && s' == Next(mid, steps[n]);
      NothingNewAfterClose(s, steps[..n], mid);
    }
  }

  /** After Stop has seen zero, at most one more handler ever starts; and one can start exactly when
      a connection had been accepted, though not yet counted, when Stop looked. */
  lemma LateHandlers(steps: seq<Step>, s: State)
    requires Run(START, steps, s) && s.stop.Polling? && Next(s, Poll).stop.SawZero?
    ensures forall more, s' :: Run(Next(s, Poll), more, s') ==> |s'.started| <= |s.started| + 1
    ensures (exists more, s' :: Run(Next(s, Poll), more, s') && |s'.started| > |s.started|) <==> s.serve.Accepted?
  {
    hide Run, Next, Inv;
    ZeroMeansIdle(steps, s);
    assert Inv(s) by { ReachedInv(steps, s); }
    ClosedAtPoll(s);
    var t := Next(s, Poll);
    forall more, s' | Run(t, more, s') ensures |s'.started| <= |s.started| + InHand(s) {
      NothingNewAfterClose(t, more, s');
    }
    if s.serve.Accepted? {
      var t' := LateStart(t);
      assert Run(t, [CountIn, Start], t');
    }
  }

  lemma ClosedAtPoll(s: State)
    requires Inv(s) && s.stop.Polling? && Next(s, Poll).stop.SawZero?
    ensures var t := Next(s, Poll); !t.listening && t.serve == s.serve && t.started == s.started
  {
  }

  lemma LateStart(t: State) returns (t': State)
    requires t.serve.Accepted?
    ensures Run(t, [CountIn, Start], t') && |t'.started| == |t.started| + 1
  {
    var mid := Next(t, CountIn);
    t' := Next(mid, Start);
    assert [CountIn, Start][..1] == [CountIn] && [CountIn][..0] == [];
    assert Run(t, [], t);
    assert Run(t, [CountIn], mid);
  }

  /** Such a run exists: Stop can return without an error while a handler is still to come. */
  lemma StopCanMissAConnection() returns (steps: seq<Step>, s: State)
    ensures Run(START, steps, s) && s.stop.SawZero? && s.serve.Accepted?
  {
    hide Run;
    var s0 := START;
    assert Run(START, [], s0) by { EmptyRun(START); }
    steps, s := Go([], s0, Accept);
    steps, s := Go(steps, s, Cancel);
    steps, s := Go(steps, s, CloseListener);
    steps, s := Go(steps, s, Poll);
  }

  lemma EmptyRun(s: State)
    ensures Run(s, [], s)
  {
  }

  lemma Go(steps: seq<Step>, s: State, step: Step) returns (steps': seq<Step>, s': State)
    requires Run(START, steps, s) && Enabled(s, step)
    ensures Run(START, steps', s') && s' == Next(s, step)
  {
    hide Next, Enabled;
    steps', s' := steps + [step], Next(s, step);
    assert steps'[..|steps|] == steps;
  }
}
