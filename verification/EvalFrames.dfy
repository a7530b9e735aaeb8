/** An eval request from the client's buffers to the daemon's (cmd/reee/eval.go and the first half
    of handleEval in daemon/daemon.go), and the client's reading of the reply. */
module EvalFrames {
  import opened ByteText
  import opened Levels
  import opened Streams
  import opened Commands
  import opened Results

  // ---------- the client ----------

  predicate NameByte(c: Byte) {
    97 <= c <= 122 || 65 <= c <= 90 || 48 <= c <= 57 || c == 95 || c == 45
  }

  /** Empty names pass. */
  method ValidateName(name: Bytes) returns (bad: Option<Byte>)
    ensures bad.None? <==> forall c :: c in name ==> NameByte(c)
    ensures bad.None? ==> SP !in name && NL !in name
    ensures bad.Some? ==> exists i ::
      0 <= i < |name| && name[i] == bad.value && !NameByte(name[i]) && forall j :: 0 <= j < i ==> NameByte(name[j])
  {
    for i := 0 to |name|
      invariant forall j :: 0 <= j < i ==> NameByte(name[j])
    {
      if !NameByte(name[i]) {
        return Some(name[i]);
      }
    }
    assert !NameByte(SP) && !NameByte(NL);
    return None;
  }

  /** `<len> <group>[ <rule>]` */
  function EvalArgsText(n: nat, group: Bytes, rule: Bytes): Bytes {
    Join(Itoa(n), SP, if rule != [] then Join(group, SP, rule) else group)
  }

  function EvalCommand(id: Bytes, level: int, group: Bytes, rule: Bytes, body: Bytes): Command {
    Command(EVAL, id, level, EvalArgsText(|body|, group, rule))
  }

  function EncodeFrame(id: Bytes, level: int, group: Bytes, rule: Bytes, body: Bytes): Bytes
    requires ValidLevel(level)
  {
    EncodeCommand(EvalCommand(id, level, group, rule, body)) + body
  }

  /** If the connection breaks, the daemon gets a first part of the frame. */
  method SendEval(w: Writer, id: Bytes, level: int, group: Bytes, rule: Bytes, body: Bytes) returns (ok: bool)
    modifies w
    ensures ok ==> ValidLevel(level) && !w.broken
                   && w.sent == w.Out() == old(w.Out()) + EncodeFrame(id, level, group, rule, body)
    ensures !ok && ValidLevel(level) ==> w.broken && w.sent <= old(w.Out()) + EncodeFrame(id, level, group, rule, body)
    ensures w.reliable && !old(w.broken) ==> (ok <==> ValidLevel(level))
  {
    hide Itoa, EncodeCommand;
    var sb := Itoa(|body|);
    sb := sb + [SP];
    sb := sb + group;
    if |rule| > 0 {
      sb := sb + [SP];
      sb := sb + rule;
    }
    assert sb == EvalArgsText(|body|, group, rule);
    ghost var o, cmd := w.Out(), EvalCommand(id, level, group, rule, body);
    var r := WriteCommand(w, Command(EVAL, id, level, sb));
    if r != Written {
      assert ValidLevel(level) ==> o + EncodeCommand(cmd) <= o + (EncodeCommand(cmd) + body);
      return false;
    }
    assert o + EncodeCommand(cmd) + body == o + (EncodeCommand(cmd) + body);
    ok := w.Write(body);
    if ok {
      ok := w.Flush();
    }
  }

  datatype ClientOutcome =
    | Matched(rule: Bytes)
    | NoMatch                    // exit code 65
    | UnexpectedData
    | ServerError(text: Bytes)

  /** "match:" */
  const MATCH: Bytes := [109, 97, 116, 99, 104, 58]

  function Interpret(r: Result): ClientOutcome {
    match r
    case Error(text) => ServerError(text)
    case Success(data) =>
      if data == [] then NoMatch
      else if |data| >= 6 && data[..6] == MATCH then Matched(data[6..])
      else UnexpectedData
  }

  /** Each report stands for one kind of reply. */
  lemma InterpretExactly(r: Result)
    ensures forall rule :: Interpret(r) == Matched(rule) <==> r == Success(MATCH + rule)
    ensures Interpret(r) == NoMatch <==> r == Success([])
    ensures Interpret(r) == UnexpectedData <==> r.Success? && r.data != [] && !(MATCH <= r.data)
    ensures forall text :: Interpret(r) == ServerError(text) <==> r == Error(text)
  {
    assert forall rule :: (MATCH + rule)[..6] == MATCH && (MATCH + rule)[6..] == rule;
    assert |r.data| >= 6 && r.data[..6] == MATCH ==> r.data == MATCH + r.data[6..];
  }

  // ---------- the daemon ----------

  datatype EvalError =
    | EmptyArgs
    | BadLength(text: Bytes)
    | NoGroup
    | GroupNotFound(group: Bytes)
    | InputFault
    | InsufficientInput(received: nat, expected: nat)

  datatype EvalArgs = EvalArgs(n: nat, group: Bytes, rule: Bytes)

  /** A value, a refusal that becomes the reply, or a Go run-time panic. */
  datatype Parsed<+T> = Good(value: T) | Refused(error: EvalError) | Panicked

  function ParseEvalArgs(args: Bytes): (r: Parsed<EvalArgs>)
    ensures !r.Panicked?
    ensures r.Good? ==> SP !in r.value.group
    ensures r.Good? && NL !in args ==> NL !in r.value.group && NL !in r.value.rule
  {
    if args == [] then Refused(EmptyArgs)
    else
      var c := Cut(args, SP);
      var n := Atoi(c.before);
      if n.None? || n.value < 0 then Refused(BadLength(c.before))
      else if !c.found then Refused(NoGroup)
      else
        assert NL in c.after ==> NL in args;
        var d := Cut(c.after, SP);
        assert NL in d.before || NL in d.after ==> NL in c.after;
        Good(EvalArgs(n.value, d.before, d.after))
  }

  datatype Request = Request(group: Bytes, rule: Bytes, body: Bytes)

  datatype Received = Received(request: Parsed<Request>, rest: Bytes)

  /** What a stream of bytes after the command line gives, when no read fails. */
  function Receive(args: Bytes, known: set<Bytes>, input: Bytes): Received {
    match ParseEvalArgs(args)
    case Refused(e) => Received(Refused(e), input)
    case Good(a) =>
      if a.n > MAX_ALLOC then Received(Panicked, input) else
      var m := if a.n <= |input| then a.n else |input|;
      var rest := input[m..];
      if a.group !in known then Received(Refused(GroupNotFound(a.group)), rest)
      else if m < a.n then Received(Refused(InsufficientInput(m, a.n)), rest)
      else Received(Good(Request(a.group, a.rule, input[..m])), rest)
  }

  /** The variables of the read loop, and what one read can do to them. */
  datatype ReadState = ReadState(m: nat, isEOF: bool, failed: bool)

  datatype Got = Got(o: nat, status: ReadStatus)

  const START := ReadState(0, false, false)

  function Turn(s: ReadState, got: Got): ReadState {
    ReadState(s.m + got.o, s.isEOF || got.status.EndOfStream?, s.failed || got.status.Fault?)
  }

  /** Where the loop stands when its reads give `gots`; none is made after it has ended. */
  function Turns(n: nat, gots: seq<Got>): ReadState {
    if gots == [] then START
    else
      var before := Turns(n, gots[..|gots| - 1]);
      if Ended(n, before) then before else Turn(before, gots[|gots| - 1])
  }

  predicate Ended(n: nat, s: ReadState) { s.isEOF || s.m >= n }

  function BytesOf(gots: seq<Got>): nat {
    if gots == [] then 0 else BytesOf(gots[..|gots| - 1]) + gots[|gots| - 1].o
  }

  /** The loop ends exactly when a read meets the end of the stream or enough bytes have come. So it
      never ends on a connection whose reads fail for ever. */
  lemma {:induction false} LoopEndsExactly(n: nat, gots: seq<Got>)
    ensures Ended(n, Turns(n, gots)) <==>
      BytesOf(gots) >= n || exists i :: 0 <= i < |gots| && gots[i].status.EndOfStream?
    ensures !Ended(n, Turns(n, gots)) ==>
      Turns(n, gots) == ReadState(BytesOf(gots), false, exists i :: 0 <= i < |gots| && gots[i].status.Fault?)
  {
    if gots != [] {
      var k := |gots| - 1;
      LoopEndsExactly(n, gots[..k]);
      assert forall i :: 0 <= i < k ==> gots[..k][i] == gots[i];
    }
  }

  lemma OneMoreTurn(n: nat, gots: seq<Got>, got: Got)
    requires !Ended(n, Turns(n, gots))
    ensures Turns(n, gots + [got]) == Turn(Turns(n, gots), got)
  {
    assert (gots + [got])[..|gots|] == gots;
  }

  /** The read loop: it runs to the end of the buffer or of the stream, through short reads,
      stalls and transient failures, and remembers whether a read failed. */
  method ReadBody(r: Reader, n: nat) returns (buf: array<Byte>, m: nat, failed: bool)
    modifies r
    ensures buf.Length == n && m == if n <= |old(r.unread)| then n else |old(r.unread)|
    ensures buf[..m] == old(r.unread)[..m] && r.unread == old(r.unread)[m..]
    ensures r.faults <= old(r.faults) && (failed <==> r.faults != old(r.faults))
    ensures fresh(buf)
  {
    hide Turns;
    buf := new Byte[n];
    m, failed := 0, false;
    var isEOF := false;
    ghost var gots: seq<Got> := [];
    assert Turns(n, gots) == START by { NoTurns(n); }
    while !isEOF && m < n
      invariant m <= n && m <= |old(r.unread)|
      invariant buf[..m] == old(r.unread)[..m] && r.unread == old(r.unread)[m..]
      invariant isEOF ==> r.unread == []
      invariant r.faults <= old(r.faults) && (failed <==> r.faults != old(r.faults))
      invariant ReadState(m, isEOF, failed) == Turns(n, gots)
      decreases n - m, r.stalls + r.faults, !isEOF
    {
      var o, status := r.Read(buf, m);
      assert buf[..m + o] == buf[..m] + buf[m..m + o];
      assert old(r.unread)[..m + o] == old(r.unread)[..m] + old(r.unread)[m..][..o];
      OneMoreTurn(n, gots, Got(o, status));
      gots := gots + [Got(o, status)];
      m := m + o;
      if status.EndOfStream? {
        isEOF := true;
      } else if status.Fault? {
        failed := true;
      }
    }
  }

  lemma NoTurns(n: nat)
    ensures Turns(n, []) == START
  {
  }

  /** handleEval up to the point where the message is looked up. */
  method ReceiveEval(r: Reader, args: Bytes, known: set<Bytes>) returns (out: Parsed<Request>)
    modifies r
    ensures r.faults == old(r.faults) ==>
              Received(out, r.unread) == Receive(args, known, old(r.unread))
    ensures out.Panicked? ==> r.unread == old(r.unread)
    ensures r.faults != old(r.faults) ==>
      && ParseEvalArgs(args).Good?
      && var g := ParseEvalArgs(args).value.group;
         out == Refused(if g in known then InputFault else GroupNotFound(g))
    ensures r.faults <= old(r.faults)
  {
    if args == [] {
      return Refused(EmptyArgs);
    }
    var cut := Cut(args, SP);
    var length, rem, found := cut.before, cut.after, cut.found;
    var n := Atoi(length);
    if n.None? || n.value < 0 {
      return Refused(BadLength(length));
    }
    if !found {
      return Refused(NoGroup);
    }
    cut := Cut(rem, SP);
    var g, rule := cut.before, cut.after;
    if !cut.found {
      g := rem;
    }
    var deferred: Option<EvalError> := None;
    if g !in known {
      deferred := Some(GroupNotFound(g));
    }
    if n.value > MAX_ALLOC {
      return Panicked;
    }
    var buf, m, failed := ReadBody(r, n.value);
    if failed && deferred.None? {
      deferred := Some(InputFault);
    }
    if deferred.Some? {
      return Refused(deferred.value);
    } else if m < n.value {
      return Refused(InsufficientInput(m, n.value));
    }
    assert buf[..] == buf[..m];
    return Good(Request(g, rule, buf[..]));
  }

  // ---------- end to end ----------

  lemma ParseArgsText(n: nat, group: Bytes, rule: Bytes)
    requires n <= MAX_INT && SP !in group
    ensures ParseEvalArgs(EvalArgsText(n, group, rule)) == Good(EvalArgs(n, group, rule))
  {
    hide Itoa, Atoi, Join, IndexByte, Cut;
    AtoiOfItoa(n);
    CutAt(Itoa(n), SP, if rule != [] then Join(group, SP, rule) else group);
    if rule != [] {
      CutAt(group, SP, rule);
    }
  }

  /** What a stream that begins with an eval command comes to. */
  function ReceiveStream(input: Bytes, known: set<Bytes>): Received
    requires DecodeCommand(input).outcome.Done?
  {
    var d := DecodeCommand(input);
    Receive(d.outcome.value.args, known, d.rest)
  }

  /** Whatever the names hold, the command line of a frame decodes; its arguments are those the
      client wrote, up to the first newline. */
  lemma FrameCommand(id: Bytes, level: int, group: Bytes, rule: Bytes, body: Bytes, rest: Bytes)
    requires Token(id) && ValidLevel(level)
    ensures var args := EvalArgsText(|body|, group, rule);
      DecodeCommand(EncodeFrame(id, level, group, rule, body) + rest)
      == Decoded(Done(Command(EVAL, id, level, UpToNewline(args))),
                 (args + [NL] + (body + rest))[|UpToNewline(args)| + 1..])
  {
    hide DecodeCommand, FourFields, TextOf, UpToNewline, Itoa, Join;
    var args := EvalArgsText(|body|, group, rule);
    var line := UpToNewline(args);
    KindTexts(EVAL);
    var e := FourFields(KINDS[EVAL], id, level, args);
    assert e + body + rest == e + (body + rest);
    FourFieldsSplit(KINDS[EVAL], id, level, args, body + rest);
    DecodeFourFields(KINDS[EVAL], id, level, line, (args + [NL] + (body + rest))[|line| + 1..]);
  }

  /** The daemon recovers the group, the rule and the body the client framed, and leaves the bytes
      after them unread, exactly when the group is known, no name holds a newline and the group
      holds no space. */
  lemma FrameRoundTrip(id: Bytes, level: int, group: Bytes, rule: Bytes, body: Bytes, known: set<Bytes>, rest: Bytes)
    requires Token(id) && ValidLevel(level) && Slice(body)
    ensures DecodeCommand(EncodeFrame(id, level, group, rule, body) + rest).outcome.Done?
    ensures ReceiveStream(EncodeFrame(id, level, group, rule, body) + rest, known)
         == Received(Good(Request(group, rule, body)), rest)
       <==> group in known && SP !in group && NL !in group && NL !in rule
  {
    hide DecodeCommand, EncodeFrame, UpToNewline, EvalArgsText, ParseEvalArgs;
    var args := EvalArgsText(|body|, group, rule);
    FrameCommand(id, level, group, rule, body, rest);
    if SP !in group && NL !in group && NL !in rule {
      ParseArgsText(|body|, group, rule);
      assert NL !in args by { PlainArgsText(|body|, group, rule); }
      assert (args + [NL] + (body + rest))[|args| + 1..] == body + rest;
      assert (body + rest)[..|body|] == body && (body + rest)[|body|..] == rest;
    }
  }

  lemma PlainArgsText(n: nat, group: Bytes, rule: Bytes)
    requires n <= MAX_INT && NL !in group && NL !in rule
    ensures NL !in EvalArgsText(n, group, rule)
  {
  }

  /** A frame cut short at any byte never reaches rule evaluation: the command line is incomplete,
      or the body is and the daemon says how much of it arrived. */
  lemma TruncatedFrame(id: Bytes, level: int, group: Bytes, rule: Bytes, body: Bytes, known: set<Bytes>, cut: nat)
    requires Token(id) && ValidLevel(level) && Slice(body)
    requires SP !in group && NL !in group && NL !in rule && group in known
    requires cut < |EncodeFrame(id, level, group, rule, body)|
    ensures var line := |EncodeFrame(id, level, group, rule, body)| - |body|;
      var input := EncodeFrame(id, level, group, rule, body)[..cut];
      if cut < line then DecodeCommand(input).outcome == Failed(PrematureEOF)
      else DecodeCommand(input).outcome.Done?
           && ReceiveStream(input, known) == Received(Refused(InsufficientInput(cut - line, |body|)), [])
  {
    hide DecodeCommand, EncodeCommand, EvalArgsText, ParseEvalArgs;
    var cmd := EvalCommand(id, level, group, rule, body);
    var e := EncodeCommand(cmd);
    PlainArgsText(|body|, group, rule);
    if cut < |e| {
      assert (e + body)[..cut] == e[..cut];
      TruncatedCommand(cmd, cut);
    } else {
      assert (e + body)[..cut] == e + body[..cut - |e|];
      assert cmd.args != [] by { ArgsNotEmpty(|body|, group, rule); }
      CommandRoundTrip(cmd, body[..cut - |e|]);
      ParseArgsText(|body|, group, rule);
    }
  }

  lemma ArgsNotEmpty(n: nat, group: Bytes, rule: Bytes)
    ensures EvalArgsText(n, group, rule) != []
  {
  }
}
