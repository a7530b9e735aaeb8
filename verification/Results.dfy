/** The reply stream of a command (protocol/result.go): log lines, then one success or error. */
module Results {
  import opened ByteText
  import opened Levels
  import opened Streams

  /** "success", "error" and "log". */
  const SUCCESS: Bytes := [115, 117, 99, 99, 101, 115, 115]
  const ERROR: Bytes := [101, 114, 114, 111, 114]
  const LOG: Bytes := [108, 111, 103]

  datatype Result = Success(data: Bytes) | Error(data: Bytes)

  datatype LogLine = LogLine(level: int, msg: Bytes)

  /** What reading one reply gives: the lines handed to the logger, the outcome, and the bytes
      left unread. */
  datatype Reading = Reading(logs: seq<LogLine>, outcome: Outcome<Result>, rest: Bytes)

  // ---------- writing ----------

  function EncodeLog(l: LogLine): Bytes
    requires ValidLevel(l.level)
  {
    Join(LOG, SP, Join(TextOf(l.level), SP, l.msg + [NL]))
  }

  function EncodeResult(r: Result): Bytes {
    match r
    case Success(data) => Join(SUCCESS, SP, Itoa(|data|) + [NL]) + data
    case Error(msg) => Join(ERROR, SP, msg + [NL])
  }

  lemma PiecesOfLine(a: Bytes, b: Bytes, c: Bytes)
    ensures a + [SP] + b + [NL] + c == Join(a, SP, b + [NL]) + c
    ensures a + [SP] + b + [NL] == Join(a, SP, b + [NL])
    ensures a + [SP] + b + [SP] + c + [NL] == Join(a, SP, Join(b, SP, c + [NL]))
  {
  }

  /** The texts on the wire, field by field. */
  lemma ReplyTexts(l: LogLine, data: Bytes)
    requires ValidLevel(l.level)
    ensures EncodeLog(l) == LOG + [SP] + TextOf(l.level) + [SP] + l.msg + [NL]
    ensures EncodeResult(Success(data)) == SUCCESS + [SP] + Itoa(|data|) + [NL] + data
    ensures EncodeResult(Error(data)) == ERROR + [SP] + data + [NL]
  {
    hide TextOf, Itoa, Join;
    PiecesOfLine(LOG, TextOf(l.level), l.msg);
    PiecesOfLine(SUCCESS, Itoa(|data|), data);
    PiecesOfLine(ERROR, data, []);
  }

  /** A result is sent whole, or the writer broke and a first part of it is. */
  ghost predicate Sent(w: Writer, o: Bytes, r: Result)
    reads w
  {
    if w.broken then w.sent <= o + EncodeResult(r) else w.sent == w.Out() == o + EncodeResult(r)
  }

  /** An error of the final flush is not reported: then the writer is broken though `ok` is true. */
  method WriteSuccess(w: Writer, data: Bytes) returns (ok: bool)
    modifies w
    ensures Sent(w, old(w.Out()), Success(data)) && w.StaysBroken()
    ensures !ok ==> w.broken
    ensures w.reliable && !old(w.broken) ==> ok && !w.broken
  {
    hide Join;
    ghost var o := w.Out();
    var n := Itoa(|data|);
    ok := w.Write(SUCCESS);
    ok := w.WriteNext(ok, [SP], o, SUCCESS);
    ok := w.WriteNext(ok, n, o, SUCCESS + [SP]);
    ok := w.WriteNext(ok, [NL], o, SUCCESS + [SP] + n);
    ok := w.WriteNext(ok, data, o, SUCCESS + [SP] + n + [NL]);
    PiecesOfLine(SUCCESS, n, data);
    if ok {
      var flushed := w.Flush();
    }
  }

  method WriteError(w: Writer, msg: Bytes) returns (ok: bool)
    modifies w
    ensures Sent(w, old(w.Out()), Error(msg)) && w.StaysBroken()
    ensures !ok ==> w.broken
    ensures w.reliable && !old(w.broken) ==> ok && !w.broken
  {
    hide Join;
    ghost var o := w.Out();
    ok := w.Write(ERROR);
    ok := w.WriteNext(ok, [SP], o, ERROR);
    ok := w.WriteNext(ok, msg, o, ERROR + [SP]);
    ok := w.WriteNext(ok, [NL], o, ERROR + [SP] + msg);
    PiecesOfLine(ERROR, msg, []);
    if ok {
      var flushed := w.Flush();
    }
  }

  /** An invalid level is reported only after "log " has been written. */
  method WriteLog(w: Writer, level: int, msg: Bytes) returns (ok: bool)
    modifies w
    ensures ValidLevel(level) ==> w.Wrote(old(w.Out()), EncodeLog(LogLine(level, msg)), ok)
    ensures !ValidLevel(level) ==> !ok && w.Wrote(old(w.Out()), LOG + [SP], !w.broken)
    ensures w.StaysBroken()
    ensures w.reliable && !old(w.broken) ==> !w.broken && (ok <==> ValidLevel(level))
  {
    hide Join, TextOf;
    ghost var o := w.Out();
    ok := w.Write(LOG);
    ok := w.WriteNext(ok, [SP], o, LOG);
    var text := MarshalText(level);
    if text.None? {
      return false;
    }
    ok := w.WriteNext(ok, text.value, o, LOG + [SP]);
    ok := w.WriteNext(ok, [SP], o, LOG + [SP] + text.value);
    ok := w.WriteNext(ok, msg, o, LOG + [SP] + text.value + [SP]);
    ok := w.WriteNext(ok, [NL], o, LOG + [SP] + text.value + [SP] + msg);
    PiecesOfLine(LOG, text.value, msg);
  }

  // ---------- reading ----------

  datatype ParsedLine =
    | SuccessLine(length: Bytes)
    | ErrorLine(msg: Bytes)
    | Logged(l: LogLine)
    | Bad(outcome: Outcome<Result>)

  /** What `ReadResult` makes of one line, newline included. */
  function ParseLine(line: Bytes): ParsedLine {
    var s := IndexByte(line, SP);
    var p := if s < 1 then |line| - 1 else s;
    if p < 1 then Bad(Failed(UnfinishedType))
    else
      var t, rem := line[..p], line[p + 1..];
      if t == LOG then ParseLog(rem)
      else if t == SUCCESS then
        if rem == [] then Bad(Panic) else SuccessLine(rem[..|rem| - 1])
      else if t == ERROR then
        if rem == [] then Bad(Panic) else ErrorLine(rem[..|rem| - 1])
      else Bad(Failed(InvalidType))
  }

  function ParseLog(rem: Bytes): ParsedLine {
    var s := IndexByte(rem, SP);
    var p := if s < 1 then |rem| - 1 else s;
    if p < 1 then Bad(Failed(UnfinishedLevel))
    else
      match LevelOf(rem[..p])
      case None => Bad(Failed(InvalidLevel))
      case Some(level) =>
        if p + 1 > |rem| - 1 then Bad(Panic)
        else Logged(LogLine(level, rem[p + 1..|rem| - 1]))
  }

  /** The data part of a success: as many bytes as the header announces. */
  function TakeData(length: Bytes, input: Bytes): Decoded<Result> {
    match Atoi(length)
    case None => Decoded(Failed(InvalidLength), input)
    case Some(n) =>
      if n < 0 || n > MAX_ALLOC then Decoded(Panic, input)
      else if n <= |input| then Decoded(Done(Success(input[..n])), input[n..])
      else Decoded(Failed(TruncatedData), [])
  }

  function Logging(l: LogLine, r: Reading): Reading {
    r.(logs := [l] + r.logs)
  }

  function DecodeResult(input: Bytes): Reading
    decreases |input|
  {
    var p := IndexByte(input, NL);
    if p < 0 then Reading([], Failed(PrematureEOF), [])
    else
      var rest := input[p + 1..];
      match ParseLine(input[..p + 1])
      case Bad(outcome) => Reading([], outcome, rest)
      case ErrorLine(msg) => Reading([], Done(Error(msg)), rest)
      case SuccessLine(length) =>
        var d := TakeData(length, rest);
        Reading([], d.outcome, d.rest)
      case Logged(l) => Logging(l, DecodeResult(rest))
  }

  class Logger {
    var lines: seq<LogLine>

    constructor ()
      ensures lines == []
    {
      lines := [];
    }

    method Print(level: int, msg: Bytes)
      modifies this
      ensures lines == old(lines) + [LogLine(level, msg)]
    {
      lines := lines + [LogLine(level, msg)];
    }
  }

  method ReadLog(rem: Bytes) returns (parsed: ParsedLine)
    ensures parsed == ParseLog(rem)
  {
    hide IndexByte, LevelOf;
    var p := IndexByte(rem, SP);
    if p < 1 {
      p := |rem| - 1;
      if p < 1 {
        return Bad(Failed(UnfinishedLevel));
      }
    }
    var level := UnmarshalText(rem[..p]);
    if level.None? {
      return Bad(Failed(InvalidLevel));
    }
    if p + 1 > |rem| - 1 {
      return Bad(Panic);
    }
    return Logged(LogLine(level.value, rem[p + 1..|rem| - 1]));
  }

  /** Fills a buffer of the announced length; reads may come short, stall or fail in between. */
  method ReadSuccess(r: Reader, length: Bytes) returns (out: Outcome<Result>)
    modifies r
    ensures r.faults == old(r.faults) || out.Done? ==>
              Decoded(out, r.unread) == TakeData(length, old(r.unread))
    ensures r.faults == old(r.faults) || out.Done? || out == Failed(ReadFault)
    ensures r.faults <= old(r.faults)
    ensures out == Failed(ReadFault) ==>
      && |r.unread| <= |old(r.unread)| && r.unread == old(r.unread)[|old(r.unread)| - |r.unread|..]
      && TakeData(length, old(r.unread)[..|old(r.unread)| - |r.unread|]) == Decoded(Failed(TruncatedData), [])
  {
    hide Atoi;
    var n := Atoi(length);
    if n.None? {
      return Failed(InvalidLength);
    }
    if n.value < 0 || n.value > MAX_ALLOC {
      return Panic;
    }
    var b := new Byte[n.value];
    var m := 0;
    while true
      invariant 0 <= m <= b.Length && m <= |old(r.unread)|
      invariant b[..m] == old(r.unread)[..m] && r.unread == old(r.unread)[m..]
      invariant r.faults == old(r.faults)
      decreases b.Length - m, r.stalls
    {
      ghost var before := b[..m];
      var o, status := r.Read(b, m);
      assert b[..m + o] == before + old(r.unread)[m..m + o] by {
        assert b[..m + o] == b[..m] + b[m..m + o];
      }
      m := m + o;
      if m == n.value {
        assert b[..] == b[..m] == old(r.unread)[..m];
        return Done(Success(b[..]));
      } else if status.EndOfStream? {
        return Failed(TruncatedData);
      } else if status.Fault? {
        return Failed(ReadFault);
      }
    }
  }

  /** The part of `ReadResult` that takes one line apart. */
  method ReadFields(line: Bytes) returns (parsed: ParsedLine)
    ensures parsed == ParseLine(line)
  {
    hide IndexByte, ParseLog;
    var rem := line;
    var p := IndexByte(rem, SP);
    if p < 1 {
      p := |rem| - 1;
    }
    if p < 1 {
      return Bad(Failed(UnfinishedType));
    }
    var t := rem[..p];
    rem := rem[p + 1..];
    if t == LOG {
      parsed := ReadLog(rem);
    } else if t != SUCCESS && t != ERROR {
      return Bad(Failed(InvalidType));
    } else if rem == [] {
      return Bad(Panic);
    } else if t == SUCCESS {
      return SuccessLine(rem[..|rem| - 1]);
    } else {
      return ErrorLine(rem[..|rem| - 1]);
    }
  }

  /** The lines go to `logger` as they are read; the outcome is that of the decoder. When a read fails,
      `logger` has heard the lines among the bytes taken so far. */
  method ReadResult(logger: Logger, r: Reader) returns (out: Outcome<Result>)
    modifies logger, r
    ensures var d := DecodeResult(old(r.unread)); r.faults == old(r.faults) || out.Done? ==>
      logger.lines == old(logger.lines) + d.logs && out == d.outcome && r.unread == d.rest
    ensures r.faults == old(r.faults) || out.Done? || out == Failed(ReadFault)
    ensures out == Failed(ReadFault) ==>
      && |r.unread| <= |old(r.unread)| && r.unread == old(r.unread)[|old(r.unread)| - |r.unread|..]
      && logger.lines == old(logger.lines) + DecodeResult(old(r.unread)[..|old(r.unread)| - |r.unread|]).logs
    ensures r.faults <= old(r.faults)
  {
    hide IndexByte, ParseLine, TakeData, DecodeResult, HeardFirst;
    ghost var all, lines := r.unread, logger.lines;
    ghost var taken: Bytes, heard: seq<LogLine> := [], [];
    HeardNothing();
    while true
      invariant r.faults == old(r.faults)
      invariant all == taken + r.unread && logger.lines == lines + heard
      invariant HeardFirst(taken, heard)
      decreases |r.unread|
    {
      ghost var input := r.unread;
      ThenTheRest(taken, heard, input);
      var line, status := r.ReadLine();
      assert all == taken + line + r.unread;
      if !status.Fine? {
        NoLine(line);
        HeardSoFar(taken, heard, line, r.unread);
        assert status.EndOfStream? ==> line == input && heard + [] == heard;
        return Failed(if status.EndOfStream? then PrematureEOF else ReadFault);
      }
      DecodeLine(line, r.unread);
      var parsed := ReadFields(line);
      match parsed
      case Bad(outcome) => NotAFault(line); return outcome;
      case ErrorLine(msg) => return Done(Error(msg));
      case SuccessLine(length) => out := ReadRest(r, length, taken, heard, line); return;
      case Logged(l) =>
        HeardNext(taken, heard, line, l);
        taken, heard := taken + line, heard + [l];
        logger.Print(l.level, l.msg);
    }
  }

  /** The end of `ReadResult` for a success. */
  method ReadRest(r: Reader, length: Bytes, ghost taken: Bytes, ghost heard: seq<LogLine>, ghost line: Bytes)
    returns (out: Outcome<Result>)
    requires line != [] && line[|line| - 1] == NL && NL !in line[..|line| - 1]
    requires ParseLine(line) == SuccessLine(length) && HeardFirst(taken, heard)
    modifies r
    ensures r.faults == old(r.faults) || out.Done? ==>
      Decoded(out, r.unread) == TakeData(length, old(r.unread))
    ensures r.faults == old(r.faults) || out.Done? || out == Failed(ReadFault)
    ensures r.faults <= old(r.faults)
    ensures out == Failed(ReadFault) ==>
      var all := taken + line + old(r.unread);
      && |r.unread| <= |all| && r.unread == all[|all| - |r.unread|..]
      && DecodeResult(all[..|all| - |r.unread|]).logs == heard
  {
    hide IndexByte, ParseLine, TakeData, DecodeResult, HeardFirst;
    ghost var data := r.unread;
    out := ReadSuccess(r, length);
    if out == Failed(ReadFault) {
      ghost var some := data[..|data| - |r.unread|];
      DecodeLine(line, some);
      HeardSoFar(taken, heard, line + some, r.unread);
      assert taken + line + data == taken + (line + some) + r.unread;
    }
  }

  lemma HeardSoFar(taken: Bytes, heard: seq<LogLine>, more: Bytes, unread: Bytes)
    requires HeardFirst(taken, heard) && DecodeResult(more).logs == []
    ensures var all := taken + more + unread;
      all[|all| - |unread|..] == unread && DecodeResult(all[..|all| - |unread|]).logs == heard
  {
    hide DecodeResult, HeardFirst;
    var all := taken + more + unread;
    assert all[..|all| - |unread|] == taken + more;
    ThenTheRest(taken, heard, more);
  }

  /** A line that cannot be taken apart is no read failure. */
  lemma NotAFault(line: Bytes)
    ensures ParseLine(line) != Bad(Failed(ReadFault))
  {
    hide IndexByte, LevelOf;
  }

  /** Whoever decodes `taken` and then anything hears `heard` first. */
  ghost predicate HeardFirst(taken: Bytes, heard: seq<LogLine>) {
    forall x :: DecodeResult(taken + x).logs == heard + DecodeResult(x).logs
                && DecodeResult(taken + x).outcome == DecodeResult(x).outcome
                && DecodeResult(taken + x).rest == DecodeResult(x).rest
  }

  lemma ThenTheRest(taken: Bytes, heard: seq<LogLine>, x: Bytes)
    requires HeardFirst(taken, heard)
    ensures DecodeResult(taken + x)
         == Reading(heard + DecodeResult(x).logs, DecodeResult(x).outcome, DecodeResult(x).rest)
  {
    hide DecodeResult;
  }

  lemma HeardNothing()
    ensures HeardFirst([], [])
  {
    hide DecodeResult;
    forall x ensures [] + x == x && [] + DecodeResult(x).logs == DecodeResult(x).logs {}
  }

  lemma HeardNext(taken: Bytes, heard: seq<LogLine>, line: Bytes, l: LogLine)
    requires line != [] && line[|line| - 1] == NL && NL !in line[..|line| - 1]
    requires HeardFirst(taken, heard) && ParseLine(line) == Logged(l)
    ensures HeardFirst(taken + line, heard + [l])
  {
    hide DecodeResult, ParseLine, HeardFirst;
    forall x
      ensures DecodeResult(taken + line + x)
           == Reading(heard + [l] + DecodeResult(x).logs, DecodeResult(x).outcome, DecodeResult(x).rest)
    {
      assert taken + line + x == taken + (line + x);
      ThenTheRest(taken, heard, line + x);
      DecodeLine(line, x);
      assert heard + ([l] + DecodeResult(x).logs) == heard + [l] + DecodeResult(x).logs;
    }
    AllHeard(taken + line, heard + [l]);
  }

  lemma AllHeard(taken: Bytes, heard: seq<LogLine>)
    requires forall x :: DecodeResult(taken + x)
                      == Reading(heard + DecodeResult(x).logs, DecodeResult(x).outcome, DecodeResult(x).rest)
    ensures HeardFirst(taken, heard)
  {
    hide DecodeResult;
  }

  /** Decoding continues after the first line as that line says. */
  function Continue(parsed: ParsedLine, rest: Bytes): Reading {
    match parsed
    case Bad(outcome) => Reading([], outcome, rest)
    case ErrorLine(msg) => Reading([], Done(Error(msg)), rest)
    case SuccessLine(length) =>
      var d := TakeData(length, rest);
      Reading([], d.outcome, d.rest)
    case Logged(l) => Logging(l, DecodeResult(rest))
  }

  lemma NoLine(input: Bytes)
    requires NL !in input
    ensures DecodeResult(input) == Reading([], Failed(PrematureEOF), [])
  {
  }

  lemma DecodeFirstLine(a: Bytes, rest: Bytes)
    requires NL !in a
    ensures DecodeResult(a + [NL] + rest) == Continue(ParseLine(a + [NL]), rest)
  {
    hide IndexByte, ParseLine, TakeData;
    JoinSplits(a, NL, rest);
    assert (a + [NL] + rest)[..|a| + 1] == a + [NL];
  }

  lemma DecodeLine(line: Bytes, rest: Bytes)
    requires line != [] && line[|line| - 1] == NL && NL !in line[..|line| - 1]
    ensures DecodeResult(line + rest) == Continue(ParseLine(line), rest)
  {
    hide DecodeResult, ParseLine;
    DecodeFirstLine(line[..|line| - 1], rest);
    assert line == line[..|line| - 1] + [NL];
  }
}
