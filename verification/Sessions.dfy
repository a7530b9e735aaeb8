/** A command context (daemon/context.go) and the whole reply session it produces: gated log lines
    followed by one result, as the client decodes them. */
module Sessions {
  import opened ByteText
  import opened Levels
  import opened Streams
  import opened Results

  predicate ValidLines(ls: seq<LogLine>) { forall l :: l in ls ==> ValidLevel(l.level) }

  function EncodeLogs(ls: seq<LogLine>): Bytes
    requires ValidLines(ls)
  {
    if ls == [] then [] else EncodeLog(ls[0]) + EncodeLogs(ls[1..])
  }

  lemma {:induction false} EncodeLogsAppend(ls: seq<LogLine>, ms: seq<LogLine>)
    requires ValidLines(ls) && ValidLines(ms)
    ensures ValidLines(ls + ms) && EncodeLogs(ls + ms) == EncodeLogs(ls) + EncodeLogs(ms)
  {
    hide EncodeLog;
    if ls == [] {
      assert ls + ms == ms;
    } else {
      assert (ls + ms)[1..] == ls[1..] + ms;
      EncodeLogsAppend(ls[1..], ms);
    }
  }

  function EncodeSession(ls: seq<LogLine>, r: Result): Bytes
    requires ValidLines(ls)
  {
    EncodeLogs(ls) + EncodeResult(r)
  }

  /** The lines a client at `level` is to receive: those at most that level, prefixed, in order. */
  function Delivered(printed: seq<LogLine>, level: int, prefix: Bytes): (ls: seq<LogLine>)
    ensures ValidLines(printed) ==> ValidLines(ls)
  {
    if printed == [] then []
    else
      var l := printed[|printed| - 1];
      Delivered(printed[..|printed| - 1], level, prefix)
      + if l.level <= level then [LogLine(l.level, prefix + l.msg)] else []
  }

  /** `gate`, `toClient` and `toLogger` are the three entries of the source's `lvl` array. `note` and
      `detail` begin the two messages about a line that could not be written. */
  class CmdContext {
    const w: Writer
    const logger: Logger
    const prefix: Bytes
    const note: Bytes
    const detail: Bytes
    const gate: int
    const toClient: int
    const toLogger: int
    var logErr: bool

    /** `loggerLevel` is None when the daemon's logger does not tell its level. */
    constructor (w: Writer, logger: Logger, loggerLevel: Option<int>, prefix: Bytes, note: Bytes, detail: Bytes,
                 cmdLevel: int)
      ensures this.w == w && this.logger == logger
      ensures this.prefix == prefix && this.note == note && this.detail == detail
      ensures toClient == cmdLevel
      ensures toLogger == if loggerLevel.Some? then loggerLevel.value else NORMAL
      ensures gate == if loggerLevel.Some? && loggerLevel.value > cmdLevel then loggerLevel.value else cmdLevel
      ensures Valid() && !logErr
    {
      this.w, this.logger, this.prefix, this.note, this.detail := w, logger, prefix, note, detail;
      var lvl := [cmdLevel, cmdLevel, NORMAL];
      if loggerLevel.Some? {
        lvl := lvl[2 := loggerLevel.value];
        if lvl[2] > cmdLevel {
          lvl := lvl[0 := lvl[2]];
        }
      }
      gate, toClient, toLogger, logErr := lvl[0], lvl[1], lvl[2], false;
    }

    /** The gate never holds back what the client asked for. */
    predicate Valid() { toClient <= gate }

    method PrintAll(ls: seq<LogLine>)
      modifies logger
      ensures logger.lines == old(logger.lines) + ls
    {
      for i := 0 to |ls|
        invariant logger.lines == old(logger.lines) + ls[..i]
      {
        logger.Print(ls[i].level, ls[i].msg);
        assert ls[..i + 1] == ls[..i] + [ls[i]];
      }
      assert ls[..|ls|] == ls;
    }

    /** The line for the client is written beside the one for the daemon's logger, so notes about a
        failure may come before it, after it or around it. After a failure no line is tried again. */
    method Print(level: int, msg: Bytes)
      requires Valid()
      modifies this`logErr, w, logger
      ensures old(logErr) || level > toClient ==>
        w.Out() == old(w.Out()) && w.sent == old(w.sent) && w.broken == old(w.broken) && logErr == old(logErr)
      ensures !old(logErr) && level <= toClient && ValidLevel(level) ==>
        w.Wrote(old(w.Out()), EncodeLog(LogLine(level, prefix + msg)), !logErr)
      ensures !old(logErr) && level <= toClient && !ValidLevel(level) ==>
        logErr && w.Wrote(old(w.Out()), LOG + [SP], !w.broken)
      ensures w.StaysBroken() && (w.reliable && !old(w.broken) ==> !w.broken)
      ensures var local := if level <= gate && level <= toLogger then [LogLine(level, prefix + msg)] else [];
        var notes := (if NORMAL <= toLogger then [LogLine(NORMAL, note)] else [])
                     + (if VERBOSE <= toLogger then [LogLine(VERBOSE, detail + msg)] else []);
        if logErr == old(logErr) then logger.lines == old(logger.lines) + local
        else exists k :: 0 <= k <= |notes| && logger.lines == old(logger.lines) + (notes[..k] + local + notes[k..])
    {
      hide EncodeLog;
      if level > gate {
        assert logger.lines == logger.lines + [];
        return;
      }
      var prefixed := prefix + msg;
      var failed := false;
      if level <= toClient && !logErr {
        var ok := WriteLog(w, level, prefixed);
        if !ok {
          logErr, failed := true, true;
        }
      }
      var local := if level <= toLogger then [LogLine(level, prefixed)] else [];
      if failed {
        PrintAround(local, (if NORMAL <= toLogger then [LogLine(NORMAL, note)] else [])
                           + (if VERBOSE <= toLogger then [LogLine(VERBOSE, detail + msg)] else []));
      } else {
        PrintAll(local);
      }
    }

    /** `local` is printed somewhere among the notes, which keep their order. */
    method PrintAround(local: seq<LogLine>, notes: seq<LogLine>)
      modifies logger
      ensures exists k :: 0 <= k <= |notes| && logger.lines == old(logger.lines) + (notes[..k] + local + notes[k..])
    {
      var k :| 0 <= k <= |notes|;
      PrintAll(notes[..k] + local + notes[k..]);
    }

    /** What `handle` does around a command: any prints, then the one result. If the connection
        breaks, the client gets a first part of the session. */
    method Reply(printed: seq<LogLine>, r: Result)
      requires Valid() && !logErr && ValidLines(printed)
      modifies this`logErr, w, logger
      ensures if w.broken then w.sent <= old(w.Out()) + EncodeSession(Delivered(printed, toClient, prefix), r)
              else w.sent == w.Out() == old(w.Out()) + EncodeSession(Delivered(printed, toClient, prefix), r)
      ensures w.reliable && !old(w.broken) ==> !w.broken
    {
      hide EncodeResult, EncodeLogs, EncodeLog;
      EmptyLogs();
      ghost var o := w.Out();
      assert o + [] == o;
      for i := 0 to |printed|
        invariant w.reliable && !old(w.broken) ==> !w.broken
        invariant !w.broken ==> !logErr
        invariant w.Wrote(o, EncodeLogs(Delivered(printed[..i], toClient, prefix)), !w.broken)
      {
        var l := printed[i];
        ghost var sent, before := w.sent, EncodeLogs(Delivered(printed[..i], toClient, prefix));
        ghost var line := if l.level <= toClient then EncodeLog(LogLine(l.level, prefix + l.msg)) else [];
        DeliveredNext(printed, i, toClient, prefix);
        assert l in printed;
        Print(l.level, l.msg);
        Follows(o, before, line, sent);
      }
      assert printed[..|printed|] == printed;
      Follows(o, EncodeLogs(Delivered(printed, toClient, prefix)), EncodeResult(r), w.sent);
      var ok;
      match r
      case Success(data) => ok := WriteSuccess(w, data);
      case Error(msg) => ok := WriteError(w, msg);
    }
  }

  lemma Follows(o: Bytes, x: Bytes, y: Bytes, sent: Bytes)
    ensures o + x + y == o + (x + y)
    ensures sent <= o + x ==> sent <= o + (x + y)
  {
    assert o + x <= o + x + y;
  }

  lemma DeliveredNext(printed: seq<LogLine>, i: nat, level: int, prefix: Bytes)
    requires i < |printed| && ValidLines(printed)
    ensures ValidLines(printed[..i]) && ValidLines(printed[..i + 1])
    ensures EncodeLogs(Delivered(printed[..i + 1], level, prefix))
         == EncodeLogs(Delivered(printed[..i], level, prefix))
            + if printed[i].level <= level then EncodeLog(LogLine(printed[i].level, prefix + printed[i].msg)) else []
  {
    hide EncodeLog;
    var before := Delivered(printed[..i], level, prefix);
    var l := LogLine(printed[i].level, prefix + printed[i].msg);
    assert printed[..i + 1][..i] == printed[..i];
    if printed[i].level <= level {
      EncodeLogsAppend(before, [l]);
      assert EncodeLogs([l]) == EncodeLog(l) + EncodeLogs([]);
    } else {
      assert before + [] == before;
    }
  }

  lemma EmptyLogs()
    ensures EncodeLogs([]) == []
  {
  }

  // ---------- decoding one line ----------

  /** What is left of `text`, a newline and `rest` after the first newline. */
  function AfterNewline(text: Bytes, rest: Bytes): (r: Bytes)
    ensures NL !in text ==> r == rest
  {
    assert NL !in text ==> (text + [NL] + rest)[|text| + 1..] == rest;
    (text + [NL] + rest)[|UpToNewline(text)| + 1..]
  }

  lemma FirstLineOf(text: Bytes, rest: Bytes)
    ensures text + [NL] + rest == UpToNewline(text) + [NL] + AfterNewline(text, rest)
  {
  }

  /** A line `kind text` is read up to the first newline in the text. */
  lemma DecodeKindLine(kind: Bytes, text: Bytes, rest: Bytes)
    requires NL !in kind
    ensures DecodeResult(Join(kind, SP, text + [NL]) + rest)
         == Continue(ParseLine(Join(kind, SP, UpToNewline(text) + [NL])), AfterNewline(text, rest))
  {
    hide IndexByte, ParseLine, DecodeResult, UpToNewline, AfterNewline, Continue, Join;
    var first, tail := UpToNewline(text), AfterNewline(text, rest);
    FirstLineOf(text, rest);
    JoinAppend(kind, SP, text + [NL], rest);
    assert text + [NL] + rest == first + [NL] + tail;
    JoinAppend(kind, SP, first + [NL], tail);
    JoinAppend(kind, SP, first, [NL]);
    JoinWithout(kind, SP, first, NL);
    DecodeFirstLine(Join(kind, SP, first), tail);
  }

  lemma ParseKindLine(kind: Bytes, rem: Bytes)
    requires kind in {SUCCESS, ERROR, LOG}
    requires rem != []
    ensures NL !in kind
    ensures ParseLine(Join(kind, SP, rem)) ==
      if kind == LOG then ParseLog(rem)
      else if kind == SUCCESS then SuccessLine(rem[..|rem| - 1])
      else ErrorLine(rem[..|rem| - 1])
  {
    hide IndexByte, ParseLog;
    assert SP !in kind && kind != [];
    JoinSplits(kind, SP, rem);
  }

  lemma ParseLogLine(l: LogLine)
    requires ValidLevel(l.level)
    ensures ParseLog(Join(TextOf(l.level), SP, l.msg + [NL])) == Logged(l)
  {
    hide IndexByte, TextOf, LevelOf, Join;
    var x := TextOf(l.level);
    var rem := Join(x, SP, l.msg + [NL]);
    JoinSplits(x, SP, l.msg + [NL]);
    LevelTextsDistinct(l.level);
    assert rem[|x| + 1..|rem| - 1] == rem[|x| + 1..][..|l.msg|] == l.msg;
  }

  /** A log line is heard up to the first newline in its message, whatever the message. */
  lemma DecodeLog(l: LogLine, rest: Bytes)
    requires ValidLevel(l.level)
    ensures var d := DecodeResult(AfterNewline(l.msg, rest));
      DecodeResult(EncodeLog(l) + rest) == Reading([LogLine(l.level, UpToNewline(l.msg))] + d.logs, d.outcome, d.rest)
  {
    hide IndexByte, ParseLine, ParseLog, DecodeResult, UpToNewline, AfterNewline, TextOf, Join;
    var x, first := TextOf(l.level), UpToNewline(l.msg);
    var text := Join(x, SP, l.msg);
    JoinAppend(x, SP, l.msg, [NL]);
    ParseKindLine(LOG, [NL]);
    DecodeKindLine(LOG, text, rest);
    NewlineInJoin(x, SP, l.msg, rest);
    JoinAppend(x, SP, first, [NL]);
    ParseKindLine(LOG, Join(x, SP, first + [NL]));
    ParseLogLine(LogLine(l.level, first));
  }

  lemma NewlineInJoin(a: Bytes, c: Byte, b: Bytes, rest: Bytes)
    requires NL !in a && c != NL
    ensures UpToNewline(Join(a, c, b)) == Join(a, c, UpToNewline(b))
    ensures AfterNewline(Join(a, c, b), rest) == AfterNewline(b, rest)
  {
    hide IndexByte, Join;
    var first := UpToNewline(b);
    JoinWithout(a, c, first, NL);
    if NL in b {
      var tail := b[|first| + 1..];
      assert b == Join(first, NL, tail) by { UpToNewlineSplits(b); }
      FlattenJoin(a, c, first, tail);
      JoinSplits(Join(a, c, first), NL, tail);
      assert UpToNewline(Join(a, c, b)) == Join(a, c, first);
    } else {
      JoinWithout(a, c, b, NL);
    }
    assert Join(a, c, b)[|a| + 1..] == b by { JoinTail(a, c, b); }
    assert (Join(a, c, b) + [NL] + rest)[|Join(a, c, first)| + 1..] == (b + [NL] + rest)[|first| + 1..];
  }

  lemma JoinTail(a: Bytes, c: Byte, b: Bytes)
    ensures Join(a, c, b)[|a| + 1..] == b
  {
  }

  lemma FlattenJoin(a: Bytes, c: Byte, b: Bytes, tail: Bytes)
    ensures Join(a, c, Join(b, NL, tail)) == Join(Join(a, c, b), NL, tail)
  {
  }

  lemma UpToNewlineSplits(b: Bytes)
    requires NL in b
    ensures |UpToNewline(b)| < |b| && b == Join(UpToNewline(b), NL, b[|UpToNewline(b)| + 1..])
  {
  }

  /** An error is received up to the first newline of its text, whatever the text. */
  lemma DecodeError(msg: Bytes, rest: Bytes)
    ensures DecodeResult(EncodeResult(Error(msg)) + rest)
         == Reading([], Done(Error(UpToNewline(msg))), AfterNewline(msg, rest))
  {
    hide IndexByte, ParseLine, DecodeResult, UpToNewline, AfterNewline, Join;
    ParseKindLine(ERROR, [NL]);
    DecodeKindLine(ERROR, msg, rest);
    ParseKindLine(ERROR, UpToNewline(msg) + [NL]);
    assert (UpToNewline(msg) + [NL])[..|UpToNewline(msg)|] == UpToNewline(msg);
    assert ERROR != LOG && ERROR != SUCCESS by { assert |ERROR| == 5 && |LOG| == 3 && |SUCCESS| == 7; }
  }

  /** The header of a success, with any bytes after it. */
  lemma DecodeSuccessHeader(n: nat, input: Bytes)
    requires n <= MAX_ALLOC
    ensures DecodeResult(Join(SUCCESS, SP, Itoa(n) + [NL]) + input)
         == if n <= |input| then Reading([], Done(Success(input[..n])), input[n..])
            else Reading([], Failed(TruncatedData), [])
  {
    hide IndexByte, ParseLine, DecodeResult, UpToNewline, AfterNewline, Join, Itoa, Atoi;
    AtoiOfItoa(n);
    ParseKindLine(SUCCESS, [NL]);
    DecodeKindLine(SUCCESS, Itoa(n), input);
    ParseKindLine(SUCCESS, Itoa(n) + [NL]);
    assert (Itoa(n) + [NL])[..|Itoa(n)|] == Itoa(n);
    assert SUCCESS != LOG by { assert |LOG| == 3 && |SUCCESS| == 7; }
  }

  lemma DecodeSuccess(data: Bytes, rest: Bytes)
    requires Slice(data)
    ensures DecodeResult(EncodeResult(Success(data)) + rest) == Reading([], Done(Success(data)), rest)
  {
    hide DecodeResult, Join, Itoa;
    var header := Join(SUCCESS, SP, Itoa(|data|) + [NL]);
    DecodeSuccessHeader(|data|, data + rest);
    assert header + data + rest == header + (data + rest);
    assert (data + rest)[..|data|] == data && (data + rest)[|data|..] == rest;
  }

  /** A print at a level outside the table leaves "log " behind, and the client takes the result that
      follows for a log line with a bad level. */
  lemma InvalidLevelSpoilsResult(r: Result, rest: Bytes)
    ensures DecodeResult(LOG + [SP] + EncodeResult(r) + rest).outcome == Failed(InvalidLevel)
  {
    hide IndexByte, ParseLine, ParseLog, DecodeResult, UpToNewline, AfterNewline, Join, Itoa;
    var kind, text, tail := if r.Success? then SUCCESS else ERROR, if r.Success? then Itoa(|r.data|) else r.data,
                            if r.Success? then r.data else [];
    var first := UpToNewline(text);
    assert LOG + [SP] + EncodeResult(r) + rest == Join(LOG, SP, Join(kind, SP, text) + [NL]) + (tail + rest) by {
      SpoiltLine(kind, text, tail, rest);
    }
    ParseKindLine(LOG, [NL]);
    assert NL !in kind by { ParseKindLine(kind, [NL]); }
    DecodeKindLine(LOG, Join(kind, SP, text), tail + rest);
    NewlineInJoin(kind, SP, text, tail + rest);
    JoinAppend(kind, SP, first, [NL]);
    ParseKindLine(LOG, Join(kind, SP, first + [NL]));
    BadLevelLine(kind, first);
  }

  lemma SpoiltLine(kind: Bytes, text: Bytes, tail: Bytes, rest: Bytes)
    ensures var line := Join(LOG, SP, Join(kind, SP, text) + [NL]);
      && LOG + [SP] + (Join(kind, SP, text + [NL]) + tail) + rest == line + (tail + rest)
      && LOG + [SP] + Join(kind, SP, text + [NL]) + rest == line + ([] + rest)
  {
  }

  lemma BadLevelLine(kind: Bytes, text: Bytes)
    requires kind in {SUCCESS, ERROR}
    ensures ParseLog(Join(kind, SP, text + [NL])) == Bad(Failed(InvalidLevel))
  {
    hide IndexByte;
    JoinSplits(kind, SP, text + [NL]);
    assert kind[0] != TextOf(TACITURN)[0] && kind[0] != TextOf(NORMAL)[0] && kind[0] != TextOf(VERBOSE)[0];
  }

  // ---------- whole sessions ----------

  ghost predicate PlainResult(r: Result) { r.Error? ==> NL !in r.data }

  ghost predicate PlainLines(ls: seq<LogLine>) { forall l :: l in ls ==> NL !in l.msg }

  lemma ResultRoundTrip(r: Result, rest: Bytes)
    requires Slice(r.data)
    ensures DecodeResult(EncodeResult(r) + rest).outcome.Done?
    ensures DecodeResult(EncodeResult(r) + rest) == Reading([], Done(r), rest) <==> PlainResult(r)
  {
    hide DecodeResult, EncodeResult, UpToNewline, AfterNewline;
    match r
    case Success(data) => DecodeSuccess(data, rest);
    case Error(msg) => DecodeError(msg, rest);
  }

  /** A session round-trips exactly when no delivered line and no error text holds a newline: the
      client hears the very lines, gets the very result, and the following bytes stay unread. */
  lemma {:induction false} SessionRoundTrip(ls: seq<LogLine>, r: Result, rest: Bytes)
    requires ValidLines(ls) && Slice(r.data)
    ensures DecodeResult(EncodeSession(ls, r) + rest) == Reading(ls, Done(r), rest)
       <==> PlainLines(ls) && PlainResult(r)
  {
    hide DecodeResult, EncodeResult, EncodeLog, UpToNewline, AfterNewline;
    if ls == [] {
      assert EncodeSession(ls, r) == EncodeResult(r);
      ResultRoundTrip(r, rest);
    } else {
      var tail := EncodeSession(ls[1..], r) + rest;
      assert EncodeSession(ls, r) + rest == EncodeLog(ls[0]) + tail;
      DecodeLog(ls[0], tail);
      if NL in ls[0].msg {
        assert DecodeResult(EncodeSession(ls, r) + rest).logs[0] != ls[0];
      } else {
        SessionRoundTrip(ls[1..], r, rest);
        assert ls == [ls[0]] + ls[1..];
        assert PlainLines(ls) <==> PlainLines(ls[1..]);
        var d := DecodeResult(tail);
        assert d.logs == ([ls[0]] + d.logs)[1..];
      }
    }
  }

  /** The same for what a context printed: the client's logger gets exactly the prints at or below
      the command's level, prefixed and in order. */
  lemma PrintedSessionRoundTrip(printed: seq<LogLine>, level: int, prefix: Bytes, r: Result, rest: Bytes)
    requires ValidLines(printed) && Slice(r.data) && NL !in prefix
    ensures DecodeResult(EncodeSession(Delivered(printed, level, prefix), r) + rest)
         == Reading(Delivered(printed, level, prefix), Done(r), rest)
       <==> (forall l :: l in printed && l.level <= level ==> NL !in l.msg) && PlainResult(r)
  {
    hide DecodeResult, EncodeSession;
    SessionRoundTrip(Delivered(printed, level, prefix), r, rest);
    PlainDelivered(printed, level, prefix);
  }

  lemma {:induction false} PlainDelivered(printed: seq<LogLine>, level: int, prefix: Bytes)
    requires NL !in prefix
    ensures PlainLines(Delivered(printed, level, prefix))
       <==> forall l :: l in printed && l.level <= level ==> NL !in l.msg
  {
    if printed != [] {
      var n := |printed| - 1;
      var l := printed[n];
      PlainDelivered(printed[..n], level, prefix);
      var last := LogLine(l.level, prefix + l.msg);
      assert NL in last.msg <==> NL in l.msg;
      assert printed == printed[..n] + [l];
      var d := Delivered(printed[..n], level, prefix);
      assert l.level <= level ==> Delivered(printed, level, prefix) == d + [last];
    }
  }

  /** Lines that are heard are heard whatever follows them, be it an error, a cut or a panic. */
  lemma {:induction false} LinesHeard(ls: seq<LogLine>, rest: Bytes)
    requires ValidLines(ls) && PlainLines(ls)
    ensures var d := DecodeResult(rest);
      DecodeResult(EncodeLogs(ls) + rest) == Reading(ls + d.logs, d.outcome, d.rest)
  {
    hide DecodeResult, EncodeLog, UpToNewline, AfterNewline;
    if ls == [] {
      assert [] + rest == rest && [] + DecodeResult(rest).logs == DecodeResult(rest).logs;
    } else {
      var more := EncodeLogs(ls[1..]) + rest;
      assert EncodeLogs(ls) + rest == EncodeLog(ls[0]) + more;
      DecodeLog(ls[0], more);
      LinesHeard(ls[1..], rest);
      assert [ls[0]] + (ls[1..] + DecodeResult(rest).logs) == ls + DecodeResult(rest).logs;
    }
  }

  /** A session cut short at any byte yields an error and never a result. The client hears exactly the
      lines that lie wholly before the cut, and is told of missing data exactly when the header of a
      success came whole. */
  lemma TruncatedSession(ls: seq<LogLine>, r: Result, cut: nat)
    requires ValidLines(ls) && PlainLines(ls) && PlainResult(r) && Slice(r.data)
    requires cut < |EncodeSession(ls, r)|
    ensures var d := DecodeResult(EncodeSession(ls, r)[..cut]);
      && d.logs <= ls && d.rest == []
      && (forall k :: 0 <= k <= |ls| ==> (k <= |d.logs| <==> |EncodeLogs(ls[..k])| <= cut))
      && d.outcome == if r.Success? && cut >= |EncodeSession(ls, r)| - |r.data| then Failed(TruncatedData)
                      else Failed(PrematureEOF)
  {
    hide DecodeResult, EncodeResult, EncodeLogs;
    if |EncodeLogs(ls)| <= cut {
      var k := cut - |EncodeLogs(ls)|;
      assert EncodeSession(ls, r)[..cut] == EncodeLogs(ls) + EncodeResult(r)[..k];
      TruncatedResult(r, k);
      LinesHeard(ls, EncodeResult(r)[..k]);
      assert ls + [] == ls;
      forall j | 0 <= j <= |ls| ensures |EncodeLogs(ls[..j])| <= cut { LogsGrow(ls, j); }
    } else {
      assert EncodeSession(ls, r)[..cut] == EncodeLogs(ls)[..cut];
      ResultLength(r);
      TruncatedLogs(ls, cut);
    }
  }

  lemma {:induction false} TruncatedLogs(ls: seq<LogLine>, cut: nat)
    requires ValidLines(ls) && PlainLines(ls) && cut < |EncodeLogs(ls)|
    ensures var d := DecodeResult(EncodeLogs(ls)[..cut]);
      && d.logs <= ls && d.rest == [] && d.outcome == Failed(PrematureEOF)
      && forall k :: 0 <= k <= |ls| ==> (k <= |d.logs| <==> |EncodeLogs(ls[..k])| <= cut)
  {
    hide DecodeResult, EncodeLog, UpToNewline, AfterNewline;
    var head, tail := EncodeLog(ls[0]), EncodeLogs(ls[1..]);
    assert EncodeLogs(ls) == head + tail;
    var d := DecodeResult(EncodeLogs(ls)[..cut]);
    if cut < |head| {
      assert EncodeLogs(ls)[..cut] == head[..cut];
      LogIsOneLine(ls[0]);
      NoLine(head[..cut]);
    } else {
      var k := cut - |head|;
      assert EncodeLogs(ls)[..cut] == head + tail[..k];
      DecodeLog(ls[0], tail[..k]);
      TruncatedLogs(ls[1..], k);
      assert ls == [ls[0]] + ls[1..];
    }
    forall k | 0 <= k <= |ls| ensures k <= |d.logs| <==> |EncodeLogs(ls[..k])| <= cut {
      if k > 0 {
        assert ls[..k][1..] == ls[1..][..k - 1];
      }
    }
  }

  lemma LogsGrow(ls: seq<LogLine>, k: nat)
    requires ValidLines(ls) && k <= |ls|
    ensures |EncodeLogs(ls[..k])| <= |EncodeLogs(ls)|
  {
    assert ls == ls[..k] + ls[k..];
    EncodeLogsAppend(ls[..k], ls[k..]);
  }

  lemma ResultLength(r: Result)
    ensures |r.data| < |EncodeResult(r)|
  {
  }

  lemma LogIsOneLine(l: LogLine)
    requires ValidLevel(l.level) && NL !in l.msg
    ensures NL !in EncodeLog(l)[..|EncodeLog(l)| - 1]
  {
  }

  lemma TruncatedResult(r: Result, cut: nat)
    requires PlainResult(r) && Slice(r.data) && cut < |EncodeResult(r)|
    ensures DecodeResult(EncodeResult(r)[..cut])
         == Reading([], if r.Success? && cut >= |EncodeResult(r)| - |r.data| then Failed(TruncatedData)
                        else Failed(PrematureEOF), [])
  {
    hide DecodeResult, Join, Itoa;
    var e := EncodeResult(r);
    var kind, text := if r.Success? then SUCCESS else ERROR, if r.Success? then Itoa(|r.data|) else r.data;
    AtoiOfItoa(|r.data|);
    JoinAppend(kind, SP, text, [NL]);
    JoinWithout(kind, SP, text, NL);
    var a := Join(kind, SP, text);
    assert e == a + [NL] + if r.Success? then r.data else [];
    if cut <= |a| {
      assert e[..cut] == a[..cut];
      NoLine(e[..cut]);
    } else {
      assert r.Success?;
      var k := cut - |a| - 1;
      assert e[..cut] == a + [NL] + r.data[..k];
      DecodeSuccessHeader(|r.data|, r.data[..k]);
    }
  }
}
