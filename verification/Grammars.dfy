/** What the decoders accept and what makes them panic, from the side of the bytes: every stream that a
    client takes for a reply (protocol/result.go), and every stream that makes the daemon evaluate or
    panic (daemon/daemon.go), whoever wrote it. */
module Grammars {
  import opened ByteText
  import opened Levels
  import opened Streams
  import opened Commands
  import opened Results
  import opened Sessions

  // ---------- one line of a reply ----------

  /** A line that makes `ReadResult` slice out of range: nothing follows the kind or the level. */
  ghost predicate CutOffLine(line: Bytes) {
    || line == SUCCESS + [NL] || line == ERROR + [NL]
    || exists level :: ValidLevel(level) && line == Join(LOG, SP, TextOf(level) + [NL])
  }

  /** The first field of a line: up to the first space, or all of a line that has none or begins
      with it. */
  ghost predicate Begins(line: Bytes, word: Bytes) {
    && word != [] && NL !in word
    && ((line == word + [NL] && (SP !in word || word[0] == SP)) || (SP !in word && Continues(line, word)))
  }

  ghost predicate Continues(line: Bytes, word: Bytes) {
    exists x :: NL !in x && line == Join(word, SP, x + [NL])
  }

  ghost predicate NoLevelText(word: Bytes) { forall level | ValidLevel(level) :: TextOf(level) != word }

  /** A line that `ReadResult` reports as an error. */
  ghost predicate BadLine(line: Bytes, e: WireError) {
    match e
    case UnfinishedType => line == [NL]
    case InvalidType => exists word :: Begins(line, word) && word !in {SUCCESS, ERROR, LOG}
    case UnfinishedLevel => line == LOG + [NL] || line == Join(LOG, SP, [NL])
    case InvalidLevel => exists word, rem :: Begins(rem, word) && NoLevelText(word) && line == Join(LOG, SP, rem)
    case _ => false
  }

  /** The line is of the kind it was taken for. */
  ghost predicate LineIs(line: Bytes, parsed: ParsedLine) {
    match parsed
    case Logged(l) => ValidLevel(l.level) && NL !in l.msg && line == EncodeLog(l)
    case ErrorLine(msg) => NL !in msg && line == Join(ERROR, SP, msg + [NL])
    case SuccessLine(length) => NL !in length && line == Join(SUCCESS, SP, length + [NL])
    case Bad(Failed(e)) => BadLine(line, e)
    case Bad(Panic) => CutOffLine(line)
    case Bad(Done(_)) => false
  }

  /** Where the readers end the first field. */
  function FieldEnd(line: Bytes): int {
    if IndexByte(line, SP) < 1 then |line| - 1 else IndexByte(line, SP)
  }

  lemma FirstFieldIs(line: Bytes)
    requires IsLine(line)
    ensures FieldEnd(line) < 1 <==> line == [NL]
    ensures FieldEnd(line) >= 1 ==> Begins(line, line[..FieldEnd(line)])
  {
    hide IndexByte, IsLine, Join;
    LineEnds(line);
    var s := IndexByte(line, SP);
    if s >= 1 {
      LineAfter(line, s);
      var rem := line[s + 1..];
      LineEnds(rem);
      assert Continues(line, line[..s]) by { assert rem == rem[..|rem| - 1] + [NL]; }
    }
  }

  lemma FirstFieldOnly(line: Bytes, word: Bytes)
    requires Begins(line, word)
    ensures IsLine(line) && FieldEnd(line) == |word| >= 1 && line[..|word|] == word
  {
    hide IndexByte, Join;
    if line == word + [NL] && (SP !in word || word[0] == SP) {
      assert line[..|word|] == word && line[0] == word[0];
      assert SP !in word ==> SP !in line;
    } else {
      var x :| NL !in x && line == Join(word, SP, x + [NL]);
      JoinSplits(word, SP, x + [NL]);
      PlainJoin(word, x);
    }
  }

  lemma PlainJoin(word: Bytes, x: Bytes)
    requires NL !in word && NL !in x
    ensures IsLine(Join(word, SP, x + [NL]))
  {
    var line := Join(word, SP, x + [NL]);
    assert line[..|line| - 1] == word + [SP] + x;
  }

  lemma LogLineIs(rem: Bytes)
    requires IsLine(rem)
    ensures LineIs(Join(LOG, SP, rem), ParseLog(rem))
  {
    hide TextOf, IndexByte, IsLine, Begins, Join;
    if !ParseLevelAndArgs(EVAL, [], rem).Failed? {
      var level := ParseOnlyLevelAndArgs(EVAL, [], rem);
    } else {
      FirstFieldIs(rem);
      LineEnds(rem);
    }
  }

  lemma UnknownKind(line: Bytes, kind: Bytes)
    requires Begins(line, kind) && kind !in {SUCCESS, ERROR, LOG}
    ensures ParseLine(line) == Bad(Failed(InvalidType))
  {
    hide IndexByte, ParseLog;
    FirstFieldOnly(line, kind);
  }

  lemma KindLineIs(kind: Bytes, rem: Bytes)
    requires kind in {SUCCESS, ERROR, LOG} && IsLine(rem)
    ensures LineIs(Join(kind, SP, rem), ParseLine(Join(kind, SP, rem)))
  {
    hide IndexByte, ParseLine, ParseLog, Join, BadLine;
    LineEnds(rem);
    ParseKindLine(kind, rem);
    if kind == LOG {
      LogLineIs(rem);
    }
  }

  /** A line without a separator, or with one in front: it has no more than a kind. */
  lemma BareLineIs(line: Bytes)
    requires IsLine(line) && IndexByte(line, SP) < 1
    ensures LineIs(line, ParseLine(line))
  {
    hide IndexByte, ParseLog, IsLine, Begins;
    LineEnds(line);
    FirstFieldIs(line);
    NoLevel();
    assert line[|line| - 1 + 1..] == [];
    assert ParseLine(line).Bad?;
  }

  lemma ParsedLineIs(line: Bytes)
    requires IsLine(line)
    ensures LineIs(line, ParseLine(line))
  {
    hide ParseLine, IsLine, Join, IndexByte, Begins, CutOffLine;
    var s := IndexByte(line, SP);
    if s >= 1 {
      LineAfter(line, s);
      if line[..s] in {SUCCESS, ERROR, LOG} {
        KindLineIs(line[..s], line[s + 1..]);
      } else {
        FirstFieldIs(line);
        UnknownKind(line, line[..s]);
      }
    } else {
      BareLineIs(line);
    }
  }

  /** And such a line is reported so. */
  lemma BadLineFails(line: Bytes, e: WireError)
    requires BadLine(line, e)
    ensures IsLine(line) && ParseLine(line) == Bad(Failed(e))
  {
    hide IndexByte, ParseLog, Join, ParseLine, Begins, LevelOf, NoLevelText;
    match e
    case UnfinishedType => EmptyLine();
    case InvalidType =>
      var word :| Begins(line, word) && word !in {SUCCESS, ERROR, LOG};
      FirstFieldOnly(line, word);
      UnknownKind(line, word);
    case UnfinishedLevel => BareLog();
    case InvalidLevel =>
      var word, rem :| Begins(rem, word) && NoLevelText(word) && line == Join(LOG, SP, rem);
      FirstFieldOnly(rem, word);
      LineEnds(rem);
      ParseKindLine(LOG, rem);
      PlainJoin(LOG, rem[..|rem| - 1]);
      BadLevel(rem, word);
    case _ =>
  }

  lemma EmptyLine()
    ensures IsLine([NL]) && ParseLine([NL]) == Bad(Failed(UnfinishedType))
  {
  }

  lemma BareLog()
    ensures IsLine(LOG + [NL]) && ParseLine(LOG + [NL]) == Bad(Failed(UnfinishedLevel))
    ensures IsLine(Join(LOG, SP, [NL])) && ParseLine(Join(LOG, SP, [NL])) == Bad(Failed(UnfinishedLevel))
  {
    NoLevel();
    ParseKindLine(LOG, [NL]);
    assert (LOG + [NL])[..3] == LOG && (LOG + [NL])[3 + 1..] == [];
    PlainJoin(LOG, []);
    assert [] + [NL] == [NL];
    assert IsLine(LOG + [NL]) by { assert (LOG + [NL])[..3] == LOG; }
  }

  lemma BadLevel(rem: Bytes, word: Bytes)
    requires Begins(rem, word) && NoLevelText(word)
    ensures ParseLog(rem) == Bad(Failed(InvalidLevel))
  {
    hide IndexByte, TextOf;
    FirstFieldOnly(rem, word);
  }

  lemma NoLevel()
    ensures ParseLog([]) == Bad(Failed(UnfinishedLevel))
  {
  }

  lemma LevelCutOff(level: int)
    requires ValidLevel(level)
    ensures IsLine(Join(LOG, SP, TextOf(level) + [NL])) && ParseLine(Join(LOG, SP, TextOf(level) + [NL])) == Bad(Panic)
  {
    hide IndexByte, LevelOf, TextOf, ParseLine;
    var rem := TextOf(level) + [NL];
    ParseKindLine(LOG, rem);
    LevelTextsDistinct(level);
    assert rem[..|TextOf(level)|] == TextOf(level);
    JoinAppend(LOG, SP, TextOf(level), [NL]);
    JoinWithout(LOG, SP, TextOf(level), NL);
  }

  lemma CutOffPanics(line: Bytes)
    requires CutOffLine(line)
    ensures IsLine(line) && ParseLine(line) == Bad(Panic)
  {
    hide IndexByte, LevelOf, ParseLog, TextOf, Join;
    if exists level :: ValidLevel(level) && line == Join(LOG, SP, TextOf(level) + [NL]) {
      var level :| ValidLevel(level) && line == Join(LOG, SP, TextOf(level) + [NL]);
      LevelCutOff(level);
    } else {
      assert line[..|line| - 1] == SUCCESS || line[..|line| - 1] == ERROR;
    }
  }

  // ---------- whole reply streams ----------

  /** The text stands for the result: an error up to its newline, or a length in any spelling that
      `strconv.Atoi` takes, and that many bytes. */
  ghost predicate ReplyText(text: Bytes, r: Result) {
    match r
    case Error(msg) => NL !in msg && text == EncodeResult(r)
    case Success(data) => exists length ::
      NL !in length && Atoi(length) == Some(|data|) && Slice(data) && text == Join(SUCCESS, SP, length + [NL]) + data
  }

  /** The text makes the client panic: a line cut off after its kind or level, or a success with a
      length that cannot be allocated. */
  ghost predicate PanicText(text: Bytes) {
    CutOffLine(text) || exists length, n ::
      NL !in length && Atoi(length) == Some(n) && (n < 0 || n > MAX_ALLOC) && text == Join(SUCCESS, SP, length + [NL])
  }

  /** The text gives an error: no newline comes, or a line is bad, or the length of a success is no
      number, or too few bytes follow it. */
  ghost predicate ErrorText(text: Bytes, e: WireError, rest: Bytes) {
    match e
    case PrematureEOF => NL !in text && rest == []
    case InvalidLength => exists length ::
      NL !in length && Atoi(length).None? && text == Join(SUCCESS, SP, length + [NL])
    case TruncatedData => rest == [] && exists length, n, data ::
      NL !in length && Atoi(length) == Some(n) && |data| < n <= MAX_ALLOC
      && text == Join(SUCCESS, SP, length + [NL]) + data
    case _ => BadLine(text, e)
  }

  ghost predicate EndsWith(text: Bytes, outcome: Outcome<Result>, rest: Bytes) {
    match outcome
    case Done(r) => ReplyText(text, r)
    case Panic => PanicText(text)
    case Failed(e) => ErrorText(text, e, rest)
  }

  /** Valid, plain log lines, then `text`, then `rest`. */
  ghost predicate Spells(input: Bytes, ls: seq<LogLine>, text: Bytes, rest: Bytes) {
    ValidLines(ls) && PlainLines(ls) && input == EncodeLogs(ls) + (text + rest)
  }

  lemma FirstLine(input: Bytes) returns (line: Bytes, rest: Bytes)
    requires NL in input
    ensures IsLine(line) && input == line + rest && DecodeResult(input) == Continue(ParseLine(line), rest)
  {
    hide ParseLine, DecodeResult, Continue;
    var p := IndexByte(input, NL);
    line, rest := input[..p] + [NL], input[p + 1..];
    DecodeFirstLine(input[..p], rest);
    assert input == line + rest && line[..p] == input[..p];
  }

  /** Where decoding stops without a log line. */
  lemma StopsAt(line: Bytes, rest: Bytes) returns (text: Bytes)
    requires IsLine(line) && !ParseLine(line).Logged?
    ensures var d := Continue(ParseLine(line), rest);
      d.logs == [] && EndsWith(text, d.outcome, d.rest) && line + rest == text + d.rest
  {
    hide ParseLine, DecodeResult, IsLine, CutOffLine, Atoi, Join;
    ParsedLineIs(line);
    text := line;
    match ParseLine(line)
    case SuccessLine(length) =>
      var n := Atoi(length);
      if n.Some? && 0 <= n.value <= MAX_ALLOC {
        if n.value <= |rest| {
          text := line + rest[..n.value];
          assert line + rest == text + rest[n.value..];
        } else {
          text := line + rest;
          assert text + [] == text;
        }
      }
    case _ =>
  }

  /** Every stream spells what it gives. */
  lemma {:induction false} DecodedIsSpelled(input: Bytes) returns (text: Bytes)
    ensures var d := DecodeResult(input); EndsWith(text, d.outcome, d.rest) && Spells(input, d.logs, text, d.rest)
    decreases |input|
  {
    hide ParseLine, DecodeResult, EndsWith, EncodeLog, IsLine;
    if NL !in input {
      NoLine(input);
      text := input;
      EndsEarly(input);
      EmptyLogs();
      assert [] + (text + []) == text;
    } else {
      var line, rest := FirstLine(input);
      if ParseLine(line).Logged? {
        ParsedLineIs(line);
        assert line != [] by { LineEnds(line); }
        text := DecodedIsSpelled(rest);
        var d := DecodeResult(rest);
        var l := ParseLine(line).l;
        assert ([l] + d.logs)[1..] == d.logs;
        assert EncodeLog(l) + (EncodeLogs(d.logs) + (text + d.rest))
            == EncodeLog(l) + EncodeLogs(d.logs) + (text + d.rest);
      } else {
        text := StopsAt(line, rest);
        EmptyLogs();
        assert [] + (text + DecodeResult(input).rest) == text + DecodeResult(input).rest;
      }
    }
  }

  lemma EndsEarly(text: Bytes)
    requires NL !in text
    ensures EndsWith(text, Failed(PrematureEOF), [])
  {
  }

  lemma SuccessTaken(length: Bytes, input: Bytes)
    requires NL !in length
    ensures DecodeResult(Join(SUCCESS, SP, length + [NL]) + input)
         == Reading([], TakeData(length, input).outcome, TakeData(length, input).rest)
  {
    hide IndexByte, ParseLine, DecodeResult, UpToNewline, AfterNewline, Join, Atoi;
    ParseKindLine(SUCCESS, [NL]);
    DecodeKindLine(SUCCESS, length, input);
    ParseKindLine(SUCCESS, length + [NL]);
    assert (length + [NL])[..|length|] == length;
    assert SUCCESS != LOG by { assert |LOG| == 3 && |SUCCESS| == 7; }
  }

  lemma BadFirstLine(line: Bytes, outcome: Outcome<Result>, rest: Bytes)
    requires IsLine(line) && ParseLine(line) == Bad(outcome)
    ensures DecodeResult(line + rest) == Reading([], outcome, rest)
  {
    hide DecodeResult, ParseLine;
    DecodeLine(line, rest);
  }

  lemma PanicDecodes(text: Bytes, rest: Bytes)
    requires PanicText(text)
    ensures DecodeResult(text + rest) == Reading([], Panic, rest)
  {
    hide DecodeResult, Join, Atoi, CutOffLine, ParseLine;
    if CutOffLine(text) {
      CutOffPanics(text);
      BadFirstLine(text, Panic, rest);
    } else {
      var length, n :|
        NL !in length && Atoi(length) == Some(n) && (n < 0 || n > MAX_ALLOC)
        && text == Join(SUCCESS, SP, length + [NL]);
      SuccessTaken(length, rest);
    }
  }

  lemma ReplyDecodes(text: Bytes, r: Result, rest: Bytes)
    requires ReplyText(text, r)
    ensures DecodeResult(text + rest) == Reading([], Done(r), rest)
  {
    hide DecodeResult, Join, Atoi;
    if r.Error? {
      DecodeError(r.data, rest);
    } else {
      var data := r.data;
      var length :|
        NL !in length && Atoi(length) == Some(|data|) && Slice(data) && text == Join(SUCCESS, SP, length + [NL]) + data;
      SuccessTaken(length, data + rest);
      assert Join(SUCCESS, SP, length + [NL]) + data + rest == Join(SUCCESS, SP, length + [NL]) + (data + rest);
      assert (data + rest)[..|data|] == data && (data + rest)[|data|..] == rest;
    }
  }

  lemma ErrorDecodes(text: Bytes, e: WireError, rest: Bytes)
    requires ErrorText(text, e, rest)
    ensures DecodeResult(text + rest) == Reading([], Failed(e), rest)
  {
    hide DecodeResult, Join, Atoi, BadLine, ParseLine;
    assert text + [] == text;
    match e
    case PrematureEOF => NoLine(text);
    case InvalidLength =>
      var length :| NL !in length && Atoi(length).None? && text == Join(SUCCESS, SP, length + [NL]);
      SuccessTaken(length, rest);
    case TruncatedData =>
      var length, n, data :|
        NL !in length && Atoi(length) == Some(n) && |data| < n <= MAX_ALLOC
        && text == Join(SUCCESS, SP, length + [NL]) + data;
      SuccessTaken(length, data);
    case _ =>
      BadLineFails(text, e);
      BadFirstLine(text, Failed(e), rest);
  }

  lemma EndDecodes(text: Bytes, outcome: Outcome<Result>, rest: Bytes)
    requires EndsWith(text, outcome, rest)
    ensures DecodeResult(text + rest) == Reading([], outcome, rest)
  {
    hide DecodeResult, ReplyText, PanicText, ErrorText;
    match outcome
    case Panic => PanicDecodes(text, rest);
    case Done(r) => ReplyDecodes(text, r, rest);
    case Failed(e) => ErrorDecodes(text, e, rest);
  }

  /** A client hears the lines `ls` and gets a result, an error or a panic, with `rest` unread, exactly
      when the stream is these lines, then a text that stands for this outcome, then `rest`. */
  lemma ReplyGrammar(input: Bytes, ls: seq<LogLine>, outcome: Outcome<Result>, rest: Bytes)
    ensures DecodeResult(input) == Reading(ls, outcome, rest)
       <==> exists text :: EndsWith(text, outcome, rest) && Spells(input, ls, text, rest)
  {
    hide DecodeResult, EndsWith, EncodeLogs;
    if DecodeResult(input) == Reading(ls, outcome, rest) {
      var text := DecodedIsSpelled(input);
    }
    if exists text :: EndsWith(text, outcome, rest) && Spells(input, ls, text, rest) {
      var text :| EndsWith(text, outcome, rest) && Spells(input, ls, text, rest);
      EndDecodes(text, outcome, rest);
      LinesHeard(ls, text + rest);
      assert ls + [] == ls;
    }
  }

  // ---------- commands ----------

  /** A line without a space, or with one in front. */
  ghost predicate OneField(line: Bytes) { IsLine(line) && (SP !in line || line[0] == SP) }

  /** `kind` is the index of `t` in the table, or -1 when it is not there. */
  ghost predicate IsKind(t: Bytes, kind: int) {
    (0 <= kind < |KINDS| && KINDS[kind] == t) || (kind == UNKNOWN && t !in KINDS)
  }

  /** `text` has the two fields in front of `rem`. */
  ghost predicate AfterID(text: Bytes, rem: Bytes) {
    exists t, id :: Token(t) && Token(id) && text == Join(t, SP, Join(id, SP, rem))
  }

  ghost predicate CommandError(text: Bytes, e: WireError, rest: Bytes) {
    match e
    case PrematureEOF => NL !in text && rest == []
    case UnfinishedType => OneField(text)
    case UnfinishedID => exists t, rem :: Token(t) && OneField(rem) && text == Join(t, SP, rem)
    case UnfinishedLevel => AfterID(text, [NL])
    case InvalidLevel => exists word, rem :: Begins(rem, word) && NoLevelText(word) && AfterID(text, rem)
    case _ => false
  }

  ghost predicate CommandText(text: Bytes, outcome: Outcome<Command>, rest: Bytes) {
    match outcome
    case Done(c) =>
      && Token(c.id) && ValidLevel(c.level) && NL !in c.args
      && exists t :: Token(t) && IsKind(t, c.kind) && text == FourFields(t, c.id, c.level, c.args)
    case Panic =>
      exists t, id, level :: Token(t) && Token(id) && ValidLevel(level) && text == ThreeFields(t, id, level)
    case Failed(e) => CommandError(text, e, rest)
  }

  lemma FailedLevelIs(kind: int, id: Bytes, rem: Bytes)
    requires IsLine(rem) && ParseLevelAndArgs(kind, id, rem).Failed?
    ensures var e := ParseLevelAndArgs(kind, id, rem).error;
      || (e.UnfinishedLevel? && rem == [NL])
      || (e.InvalidLevel? && exists word :: Begins(rem, word) && NoLevelText(word))
  {
    hide IndexByte, TextOf, Begins, IsLine;
    FirstFieldIs(rem);
  }

  lemma FailedLineIs(line: Bytes, rest: Bytes)
    requires IsLine(line) && ParseCommand(line).Failed?
    ensures CommandError(line, ParseCommand(line).error, rest)
  {
    hide IndexByte, Begins, IsLine, NoLevelText, ParseLevelAndArgs, Join, KindOf, Token, AfterID;
    var p := IndexByte(line, SP);
    if p >= 1 {
      var t, rem := line[..p], line[p + 1..];
      FirstTokenIs(line);
      var q := IndexByte(rem, SP);
      if q >= 1 {
        FirstTokenIs(rem);
        FailedLevelIs(KindOf(t), rem[..q], rem[q + 1..]);
        AfterBoth(t, rem[..q], rem[q + 1..]);
      } else {
        assert OneField(rem);
      }
    }
  }

  lemma FirstTokenIs(line: Bytes)
    requires IsLine(line) && IndexByte(line, SP) >= 1
    ensures var p := IndexByte(line, SP);
      Token(line[..p]) && IsLine(line[p + 1..]) && line == Join(line[..p], SP, line[p + 1..])
  {
    hide IndexByte, IsLine, Join;
    LineAfter(line, IndexByte(line, SP));
  }

  lemma AfterBoth(t: Bytes, id: Bytes, rem: Bytes)
    requires Token(t) && Token(id)
    ensures AfterID(Join(t, SP, Join(id, SP, rem)), rem)
  {
  }

  lemma {:induction false} CommandIsSpelled(input: Bytes) returns (text: Bytes)
    ensures var d := DecodeCommand(input); CommandText(text, d.outcome, d.rest) && input == text + d.rest
  {
    hide IndexByte, ParseCommand, FourFields, ThreeFields, CommandError, KindOf;
    var d := DecodeCommand(input);
    if NL !in input {
      text := input;
      NoCommandText(text);
      assert text + [] == text;
    } else if d.outcome.Failed? {
      var p := IndexByte(input, NL);
      text := input[..p + 1];
      assert text[..p] == input[..p] && input == text + input[p + 1..];
      FailedLineIs(text, d.rest);
    } else {
      var t, id, level := DecodeOnlyFields(input);
      text := if d.outcome.Panic? then ThreeFields(t, id, level) else FourFields(t, id, level, d.outcome.value.args);
    }
  }

  lemma NoCommandText(text: Bytes)
    requires NL !in text
    ensures CommandError(text, PrematureEOF, [])
  {
  }

  lemma CommandErrorFails(text: Bytes, e: WireError, rest: Bytes)
    requires CommandError(text, e, rest) && !e.PrematureEOF?
    ensures IsLine(text) && ParseCommand(text) == Failed(e)
  {
    hide IndexByte, Begins, NoLevelText, ParseLevelAndArgs, Join, KindOf, Token, IsLine;
    match e
    case UnfinishedType => OneFieldOnly(text);
    case UnfinishedID =>
      var t, rem :| Token(t) && OneField(rem) && text == Join(t, SP, rem);
      OneFieldOnly(rem);
      SplitToken(t, rem);
    case UnfinishedLevel => LevelFails(text, [NL], e);
    case InvalidLevel =>
      var word, rem :| Begins(rem, word) && NoLevelText(word) && AfterID(text, rem);
      LevelFails(text, rem, e);
  }

  lemma OneFieldOnly(line: Bytes)
    requires OneField(line)
    ensures IsLine(line) && IndexByte(line, SP) < 1
  {
    hide IndexByte, IsLine;
  }

  lemma SplitToken(t: Bytes, rem: Bytes)
    requires Token(t) && IsLine(rem)
    ensures var line := Join(t, SP, rem);
      IsLine(line) && IndexByte(line, SP) == |t| >= 1 && line[..|t|] == t && line[|t| + 1..] == rem
  {
    hide IndexByte, IsLine, Join;
    JoinSplits(t, SP, rem);
    LineEnds(rem);
    PlainJoin(t, rem[..|rem| - 1]);
  }

  lemma LevelIsBad(kind: int, id: Bytes, rem: Bytes, e: WireError)
    requires (e == UnfinishedLevel && rem == [NL])
          || (e == InvalidLevel && exists word :: Begins(rem, word) && NoLevelText(word))
    ensures IsLine(rem) && ParseLevelAndArgs(kind, id, rem) == Failed(e)
  {
    hide IndexByte, Begins, TextOf;
    EmptyLine();
    if e == InvalidLevel {
      var word :| Begins(rem, word) && NoLevelText(word);
      FirstFieldOnly(rem, word);
    } else {
      FirstFieldIs(rem);
    }
  }

  lemma LevelFails(text: Bytes, rem: Bytes, e: WireError)
    requires AfterID(text, rem)
    requires (e == UnfinishedLevel && rem == [NL])
          || (e == InvalidLevel && exists word :: Begins(rem, word) && NoLevelText(word))
    ensures IsLine(text) && ParseCommand(text) == Failed(e)
  {
    hide IndexByte, Begins, Join, KindOf, IsLine, NoLevelText, ParseLevelAndArgs;
    var t, id :| Token(t) && Token(id) && text == Join(t, SP, Join(id, SP, rem));
    LevelIsBad(KindOf(t), id, rem, e);
    SplitToken(id, rem);
    SplitToken(t, Join(id, SP, rem));
    ParseFields(t, id, rem);
  }

  lemma KindIs(t: Bytes, kind: int)
    requires IsKind(t, kind)
    ensures KindOf(t) == kind
  {
    if kind != UNKNOWN {
      KindTexts(kind);
    }
  }

  /** The daemon reads a command, reports an error or panics, with `rest` unread, exactly when the stream
      is a text that stands for this outcome, then `rest`. */
  lemma CommandGrammar(input: Bytes, outcome: Outcome<Command>, rest: Bytes)
    ensures DecodeCommand(input) == Decoded(outcome, rest)
       <==> exists text :: CommandText(text, outcome, rest) && input == text + rest
  {
    hide DecodeCommand, CommandText;
    if DecodeCommand(input) == Decoded(outcome, rest) {
      var text := CommandIsSpelled(input);
    }
    if exists text :: CommandText(text, outcome, rest) && input == text + rest {
      var text :| CommandText(text, outcome, rest) && input == text + rest;
      CommandDecodes(text, outcome, rest);
    }
  }

  lemma CommandDecodes(text: Bytes, outcome: Outcome<Command>, rest: Bytes)
    requires CommandText(text, outcome, rest)
    ensures DecodeCommand(text + rest) == Decoded(outcome, rest)
  {
    hide FourFields, ThreeFields, CommandError, ParseCommand, IsKind, DecodeCommand, KindOf;
    match outcome
    case Done(c) =>
      var t :| Token(t) && IsKind(t, c.kind) && text == FourFields(t, c.id, c.level, c.args);
      KindIs(t, c.kind);
      DecodeFourFields(t, c.id, c.level, c.args, rest);
    case Panic =>
      var t, id, level :| Token(t) && Token(id) && ValidLevel(level) && text == ThreeFields(t, id, level);
      DecodeThreeFields(t, id, level, rest);
    case Failed(e) =>
      if e.PrematureEOF? {
        NoCommand(text, rest);
      } else {
        CommandErrorFails(text, e, rest);
        DecodeOneLine(text[..|text| - 1], rest);
        assert text == text[..|text| - 1] + [NL];
      }
  }

  lemma NoCommand(text: Bytes, rest: Bytes)
    requires CommandError(text, PrematureEOF, rest)
    ensures DecodeCommand(text + rest) == Decoded(Failed(PrematureEOF), rest)
  {
    assert text + rest == text;
  }
}
