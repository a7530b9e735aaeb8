/** The command line a client sends (protocol/command.go): `type id level[ args]` and a newline. */
module Commands {
  import opened ByteText
  import opened Levels
  import opened Streams

  const EVAL: int := 0
  const LIST: int := 1
  const UNKNOWN: int := -1

  /** "eval" and "list". */
  const KINDS: seq<Bytes> := [[101, 118, 97, 108], [108, 105, 115, 116]]

  datatype Command = Command(kind: int, id: Bytes, level: int, args: Bytes)

  /** A token: non-empty, and free of space and newline. */
  predicate Token(s: Bytes) { s != [] && SP !in s && NL !in s }

  function KindOf(t: Bytes): (k: int)
    ensures k == UNKNOWN || (0 <= k < |KINDS| && KINDS[k] == t)
    ensures k == UNKNOWN ==> t !in KINDS
  {
    if t == KINDS[EVAL] then EVAL else if t == KINDS[LIST] then LIST else UNKNOWN
  }

  /** The bytes `WriteCommand` puts on the wire. */
  function EncodeCommand(cmd: Command): Bytes
    requires 0 <= cmd.kind < |KINDS| && ValidLevel(cmd.level)
  {
    if cmd.args != [] then FourFields(KINDS[cmd.kind], cmd.id, cmd.level, cmd.args)
    else ThreeFields(KINDS[cmd.kind], cmd.id, cmd.level)
  }

  /** A command line with its arguments field present, possibly empty. */
  function FourFields(t: Bytes, id: Bytes, level: int, args: Bytes): Bytes
    requires ValidLevel(level)
  {
    Join(t, SP, Join(id, SP, Join(TextOf(level), SP, args + [NL])))
  }

  /** A command line that ends right after the level. */
  function ThreeFields(t: Bytes, id: Bytes, level: int): Bytes
    requires ValidLevel(level)
  {
    Join(t, SP, Join(id, SP, TextOf(level) + [NL]))
  }

  lemma FieldsInPieces(t: Bytes, id: Bytes, x: Bytes, args: Bytes)
    ensures t + [SP] + id + [SP] + x + [SP] + args + [NL] == Join(t, SP, Join(id, SP, Join(x, SP, args + [NL])))
    ensures t + [SP] + id + [SP] + x + [NL] == Join(t, SP, Join(id, SP, x + [NL]))
  {
  }

  /** The line on the wire, field by field. */
  lemma CommandText(cmd: Command)
    requires 0 <= cmd.kind < |KINDS| && ValidLevel(cmd.level)
    ensures EncodeCommand(cmd)
         == KINDS[cmd.kind] + [SP] + cmd.id + [SP] + TextOf(cmd.level)
            + (if cmd.args == [] then [] else [SP] + cmd.args) + [NL]
  {
    hide TextOf, Join;
    FieldsInPieces(KINDS[cmd.kind], cmd.id, TextOf(cmd.level), cmd.args);
  }

  datatype WriteResult = Written | BadLevel | Broken

  /** Writes field by field and stops at the first error. */
  method WriteCommand(w: Writer, cmd: Command) returns (r: WriteResult)
    requires 0 <= cmd.kind < |KINDS|
    modifies w
    ensures r.BadLevel? ==> !ValidLevel(cmd.level) && !w.broken
                            && w.Out() == old(w.Out()) + (KINDS[cmd.kind] + [SP] + cmd.id + [SP])
    ensures r.Written? ==> ValidLevel(cmd.level) && !w.broken
                           && w.sent == w.Out() == old(w.Out()) + EncodeCommand(cmd)
    ensures r.Broken? ==> w.broken
                          && (ValidLevel(cmd.level) ==> w.sent <= old(w.Out()) + EncodeCommand(cmd))
    ensures w.reliable && !old(w.broken) ==> !r.Broken?
  {
    hide TextOf, Join;
    ghost var o, t := w.Out(), KINDS[cmd.kind];
    var ok := w.Write(KINDS[cmd.kind]);
    ok := w.WriteNext(ok, [SP], o, t);
    ok := w.WriteNext(ok, cmd.id, o, t + [SP]);
    ok := w.WriteNext(ok, [SP], o, t + [SP] + cmd.id);
    ghost var x := t + [SP] + cmd.id + [SP];
    var text := MarshalText(cmd.level);
    if text.None? {
      return if ok then BadLevel else Broken;
    }
    ok := w.WriteNext(ok, text.value, o, x);
    x := x + text.value;
    if cmd.args != [] {
      ok := w.WriteNext(ok, [SP], o, x);
      ok := w.WriteNext(ok, cmd.args, o, x + [SP]);
      x := x + [SP] + cmd.args;
    }
    ok := w.WriteNext(ok, [NL], o, x);
    FieldsInPieces(t, cmd.id, text.value, cmd.args);
    if ok {
      ok := w.Flush();
    }
    return if ok then Written else Broken;
  }

  /** A complete line, newline included. */
  predicate IsLine(line: Bytes) {
    line != [] && line[|line| - 1] == NL && NL !in line[..|line| - 1]
  }

  /** What `ReadCommand` makes of one complete line. */
  function ParseCommand(line: Bytes): Outcome<Command>
    requires IsLine(line)
  {
    var p := IndexByte(line, SP);
    if p < 1 then Failed(UnfinishedType)
    else
      var rem := line[p + 1..];
      var q := IndexByte(rem, SP);
      if q < 1 then Failed(UnfinishedID)
      else
        ParseLevelAndArgs(KindOf(line[..p]), rem[..q], rem[q + 1..])
  }

  function ParseLevelAndArgs(kind: int, id: Bytes, rem: Bytes): Outcome<Command> {
    var s := IndexByte(rem, SP);
    var p := if s < 1 then |rem| - 1 else s;
    if p < 1 then Failed(UnfinishedLevel)
    else
      match LevelOf(rem[..p])
      case None => Failed(InvalidLevel)
      case Some(level) =>
        if p + 1 > |rem| - 1 then Panic
        else Done(Command(kind, id, level, rem[p + 1..|rem| - 1]))
  }

  function DecodeCommand(input: Bytes): Decoded<Command> {
    var p := IndexByte(input, NL);
    if p < 0 then Decoded(Failed(PrematureEOF), [])
    else
      assert input[..p + 1][..p] == input[..p];
      Decoded(ParseCommand(input[..p + 1]), input[p + 1..])
  }

  lemma DecodeOneLine(a: Bytes, rest: Bytes)
    requires NL !in a
    ensures IsLine(a + [NL])
    ensures DecodeCommand(a + [NL] + rest) == Decoded(ParseCommand(a + [NL]), rest)
  {
    hide ParseCommand;
    JoinSplits(a, NL, rest);
    assert (a + [NL])[..|a|] == a;
    assert (a + [NL] + rest)[..|a| + 1] == a + [NL];
  }

  /** The scan of the table of command types; the last match would win. */
  method LookUpKind(t: Bytes) returns (kind: int)
    ensures kind == KindOf(t)
  {
    kind := UNKNOWN;
    for i := 0 to |KINDS|
      invariant kind == UNKNOWN || (0 <= kind < |KINDS| && KINDS[kind] == t)
      invariant kind == UNKNOWN ==> t !in KINDS[..i]
    {
      if t == KINDS[i] {
        kind := i;
      }
    }
    if kind != UNKNOWN {
      KindTexts(kind);
    }
  }

  method ReadCommand(r: Reader) returns (out: Outcome<Command>)
    modifies r
    ensures r.faults == old(r.faults) ==> Decoded(out, r.unread) == DecodeCommand(old(r.unread))
    ensures r.faults != old(r.faults) ==> out == Failed(ReadFault)
    ensures r.faults <= old(r.faults)
  {
    hide ParseCommand;
    var line, status := r.ReadLine();
    if status == EndOfStream {
      return Failed(PrematureEOF);
    } else if status == Fault {
      return Failed(ReadFault);
    }
    DecodeOneLine(line[..|line| - 1], r.unread);
    assert line == line[..|line| - 1] + [NL];
    out := ReadFields(line);
  }

  /** The part of `ReadCommand` that takes the line apart. */
  method ReadFields(line: Bytes) returns (out: Outcome<Command>)
    requires IsLine(line)
    ensures out == ParseCommand(line)
  {
    hide KindOf, ParseLevelAndArgs, IsLine, IndexByte;
    var rem := line;
    var p := IndexByte(rem, SP);
    if p < 1 {
      return Failed(UnfinishedType);
    }
    var kind := LookUpKind(rem[..p]);
    rem := rem[p + 1..];
    p := IndexByte(rem, SP);
    if p < 1 {
      return Failed(UnfinishedID);
    }
    var id := rem[..p];
    rem := rem[p + 1..];
    out := ReadLevelAndArgs(kind, id, rem);
  }

  method ReadLevelAndArgs(kind: int, id: Bytes, rest: Bytes) returns (out: Outcome<Command>)
    ensures out == ParseLevelAndArgs(kind, id, rest)
  {
    hide LevelOf, IndexByte;
    var rem := rest;
    var p := IndexByte(rem, SP);
    if p < 1 {
      p := |rem| - 1;
      if p < 1 {
        return Failed(UnfinishedLevel);
      }
    }
    var level := UnmarshalText(rem[..p]);
    if level.None? {
      return Failed(InvalidLevel);
    }
    if p + 1 > |rem| - 1 {
      return Panic;
    }
    rem := rem[p + 1..|rem| - 1];
    return Done(Command(kind, id, level.value, rem));
  }

  // ---------- what the decoder accepts ----------

  /** The first two cuts of `ParseCommand`. */
  lemma ParseFields(t: Bytes, id: Bytes, rem: Bytes)
    requires Token(t) && Token(id)
    requires IsLine(Join(t, SP, Join(id, SP, rem)))
    ensures ParseCommand(Join(t, SP, Join(id, SP, rem))) == ParseLevelAndArgs(KindOf(t), id, rem)
  {
    hide KindOf, ParseLevelAndArgs, Join, IndexByte, IsLine;
    JoinSplits(t, SP, Join(id, SP, rem));
    JoinSplits(id, SP, rem);
  }

  /** Every four-field line decodes to its fields, whatever its type token is, and takes exactly
      its own bytes from the stream. */
  lemma DecodeFourFields(t: Bytes, id: Bytes, level: int, args: Bytes, rest: Bytes)
    requires Token(t) && Token(id) && ValidLevel(level) && NL !in args
    ensures DecodeCommand(FourFields(t, id, level, args) + rest)
         == Decoded(Done(Command(KindOf(t), id, level, args)), rest)
  {
    hide TextOf, KindOf, ParseCommand, DecodeCommand, IndexByte;
    var x := TextOf(level);
    var rem := Join(x, SP, args + [NL]);
    var a := Join(t, SP, Join(id, SP, Join(x, SP, args)));
    assert FourFields(t, id, level, args) == a + [NL];
    DecodeOneLine(a, rest);
    ParseFields(t, id, rem);
    JoinSplits(x, SP, args + [NL]);
    LevelTextsDistinct(level);
    assert rem[|x| + 1..|rem| - 1] == args;
  }

  /** A line that ends right after a valid level makes the reader slice out of range. */
  lemma DecodeThreeFields(t: Bytes, id: Bytes, level: int, rest: Bytes)
    requires Token(t) && Token(id) && ValidLevel(level)
    ensures DecodeCommand(ThreeFields(t, id, level) + rest) == Decoded(Panic, rest)
  {
    hide TextOf, KindOf, ParseCommand, DecodeCommand, IndexByte;
    var x := TextOf(level);
    var a := Join(t, SP, Join(id, SP, x));
    assert ThreeFields(t, id, level) == a + [NL];
    DecodeOneLine(a, rest);
    ParseFields(t, id, x + [NL]);
    LevelTextsDistinct(level);
    assert (x + [NL])[..|x|] == x;
  }

  /** What follows a separator inside a line is a line again. */
  lemma LineAfter(line: Bytes, p: nat)
    requires IsLine(line) && p < |line| && line[p] == SP
    ensures NL !in line[..p] && IsLine(line[p + 1..])
    ensures line == Join(line[..p], SP, line[p + 1..])
  {
  }

  /** Only a line end `x args` or `x` gets past the level: the end of `DecodeOnlyFields`. */
  lemma ParseOnlyLevelAndArgs(kind: int, id: Bytes, rem: Bytes) returns (level: int)
    requires IsLine(rem)
    requires !ParseLevelAndArgs(kind, id, rem).Failed?
    ensures ValidLevel(level)
    ensures match ParseLevelAndArgs(kind, id, rem)
            case Panic => rem == TextOf(level) + [NL]
            case Done(c) => NL !in c.args && c == Command(kind, id, level, c.args)
                            && rem == Join(TextOf(level), SP, c.args + [NL])
  {
    hide TextOf, IndexByte, LevelOf, Join, IsLine;
    var s := IndexByte(rem, SP);
    var n := |rem| - 1;
    assert rem[n] == NL && NL !in rem[..n] && rem == rem[..n] + [NL] by { LineEnds(rem); }
    if s >= 1 {
      level := LevelOf(rem[..s]).value;
      LineAfter(rem, s);
      LineEnds(rem[s + 1..]);
      assert rem[s + 1..n] == rem[s + 1..][..n - s - 1];
    } else {
      level := LevelOf(rem[..n]).value;
    }
  }

  lemma LineEnds(line: Bytes)
    requires IsLine(line)
    ensures var n := |line| - 1; line[n] == NL && NL !in line[..n] && line == line[..n] + [NL]
  {
  }

  /** Only lines of three or four fields get past `ParseCommand`. */
  lemma ParseOnlyFields(line: Bytes) returns (t: Bytes, id: Bytes, level: int)
    requires IsLine(line) && !ParseCommand(line).Failed?
    ensures Token(t) && Token(id) && ValidLevel(level)
    ensures match ParseCommand(line)
            case Panic => line == ThreeFields(t, id, level)
            case Done(c) => NL !in c.args && c == Command(KindOf(t), id, level, c.args)
                            && line == FourFields(t, id, level, c.args)
  {
    hide TextOf, KindOf, ParseLevelAndArgs, IndexByte;
    var p := IndexByte(line, SP);
    var rem := line[p + 1..];
    var q := IndexByte(rem, SP);
    var rem2 := rem[q + 1..];
    t, id := line[..p], rem[..q];
    hide IsLine;
    LineAfter(line, p);
    LineAfter(rem, q);
    level := ParseOnlyLevelAndArgs(KindOf(t), id, rem2);
  }

  /** Conversely, an input is accepted only if it begins with a four-field line, and makes the
      reader panic only if it begins with a three-field line. */
  lemma DecodeOnlyFields(input: Bytes) returns (t: Bytes, id: Bytes, level: int)
    requires !DecodeCommand(input).outcome.Failed?
    ensures Token(t) && Token(id) && ValidLevel(level)
    ensures var d := DecodeCommand(input);
            match d.outcome
            case Panic => input == ThreeFields(t, id, level) + d.rest
            case Done(c) => NL !in c.args && c == Command(KindOf(t), id, level, c.args)
                            && input == FourFields(t, id, level, c.args) + d.rest
  {
    hide TextOf, KindOf, ParseCommand, Join;
    var n := IndexByte(input, NL);
    var line := input[..n + 1];
    assert line[..n] == input[..n];
    assert input == line + input[n + 1..];
    t, id, level := ParseOnlyFields(line);
  }

  /** Writing then reading a command gives it back, with the following bytes left unread, exactly
      when the ID is a token and the arguments are not empty and hold no newline. */
  lemma CommandRoundTrip(cmd: Command, rest: Bytes)
    requires 0 <= cmd.kind < |KINDS| && ValidLevel(cmd.level)
    ensures DecodeCommand(EncodeCommand(cmd) + rest) == Decoded(Done(cmd), rest)
       <==> Token(cmd.id) && cmd.args != [] && NL !in cmd.args
  {
    hide TextOf, DecodeCommand, Join;
    var t := KINDS[cmd.kind];
    KindTexts(cmd.kind);
    if Token(cmd.id) && cmd.args != [] && NL !in cmd.args {
      DecodeFourFields(t, cmd.id, cmd.level, cmd.args, rest);
    }
    if DecodeCommand(EncodeCommand(cmd) + rest) == Decoded(Done(cmd), rest) {
      var t', id, level := DecodeOnlyFields(EncodeCommand(cmd) + rest);
      FieldLengths(t, id, level, cmd.args);
    }
  }

  lemma KindTexts(kind: int)
    requires 0 <= kind < |KINDS|
    ensures Token(KINDS[kind]) && KindOf(KINDS[kind]) == kind
  {
  }

  lemma FieldLengths(t: Bytes, id: Bytes, level: int, args: Bytes)
    requires ValidLevel(level)
    ensures |FourFields(t, id, level, args)| == |t| + |id| + |TextOf(level)| + |args| + 4
    ensures |ThreeFields(t, id, level)| == |t| + |id| + |TextOf(level)| + 3
  {
  }

  /** A newline in the arguments ends the line early; the rest of them stays in the stream. */
  lemma FourFieldsSplit(t: Bytes, id: Bytes, level: int, args: Bytes, rest: Bytes)
    requires ValidLevel(level)
    ensures FourFields(t, id, level, args) + rest
         == FourFields(t, id, level, UpToNewline(args)) + (args + [NL] + rest)[|UpToNewline(args)| + 1..]
  {
  }

  /** A written command without arguments makes the reader panic. The `list` command is one. */
  lemma CommandWithoutArgsPanics(cmd: Command, rest: Bytes)
    requires 0 <= cmd.kind < |KINDS| && ValidLevel(cmd.level) && Token(cmd.id)
    ensures DecodeCommand(EncodeCommand(cmd) + rest).outcome.Panic? <==> cmd.args == []
  {
    hide TextOf, DecodeCommand, Join;
    var t := KINDS[cmd.kind];
    KindTexts(cmd.kind);
    if cmd.args == [] {
      DecodeThreeFields(t, cmd.id, cmd.level, rest);
    } else {
      var line := UpToNewline(cmd.args);
      var rest' := (cmd.args + [NL] + rest)[|line| + 1..];
      FourFieldsSplit(t, cmd.id, cmd.level, cmd.args, rest);
      DecodeFourFields(t, cmd.id, cmd.level, line, rest');
    }
  }

  /** A type token outside the table is not an error: the command comes back with type -1. */
  lemma UnknownTypeIsAccepted(t: Bytes, id: Bytes, level: int, args: Bytes, rest: Bytes)
    requires Token(t) && t !in KINDS && Token(id) && ValidLevel(level) && NL !in args
    ensures DecodeCommand(FourFields(t, id, level, args) + rest)
         == Decoded(Done(Command(UNKNOWN, id, level, args)), rest)
  {
    DecodeFourFields(t, id, level, args, rest);
  }

  /** A command cut short at any byte is a premature end of stream. */
  lemma TruncatedCommand(cmd: Command, cut: nat)
    requires 0 <= cmd.kind < |KINDS| && ValidLevel(cmd.level)
    requires NL !in cmd.id && NL !in cmd.args && cut < |EncodeCommand(cmd)|
    ensures DecodeCommand(EncodeCommand(cmd)[..cut]) == Decoded(Failed(PrematureEOF), [])
  {
    hide TextOf, Join, IndexByte;
    var x := TextOf(cmd.level);
    var last := if cmd.args != [] then Join(x, SP, cmd.args) else x;
    var a := Join(KINDS[cmd.kind], SP, Join(cmd.id, SP, last));
    assert NL !in a && EncodeCommand(cmd) == a + [NL] by { OneCommandLine(cmd); }
    assert EncodeCommand(cmd)[..cut] == a[..cut];
  }

  lemma OneCommandLine(cmd: Command)
    requires 0 <= cmd.kind < |KINDS| && ValidLevel(cmd.level) && NL !in cmd.id && NL !in cmd.args
    ensures var last := if cmd.args != [] then Join(TextOf(cmd.level), SP, cmd.args) else TextOf(cmd.level);
      var a := Join(KINDS[cmd.kind], SP, Join(cmd.id, SP, last));
      NL !in a && EncodeCommand(cmd) == a + [NL]
  {
    hide TextOf;
    KindTexts(cmd.kind);
  }
}
