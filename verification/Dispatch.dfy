/** What the daemon does with a connection's bytes up to the point where it looks for the message
    (handle and the first half of handleEval, daemon/daemon.go): exactly which streams it evaluates, and
    exactly which make it panic. Nothing recovers from such a panic. */
module Dispatch {
  import opened ByteText
  import opened Levels
  import opened Streams
  import opened Commands
  import opened EvalFrames
  import Grammars

  datatype Handled =
    | Dropped                       // no command could be read: the connection is closed without a reply
    | Crashed
    | Listed(accepted: bool)        // a list command is refused when it has arguments
    | Refusal(error: EvalError)
    | Evaluating(request: Request)

  datatype HandledStream = HandledStream(what: Handled, rest: Bytes)

  function HandleStream(input: Bytes, known: set<Bytes>): HandledStream {
    var d := DecodeCommand(input);
    match d.outcome
    case Failed(_) => HandledStream(Dropped, d.rest)
    case Panic => HandledStream(Crashed, d.rest)
    case Done(cmd) =>
      if cmd.kind == EVAL then
        var r := Receive(cmd.args, known, d.rest);
        HandledStream(HandledOf(r.request), r.rest)
      else if cmd.kind == LIST then HandledStream(Listed(cmd.args == []), d.rest)
      else HandledStream(Crashed, d.rest)
  }

  function HandledOf(p: Parsed<Request>): Handled {
    match p
    case Good(request) => Evaluating(request)
    case Refused(error) => Refusal(error)
    case Panicked => Crashed
  }

  /** The same through a buffered reader. A read failure never makes it evaluate or panic. */
  method Handle(r: Reader, known: set<Bytes>) returns (what: Handled)
    modifies r
    ensures r.faults == old(r.faults) ==> HandledStream(what, r.unread) == HandleStream(old(r.unread), known)
    ensures r.faults != old(r.faults) ==> what.Dropped? || what.Refusal?
  {
    hide DecodeCommand, Receive;
    var cmd := ReadCommand(r);
    match cmd
    case Failed(_) => return Dropped;
    case Panic => return Crashed;
    case Done(c) =>
      if c.kind == LIST {
        return Listed(c.args == []);
      } else if c.kind == EVAL {
        var received := ReceiveEval(r, c.args, known);
        return HandledOf(received);
      } else {
        return Crashed;
      }
  }

  /** The arguments of an eval command: a length, a group, and perhaps a rule. */
  ghost predicate ArgsText(args: Bytes, n: int, group: Bytes, rule: Bytes) {
    exists length :: Atoi(length) == Some(n) && SP !in length && SP !in group
      && ((rule == [] && args == Join(length, SP, group)) || args == Join(length, SP, Join(group, SP, rule)))
  }

  lemma ParseGrammar(args: Bytes, a: EvalArgs)
    ensures ParseEvalArgs(args) == Good(a) <==> a.n >= 0 && ArgsText(args, a.n, a.group, a.rule)
  {
    hide Atoi, IndexByte, Cut, Join;
    if ParseEvalArgs(args) == Good(a) {
      var c := Cut(args, SP);
      var d := Cut(c.after, SP);
      JoinsOf(args);
    }
    if a.n >= 0 && ArgsText(args, a.n, a.group, a.rule) {
      var length :| Atoi(length) == Some(a.n) && SP !in length && SP !in a.group
        && ((a.rule == [] && args == Join(length, SP, a.group)) || args == Join(length, SP, Join(a.group, SP, a.rule)));
      if args == Join(length, SP, Join(a.group, SP, a.rule)) {
        CutAt(length, SP, Join(a.group, SP, a.rule));
        CutAt(a.group, SP, a.rule);
      } else {
        CutAt(length, SP, a.group);
        CutNothing(a.group);
      }
    }
  }

  lemma JoinsOf(args: Bytes)
    ensures var c := Cut(args, SP);
      c.found ==> args == Join(c.before, SP, c.after)
                  && (Cut(c.after, SP).found ==> c.after == Join(Cut(c.after, SP).before, SP, Cut(c.after, SP).after))
  {
    hide Cut;
  }

  lemma CutNothing(s: Bytes)
    requires SP !in s
    ensures Cut(s, SP) == CutResult(s, [], false)
  {
  }

  // ---------- whole streams ----------

  /** A stream that begins with an eval command. */
  ghost predicate Evals(input: Bytes, id: Bytes, level: int, args: Bytes, rest: Bytes) {
    && Token(id) && ValidLevel(level) && NL !in args
    && input == FourFields(KINDS[EVAL], id, level, args) + rest
  }

  lemma EvalsOnly(input: Bytes) returns (id: Bytes, level: int, args: Bytes, rest: Bytes)
    requires DecodeCommand(input).outcome.Done? && DecodeCommand(input).outcome.value.kind == EVAL
    ensures Evals(input, id, level, args, rest)
    ensures DecodeCommand(input) == Decoded(Done(Command(EVAL, id, level, args)), rest)
  {
    hide DecodeCommand, FourFields;
    var t;
    t, id, level := DecodeOnlyFields(input);
    args, rest := DecodeCommand(input).outcome.value.args, DecodeCommand(input).rest;
  }

  lemma EvalsDecodes(input: Bytes, id: Bytes, level: int, args: Bytes, rest: Bytes)
    requires Evals(input, id, level, args, rest)
    ensures DecodeCommand(input) == Decoded(Done(Command(EVAL, id, level, args)), rest)
  {
    hide DecodeCommand, FourFields;
    KindTexts(EVAL);
    DecodeFourFields(KINDS[EVAL], id, level, args, rest);
  }

  /** The daemon evaluates a request, leaving `rest` unread, exactly when the stream is an eval line that
      announces the body's length and names a known group, in any spelling of the length, then the body,
      then `rest`. */
  lemma EvaluatesExactly(input: Bytes, known: set<Bytes>, q: Request, rest: Bytes)
    ensures HandleStream(input, known) == HandledStream(Evaluating(q), rest) <==>
      && q.group in known && Slice(q.body)
      && exists id, level, args ::
           ArgsText(args, |q.body|, q.group, q.rule) && Evals(input, id, level, args, q.body + rest)
  {
    hide DecodeCommand, ParseEvalArgs, ArgsText, Evals;
    if HandleStream(input, known) == HandledStream(Evaluating(q), rest) {
      var id, level, args, tail := EvalsOnly(input);
      var a := ParseEvalArgs(args).value;
      ParseGrammar(args, a);
      assert tail == q.body + rest;
    }
    if q.group in known && Slice(q.body)
       && exists id, level, args ::
            ArgsText(args, |q.body|, q.group, q.rule) && Evals(input, id, level, args, q.body + rest) {
      var id, level, args :|
        ArgsText(args, |q.body|, q.group, q.rule) && Evals(input, id, level, args, q.body + rest);
      EvalsDecodes(input, id, level, args, q.body + rest);
      ParseGrammar(args, EvalArgs(|q.body|, q.group, q.rule));
      assert (q.body + rest)[..|q.body|] == q.body && (q.body + rest)[|q.body|..] == rest;
    }
  }

  /** A command line that ends right after its level. */
  ghost predicate EndsAfterLevel(input: Bytes) {
    exists t, id, level, rest ::
      Token(t) && Token(id) && ValidLevel(level) && input == ThreeFields(t, id, level) + rest
  }

  /** A command of a type that is not in the table. */
  ghost predicate HasUnknownType(input: Bytes) {
    exists t, id, level, args, rest ::
      Token(t) && t !in KINDS && Token(id) && ValidLevel(level) && NL !in args
      && input == FourFields(t, id, level, args) + rest
  }

  /** An eval command whose length no allocation can have. */
  ghost predicate AsksTooMuch(input: Bytes) {
    exists id, level, args, n, group, rule, rest ::
      n > MAX_ALLOC && ArgsText(args, n, group, rule) && Evals(input, id, level, args, rest)
  }

  lemma UnknownIsNoKind(t: Bytes)
    ensures KindOf(t) == UNKNOWN <==> t !in KINDS
    ensures KindOf(t) in {EVAL, LIST, UNKNOWN}
  {
  }

  lemma CrashesOnlyThen(input: Bytes, known: set<Bytes>)
    requires HandleStream(input, known).what.Crashed?
    ensures EndsAfterLevel(input) || HasUnknownType(input) || AsksTooMuch(input)
  {
    hide DecodeCommand, ParseEvalArgs, ArgsText, Evals, FourFields, ThreeFields, KindOf;
    var t, id, level := DecodeOnlyFields(input);
    var d := DecodeCommand(input);
    UnknownIsNoKind(t);
    if d.outcome.Done? && d.outcome.value.kind == EVAL {
      var args, rest;
      id, level, args, rest := EvalsOnly(input);
      var a := ParseEvalArgs(args).value;
      ParseGrammar(args, a);
    }
  }

  lemma ThenItCrashes(input: Bytes, known: set<Bytes>)
    requires EndsAfterLevel(input) || HasUnknownType(input) || AsksTooMuch(input)
    ensures HandleStream(input, known).what.Crashed?
  {
    hide DecodeCommand, ParseEvalArgs, ArgsText, Evals, FourFields, ThreeFields, KindOf;
    if EndsAfterLevel(input) {
      var t, id, level, rest :| Token(t) && Token(id) && ValidLevel(level) && input == ThreeFields(t, id, level) + rest;
      DecodeThreeFields(t, id, level, rest);
    } else if HasUnknownType(input) {
      var t, id, level, args, rest :|
        Token(t) && t !in KINDS && Token(id) && ValidLevel(level) && NL !in args
        && input == FourFields(t, id, level, args) + rest;
      DecodeFourFields(t, id, level, args, rest);
      UnknownIsNoKind(t);
    } else {
      var id, level, args, n, group, rule, rest :|
        n > MAX_ALLOC && ArgsText(args, n, group, rule) && Evals(input, id, level, args, rest);
      EvalsDecodes(input, id, level, args, rest);
      ParseGrammar(args, EvalArgs(n, group, rule));
    }
  }

  /** The daemon panics on exactly three kinds of stream, whatever groups it has. */
  lemma CrashesExactly(input: Bytes, known: set<Bytes>)
    ensures HandleStream(input, known).what.Crashed? <==>
      EndsAfterLevel(input) || HasUnknownType(input) || AsksTooMuch(input)
  {
    hide HandleStream, EndsAfterLevel, HasUnknownType, AsksTooMuch;
    if HandleStream(input, known).what.Crashed? {
      CrashesOnlyThen(input, known);
    }
    if EndsAfterLevel(input) || HasUnknownType(input) || AsksTooMuch(input) {
      ThenItCrashes(input, known);
    }
  }

  /** What is wrong with the arguments or with what follows them. */
  ghost predicate Faulty(args: Bytes, known: set<Bytes>, tail: Bytes, e: EvalError, rest: Bytes) {
    match e
    case EmptyArgs => args == [] && rest == tail
    case BadLength(text) =>
      && rest == tail && args != [] && SP !in text && (Atoi(text).None? || Atoi(text).value < 0)
      && (args == text || exists more :: args == Join(text, SP, more))
    case NoGroup => rest == tail && SP !in args && Atoi(args).Some? && Atoi(args).value >= 0
    case GroupNotFound(group) =>
      && group !in known
      && exists n, rule :: 0 <= n <= MAX_ALLOC && ArgsText(args, n, group, rule)
                           && rest == if n <= |tail| then tail[n..] else []
    case InsufficientInput(received, expected) =>
      && received == |tail| < expected <= MAX_ALLOC && rest == []
      && exists group, rule :: group in known && ArgsText(args, expected, group, rule)
    case InputFault => false
  }

  lemma NoNumber()
    ensures Atoi([]).None?
  {
  }

  lemma ParseErrors(args: Bytes, known: set<Bytes>, tail: Bytes, e: EvalError)
    ensures ParseEvalArgs(args) == Refused(e) <==>
      !e.GroupNotFound? && !e.InsufficientInput? && Faulty(args, known, tail, e, tail)
  {
    hide Atoi, IndexByte, Cut, Join, ArgsText;
    JoinsOf(args);
    match e
    case BadLength(text) =>
      if Faulty(args, known, tail, e, tail) {
        if args == text {
          CutNothing(text);
        } else {
          var more :| args == Join(text, SP, more);
          CutAt(text, SP, more);
        }
      }
    case NoGroup =>
      NoNumber();
      if SP !in args {
        CutNothing(args);
      }
    case _ =>
  }

  lemma ReceiveRefuses(args: Bytes, known: set<Bytes>, tail: Bytes, e: EvalError, rest: Bytes)
    ensures Receive(args, known, tail) == Received(Refused(e), rest) <==> Faulty(args, known, tail, e, rest)
  {
    hide ParseEvalArgs, ArgsText, Faulty;
    ParseErrors(args, known, tail, e);
    match ParseEvalArgs(args)
    case Refused(e') =>
      ParseErrors(args, known, tail, e');
      OtherFaults(args, known, tail, e, rest);
    case Good(a) =>
      ParseGrammar(args, a);
      OtherFaults(args, known, tail, e, rest);
  }

  lemma OtherFaults(args: Bytes, known: set<Bytes>, tail: Bytes, e: EvalError, rest: Bytes)
    ensures !e.GroupNotFound? && !e.InsufficientInput? && Faulty(args, known, tail, e, rest) ==> rest == tail
    ensures match e
      case GroupNotFound(group) => Faulty(args, known, tail, e, rest) <==>
        ParseEvalArgs(args).Good? && var a := ParseEvalArgs(args).value;
        a.group == group && group !in known && a.n <= MAX_ALLOC && rest == if a.n <= |tail| then tail[a.n..] else []
      case InsufficientInput(received, expected) => Faulty(args, known, tail, e, rest) <==>
        ParseEvalArgs(args).Good? && var a := ParseEvalArgs(args).value;
        a.group in known && received == |tail| < expected == a.n <= MAX_ALLOC && rest == []
      case _ => true
  {
    hide ParseEvalArgs, ArgsText, Atoi, Join;
    forall n, group, rule | n >= 0 && ArgsText(args, n, group, rule)
      ensures ParseEvalArgs(args) == Good(EvalArgs(n, group, rule)) { ParseGrammar(args, EvalArgs(n, group, rule)); }
    if ParseEvalArgs(args).Good? {
      ParseGrammar(args, ParseEvalArgs(args).value);
    }
  }

  /** The daemon refuses a request with this reply, leaving `rest` unread, exactly when the stream is an
      eval line and something is wrong with its arguments or with the length of what follows. */
  lemma RefusesExactly(input: Bytes, known: set<Bytes>, e: EvalError, rest: Bytes)
    ensures HandleStream(input, known) == HandledStream(Refusal(e), rest) <==>
      exists id, level, args, tail :: Evals(input, id, level, args, tail) && Faulty(args, known, tail, e, rest)
  {
    hide DecodeCommand, Receive, Faulty, Evals;
    if HandleStream(input, known) == HandledStream(Refusal(e), rest) {
      var id, level, args, tail := EvalsOnly(input);
      ReceiveRefuses(args, known, tail, e, rest);
    }
    if exists id, level, args, tail :: Evals(input, id, level, args, tail) && Faulty(args, known, tail, e, rest) {
      var id, level, args, tail :| Evals(input, id, level, args, tail) && Faulty(args, known, tail, e, rest);
      EvalsDecodes(input, id, level, args, tail);
      ReceiveRefuses(args, known, tail, e, rest);
    }
  }

  /** The connection is dropped exactly when its bytes hold no command. */
  lemma DropsExactly(input: Bytes, known: set<Bytes>, rest: Bytes)
    ensures HandleStream(input, known) == HandledStream(Dropped, rest) <==>
      exists text, e :: Grammars.CommandText(text, Failed(e), rest) && input == text + rest
  {
    hide DecodeCommand, Receive, Grammars.CommandText;
    if DecodeCommand(input).outcome.Failed? {
      Grammars.CommandGrammar(input, DecodeCommand(input).outcome, DecodeCommand(input).rest);
    }
    forall text, e | Grammars.CommandText(text, Failed(e), rest) && input == text + rest
      ensures DecodeCommand(input) == Decoded(Failed(e), rest)
    {
      Grammars.CommandGrammar(input, Failed(e), rest);
    }
  }

  /** A list command is accepted exactly when its arguments are empty but present. */
  lemma ListsExactly(input: Bytes, known: set<Bytes>, rest: Bytes, accepted: bool)
    ensures HandleStream(input, known) == HandledStream(Listed(accepted), rest) <==>
      exists id, level, args ::
        Token(id) && ValidLevel(level) && NL !in args && accepted == (args == [])
        && input == FourFields(KINDS[LIST], id, level, args) + rest
  {
    hide DecodeCommand, Receive, FourFields, KindOf;
    if HandleStream(input, known) == HandledStream(Listed(accepted), rest) {
      var t, id, level := DecodeOnlyFields(input);
    }
    forall id, level, args |
      Token(id) && ValidLevel(level) && NL !in args && accepted == (args == [])
      && input == FourFields(KINDS[LIST], id, level, args) + rest
      ensures HandleStream(input, known) == HandledStream(Listed(accepted), rest)
    {
      KindTexts(LIST);
      DecodeFourFields(KINDS[LIST], id, level, args, rest);
    }
  }
}
