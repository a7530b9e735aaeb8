/** One eval command from end to end: the client's Exec (cmd/reee/eval.go) against the daemon's
    handle and handleEval (daemon/daemon.go), over a connection with arbitrary short reads. */
module Conversations {
  import opened ByteText
  import opened TagLogs
  import opened Messages
  import opened Tables
  import opened Caches
  import opened Levels
  import opened Streams
  import opened Commands
  import opened Results
  import opened Sessions
  import opened EvalFrames
  import opened Evaluations
  import opened Daemons
  import Handlers

  datatype ClientRequest = ClientRequest(id: Bytes, level: int, group: Bytes, rule: Bytes, body: Bytes)

  /** What validation and the command line leave a client to send. */
  ghost predicate Sendable(q: ClientRequest) {
    && Token(q.id) && ValidLevel(q.level) && Slice(q.body)
    && (forall c :: c in q.group ==> NameByte(c)) && (forall c :: c in q.rule ==> NameByte(c))
  }

  /** The daemon receives what the client sent, in however many reads. */
  method Request(q: ClientRequest, known: set<Bytes>, stalls: nat)
    returns (level: int, received: Parsed<EvalFrames.Request>)
    requires Sendable(q) && q.group in known
    ensures level == q.level && received == Good(EvalFrames.Request(q.group, q.rule, q.body))
  {
    hide EncodeFrame, DecodeCommand, Receive, EvalArgsText;
    var w := new Writer(true);
    var sent := SendEval(w, q.id, q.level, q.group, q.rule, q.body);
    NamesArePlain(q.group);
    NamesArePlain(q.rule);
    assert w.sent + [] == w.sent == EncodeFrame(q.id, q.level, q.group, q.rule, q.body);
    FrameRoundTrip(q.id, q.level, q.group, q.rule, q.body, known, []);
    FrameCommand(q.id, q.level, q.group, q.rule, q.body, []);
    var r := new Reader(w.sent, stalls, 0);
    var cmd := ReadCommand(r);
    level := cmd.value.level;
    received := ReceiveEval(r, cmd.value.args, known);
  }

  lemma NamesArePlain(name: Bytes)
    requires forall c :: c in name ==> NameByte(c)
    ensures SP !in name && NL !in name
  {
  }

  /** What the daemon's side adds to a reply: the texts of its own errors, how loud its logger is,
      the beginnings of its log lines, and what it prints. */
  datatype Setting = Setting(describe: HandlerError -> Bytes, loggerLevel: Option<int>, prefix: Bytes, note: Bytes,
                             detail: Bytes, printed: seq<LogLine>)

  ghost predicate Plain(t: Setting, level: int) {
    && ValidLines(t.printed) && NL !in t.prefix && (forall e: HandlerError :: e.RuleError? || Slice(t.describe(e)))
    && forall l :: l in t.printed && l.level <= level ==> NL !in l.msg
  }

  /** The client hears what the daemon replied, in however many reads. */
  method Answer(level: int, t: Setting, reply: Result, stalls: nat)
    returns (heard: seq<LogLine>, result: Outcome<Result>)
    requires ValidLevel(level) && Plain(t, level) && Slice(reply.data)
    ensures result == Done(if reply.Error? then Error(UpToNewline(reply.data)) else reply)
    ensures heard == Delivered(t.printed, level, t.prefix)
  {
    hide EncodeSession, DecodeResult, EncodeResult, UpToNewline, AfterNewline;
    var w := new Writer(true);
    var daemonLogger := new Logger();
    var ctx := new CmdContext(w, daemonLogger, t.loggerLevel, t.prefix, t.note, t.detail, level);
    ctx.Reply(t.printed, reply);
    PlainDelivered(t.printed, level, t.prefix);
    ghost var lines := Delivered(t.printed, level, t.prefix);
    assert w.sent + [] == w.sent == EncodeSession(lines, reply);
    SessionUpToNewline(lines, reply, []);
    var r := new Reader(w.sent, stalls, 0);
    var logger := new Logger();
    result := ReadResult(logger, r);
    heard := logger.lines;
  }

  /** A session of plain lines is heard whole; only the error text can be cut. */
  lemma {:induction false} SessionUpToNewline(ls: seq<LogLine>, r: Result, rest: Bytes)
    requires ValidLines(ls) && PlainLines(ls) && Slice(r.data)
    ensures DecodeResult(EncodeSession(ls, r) + rest)
         == Reading(ls, Done(if r.Error? then Error(UpToNewline(r.data)) else r),
                    if r.Error? then AfterNewline(r.data, rest) else rest)
  {
    hide DecodeResult, EncodeResult, EncodeLog, UpToNewline, AfterNewline;
    if ls == [] {
      assert EncodeSession(ls, r) == EncodeResult(r);
      match r
      case Success(data) => DecodeSuccess(data, rest);
      case Error(msg) => DecodeError(msg, rest);
    } else {
      var tail := EncodeSession(ls[1..], r) + rest;
      assert EncodeSession(ls, r) + rest == EncodeLog(ls[0]) + tail;
      DecodeLog(ls[0], tail);
      SessionUpToNewline(ls[1..], r, rest);
      assert ls == [ls[0]] + ls[1..];
    }
  }

  /** What the client reports once the daemon has its answer. */
  method Report(level: int, t: Setting, data: Bytes, err: Option<HandlerError>, ghost v: Verdict, stalls: nat)
    returns (outcome: ClientOutcome)
    requires ValidLevel(level) && Plain(t, level) && Slice(ReplyOf(v).data)
    requires Unevaluated(err) || Answers(v, data, err)
    ensures outcome == if Unevaluated(err) || err == Some(RecordFailed)
                       then ServerError(UpToNewline(t.describe(err.value)))
                       else Reported(UpToLineEnd(v))
  {
    hide UpToNewline, ValidLines, Delivered;
    var reply := match err
                 case None => Success(data)
                 case Some(RuleError(text)) => Error(text)
                 case Some(e) => Error(t.describe(e));
    var heard, result := Answer(level, t, reply, stalls);
    outcome := Interpret(result.value);
    assert v.MatchedBy? ==> (MATCH + v.rule)[..6] == MATCH && (MATCH + v.rule)[6..] == v.rule;
  }

  /** The rules a request for `group` can select. */
  ghost predicate Selectable(group: seq<Rule>, rs: seq<Rule>) {
    rs == group || exists i :: 0 <= i < |group| && rs == [group[i]]
  }

  /** `behave` is what rules would do if called; they cannot return more than fits in memory. */
  ghost predicate Behaviour(behave: seq<Rule> -> seq<RuleRun>, group: seq<Rule>) {
    && (forall rs :: |behave(rs)| == |rs|)
    && forall rs :: Selectable(group, rs) ==> Slice(ReplyOf(VerdictOf(rs, behave(rs))).data)
  }

  /** The whole exchange. The request is refused exactly when its message is not cached and is no
      message or cannot be loaded. Otherwise the rules run, and unless their recording failed the
      client reports the verdict of the first one that errs or matches, among the one rule it named
      if the group has it and else among all of the group; an error text only up to its first
      newline. With a store that does not fail, a request is refused only for what it holds, and
      everything the rules did is recorded. */
  method Eval(q: ClientRequest, groups: map<Bytes, seq<Rule>>, d: Daemon, w: Handlers.World, sampled: bool, now: int,
              behave: seq<Rule> -> seq<RuleRun>, t: Setting, stalls: nat)
    returns (outcome: ClientOutcome, rules: seq<Rule>, err: Option<HandlerError>, ghost storeID: string,
             ghost executed: seq<TagChange>, ghost use: Use<Message>)
    requires Sendable(q) && q.group in groups && DistinctNames(groups[q.group])
    requires d.Valid() && Behaviour(behave, groups[q.group]) && Plain(t, q.level)
    modifies d.cache, d.store, d.CachedMessages()
    ensures d.Valid()
    ensures if q.rule != [] && exists r :: r in groups[q.group] && r.name == q.rule
            then |rules| == 1 && rules[0] in groups[q.group] && rules[0].name == q.rule
            else rules == groups[q.group]
    ensures var key := w.digest(q.body);
      Unevaluated(err) <==>
        && old(!d.cache.Has(key))
        && match w.parse(q.body)
           case None => true
           case Some(e) => !Loadable(old(d.store.stmtsLeft), old(d.store.messages), ToStoreID(e, key), e)
    ensures outcome == if Unevaluated(err) || err == Some(RecordFailed)
                       then ServerError(UpToNewline(t.describe(err.value)))
                       else Reported(UpToLineEnd(VerdictOf(rules, behave(rules))))
    ensures var runs := behave(rules); !Unevaluated(err) && err != Some(RecordFailed) ==>
      && (forall i :: 0 <= i < |rules| && QuietBefore(runs, i) && runs[i].err.Some? ==>
            outcome == ServerError(UpToNewline(runs[i].err.value)))
      && (forall i :: 0 <= i < |rules| && QuietBefore(runs, i) && runs[i].err.None? && runs[i].matched ==>
            outcome == Matched(rules[i].name))
      && (QuietBefore(runs, |runs|) ==> outcome == NoMatch)
    ensures Unevaluated(err) ==> d.store.Contents() == old(d.store.Contents())
    ensures d.cache.entries == AfterUse(d.cache.policy, old(d.cache.entries), use)
    ensures UseFor(use, w.digest(q.body), w.parse(q.body), |q.body|, now)
    ensures use.Add? <==> old(!d.cache.Has(w.digest(q.body))) && !Unevaluated(err)
    ensures !Unevaluated(err) ==>
      && d.store.messages == old(if storeID in d.store.messages then d.store.messages
                                 else d.store.messages[storeID := sampled])
      && Tracked(w.digest(q.body), w.parse(q.body), old(d.cache.Has(w.digest(q.body))), storeID, old(d.cache.entries),
                 d.cache.entries, old(d.store.messages))
      && Recorded(storeID, old(d.store.Contents()), d.store.Contents(), executed, ChangesOf(rules, behave(rules)))
    ensures !Unevaluated(err) && old(d.store.stmtsLeft).None? ==>
      && err != Some(RecordFailed) && executed == ChangesOf(rules, behave(rules))
      && HistoryGrows(old(d.store.Contents()), d.store.Contents(), storeID, q.group,
                      RecordsOf(rules, behave(rules), Reached(behave(rules))))
  {
    hide VerdictOf, UpToNewline, Plain, Answers, HistoryGrows, ToStoreID, ChangesOf, Recorded, Tracked, Loadable,
         ReplyOf, RecordsOf, Reached, RowsHaveMessages, DistinctKeys, Total, Find, NameByte, Token, QuietBefore,
         AfterUse, UseFor, Reported, UpToLineEnd;
    var level, received := Request(q, groups.Keys, stalls);
    var req := received.value;
    rules := SelectRules(groups[req.group], req.rule);
    var data;
    data, err, storeID, executed, use :=
      d.HandleEval(w.digest(req.body), w.parse(req.body), |req.body|, sampled, now, req.group, rules, behave(rules));
    ghost var v := VerdictOf(rules, behave(rules));
    assert Slice(ReplyOf(v).data) by { assert Selectable(groups[q.group], rules); }
    outcome := Report(level, t, data, err, v, stalls);
    ReportIsOfTheFirst(rules, behave(rules));
  }
}
