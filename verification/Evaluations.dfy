/** Choosing and running the rules of a request (the second half of handleEval, daemon/daemon.go). */
module Evaluations {
  import opened ByteText
  import opened TagLogs
  import opened Messages
  import opened Tables
  import opened Streams
  import opened Results
  import opened Sessions
  import opened EvalFrames

  /** `code` stands for the rule's function. */
  datatype Rule = Rule(name: Bytes, code: nat)

  /** What a rule does if it is called: its tag operations, then its answer. A rule can do anything,
      so theorems quantify over all runs. */
  datatype RuleRun = RuleRun(ops: seq<TagChange>, matched: bool, err: Option<Bytes>)

  // ---------- selection ----------

  predicate DistinctNames(rules: seq<Rule>) {
    forall i, j :: 0 <= i < j < |rules| ==> rules[i].name != rules[j].name
  }

  /** The rules a request runs. A name that no rule of the group has selects the whole group: the
      source's "rule not found" test asks whether the request named no rule. */
  method SelectRules(group: seq<Rule>, name: Bytes) returns (rules: seq<Rule>)
    ensures name == [] || (forall r :: r in group ==> r.name != name) ==> rules == group
    ensures name != [] && (exists r :: r in group && r.name == name) ==>
      exists i ::
        && 0 <= i < |group| && rules == [group[i]] && group[i].name == name
        && forall j :: 0 <= j < i ==> group[j].name != name
    ensures name != [] && DistinctNames(group) ==>
      forall r :: r in group && r.name == name ==> rules == [r]
  {
    rules := group;
    if name != [] {
      for i := 0 to |group|
        invariant rules == group
        invariant forall j :: 0 <= j < i ==> group[j].name != name
      {
        if name == group[i].name {
          rules := [group[i]];
          break;
        }
      }
    }
  }

  // ---------- the rule loop ----------

  predicate Stops(run: RuleRun) { run.err.Some? || run.matched }

  /** How many rules run: up to and including the first that errs or matches. */
  function Reached(runs: seq<RuleRun>): (k: nat)
    ensures k <= |runs|
    ensures forall i :: 0 <= i < k - 1 ==> !Stops(runs[i])
    ensures k == |runs| || (k > 0 && Stops(runs[k - 1]))
  {
    if runs == [] then 0
    else if Stops(runs[0]) then 1
    else 1 + Reached(runs[1..])
  }

  /** Those bounds leave no choice. */
  lemma ReachedIsUnique(runs: seq<RuleRun>, k: nat)
    requires k <= |runs| && (forall i :: 0 <= i < k - 1 ==> !Stops(runs[i]))
    requires k == |runs| || (k > 0 && Stops(runs[k - 1]))
    ensures Reached(runs) == k
  {
  }

  function RecordOf(rule: Rule, run: RuleRun): RuleRecord {
    RuleRecord(rule.name, run.matched, run.err, run.ops)
  }

  function RecordsOf(rules: seq<Rule>, runs: seq<RuleRun>, k: nat): (records: seq<RuleRecord>)
    requires k <= |rules| && k <= |runs|
    ensures |records| == k
  {
    seq(k, i requires 0 <= i < k => RecordOf(rules[i], runs[i]))
  }

  datatype Verdict = NothingMatched | MatchedBy(rule: Bytes) | FailedWith(err: Bytes)

  function VerdictOf(rules: seq<Rule>, runs: seq<RuleRun>): Verdict
    requires |runs| == |rules|
  {
    var k := Reached(runs);
    if k == 0 then NothingMatched
    else
      match runs[k - 1].err
      case Some(e) => FailedWith(e)
      case None => if runs[k - 1].matched then MatchedBy(rules[k - 1].name) else NothingMatched
  }

  /** No run before `n` erred or matched. */
  ghost predicate QuietBefore(runs: seq<RuleRun>, n: nat)
    requires n <= |runs|
  {
    forall j :: 0 <= j < n ==> runs[j].err.None? && !runs[j].matched
  }

  /** The verdict is that of the first rule that errs or matches, under that rule's own name. */
  lemma VerdictIsTheFirst(rules: seq<Rule>, runs: seq<RuleRun>)
    requires |runs| == |rules|
    ensures forall name :: VerdictOf(rules, runs) == MatchedBy(name) <==>
      exists i ::
        0 <= i < |rules| && QuietBefore(runs, i) && runs[i].err.None? && runs[i].matched && rules[i].name == name
    ensures forall e :: VerdictOf(rules, runs) == FailedWith(e) <==>
      exists i :: 0 <= i < |rules| && QuietBefore(runs, i) && runs[i].err == Some(e)
    ensures VerdictOf(rules, runs) == NothingMatched <==> QuietBefore(runs, |runs|)
  {
    var k := Reached(runs);
    if k > 0 {
      assert QuietBefore(runs, k - 1);
    }
    forall i | 0 <= i < |rules| && QuietBefore(runs, i) && (runs[i].err.Some? || runs[i].matched) ensures i == k - 1 {
      ReachedIsUnique(runs, i + 1);
    }
  }

  /** One turn of the loop: the rule is called and its record is appended. */
  method EvalRule(rule: Rule, run: RuleRun, ger: EvalRecord)
    requires forall rr :: rr in ger.rules ==> rr.message == ger.message
    modifies ger, ger.message`tags
    ensures Values(ger.rules) == old(Values(ger.rules)) + [RuleRecord(rule.name, run.matched, run.err, run.ops)]
    ensures ger.message.Tags() == Replay(old(ger.message.Tags()), run.ops)
    ensures forall rr :: rr in ger.rules ==> rr.message == ger.message
    ensures forall rr :: rr in ger.rules ==> rr in old(ger.rules) || fresh(rr)
  {
    hide Replay;
    var rer := new RuleEvalRecord(ger.message, rule.name);
    rer.Perform(run.ops);
    rer.matched, rer.err := run.matched, run.err;
    ger.rules := ger.rules + [rer];
  }

  /** The loop runs and records exactly the rules up to the first that errs or matches, in order, and
      answers with that rule's error or name; the message's tags become the replay of the recorded
      changes. */
  method EvalRules(rules: seq<Rule>, runs: seq<RuleRun>, ger: EvalRecord) returns (data: Bytes, err: Option<Bytes>)
    requires |runs| == |rules| && ger.rules == []
    modifies ger, ger.message`tags
    ensures Values(ger.rules) == RecordsOf(rules, runs, Reached(runs))
    ensures |ger.rules| <= |rules| && forall i :: 0 <= i < |ger.rules| ==>
      Values(ger.rules)[i] == RuleRecord(rules[i].name, runs[i].matched, runs[i].err, runs[i].ops)
    ensures forall i :: 0 <= i < |rules| && QuietBefore(runs, i) && runs[i].err.Some? ==>
      |ger.rules| == i + 1 && err == runs[i].err
    ensures forall i :: 0 <= i < |rules| && QuietBefore(runs, i) && runs[i].err.None? && runs[i].matched ==>
      |ger.rules| == i + 1 && err.None? && data == MATCH + rules[i].name
    ensures QuietBefore(runs, |runs|) ==> |ger.rules| == |rules| && err.None? && data == []
    ensures ger.message.Tags() == Replay(old(ger.message.Tags()), AllChanges(Values(ger.rules)))
    ensures match VerdictOf(rules, runs)
            case FailedWith(e) => err == Some(e)
            case MatchedBy(name) => err.None? && data == MATCH + name
            case NothingMatched => err.None? && data == []
  {
    hide Replay, AllChanges, RecordOf;
    var i := 0;
    data, err := [], None;
    NoRecords(ger.message.Tags());
    assert Values(ger.rules) == [];
    while i < |rules|
      invariant i <= |rules|
      invariant forall rr :: rr in ger.rules ==> rr.message == ger.message
      invariant Values(ger.rules) == RecordsOf(rules, runs, i)
      invariant ger.message.Tags() == Replay(old(ger.message.Tags()), AllChanges(RecordsOf(rules, runs, i)))
      invariant forall j :: 0 <= j < i ==> !Stops(runs[j])
      invariant data == [] && err.None?
    {
      OneMoreRecord(old(ger.message.Tags()), RecordsOf(rules, runs, i), RecordOf(rules[i], runs[i]));
      assert RecordsOf(rules, runs, i + 1) == RecordsOf(rules, runs, i) + [RecordOf(rules[i], runs[i])];
      RecordIs(rules[i], runs[i]);
      EvalRule(rules[i], runs[i], ger);
      i := i + 1;
      if runs[i - 1].err.Some? {
        err := runs[i - 1].err;
        break;
      } else if runs[i - 1].matched {
        data := MATCH + rules[i - 1].name;
        break;
      }
    }
    ReachedIsUnique(runs, i);
    forall k | 0 <= k < i
      ensures Values(ger.rules)[k] == RuleRecord(rules[k].name, runs[k].matched, runs[k].err, runs[k].ops)
    {
      RecordIs(rules[k], runs[k]);
    }
  }

  lemma RecordIs(rule: Rule, run: RuleRun)
    ensures RecordOf(rule, run) == RuleRecord(rule.name, run.matched, run.err, run.ops)
  {
  }

  lemma NoRecords(tags: Tags)
    ensures AllChanges([]) == [] && Replay(tags, []) == tags
  {
  }

  lemma OneMoreRecord(tags: Tags, records: seq<RuleRecord>, r: RuleRecord)
    ensures AllChanges(records + [r]) == AllChanges(records) + r.changes
    ensures Replay(tags, AllChanges(records + [r])) == Replay(Replay(tags, AllChanges(records)), r.changes)
  {
    assert (records + [r])[..|records|] == records;
    ReplayAppend(tags, AllChanges(records), r.changes);
  }

  // ---------- what becomes of the verdict ----------

  /** The group row in the store says what the rules said as a whole, and agrees with the verdict. */
  lemma StoredResultIsOverall(rules: seq<Rule>, runs: seq<RuleRun>)
    requires |runs| == |rules|
    ensures var records := RecordsOf(rules, runs, Reached(runs));
      && StopsAtEnd(records)
      && GroupResult(records) == OverallResult(records)
      && GroupResult(records) == match VerdictOf(rules, runs)
                                 case FailedWith(e) => (None, Some(e))
                                 case MatchedBy(_) => (Some(true), None)
                                 case NothingMatched => (if rules == [] then None else Some(false), None)
  {
    var records := RecordsOf(rules, runs, Reached(runs));
    LastRecordDecides(records);
  }

  function ReplyOf(v: Verdict): Result {
    match v
    case NothingMatched => Success([])
    case MatchedBy(name) => Success(MATCH + name)
    case FailedWith(e) => Error(e)
  }

  /** What the client should report for a verdict. */
  function Reported(v: Verdict): ClientOutcome {
    match v
    case NothingMatched => NoMatch
    case MatchedBy(name) => Matched(name)
    case FailedWith(e) => ServerError(e)
  }

  /** A verdict as it comes through the wire: an error text ends at its first newline. */
  function UpToLineEnd(v: Verdict): Verdict {
    if v.FailedWith? then FailedWith(UpToNewline(v.err)) else v
  }

  /** The report is about the first rule that errs or matches. */
  lemma ReportIsOfTheFirst(rules: seq<Rule>, runs: seq<RuleRun>)
    requires |runs| == |rules|
    ensures var report := Reported(UpToLineEnd(VerdictOf(rules, runs)));
      && (forall i :: 0 <= i < |rules| && QuietBefore(runs, i) && runs[i].err.Some? ==>
            report == ServerError(UpToNewline(runs[i].err.value)))
      && (forall i :: 0 <= i < |rules| && QuietBefore(runs, i) && runs[i].err.None? && runs[i].matched ==>
            report == Matched(rules[i].name))
      && (QuietBefore(runs, |runs|) ==> report == NoMatch)
  {
    hide VerdictOf, UpToNewline;
    VerdictIsTheFirst(rules, runs);
    forall i | 0 <= i < |rules| && QuietBefore(runs, i) && runs[i].err.Some?
      ensures VerdictOf(rules, runs) == FailedWith(runs[i].err.value) {}
    forall i | 0 <= i < |rules| && QuietBefore(runs, i) && runs[i].err.None? && runs[i].matched
      ensures VerdictOf(rules, runs) == MatchedBy(rules[i].name) {}
  }

  /** Through the wire the client reports the daemon's verdict, except that an error text is cut at
      its first newline; so it reports the very verdict exactly when no error text holds one. */
  lemma ClientLearnsVerdict(v: Verdict, rest: Bytes)
    requires Slice(ReplyOf(v).data)
    ensures var d := DecodeResult(EncodeResult(ReplyOf(v)) + rest);
      && d.outcome.Done?
      && Interpret(d.outcome.value) == Reported(UpToLineEnd(v))
      && (Interpret(d.outcome.value) == Reported(v) <==> (v.FailedWith? ==> NL !in v.err))
  {
    hide DecodeResult, EncodeResult, UpToNewline;
    match v
    case NothingMatched => DecodeSuccess([], rest);
    case MatchedBy(name) =>
      DecodeSuccess(MATCH + name, rest);
      assert (MATCH + name)[..6] == MATCH && (MATCH + name)[6..] == name;
    case FailedWith(e) => DecodeError(e, rest);
  }
}
