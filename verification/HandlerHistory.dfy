/** The evaluation history under concurrency: which group_eval and rule_eval rows belong together when
    the statements of many RecordEval calls interleave (cmd/reeed/store/sqlite3_store.go). */
module HandlerHistory {
  import opened ByteText
  import opened TagLogs
  import opened Messages
  import opened Tables
  import opened Handlers

  /** The rule_eval rows that name the group_eval row `id`. */
  function Under(rows: seq<RuleRow>, id: nat): seq<RuleRow> {
    if rows == [] then []
    else Under(rows[..|rows| - 1], id) + if rows[|rows| - 1].groupEval == id then [rows[|rows| - 1]] else []
  }

  /** The rule_eval rows that statements will insert. */
  function ToCome(ws: seq<Write>): seq<RuleRow> {
    if ws == [] then []
    else (if ws[0].PutRule? then [ws[0].ruleRow] else []) + ToCome(ws[1..])
  }

  predicate Recorded(p: Phase) { p.Writing? || p.Done? || p.Gone? }

  function GroupRowOf(x: Handler): GroupRow {
    GroupRow(x.storeID, x.group, GroupResult(x.rules).0, GroupResult(x.rules).1)
  }

  /** Handler `x` inserted the group_eval row `id`, and the rows under it are those of the rules it ran,
      in order: all of them when it is done, and else those whose statements were executed. */
  ghost predicate HistoryOf(db: DB, x: Handler, id: nat) {
    && 0 < id <= |db.groups| && db.groups[id - 1] == GroupRowOf(x) && Recorded(x.phase)
    && Under(db.rules, id) <= RuleRows(id, x.rules)
    && (x.phase.Done? ==> Under(db.rules, id) == RuleRows(id, x.rules))
    && (x.phase.Writing? ==>
          Under(db.rules, id) + ToCome(x.phase.todo) == RuleRows(id, x.rules)
          && forall i :: 0 <= i < |x.phase.todo| ==> !x.phase.todo[i].PutGroup?)
  }

  /** `ids` pairs the handlers that inserted a group_eval row with these rows, one to one. They are the
      rows past the first `old`. */
  ghost predicate Pairs(s: State, first: nat, ids: map<nat, nat>) {
    && (forall h :: h in ids ==> h in s.handlers && first < ids[h] && HistoryOf(s.db, s.handlers[h], ids[h]))
    && (forall h, h' :: h in ids && h' in ids && ids[h] == ids[h'] ==> h == h')
    && (forall id :: first < id <= |s.db.groups| ==> id in ids.Values)
    && (forall h :: h in s.handlers && (s.handlers[h].phase.Writing? || s.handlers[h].phase.Done?) ==> h in ids)
  }

  /** Every rule_eval row names a group_eval row. */
  ghost predicate RulesHaveGroups(db: DB) {
    forall i :: 0 <= i < |db.rules| ==> 0 < db.rules[i].groupEval <= |db.groups|
  }

  /** What was there before the daemon started is still there, and names the same rows. */
  ghost predicate KeepsOld(before: DB, after: DB) {
    && before.groups <= after.groups
    && forall id :: 0 < id <= |before.groups| ==> Under(after.rules, id) == Under(before.rules, id)
  }

  ghost predicate Historic(before: DB, s: State, ids: map<nat, nat>) {
    Pairs(s, |before.groups|, ids) && RulesHaveGroups(s.db) && KeepsOld(before, s.db)
  }

  // ---------- lists of rows ----------

  lemma UnderOne(rows: seq<RuleRow>, r: RuleRow, id: nat)
    ensures Under(rows + [r], id) == Under(rows, id) + if r.groupEval == id then [r] else []
  {
  }

  lemma {:induction false} NothingUnderNew(rows: seq<RuleRow>, id: nat)
    requires forall i :: 0 <= i < |rows| ==> rows[i].groupEval != id
    ensures Under(rows, id) == []
  {
    if rows != [] {
      NothingUnderNew(rows[..|rows| - 1], id);
    }
  }

  lemma {:induction false} ToComeAppend(ws: seq<Write>, vs: seq<Write>)
    ensures ToCome(ws + vs) == ToCome(ws) + ToCome(vs)
  {
    if ws == [] {
      assert ws + vs == vs;
    } else {
      var first := if ws[0].PutRule? then [ws[0].ruleRow] else [];
      ToComeAppend(ws[1..], vs);
      assert (ws + vs)[1..] == ws[1..] + vs && (ws + vs)[0] == ws[0];
      assert ToCome(ws + vs) == first + ToCome(ws[1..] + vs);
      assert first + (ToCome(ws[1..]) + ToCome(vs)) == first + ToCome(ws[1..]) + ToCome(vs);
    }
  }

  lemma {:induction false} NoRowsOfTags(ws: seq<Write>)
    requires forall i :: 0 <= i < |ws| ==> ws[i].PutTag?
    ensures ToCome(ws) == []
  {
    if ws != [] {
      NoRowsOfTags(ws[1..]);
    }
  }

  /** The statements of an evaluation insert one row for each rule, and no group. */
  lemma {:induction false} RowsToCome(message: string, id: nat, group: Bytes, rules: seq<RuleRecord>)
    ensures var ws := AllRuleWrites(message, id, group, rules);
      ToCome(ws) == RuleRows(id, rules) && forall i :: 0 <= i < |ws| ==> !ws[i].PutGroup?
  {
    if rules != [] {
      var n := |rules| - 1;
      var r := rules[n];
      var tags := TagWrites(message, group, r.rule, r.changes);
      var head := [PutRule(RuleRow(id, r.rule, Some(r.matched), None))];
      RowsToCome(message, id, group, rules[..n]);
      NoRowsOfTags(tags);
      ToComeAppend(head, tags);
      assert head[1..] == [];
      ToComeAppend(AllRuleWrites(message, id, group, rules[..n]), RuleWrites(message, id, group, r));
      assert RuleRows(id, rules) == RuleRows(id, rules[..n]) + [head[0].ruleRow];
    }
  }

  // ---------- every step keeps the pairing ----------

  predicate InsertsRule(s: State, step: Step) {
    step.WriteNext? && At(s, step.h).Writing? && s.handlers[step.h].phase.todo != []
    && s.handlers[step.h].phase.todo[0].PutRule?
  }

  ghost predicate NoGroupToCome(s: State, step: Step) {
    step.WriteNext? && At(s, step.h).Writing? && s.handlers[step.h].phase.todo != [] ==>
      !s.handlers[step.h].phase.todo[0].PutGroup?
  }

  /** What a step adds to the history tables. */
  lemma RowsEffect(w: World, s: State, step: Step)
    requires Enabled(w, s, step) && NoGroupToCome(s, step)
    ensures Next(w, s, step).db.groups
         == s.db.groups + if step.WriteGroup? then [GroupRowOf(s.handlers[step.h])] else []
    ensures Next(w, s, step).db.rules
         == s.db.rules + if InsertsRule(s, step) then [s.handlers[step.h].phase.todo[0].ruleRow] else []
  {
    hide Visible, ToStoreID, AllRuleWrites, GroupResult, Change, LastRule;
  }

  /** A handler that inserted its group row keeps its row and its rules. */
  lemma OwnHistory(w: World, s: State, step: Step, id: nat)
    requires Enabled(w, s, step) && !step.Evict? && step.h in s.handlers && HistoryOf(s.db, s.handlers[step.h], id)
    ensures HistoryOf(Next(w, s, step).db, Next(w, s, step).handlers[step.h], id)
    ensures InsertsRule(s, step) ==> s.handlers[step.h].phase.todo[0].ruleRow.groupEval == id
    ensures NoGroupToCome(s, step)
  {
    hide Visible, ToStoreID, AllRuleWrites, GroupResult, Change, LastRule, Under, RuleRows;
    var x := s.handlers[step.h];
    if InsertsRule(s, step) {
      var row := x.phase.todo[0].ruleRow;
      var rows := RuleRows(id, x.rules);
      assert rows == Under(s.db.rules, id) + [row] + ToCome(x.phase.todo[1..]);
      assert rows[|Under(s.db.rules, id)|] == row;
      RowsUnder(id, x.rules, |Under(s.db.rules, id)|);
      UnderOne(s.db.rules, row, id);
    }
  }

  lemma RowsUnder(id: nat, rules: seq<RuleRecord>, i: nat)
    requires i < |RuleRows(id, rules)|
    ensures RuleRows(id, rules)[i].groupEval == id
  {
  }

  lemma OtherHistory(db: DB, db': DB, x: Handler, id: nat)
    requires HistoryOf(db, x, id) && db.groups <= db'.groups && Under(db'.rules, id) == Under(db.rules, id)
    ensures HistoryOf(db', x, id)
  {
    hide Under, RuleRows, GroupResult, ToCome;
  }

  /** A new group row is paired with its handler, and nothing is under it yet. */
  lemma NewGroup(w: World, s: State, step: Step)
    requires Enabled(w, s, step) && step.WriteGroup? && RulesHaveGroups(s.db)
    ensures HistoryOf(Next(w, s, step).db, Next(w, s, step).handlers[step.h], |s.db.groups| + 1)
  {
    hide Visible, ToStoreID, AllRuleWrites, GroupResult, Under, RuleRows;
    var x := s.handlers[step.h];
    NothingUnderNew(s.db.rules, |s.db.groups| + 1);
    RowsToCome(x.storeID, |s.db.groups| + 1, x.group, x.rules);
    assert [] + ToCome(AllRuleWrites(x.storeID, |s.db.groups| + 1, x.group, x.rules))
        == ToCome(AllRuleWrites(x.storeID, |s.db.groups| + 1, x.group, x.rules));
  }

  /** Handlers start to be paired only by inserting a group row. */
  lemma PairedBefore(w: World, s: State, step: Step, h: nat)
    requires Enabled(w, s, step) && h in Next(w, s, step).handlers && !(step.WriteGroup? && step.h == h)
    requires Next(w, s, step).handlers[h].phase.Writing? || Next(w, s, step).handlers[h].phase.Done?
    ensures h in s.handlers && (s.handlers[h].phase.Writing? || s.handlers[h].phase.Done?)
  {
    hide Visible, ToStoreID, AllRuleWrites, GroupResult, Change, LastRule, Execute;
  }

  lemma HandlersStay(w: World, s: State, step: Step, h: nat)
    requires Enabled(w, s, step) && h in s.handlers
    ensures h in Next(w, s, step).handlers
    ensures step.Evict? || step.h != h ==> Next(w, s, step).handlers[h] == s.handlers[h]
  {
    hide Visible, ToStoreID, AllRuleWrites, GroupResult, Change, LastRule, Execute;
  }

  /** What a step does to the rows that a pairing speaks of. */
  lemma PairedStep(w: World, s: State, step: Step, first: nat, ids: map<nat, nat>)
    requires Enabled(w, s, step) && Pairs(s, first, ids)
    ensures NoGroupToCome(s, step)
    ensures InsertsRule(s, step) ==> step.h in ids && s.handlers[step.h].phase.todo[0].ruleRow.groupEval == ids[step.h]
    ensures step.WriteGroup? ==> step.h !in ids
  {
    hide Next, GroupRowOf, Under;
    if !step.Evict? && step.h in ids {
      OwnHistory(w, s, step, ids[step.h]);
    }
  }

  lemma UnderEffect(rows: seq<RuleRow>, added: seq<RuleRow>, id: nat)
    requires |added| <= 1 && (added != [] ==> added[0].groupEval != id)
    ensures Under(rows + added, id) == Under(rows, id)
  {
    if added == [] {
      assert rows + added == rows;
    } else {
      UnderOne(rows, added[0], id);
      assert rows + added == rows + [added[0]];
    }
  }

  lemma HistoryKept(w: World, s: State, step: Step, first: nat, ids: map<nat, nat>, h: nat)
    requires Enabled(w, s, step) && Pairs(s, first, ids) && h in ids
    ensures h in Next(w, s, step).handlers && HistoryOf(Next(w, s, step).db, Next(w, s, step).handlers[h], ids[h])
  {
    hide Next, Enabled, HistoryOf, Under, GroupRowOf;
    var s' := Next(w, s, step);
    HandlersStay(w, s, step, h);
    if !step.Evict? && step.h == h {
      OwnHistory(w, s, step, ids[h]);
    } else {
      PairedStep(w, s, step, first, ids);
      RowsEffect(w, s, step);
      UnderEffect(s.db.rules, if InsertsRule(s, step) then [s.handlers[step.h].phase.todo[0].ruleRow] else [], ids[h]);
      OtherHistory(s.db, s'.db, s.handlers[h], ids[h]);
    }
  }

  lemma StepKeepsPairs(w: World, s: State, step: Step, first: nat, ids: map<nat, nat>) returns (ids': map<nat, nat>)
    requires Enabled(w, s, step) && Pairs(s, first, ids) && RulesHaveGroups(s.db) && first <= |s.db.groups|
    ensures Pairs(Next(w, s, step), first, ids')
  {
    hide Enabled, Next, HistoryOf, Under, GroupRowOf, RulesHaveGroups;
    var s' := Next(w, s, step);
    PairedStep(w, s, step, first, ids);
    RowsEffect(w, s, step);
    var fresh' := |s.db.groups| + 1;
    ids' := if step.WriteGroup? then ids[step.h := fresh'] else ids;
    forall h | h in ids' ensures h in s'.handlers && first < ids'[h] && HistoryOf(s'.db, s'.handlers[h], ids'[h]) {
      if h in ids {
        HistoryKept(w, s, step, first, ids, h);
      } else {
        WriterIsKnown(w, s, step);
        NewGroup(w, s, step);
      }
    }
    forall h | h in ids ensures ids[h] < fresh' { IDInRange(s.db, s.handlers[h], ids[h]); }
    forall id | first < id <= |s'.db.groups| ensures id in ids'.Values {
      if id < fresh' {
        assert id in ids.Values;
        var h :| h in ids && ids[h] == id;
        assert ids'[h] == id;
      } else {
        assert ids'[step.h] == id;
      }
    }
    forall h | h in s'.handlers && (s'.handlers[h].phase.Writing? || s'.handlers[h].phase.Done?) ensures h in ids' {
      if !(step.WriteGroup? && step.h == h) {
        PairedBefore(w, s, step, h);
      }
    }
  }

  lemma WriterIsKnown(w: World, s: State, step: Step)
    requires Enabled(w, s, step) && step.WriteGroup?
    ensures step.h in Next(w, s, step).handlers
  {
  }

  lemma IDInRange(db: DB, x: Handler, id: nat)
    requires HistoryOf(db, x, id)
    ensures 0 < id <= |db.groups|
  {
  }

  lemma StepKeepsOld(w: World, before: DB, s: State, step: Step, ids: map<nat, nat>)
    requires Enabled(w, s, step) && Historic(before, s, ids)
    ensures RulesHaveGroups(Next(w, s, step).db) && KeepsOld(before, Next(w, s, step).db)
  {
    hide Enabled, Next, HistoryOf, Under, GroupRowOf;
    var s' := Next(w, s, step);
    PairedStep(w, s, step, |before.groups|, ids);
    RowsEffect(w, s, step);
    var added := if InsertsRule(s, step) then [s.handlers[step.h].phase.todo[0].ruleRow] else [];
    if InsertsRule(s, step) {
      IDInRange(s.db, s.handlers[step.h], ids[step.h]);
    }
    forall id | 0 < id <= |before.groups| ensures Under(s'.db.rules, id) == Under(before.rules, id) {
      UnderEffect(s.db.rules, added, id);
    }
  }

  lemma {:induction false} RunKeepsHistory(w: World, s0: State, steps: seq<Step>, s: State) returns (ids: map<nat, nat>)
    requires s0.handlers == map[] && RulesHaveGroups(s0.db) && Run(w, s0, steps, s)
    ensures Historic(s0.db, s, ids)
  {
    hide Enabled, Next, HistoryOf, Under;
    if steps == [] {
      ids := map[];
    } else {
      var n := |steps| - 1;
      var mid :| Run(w, s0, steps[..n], mid) && Enabled(w, mid, steps[n]) && s == Next(w, mid, steps[n]);
      ids := RunKeepsHistory(w, s0, steps[..n], mid);
      StepKeepsOld(w, s0.db, mid, steps[n], ids);
      ids := StepKeepsPairs(w, mid, steps[n], |s0.db.groups|, ids);
    }
  }

  /** In every interleaving, in every world, the new group_eval rows belong one to one to the handlers
      that inserted them, and the rule_eval rows under each are exactly those of its own handler's rules,
      in order: all of them once that handler is done. What was there before is untouched. */
  lemma HistoriesStayApart(w: World, s0: State, steps: seq<Step>, s: State) returns (ids: map<nat, nat>)
    requires Initial(s0) && RulesHaveGroups(s0.db) && Run(w, s0, steps, s)
    ensures forall h :: h in s.handlers && s.handlers[h].phase.Done? ==>
      h in ids && ids[h] <= |s.db.groups| && Under(s.db.rules, ids[h]) == RuleRows(ids[h], s.handlers[h].rules)
    ensures forall h :: h in ids ==>
      && h in s.handlers && |s0.db.groups| < ids[h] <= |s.db.groups|
      && s.db.groups[ids[h] - 1] == GroupRowOf(s.handlers[h])
      && Under(s.db.rules, ids[h]) <= RuleRows(ids[h], s.handlers[h].rules)
    ensures forall h, h' :: h in ids && h' in ids && ids[h] == ids[h'] ==> h == h'
    ensures forall id :: |s0.db.groups| < id <= |s.db.groups| ==> id in ids.Values
    ensures RulesHaveGroups(s.db) && KeepsOld(s0.db, s.db)
  {
    hide Run, Under, RuleRows, GroupResult;
    ids := RunKeepsHistory(w, s0, steps, s);
  }
}
