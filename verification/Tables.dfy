/** The tables of the message store and what its statements do to them, on values
    (the schema and the statement texts of cmd/reeed/store/sqlite3_store.go). */
module Tables {
  import opened ByteText
  import opened TagLogs
  import opened Messages

  datatype Stamp = Stamp(time: nat, group: Bytes, rule: Bytes)

  /** A row of `tag`; a NULL value marks a deleted tag. */
  datatype TagRow = TagRow(value: Option<string>, created: Stamp, updated: Option<Stamp>)

  datatype TagKey = TagKey(message: string, key: string)

  datatype GroupRow = GroupRow(message: string, group: Bytes, matched: Option<bool>, err: Option<Bytes>)

  datatype RuleRow = RuleRow(groupEval: nat, rule: Bytes, matched: Option<bool>, err: Option<Bytes>)

  /** `messages` gives each message row's is_sampled. The ID of a group_eval row is one more than
      its index. */
  datatype DB = DB(messages: map<string, bool>, tags: map<TagKey, TagRow>,
                   groups: seq<GroupRow>, rules: seq<RuleRow>)

  /** One statement that RecordEval executes. */
  datatype Write =
    | PutGroup(groupRow: GroupRow)
    | PutRule(ruleRow: RuleRow)
    | PutTag(message: string, change: TagChange, group: Bytes, rule: Bytes)

  /** `INSERT ... ON CONFLICT DO UPDATE`. */
  function Upsert(before: Option<TagRow>, value: Option<string>, stamp: Stamp): TagRow {
    match before
    case None => TagRow(value, stamp, None)
    case Some(row) => TagRow(value, row.created, Some(stamp))
  }

  function RowAt(db: DB, message: string, key: string): Option<TagRow> {
    var tk := TagKey(message, key);
    if tk in db.tags then Some(db.tags[tk]) else None
  }

  function Execute(db: DB, w: Write): DB {
    match w
    case PutGroup(row) => db.(groups := db.groups + [row])
    case PutRule(row) => db.(rules := db.rules + [row])
    case PutTag(message, c, group, rule) =>
      var row := Upsert(RowAt(db, message, c.key), c.value, Stamp(c.time, group, rule));
      db.(tags := db.tags[TagKey(message, c.key) := row])
  }

  function ExecuteAll(db: DB, ws: seq<Write>): DB {
    if ws == [] then db else Execute(ExecuteAll(db, ws[..|ws| - 1]), ws[|ws| - 1])
  }

  /** The tags a message has in the store: its rows whose value is not null. */
  function Visible(db: DB, message: string): (tags: Tags)
    ensures forall k :: Lookup(tags, k)
                     == if RowAt(db, message, k).Some? then RowAt(db, message, k).value.value else None
  {
    map tk | tk in db.tags && tk.message == message && db.tags[tk].value.Some? ::
      tk.key := db.tags[tk].value.value
  }

  /** Every tag and group row belongs to a message row. */
  ghost predicate RowsHaveMessages(db: DB) {
    && (forall tk :: tk in db.tags ==> tk.message in db.messages)
    && (forall i :: 0 <= i < |db.groups| ==> db.groups[i].message in db.messages)
  }

  /** What a message's tags look like depends on the tag rows alone. */
  lemma SameTagsSameView(db: DB, db': DB, message: string)
    requires db'.tags == db.tags
    ensures Visible(db', message) == Visible(db, message)
  {
  }

  /** A message without a row has no tags. */
  lemma NoRowNoTags(db: DB, message: string)
    requires RowsHaveMessages(db) && message !in db.messages
    ensures Visible(db, message) == map[]
  {
  }

  // ---------- the statements of one RecordEval ----------

  /** The group's stored match and error: those of the last rule, if there was one. */
  function GroupResult(rules: seq<RuleRecord>): (Option<bool>, Option<Bytes>) {
    if rules == [] then (None, None)
    else
      var last := rules[|rules| - 1];
      if last.err.Some? then (None, last.err) else (Some(last.matched), None)
  }

  function TagWrites(message: string, group: Bytes, rule: Bytes, cs: seq<TagChange>): (ws: seq<Write>)
    ensures |ws| == |cs|
  {
    seq(|cs|, j requires 0 <= j < |cs| => PutTag(message, cs[j], group, rule))
  }

  /** A rule's row always has the match flag and never the error: the source tests the error of
      the previous statement, which is nil there, in place of the rule's own. */
  function RuleWrites(message: string, id: nat, group: Bytes, r: RuleRecord): seq<Write> {
    [PutRule(RuleRow(id, r.rule, Some(r.matched), None))] + TagWrites(message, group, r.rule, r.changes)
  }

  function AllRuleWrites(message: string, id: nat, group: Bytes, rules: seq<RuleRecord>): seq<Write> {
    if rules == [] then []
    else AllRuleWrites(message, id, group, rules[..|rules| - 1])
         + RuleWrites(message, id, group, rules[|rules| - 1])
  }

  function EvalWrites(db: DB, message: string, group: Bytes, rules: seq<RuleRecord>): seq<Write> {
    var r := GroupResult(rules);
    [PutGroup(GroupRow(message, group, r.0, r.1))]
    + AllRuleWrites(message, |db.groups| + 1, group, rules)
  }

  /** Every statement of an evaluation names the message it was recorded for. */
  ghost predicate Only(ws: seq<Write>, message: string) {
    && (forall w :: w in ws && w.PutTag? ==> w.message == message)
    && (forall w :: w in ws && w.PutGroup? ==> w.groupRow.message == message)
  }

  // ---------- tag changes among statements ----------

  /** The changes that `ws` makes to the tags of `message`, in order. */
  function ChangesFor(ws: seq<Write>, message: string): seq<TagChange> {
    if ws == [] then []
    else
      var w := ws[|ws| - 1];
      ChangesFor(ws[..|ws| - 1], message) + if w.PutTag? && w.message == message then [w.change] else []
  }

  lemma {:induction false} ExecuteAppend(db: DB, ws: seq<Write>, vs: seq<Write>)
    ensures ExecuteAll(db, ws + vs) == ExecuteAll(ExecuteAll(db, ws), vs)
  {
    hide Execute;
    if vs == [] {
      assert ws + vs == ws;
    } else {
      var n := |vs| - 1;
      ExecuteAppend(db, ws, vs[..n]);
      assert (ws + vs)[..|ws + vs| - 1] == ws + vs[..n];
    }
  }

  lemma {:induction false} ChangesForAppend(ws: seq<Write>, vs: seq<Write>, message: string)
    ensures ChangesFor(ws + vs, message) == ChangesFor(ws, message) + ChangesFor(vs, message)
  {
    if vs == [] {
      assert ws + vs == ws;
    } else {
      var n := |vs| - 1;
      ChangesForAppend(ws, vs[..n], message);
      assert (ws + vs)[..|ws + vs| - 1] == ws + vs[..n];
    }
  }

  /** The store's view of a message after any statements is the replay of the changes they carry:
      upserts with tombstones refine plain tag changes. */
  lemma {:induction false} VisibleIsReplay(db: DB, ws: seq<Write>, message: string)
    ensures Visible(ExecuteAll(db, ws), message) == Replay(Visible(db, message), ChangesFor(ws, message))
  {
    hide Visible;
    if ws != [] {
      var n := |ws| - 1;
      VisibleIsReplay(db, ws[..n], message);
      VisibleStep(ExecuteAll(db, ws[..n]), ws[n], message);
      var cs := ChangesFor(ws[..n], message);
      assert cs + [] == cs;
      if ws[n].PutTag? && ws[n].message == message {
        ReplayAppend(Visible(db, message), cs, [ws[n].change]);
        ReplayOne(Replay(Visible(db, message), cs), ws[n].change);
      }
    }
  }

  lemma VisibleStep(db: DB, w: Write, message: string)
    ensures Visible(Execute(db, w), message)
         == if w.PutTag? && w.message == message then Change(Visible(db, message), w.change)
            else Visible(db, message)
  {
    hide Visible, Change;
    var after := Visible(Execute(db, w), message);
    var expected := if w.PutTag? && w.message == message then Change(Visible(db, message), w.change)
                    else Visible(db, message);
    forall k ensures Lookup(after, k) == Lookup(expected, k) {
      assert RowAt(Execute(db, w), message, k)
          == if w.PutTag? && w.message == message && w.change.key == k
             then Some(Upsert(RowAt(db, message, k), w.change.value, Stamp(w.change.time, w.group, w.rule)))
             else RowAt(db, message, k);
    }
    SameLookups(after, expected);
  }

  /** What each key's row went through: the value and stamp of every statement that names it. */
  function RowHistory(ws: seq<Write>, message: string, key: string): seq<(Option<string>, Stamp)> {
    if ws == [] then []
    else
      var w := ws[|ws| - 1];
      RowHistory(ws[..|ws| - 1], message, key)
      + if w.PutTag? && w.message == message && w.change.key == key
        then [(w.change.value, Stamp(w.change.time, w.group, w.rule))] else []
  }

  /** After any statements there is one row for a (message, key) exactly if it was there before or
      was ever changed. Its create columns are from its first change, its value from its last, and
      its update columns from the last change that met an existing row. */
  lemma {:induction false} RowAfter(db: DB, ws: seq<Write>, message: string, key: string)
    ensures var h, before, after := RowHistory(ws, message, key), RowAt(db, message, key),
                                    RowAt(ExecuteAll(db, ws), message, key);
      && (h == [] ==> after == before)
      && (h != [] ==>
        && after.Some? && after.value.value == h[|h| - 1].0
        && after.value.created == (if before.Some? then before.value.created else h[0].1)
        && after.value.updated == (if before.None? && |h| == 1 then None else Some(h[|h| - 1].1)))
  {
    if ws != [] {
      RowAfter(db, ws[..|ws| - 1], message, key);
    }
  }

  lemma ExecuteKeepsMessages(db: DB, w: Write)
    ensures Execute(db, w).messages == db.messages
  {
  }

  lemma {:induction false} MessagesKept(db: DB, ws: seq<Write>)
    ensures ExecuteAll(db, ws).messages == db.messages
  {
    if ws != [] {
      MessagesKept(db, ws[..|ws| - 1]);
    }
  }

  /** Recording for a message that has a row keeps every row attached to a message. */
  lemma {:induction false} RowsHaveMessagesKept(db: DB, ws: seq<Write>, message: string)
    requires RowsHaveMessages(db) && message in db.messages && Only(ws, message)
    ensures RowsHaveMessages(ExecuteAll(db, ws))
  {
    if ws != [] {
      var n := |ws| - 1;
      assert ws[n] in ws && forall w :: w in ws[..n] ==> w in ws;
      RowsHaveMessagesKept(db, ws[..n], message);
      MessagesKept(db, ws[..n]);
      var before, after := ExecuteAll(db, ws[..n]), ExecuteAll(db, ws);
      assert after == Execute(before, ws[n]);
    }
  }

  // ---------- what one evaluation writes ----------

  /** The changes of all the rules of an evaluation, in order. */
  function AllChanges(rules: seq<RuleRecord>): seq<TagChange> {
    if rules == [] then [] else AllChanges(rules[..|rules| - 1]) + rules[|rules| - 1].changes
  }

  lemma {:induction false} TagWritesChanges(message: string, group: Bytes, rule: Bytes, cs: seq<TagChange>)
    ensures ChangesFor(TagWrites(message, group, rule, cs), message) == cs
    ensures Only(TagWrites(message, group, rule, cs), message)
  {
    var ws := TagWrites(message, group, rule, cs);
    if cs != [] {
      var n := |cs| - 1;
      TagWritesChanges(message, group, rule, cs[..n]);
      assert ws[..n] == TagWrites(message, group, rule, cs[..n]);
      assert cs == cs[..n] + [cs[n]];
    }
  }

  lemma OneRuleChanges(message: string, id: nat, group: Bytes, r: RuleRecord)
    ensures ChangesFor(RuleWrites(message, id, group, r), message) == r.changes
    ensures Only(RuleWrites(message, id, group, r), message)
  {
    hide TagWrites;
    var head := [PutRule(RuleRow(id, r.rule, Some(r.matched), None))];
    var tail := TagWrites(message, group, r.rule, r.changes);
    TagWritesChanges(message, group, r.rule, r.changes);
    assert head[..0] == [];
    ChangesForAppend(head, tail, message);
    assert ChangesFor(head, message) == [];
  }

  lemma {:induction false} RuleWritesChanges(message: string, id: nat, group: Bytes, rules: seq<RuleRecord>)
    ensures ChangesFor(AllRuleWrites(message, id, group, rules), message) == AllChanges(rules)
    ensures Only(AllRuleWrites(message, id, group, rules), message)
  {
    hide TagWrites, RuleWrites, ChangesFor;
    if rules == [] {
      assert ChangesFor([], message) == [] by { NoChanges(message); }
    } else {
      var n := |rules| - 1;
      RuleWritesChanges(message, id, group, rules[..n]);
      OneRuleChanges(message, id, group, rules[n]);
      ChangesForAppend(AllRuleWrites(message, id, group, rules[..n]), RuleWrites(message, id, group, rules[n]),
                       message);
    }
  }

  lemma NoChanges(message: string)
    ensures ChangesFor([], message) == []
  {
  }

  lemma EvalWritesChanges(db: DB, message: string, group: Bytes, rules: seq<RuleRecord>)
    ensures ChangesFor(EvalWrites(db, message, group, rules), message) == AllChanges(rules)
    ensures Only(EvalWrites(db, message, group, rules), message)
  {
    var r := GroupResult(rules);
    var head := [PutGroup(GroupRow(message, group, r.0, r.1))];
    RuleWritesChanges(message, |db.groups| + 1, group, rules);
    assert head[..0] == [];
    ChangesForAppend(head, AllRuleWrites(message, |db.groups| + 1, group, rules), message);
  }

  /** The rule_eval rows of an evaluation. */
  function RuleRows(id: nat, rules: seq<RuleRecord>): seq<RuleRow> {
    seq(|rules|, i requires 0 <= i < |rules| => RuleRow(id, rules[i].rule, Some(rules[i].matched), None))
  }

  lemma {:induction false} TagWritesAddNoRows(db: DB, message: string, group: Bytes, rule: Bytes, cs: seq<TagChange>)
    ensures var after := ExecuteAll(db, TagWrites(message, group, rule, cs));
      after.groups == db.groups && after.rules == db.rules
  {
    var ws := TagWrites(message, group, rule, cs);
    if cs != [] {
      TagWritesAddNoRows(db, message, group, rule, cs[..|cs| - 1]);
      assert ws[..|cs| - 1] == TagWrites(message, group, rule, cs[..|cs| - 1]);
    }
  }

  lemma {:induction false} RuleWritesAddRows(db: DB, message: string, id: nat, group: Bytes, rules: seq<RuleRecord>)
    ensures var after := ExecuteAll(db, AllRuleWrites(message, id, group, rules));
      after.groups == db.groups && after.rules == db.rules + RuleRows(id, rules)
  {
    hide TagWrites;
    if rules != [] {
      var n := |rules| - 1;
      var r := rules[n];
      var before := ExecuteAll(db, AllRuleWrites(message, id, group, rules[..n]));
      RuleWritesAddRows(db, message, id, group, rules[..n]);
      ExecuteAppend(db, AllRuleWrites(message, id, group, rules[..n]), RuleWrites(message, id, group, r));
      var head := [PutRule(RuleRow(id, r.rule, Some(r.matched), None))];
      assert head[..0] == [];
      ExecuteAppend(before, head, TagWrites(message, group, r.rule, r.changes));
      TagWritesAddNoRows(ExecuteAll(before, head), message, group, r.rule, r.changes);
      assert RuleRows(id, rules) == RuleRows(id, rules[..n]) + [head[0].ruleRow];
    }
  }

  /** A whole evaluation adds one group row, with its result, and one row for each rule that ran,
      all under the ID of that group row. */
  lemma EvalAddsRows(db: DB, message: string, group: Bytes, rules: seq<RuleRecord>)
    ensures var after := ExecuteAll(db, EvalWrites(db, message, group, rules));
      && after.groups == db.groups + [GroupRow(message, group, GroupResult(rules).0, GroupResult(rules).1)]
      && after.rules == db.rules + RuleRows(|db.groups| + 1, rules)
  {
    hide AllRuleWrites, GroupResult, RuleRows;
    var r := GroupResult(rules);
    var head := [PutGroup(GroupRow(message, group, r.0, r.1))];
    assert head[..0] == [];
    ExecuteAppend(db, head, AllRuleWrites(message, |db.groups| + 1, group, rules));
    RuleWritesAddRows(ExecuteAll(db, head), message, |db.groups| + 1, group, rules);
  }

  // ---------- which statements, in which order ----------

  /** Where rule `i`'s statements begin: after the group's row, and a row and its tag changes for each
      rule before it. */
  function Position(rules: seq<RuleRecord>, i: nat): (p: nat)
    requires i <= |rules|
    ensures p > 0
  {
    if i == 0 then 1 else Position(rules, i - 1) + 1 + |rules[i - 1].changes|
  }

  lemma {:induction false} PositionInPrefix(rules: seq<RuleRecord>, n: nat, i: nat)
    requires i <= n <= |rules|
    ensures Position(rules[..n], i) == Position(rules, i)
  {
    if i > 0 {
      PositionInPrefix(rules, n, i - 1);
    }
  }

  lemma {:induction false} PositionsGrow(rules: seq<RuleRecord>, i: nat, j: nat)
    requires i < j <= |rules|
    ensures Position(rules, i) + 1 + |rules[i].changes| <= Position(rules, j)
  {
    if i < j - 1 {
      PositionsGrow(rules, i, j - 1);
    }
  }

  /** From index `p` on: the row of the rule, and behind it the upserts of its tag changes. */
  ghost predicate RuleAt(ws: seq<Write>, p: nat, message: string, id: nat, group: Bytes, r: RuleRecord) {
    && p + |r.changes| < |ws|
    && ws[p] == PutRule(RuleRow(id, r.rule, Some(r.matched), None))
    && forall j :: 0 <= j < |r.changes| ==> ws[p + 1 + j] == PutTag(message, r.changes[j], group, r.rule)
  }

  ghost predicate RuleStatements(ws: seq<Write>, message: string, id: nat, group: Bytes, rules: seq<RuleRecord>) {
    && |ws| == Position(rules, |rules|)
    && forall i :: 0 <= i < |rules| ==> RuleAt(ws, Position(rules, i), message, id, group, rules[i])
  }

  lemma RuleWritesAt(ws: seq<Write>, message: string, id: nat, group: Bytes, r: RuleRecord)
    ensures RuleAt(ws + RuleWrites(message, id, group, r), |ws|, message, id, group, r)
    ensures |RuleWrites(message, id, group, r)| == 1 + |r.changes|
  {
  }

  lemma RuleAtStays(ws: seq<Write>, more: seq<Write>, p: nat, message: string, id: nat, group: Bytes, r: RuleRecord)
    requires RuleAt(ws, p, message, id, group, r)
    ensures RuleAt(ws + more, p, message, id, group, r)
  {
  }

  lemma OneMoreRuleStatement(ws: seq<Write>, message: string, id: nat, group: Bytes, rules: seq<RuleRecord>,
                             r: RuleRecord)
    requires RuleStatements(ws, message, id, group, rules)
    ensures RuleStatements(ws + RuleWrites(message, id, group, r), message, id, group, rules + [r])
  {
    hide RuleWrites, RuleAt, Position;
    var all, n := rules + [r], |rules|;
    var mine := RuleWrites(message, id, group, r);
    RuleWritesAt(ws, message, id, group, r);
    assert all[..n] == rules;
    PositionInPrefix(all, n, n);
    assert Position(all, n + 1) == Position(all, n) + 1 + |r.changes| by { LastPosition(all); }
    forall i | 0 <= i < n ensures RuleAt(ws + mine, Position(all, i), message, id, group, all[i]) {
      PositionInPrefix(all, n, i);
      RuleAtStays(ws, mine, Position(rules, i), message, id, group, rules[i]);
    }
  }

  lemma LastPosition(rules: seq<RuleRecord>)
    requires rules != []
    ensures Position(rules, |rules|) == Position(rules, |rules| - 1) + 1 + |rules[|rules| - 1].changes|
  {
  }

  lemma {:induction false} RuleStatementsInOrder(w: Write, message: string, id: nat, group: Bytes,
                                                 rules: seq<RuleRecord>)
    ensures RuleStatements([w] + AllRuleWrites(message, id, group, rules), message, id, group, rules)
  {
    hide RuleWrites, RuleStatements;
    if rules == [] {
      FirstStatement(w, message, id, group);
    } else {
      var n := |rules| - 1;
      RuleStatementsInOrder(w, message, id, group, rules[..n]);
      var before := [w] + AllRuleWrites(message, id, group, rules[..n]);
      OneMoreRuleStatement(before, message, id, group, rules[..n], rules[n]);
      assert rules == rules[..n] + [rules[n]];
      assert [w] + AllRuleWrites(message, id, group, rules)
          == before + RuleWrites(message, id, group, rules[n]);
    }
  }

  lemma FirstStatement(w: Write, message: string, id: nat, group: Bytes)
    ensures RuleStatements([w] + AllRuleWrites(message, id, group, []), message, id, group, [])
  {
  }

  /** The statements of one evaluation: the group's row with the result of its last rule; then, rule by
      rule, the rule's row and its tag changes in order, each with the evaluation's group and its rule. */
  lemma EvalStatements(db: DB, message: string, group: Bytes, rules: seq<RuleRecord>)
    ensures var ws := EvalWrites(db, message, group, rules);
      && RuleStatements(ws, message, |db.groups| + 1, group, rules)
      && ws[0].PutGroup? && ws[0].groupRow.message == message && ws[0].groupRow.group == group
      && (rules == [] ==> ws[0].groupRow.matched.None? && ws[0].groupRow.err.None?)
      && (rules != [] ==>
            var last := rules[|rules| - 1];
            ws[0].groupRow.err == last.err
            && ws[0].groupRow.matched == if last.err.Some? then None else Some(last.matched))
  {
    hide AllRuleWrites, RuleStatements;
    var r := GroupResult(rules);
    RuleStatementsInOrder(PutGroup(GroupRow(message, group, r.0, r.1)), message, |db.groups| + 1, group, rules);
  }

  // ---------- who made a tag's row what it is ----------

  ghost predicate Names(w: Write, message: string, key: string) {
    w.PutTag? && w.message == message && w.change.key == key
  }

  function HistoryEntry(w: Write): (Option<string>, Stamp)
    requires w.PutTag?
  {
    (w.change.value, Stamp(w.change.time, w.group, w.rule))
  }

  lemma {:induction false} NoHistory(ws: seq<Write>, message: string, key: string)
    requires forall x :: 0 <= x < |ws| ==> !Names(ws[x], message, key)
    ensures RowHistory(ws, message, key) == []
  {
    if ws != [] {
      NoHistory(ws[..|ws| - 1], message, key);
    }
  }

  lemma {:induction false} HistoryBegins(ws: seq<Write>, message: string, key: string, f: nat)
    requires f < |ws| && Names(ws[f], message, key) && forall x :: 0 <= x < f ==> !Names(ws[x], message, key)
    ensures RowHistory(ws, message, key) != [] && RowHistory(ws, message, key)[0] == HistoryEntry(ws[f])
  {
    var n := |ws| - 1;
    if f == n {
      NoHistory(ws[..n], message, key);
    } else {
      HistoryBegins(ws[..n], message, key, f);
    }
  }

  lemma {:induction false} HistoryEnds(ws: seq<Write>, message: string, key: string, l: nat)
    requires l < |ws| && Names(ws[l], message, key) && forall x :: l < x < |ws| ==> !Names(ws[x], message, key)
    ensures RowHistory(ws, message, key) == RowHistory(ws[..l], message, key) + [HistoryEntry(ws[l])]
  {
    var n := |ws| - 1;
    if l < n {
      HistoryEnds(ws[..n], message, key, l);
      assert ws[..n][..l] == ws[..l];
    }
  }

  /** Every statement but the first belongs to a rule. */
  lemma {:induction false} WhichStatement(rules: seq<RuleRecord>, n: nat, x: nat) returns (i: nat)
    requires n <= |rules| && 0 < x < Position(rules, n)
    ensures i < n && Position(rules, i) <= x <= Position(rules, i) + |rules[i].changes|
  {
    if x < Position(rules, n - 1) {
      i := WhichStatement(rules, n - 1, x);
    } else {
      i := n - 1;
    }
  }

  /** Rule `i`'s change `j` is one of `key`. */
  ghost predicate ChangesKey(rules: seq<RuleRecord>, i: nat, j: nat, key: string) {
    i < |rules| && j < |rules[i].changes| && rules[i].changes[j].key == key
  }

  ghost predicate NotAfter(i: nat, j: nat, a: nat, b: nat) { i < a || (i == a && j <= b) }

  lemma PlaceOf(db: DB, message: string, group: Bytes, rules: seq<RuleRecord>, i: nat, j: nat)
    requires i < |rules| && j < |rules[i].changes|
    ensures var ws, x := EvalWrites(db, message, group, rules), Position(rules, i) + 1 + j;
      x < |ws| && ws[x] == PutTag(message, rules[i].changes[j], group, rules[i].rule)
  {
    hide EvalWrites, Position;
    EvalStatements(db, message, group, rules);
    assert RuleAt(EvalWrites(db, message, group, rules), Position(rules, i), message, |db.groups| + 1, group, rules[i]);
  }

  /** Conversely, a statement that names the key is one of a rule's changes of it. */
  lemma ChangeAt(db: DB, message: string, group: Bytes, rules: seq<RuleRecord>, key: string, x: nat)
    returns (i: nat, j: nat)
    requires var ws := EvalWrites(db, message, group, rules); x < |ws| && Names(ws[x], message, key)
    ensures ChangesKey(rules, i, j, key) && x == Position(rules, i) + 1 + j
  {
    hide EvalWrites, Position;
    EvalStatements(db, message, group, rules);
    i := WhichStatement(rules, |rules|, x);
    assert RuleAt(EvalWrites(db, message, group, rules), Position(rules, i), message, |db.groups| + 1, group, rules[i]);
    j := x - Position(rules, i) - 1;
    PlaceOf(db, message, group, rules, i, j);
  }

  lemma PlacesInOrder(rules: seq<RuleRecord>, i: nat, j: nat, a: nat, b: nat)
    requires i < |rules| && j < |rules[i].changes| && a < |rules| && b < |rules[a].changes|
    ensures NotAfter(i, j, a, b) <==> Position(rules, i) + 1 + j <= Position(rules, a) + 1 + b
  {
    if i < a {
      PositionsGrow(rules, i, a);
    } else if a < i {
      PositionsGrow(rules, a, i);
    }
  }

  /** After an evaluation every key it changed has a row with the value of the last change. A new row
      was created by the group and the rule of the first change; and the update columns name those of
      the last, unless one change created the row and no other followed. */
  lemma TagRowsSayWho(db: DB, message: string, group: Bytes, rules: seq<RuleRecord>, key: string,
                      i: nat, j: nat, p: nat, q: nat)
    requires ChangesKey(rules, i, j, key) && ChangesKey(rules, p, q, key)
    requires forall a, b :: ChangesKey(rules, a, b, key) ==> NotAfter(i, j, a, b) && NotAfter(a, b, p, q)
    ensures var row := RowAt(ExecuteAll(db, EvalWrites(db, message, group, rules)), message, key);
      var before, first, last := RowAt(db, message, key), rules[i].changes[j], rules[p].changes[q];
      && row.Some? && row.value.value == last.value
      && row.value.created == (if before.Some? then before.value.created else Stamp(first.time, group, rules[i].rule))
      && row.value.updated == (if before.None? && (i, j) == (p, q) then None
                               else Some(Stamp(last.time, group, rules[p].rule)))
  {
    hide EvalWrites, Position, ExecuteAll, RowHistory;
    var ws := EvalWrites(db, message, group, rules);
    var f, l := Position(rules, i) + 1 + j, Position(rules, p) + 1 + q;
    PlaceOf(db, message, group, rules, i, j);
    PlaceOf(db, message, group, rules, p, q);
    forall x | 0 <= x < |ws| && Names(ws[x], message, key) ensures f <= x <= l {
      var a, b := ChangeAt(db, message, group, rules, key, x);
      PlacesInOrder(rules, i, j, a, b);
      PlacesInOrder(rules, a, b, p, q);
    }
    PlacesInOrder(rules, p, q, i, j);
    PlacesInOrder(rules, i, j, p, q);
    HistoryBegins(ws, message, key, f);
    HistoryEnds(ws, message, key, l);
    if f < l {
      HistoryBegins(ws[..l], message, key, f);
    } else {
      NoHistory(ws[..l], message, key);
    }
    RowAfter(db, ws, message, key);
  }

  /** The row of any other key, and of any other message, is as it was. */
  lemma OtherTagRowsKept(db: DB, message: string, group: Bytes, rules: seq<RuleRecord>, other: string, key: string)
    requires other != message || forall i, j :: !ChangesKey(rules, i, j, key)
    ensures RowAt(ExecuteAll(db, EvalWrites(db, message, group, rules)), other, key) == RowAt(db, other, key)
  {
    hide EvalWrites, ExecuteAll, RowHistory;
    var ws := EvalWrites(db, message, group, rules);
    EvalWritesChanges(db, message, group, rules);
    forall x | 0 <= x < |ws| ensures !Names(ws[x], other, key) {
      assert ws[x] in ws;
      if Names(ws[x], other, key) {
        var i, j := ChangeAt(db, message, group, rules, key, x);
      }
    }
    NoHistory(ws, other, key);
    RowAfter(db, ws, other, key);
  }

  lemma {:induction false} OtherMessagesUntouched(ws: seq<Write>, message: string, other: string)
    requires Only(ws, message) && other != message
    ensures ChangesFor(ws, other) == []
  {
    if ws != [] {
      var n := |ws| - 1;
      assert ws[n] in ws && forall w :: w in ws[..n] ==> w in ws;
      OtherMessagesUntouched(ws[..n], message, other);
    }
  }

  // ---------- the stored result of a group ----------

  /** The meaning of a list of rule records as a whole: the first error if any rule erred, else
      whether any rule matched, else nothing when there were no rules. */
  ghost function OverallResult(rules: seq<RuleRecord>): (Option<bool>, Option<Bytes>) {
    if exists i :: 0 <= i < |rules| && rules[i].err.Some? then (None, FirstError(rules))
    else if rules == [] then (None, None)
    else (Some(exists i :: 0 <= i < |rules| && rules[i].matched), None)
  }

  function FirstError(rules: seq<RuleRecord>): Option<Bytes> {
    if rules == [] then None
    else if rules[0].err.Some? then rules[0].err
    else FirstError(rules[1..])
  }

  predicate Stopped(r: RuleRecord) { r.err.Some? || r.matched }

  /** No rule but the last one erred or matched. */
  ghost predicate StopsAtEnd(rules: seq<RuleRecord>) {
    forall i :: 0 <= i < |rules| - 1 ==> !Stopped(rules[i])
  }

  /** Looking only at the last record gives the overall result, provided the loop stopped at the
      first rule that erred or matched. */
  lemma {:induction false} LastRecordDecides(rules: seq<RuleRecord>)
    requires StopsAtEnd(rules)
    ensures GroupResult(rules) == OverallResult(rules)
  {
    if rules != [] {
      var n := |rules| - 1;
      FirstErrorAtEnd(rules);
      assert rules[n].err.Some? ==> exists i :: 0 <= i < |rules| && rules[i].err.Some?;
      assert forall i :: 0 <= i < n ==> rules[i].err.None? && !rules[i].matched;
    }
  }

  lemma {:induction false} FirstErrorAtEnd(rules: seq<RuleRecord>)
    requires rules != [] && forall i :: 0 <= i < |rules| - 1 ==> rules[i].err.None?
    ensures FirstError(rules) == rules[|rules| - 1].err
  {
    if |rules| > 1 {
      FirstErrorAtEnd(rules[1..]);
    } else {
      assert rules[1..] == [];
    }
  }

  /** A rule's own row tells its outcome exactly when the rule did not err. */
  lemma RuleRowTellsOutcome(message: string, id: nat, group: Bytes, r: RuleRecord)
    ensures RuleWrites(message, id, group, r)[0].PutRule?
    ensures var row := RuleWrites(message, id, group, r)[0].ruleRow;
      (row.matched, row.err) == GroupResult([r]) <==> r.err.None?
  {
  }
}
