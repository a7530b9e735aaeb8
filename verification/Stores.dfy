/** The message store as an object (cmd/reeed/store/sqlite3_store.go). */
module Stores {
  import opened ByteText
  import opened TagLogs
  import opened Messages
  import opened Tables

  /** `n` statements if the database holds out, else as many as it still executes. */
  function Reach(left: Option<nat>, n: nat): (k: nat)
    ensures k <= n && (k == n <==> left.None? || left.value >= n)
    ensures k < n ==> left == Some(k)
  {
    if left.Some? && left.value < n then left.value else n
  }

  function Minus(left: Option<nat>, n: nat): Option<nat> {
    match left
    case None => None
    case Some(m) => Some(if m < n then 0 else m - n)
  }

  /** `stmtsLeft` is how many more statements succeed before the database starts failing; None
      when none ever fails. */
  class SQLiteStore {
    var messages: map<string, bool>
    var tags: map<TagKey, TagRow>
    var groupEvals: seq<GroupRow>
    var ruleEvals: seq<RuleRow>
    var stmtsLeft: Option<nat>

    constructor (stmtsLeft: Option<nat>)
      ensures Contents() == DB(map[], map[], [], []) && this.stmtsLeft == stmtsLeft
    {
      messages, tags, groupEvals, ruleEvals := map[], map[], [], [];
      this.stmtsLeft := stmtsLeft;
    }

    ghost function Contents(): DB
      reads this
    {
      DB(messages, tags, groupEvals, ruleEvals)
    }

    /** A statement that only has to succeed: a query, or the begin or end of a transaction. */
    method Step() returns (ok: bool)
      modifies this`stmtsLeft
      ensures ok <==> old(stmtsLeft) != Some(0)
      ensures stmtsLeft == Minus(old(stmtsLeft), 1)
    {
      ok := stmtsLeft != Some(0);
      stmtsLeft := Minus(stmtsLeft, 1);
    }

    method Exec(w: Write) returns (ok: bool)
      modifies this
      ensures ok <==> old(stmtsLeft) != Some(0)
      ensures stmtsLeft == Minus(old(stmtsLeft), 1)
      ensures Contents() == if ok then Execute(old(Contents()), w) else old(Contents())
    {
      ok := Step();
      if ok {
        match w
        case PutGroup(row) => groupEvals := groupEvals + [row];
        case PutRule(row) => ruleEvals := ruleEvals + [row];
        case PutTag(message, c, group, rule) =>
          var tk, stamp := TagKey(message, c.key), Stamp(c.time, group, rule);
          if tk in tags {
            tags := tags[tk := tags[tk].(value := c.value, updated := Some(stamp))];
          } else {
            tags := tags[tk := TagRow(c.value, stamp, None)];
          }
      }
    }

    /** None on a store error; otherwise whether there is a message row and, if so, its metadata. */
    method GetMetadata(storeID: string) returns (r: Option<(Metadata, bool)>)
      modifies this`stmtsLeft
      ensures r.Some? && r.value.1 ==>
        storeID in messages && r.value.0 == Metadata(messages[storeID], Some(Visible(Contents(), storeID)))
      ensures r.Some? && !r.value.1 ==> storeID !in messages
      ensures r.Some? ==> stmtsLeft == Minus(old(stmtsLeft), if storeID in messages then 2 else 1)
      ensures old(stmtsLeft).None? ==> stmtsLeft.None?
      ensures r.Some? <==> Reach(old(stmtsLeft), if storeID in messages then 2 else 1)
                           == if storeID in messages then 2 else 1
    {
      var ok := Step();
      if !ok {
        return None;
      }
      if storeID !in messages {
        return Some((Metadata(false, None), false));
      }
      ok := Step();
      if !ok {
        return None;
      }
      var rows := set tk | tk in tags && tk.message == storeID && tags[tk].value.Some?;
      var found: Option<Tags> := None;
      if rows != {} {
        var kvs: Tags := map[];
        var left := rows;
        while left != {}
          invariant left <= rows
          invariant forall k :: k in kvs <==> TagKey(storeID, k) in rows && TagKey(storeID, k) !in left
          invariant forall k :: k in kvs ==> kvs[k] == tags[TagKey(storeID, k)].value.value
        {
          var tk :| tk in left;
          assert tk == TagKey(storeID, tk.key);
          kvs := kvs[tk.key := tags[tk].value.value];
          left := left - {tk};
        }
        found := Some(kvs);
      }
      forall k ensures Lookup(TagsOf(found), k) == Lookup(Visible(Contents(), storeID), k) {
        assert TagKey(storeID, k) in rows <==> TagKey(storeID, k) in tags && tags[TagKey(storeID, k)].value.Some?;
      }
      SameLookups(TagsOf(found), Visible(Contents(), storeID));
      var meta := NewMetadata(messages[storeID], found);
      return Some((meta, true));
    }

    /** Fails on a Date header that cannot be parsed, on a primary key that is taken, and when the
        database fails. */
    method PutMessage(storeID: string, msg: Message) returns (ok: bool)
      modifies this
      ensures old(stmtsLeft).None? ==> stmtsLeft.None?
      ensures ok <==> msg.envelope.dateOK && old(stmtsLeft) != Some(0) && storeID !in old(messages)
      ensures Contents() == if ok then old(Contents()).(messages := old(messages)[storeID := msg.sampled])
                            else old(Contents())
    {
      if !msg.envelope.dateOK {
        return false;
      }
      ok := Step();
      if ok && storeID in messages {
        return false;
      }
      if ok {
        messages := messages[storeID := msg.sampled];
      }
    }

    /** The statements of RecordEval are executed outside its transaction: when one fails, exactly
        those before it stay in effect, and nothing is rolled back. The first statement counted is
        the begin of the transaction and the last its commit. */
    method RecordEval(storeID: string, r: EvalRecord) returns (ok: bool)
      modifies this
      ensures var ws := EvalWrites(old(Contents()), storeID, r.group, Values(r.rules));
        && Contents() == ExecuteAll(old(Contents()), ws[..Executed(old(stmtsLeft), |ws|)])
        && (ok <==> Reach(old(stmtsLeft), |ws| + 2) == |ws| + 2)
      ensures old(stmtsLeft).None? ==> stmtsLeft.None?
    {
      hide Execute, ExecuteAll, RuleWrites, AllRuleWrites, HasAt, GroupResult;
      ghost var db, records := Contents(), Values(r.rules);
      ghost var ws := EvalWrites(db, storeID, r.group, records);
      ExecuteNone(db, ws);
      ok := Step();
      if !ok {
        return false;
      }
      var matched, errStr := LastResult(r);
      // The group's row comes first; the rules' rows refer to it.
      ExecuteNext(db, ws, 0);
      ok := Exec(PutGroup(GroupRow(storeID, r.group, matched, errStr)));
      if !ok {
        return false;
      }
      var groupEvalID := |groupEvals|;
      assert groupEvalID == |db.groups| + 1 by { GroupAppended(db, ws[0]); }
      ghost var done := 1;
      NoRuleWrites(storeID, groupEvalID, r.group);
      // Then, rule by rule, its row and its tag changes.
      for i := 0 to |r.rules|
        invariant done == 1 + |AllRuleWrites(storeID, groupEvalID, r.group, records[..i])|
        invariant Progress(db, ws, done, old(stmtsLeft))
      {
        RuleWritesSplit(storeID, groupEvalID, r.group, records, i);
        HasAtAfter(ws[0], AllRuleWrites(storeID, groupEvalID, r.group, records), done - 1,
                   RuleWrites(storeID, groupEvalID, r.group, records[i]));
        done, ok := RecordRule(storeID, groupEvalID, r.group, r.rules[i], db, ws, done, old(stmtsLeft));
        if !ok {
          return false;
        }
      }
      assert records[..|r.rules|] == records;
      ok := Step();
    }

    /** Match and error for the group row, taken from the last record. */
    method LastResult(r: EvalRecord) returns (matched: Option<bool>, errStr: Option<Bytes>)
      ensures (matched, errStr) == GroupResult(Values(r.rules))
    {
      matched, errStr := None, None;
      var m := |r.rules|;
      if m > 0 {
        var rr := r.rules[m - 1];
        matched := Some(rr.matched);
        if rr.err.Some? {
          matched, errStr := None, rr.err;
        }
      }
    }

    /** One turn of the loop over the rule records. `err` is nil whenever it is tested, which is
        why the rule's own error never reaches its row. */
    method RecordRule(storeID: string, groupEvalID: nat, group: Bytes, rr: RuleEvalRecord,
                      ghost db: DB, ghost ws: seq<Write>, ghost start: nat, ghost budget: Option<nat>)
      returns (ghost done: nat, ok: bool)
      requires Progress(db, ws, start, budget)
      requires HasAt(ws, start, RuleWrites(storeID, groupEvalID, group, rr.Value()))
      modifies this
      ensures start <= done <= |ws|
      ensures ok ==> done == start + |RuleWrites(storeID, groupEvalID, group, rr.Value())|
                     && Progress(db, ws, done, budget)
      ensures !ok ==> budget == Some(done + 1) && done < |ws|
                      && Contents() == ExecuteAll(db, ws[..done])
    {
      hide Execute, ExecuteAll, HasAt;
      done := start;
      ghost var mine := RuleWrites(storeID, groupEvalID, group, rr.Value());
      ok := true;
      var matched: Option<bool>, errStr: Option<Bytes> := None, None;
      if ok {
        matched, errStr := Some(rr.matched), None;
      } else {
        assert false;
      }
      HasAtIndex(ws, start, mine, 0);
      ExecuteNext(db, ws, done);
      ok := Exec(PutRule(RuleRow(groupEvalID, rr.rule, matched, errStr)));
      if !ok {
        return;
      }
      done := done + 1;
      for j := 0 to |rr.tagChanges|
        invariant done == start + 1 + j
        invariant Progress(db, ws, done, budget)
      {
        HasAtIndex(ws, start, mine, j + 1);
        ExecuteNext(db, ws, done);
        ok := Exec(PutTag(storeID, rr.tagChanges[j], group, rr.rule));
        if !ok {
          return;
        }
        done := done + 1;
      }
      ok := true;
    }

    /** The first `done` statements of `ws` have been executed, after the begin of the
        transaction, out of the statements the database had left. */
    ghost predicate Progress(db: DB, ws: seq<Write>, done: nat, budget: Option<nat>)
      reads this
    {
      && done <= |ws|
      && Contents() == ExecuteAll(db, ws[..done])
      && (budget.Some? ==> done + 1 <= budget.value)
      && stmtsLeft == Minus(budget, done + 1)
    }
  }

  /** How many of `n` statements run when the begin of the transaction comes first. */
  function Executed(left: Option<nat>, n: nat): (k: nat)
    ensures k <= n && (k == n <==> n == 0 || left.None? || left.value > n)
    ensures k < n ==> left == Some(k + 1) || (k == 0 && left == Some(0))
  {
    if left == Some(0) then 0 else Reach(Minus(left, 1), n)
  }

  /** `part` stands in `ws` from index `at` on. */
  ghost predicate HasAt(ws: seq<Write>, at: nat, part: seq<Write>) {
    at + |part| <= |ws| && ws[at..at + |part|] == part
  }

  lemma HasAtIndex(ws: seq<Write>, at: nat, part: seq<Write>, k: nat)
    requires HasAt(ws, at, part) && k < |part|
    ensures at + k < |ws| && ws[at + k] == part[k]
  {
  }

  lemma HasAtAfter(w: Write, ws: seq<Write>, at: nat, part: seq<Write>)
    requires HasAt(ws, at, part)
    ensures HasAt([w] + ws, at + 1, part)
  {
  }

  lemma ExecuteNone(db: DB, ws: seq<Write>)
    ensures ExecuteAll(db, ws[..0]) == db
  {
  }

  lemma ExecuteNext(db: DB, ws: seq<Write>, k: nat)
    requires k < |ws|
    ensures ExecuteAll(db, ws[..k + 1]) == Execute(ExecuteAll(db, ws[..k]), ws[k])
  {
    assert ws[..k + 1][..k] == ws[..k];
  }

  lemma GroupAppended(db: DB, w: Write)
    requires w.PutGroup?
    ensures |Execute(db, w).groups| == |db.groups| + 1
  {
  }

  lemma NoRuleWrites(message: string, id: nat, group: Bytes)
    ensures AllRuleWrites(message, id, group, []) == []
  {
  }

  /** The statements of rule `i` follow those of the rules before it. */
  lemma {:induction false} RuleWritesSplit(message: string, id: nat, group: Bytes, rules: seq<RuleRecord>, i: nat)
    requires i < |rules|
    ensures |AllRuleWrites(message, id, group, rules[..i + 1])|
         == |AllRuleWrites(message, id, group, rules[..i])| + |RuleWrites(message, id, group, rules[i])|
    ensures HasAt(AllRuleWrites(message, id, group, rules), |AllRuleWrites(message, id, group, rules[..i])|,
                  RuleWrites(message, id, group, rules[i]))
    decreases |rules|
  {
    hide RuleWrites;
    assert rules[..i + 1][..i] == rules[..i];
    var n := |rules| - 1;
    if i == n {
      assert rules[..i + 1] == rules;
    } else {
      RuleWritesSplit(message, id, group, rules[..n], i);
      assert rules[..n][..i] == rules[..i] && rules[..n][..i + 1] == rules[..i + 1];
    }
  }
}
