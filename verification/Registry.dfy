/** The registry of rules that scripts fill through addRules (cmd/reeed/rule/load.go). */
module Registry {
  import opened ByteText
  import opened Evaluations

  // ---------- the order of sort.Strings ----------

  predicate Less(a: Bytes, b: Bytes) {
    b != [] && (a == [] || a[0] < b[0] || (a[0] == b[0] && Less(a[1..], b[1..])))
  }

  /** At the first difference the smaller byte decides, and without one the shorter name. */
  lemma {:induction false} LessIsLexicographic(a: Bytes, b: Bytes)
    ensures Less(a, b) <==> exists k ::
      0 <= k <= |a| && k < |b| && a[..k] == b[..k] && (k == |a| || a[k] < b[k])
  {
    if a == [] || b == [] || a[0] != b[0] {
      if Less(a, b) {
        assert a[..0] == b[..0];
      }
      forall k | 0 <= k <= |a| && k < |b| && a[..k] == b[..k] && (k == |a| || a[k] < b[k]) ensures Less(a, b) {
        SameFirst(a, b, k);
      }
    } else {
      LessIsLexicographic(a[1..], b[1..]);
      if Less(a, b) {
        var j :| 0 <= j <= |a[1..]| && j < |b[1..]| && a[1..][..j] == b[1..][..j]
          && (j == |a[1..]| || a[1..][j] < b[1..][j]);
        FirstsEqual(a, b, j);
        assert a[..j + 1] == b[..j + 1];
      }
      forall k | 0 <= k <= |a| && k < |b| && a[..k] == b[..k] && (k == |a| || a[k] < b[k]) ensures Less(a, b) {
        if k > 0 {
          FirstsEqual(a, b, k - 1);
        }
      }
    }
  }

  lemma SameFirst(a: Bytes, b: Bytes, k: int)
    ensures 0 < k <= |a| && k <= |b| && a[..k] == b[..k] ==> a[0] == b[0]
  {
    assert 0 < k <= |a| && k <= |b| ==> a[..k][0] == a[0] && b[..k][0] == b[0];
  }

  lemma FirstsEqual(a: Bytes, b: Bytes, j: nat)
    requires j < |a| && j < |b| && a[0] == b[0]
    ensures a[..j + 1] == b[..j + 1] <==> a[1..][..j] == b[1..][..j]
  {
    assert a[..j + 1] == [a[0]] + a[1..][..j] && b[..j + 1] == [b[0]] + b[1..][..j];
  }

  lemma {:induction false} LessIsTotal(a: Bytes, b: Bytes)
    ensures Less(a, b) || Less(b, a) || a == b
  {
    if a != [] && b != [] && a[0] == b[0] {
      LessIsTotal(a[1..], b[1..]);
      assert a == [a[0]] + a[1..] && b == [b[0]] + b[1..];
    }
  }

  lemma {:induction false} LessIsTransitive(a: Bytes, b: Bytes, c: Bytes)
    requires Less(a, b) && Less(b, c)
    ensures Less(a, c)
  {
    if a != [] && a[0] == b[0] == c[0] {
      LessIsTransitive(a[1..], b[1..], c[1..]);
    }
  }

  lemma {:induction false} LessIsIrreflexive(a: Bytes)
    ensures !Less(a, a)
  {
    if a != [] {
      LessIsIrreflexive(a[1..]);
    }
  }

  ghost predicate Sorted(s: seq<Bytes>) {
    forall i, j :: 0 <= i < j < |s| ==> Less(s[i], s[j])
  }

  /** `s` lists the elements of `xs` in order, each once. */
  ghost predicate ListsInOrder(s: seq<Bytes>, xs: set<Bytes>) {
    Sorted(s) && forall x :: x in s <==> x in xs
  }

  /** There is only one way to do so. */
  lemma {:induction false} OrderIsUnique(s: seq<Bytes>, t: seq<Bytes>, xs: set<Bytes>)
    requires ListsInOrder(s, xs) && ListsInOrder(t, xs)
    ensures s == t
    decreases |s|
  {
    hide Less;
    if s != [] || t != [] {
      var x := if s != [] then s[0] else t[0];
      assert x in xs && x in s && x in t;
      assert s[0] in xs && s[0] in t;
      var i :| 0 <= i < |t| && t[i] == s[0];
      assert t[0] in xs;
      var j :| 0 <= j < |s| && s[j] == t[0];
      if i > 0 && j > 0 {
        LessIsTransitive(s[0], s[j], s[0]);
        LessIsIrreflexive(s[0]);
      }
      assert s[0] == t[0];
      TailInOrder(s, xs);
      TailInOrder(t, xs);
      OrderIsUnique(s[1..], t[1..], xs - {s[0]});
      assert s == [s[0]] + s[1..] && t == [t[0]] + t[1..];
    }
  }

  lemma TailInOrder(s: seq<Bytes>, xs: set<Bytes>)
    requires s != [] && ListsInOrder(s, xs)
    ensures ListsInOrder(s[1..], xs - {s[0]})
  {
    hide Less;
    LessIsIrreflexive(s[0]);
    assert s == [s[0]] + s[1..];
  }

  /** Where a sorting insertion puts `x`. */
  function Insert(s: seq<Bytes>, x: Bytes): seq<Bytes> {
    if s == [] || Less(x, s[0]) then [x] + s else [s[0]] + Insert(s[1..], x)
  }

  lemma {:induction false} InsertKeepsOrder(s: seq<Bytes>, x: Bytes)
    requires Sorted(s) && x !in s
    ensures Sorted(Insert(s, x)) && forall y :: y in Insert(s, x) <==> y == x || y in s
  {
    hide Less;
    if s == [] {
    } else if Less(x, s[0]) {
      forall j | 0 < j < |s| ensures Less(x, s[j]) { LessIsTransitive(x, s[0], s[j]); }
    } else {
      LessIsTotal(x, s[0]);
      assert s == [s[0]] + s[1..];
      InsertKeepsOrder(s[1..], x);
      var t := Insert(s[1..], x);
      forall j | 0 <= j < |t| ensures Less(s[0], t[j]) {
        assert t[j] in t;
        if t[j] != x {
          var k :| 0 <= k < |s[1..]| && s[1..][k] == t[j];
        }
      }
    }
  }

  method SortNames(names: seq<Bytes>) returns (sorted: seq<Bytes>)
    requires forall i, j :: 0 <= i < j < |names| ==> names[i] != names[j]
    ensures Sorted(sorted) && forall x :: x in sorted <==> x in names
  {
    hide Less, Insert;
    sorted := [];
    for i := 0 to |names|
      invariant Sorted(sorted) && forall x :: x in sorted <==> x in names[..i]
    {
      assert names[i] !in names[..i];
      InsertKeepsOrder(sorted, names[i]);
      sorted := Insert(sorted, names[i]);
      assert names[..i + 1] == names[..i] + [names[i]];
    }
    assert names[..|names|] == names;
  }

  // ---------- groups ----------

  /** A rule object of a script: usable, or refused for a blank name or an unsuitable function. */
  datatype Candidate = Usable(rule: Rule) | Broken

  /** The argument of addRules. */
  type RuleMap = map<Bytes, seq<Candidate>>

  /** The rules of one group after the candidates before the first bad one, and whether all were good. */
  function AddCandidates(rules: seq<Rule>, cs: seq<Candidate>): (seq<Rule>, bool) {
    if cs == [] then (rules, true)
    else
      var before := AddCandidates(rules, cs[..|cs| - 1]);
      var c := cs[|cs| - 1];
      if !before.1 || c.Broken? || c.rule.name in Names(before.0) then (before.0, false)
      else (before.0 + [c.rule], true)
  }

  function Names(rules: seq<Rule>): set<Bytes> {
    set r | r in rules :: r.name
  }

  function RulesAt(view: map<Bytes, seq<Rule>>, g: Bytes): seq<Rule> {
    if g in view then view[g] else []
  }

  /** The same over whole groups, in the order of `names`; a group stays even if it got no rule. */
  function AddGroups(view: map<Bytes, seq<Rule>>, names: seq<Bytes>, rm: RuleMap): (map<Bytes, seq<Rule>>, bool)
    requires forall g :: g in names ==> g in rm
  {
    if names == [] then (view, true)
    else
      var n := |names| - 1;
      var before := AddGroups(view, names[..n], rm);
      if !before.1 then before
      else
        var added := AddCandidates(RulesAt(before.0, names[n]), rm[names[n]]);
        (before.0[names[n] := added.0], added.1)
  }

  function Usables(cs: seq<Candidate>): seq<Rule> {
    if cs == [] then []
    else Usables(cs[..|cs| - 1]) + if cs[|cs| - 1].Usable? then [cs[|cs| - 1].rule] else []
  }

  /** Of candidates that are all usable it leaves none out, in order. */
  lemma {:induction false} UsablesInOrder(cs: seq<Candidate>)
    requires forall c :: c in cs ==> c.Usable?
    ensures |Usables(cs)| == |cs| && forall i :: 0 <= i < |cs| ==> Usable(Usables(cs)[i]) == cs[i]
  {
    if cs != [] {
      var n := |cs| - 1;
      assert cs == cs[..n] + [cs[n]];
      UsablesInOrder(cs[..n]);
    }
  }

  /** All are usable, and their names are distinct from each other and from those there before. */
  ghost predicate AllGood(rules: seq<Rule>, cs: seq<Candidate>) {
    (forall c :: c in cs ==> c.Usable?) && DistinctNames(rules + Usables(cs))
  }

  /** All candidates are taken exactly when all are good; and then the group is the old rules and the
      new ones in order. */
  lemma {:induction false} AllTakenWhenDistinct(rules: seq<Rule>, cs: seq<Candidate>)
    requires DistinctNames(rules)
    ensures DistinctNames(AddCandidates(rules, cs).0) && rules <= AddCandidates(rules, cs).0
    ensures AddCandidates(rules, cs).1 <==> AllGood(rules, cs)
    ensures AddCandidates(rules, cs).1 ==> AddCandidates(rules, cs).0 == rules + Usables(cs)
  {
    if cs == [] {
      assert rules + [] == rules;
    } else {
      var n := |cs| - 1;
      var c := cs[n];
      AllTakenWhenDistinct(rules, cs[..n]);
      assert cs == cs[..n] + [c];
      var before := AddCandidates(rules, cs[..n]);
      if c.Usable? {
        assert rules + Usables(cs) == rules + Usables(cs[..n]) + [c.rule];
        NameIsNew(rules + Usables(cs[..n]), c.rule);
        NameIsNew(before.0, c.rule);
      }
    }
  }

  /** Candidate `k` is the first bad one, and those before it were taken. */
  ghost predicate StopsAt(rules: seq<Rule>, cs: seq<Candidate>, k: nat, after: seq<Rule>) {
    k < |cs| && AllGood(rules, cs[..k]) && !AllGood(rules, cs[..k + 1]) && after == rules + Usables(cs[..k])
  }

  lemma {:induction false} StopsAtFirstBad(rules: seq<Rule>, cs: seq<Candidate>) returns (k: nat)
    requires DistinctNames(rules) && !AddCandidates(rules, cs).1
    ensures StopsAt(rules, cs, k, AddCandidates(rules, cs).0)
  {
    hide Names, AllGood;
    var n := |cs| - 1;
    AllTakenWhenDistinct(rules, cs);
    AllTakenWhenDistinct(rules, cs[..n]);
    if AddCandidates(rules, cs[..n]).1 {
      k := n;
      assert cs[..n + 1] == cs;
    } else {
      k := StopsAtFirstBad(rules, cs[..n]);
      assert cs[..n][..k] == cs[..k] && cs[..n][..k + 1] == cs[..k + 1];
    }
  }

  /** The groups named in `names` get all their candidates, after the rules they had. */
  function Extended(view: map<Bytes, seq<Rule>>, names: set<Bytes>, rm: RuleMap): map<Bytes, seq<Rule>>
    requires names <= rm.Keys
  {
    map g | g in view.Keys + names :: if g in names then RulesAt(view, g) + Usables(rm[g]) else view[g]
  }

  /** Group `names[i]` has the first bad candidate: the groups before it are extended, it has what
      came before that candidate, and the rest is as it was. */
  ghost predicate Aborted(view: map<Bytes, seq<Rule>>, names: seq<Bytes>, rm: RuleMap, i: nat,
                          after: map<Bytes, seq<Rule>>)
    requires forall g :: g in names ==> g in rm
  {
    && i < |names|
    && (forall j :: 0 <= j < i ==> AllGood(RulesAt(view, names[j]), rm[names[j]]))
    && exists k, rules :: StopsAt(RulesAt(view, names[i]), rm[names[i]], k, rules)
                          && after == Extended(view, ToSet(names[..i]), rm)[names[i] := rules]
  }

  function ToSet(names: seq<Bytes>): set<Bytes> {
    set g | g in names
  }

  ghost predicate Once(names: seq<Bytes>) {
    forall i, j :: 0 <= i < j < |names| ==> names[i] != names[j]
  }

  ghost predicate Distinct(view: map<Bytes, seq<Rule>>) {
    forall g :: g in view ==> DistinctNames(view[g])
  }

  /** A call succeeds exactly when every group's candidates are good, and then extends every group. */
  lemma {:induction false} AddGroupsExtends(view: map<Bytes, seq<Rule>>, names: seq<Bytes>, rm: RuleMap)
    requires (forall g :: g in names ==> g in rm) && Once(names) && Distinct(view)
    ensures AddGroups(view, names, rm).1 <==> forall g :: g in names ==> AllGood(RulesAt(view, g), rm[g])
    ensures AddGroups(view, names, rm).1 ==> AddGroups(view, names, rm).0 == Extended(view, ToSet(names), rm)
  {
    hide AddCandidates, AllGood, DistinctNames, Extended, RulesAt;
    if names == [] {
      NoneNamed(view, rm);
    } else {
      var n := |names| - 1;
      var g := names[n];
      AddGroupsExtends(view, names[..n], rm);
      OneMoreNamed(view, names, rm);
      assert DistinctNames(RulesAt(view, g)) by { DistinctAt(view, g); }
      AllTakenWhenDistinct(RulesAt(view, g), rm[g]);
      assert names == names[..n] + [g];
    }
  }

  /** Else it stops at the first bad candidate, and what came before stays. */
  lemma {:induction false} AddGroupsAborts(view: map<Bytes, seq<Rule>>, names: seq<Bytes>, rm: RuleMap) returns (i: nat)
    requires (forall g :: g in names ==> g in rm) && Once(names) && Distinct(view) && !AddGroups(view, names, rm).1
    ensures Aborted(view, names, rm, i, AddGroups(view, names, rm).0)
  {
    hide AddCandidates, AllGood, DistinctNames, StopsAt, Extended;
    var n := |names| - 1;
    if AddGroups(view, names[..n], rm).1 {
      i := n;
      AddGroupsExtends(view, names[..n], rm);
      var rules := RulesAt(view, names[n]);
      assert RulesAt(AddGroups(view, names[..n], rm).0, names[n]) == rules by { OneMoreNamed(view, names, rm); }
      assert DistinctNames(rules) by { DistinctAt(view, names[n]); }
      var k := StopsAtFirstBad(rules, rm[names[n]]);
      assert AddGroups(view, names, rm).0
          == Extended(view, ToSet(names[..n]), rm)[names[n] := AddCandidates(rules, rm[names[n]]).0];
    } else {
      i := AddGroupsAborts(view, names[..n], rm);
      assert names[..n][..i] == names[..i];
    }
  }

  /** What that is for each group. */
  lemma AllExtended(view: map<Bytes, seq<Rule>>, rm: RuleMap, after: map<Bytes, seq<Rule>>)
    requires after == Extended(view, rm.Keys, rm)
    ensures after.Keys == view.Keys + rm.Keys
    ensures forall g :: g in view && g !in rm ==> after[g] == view[g]
    ensures forall g :: g in rm ==> after[g] == (if g in view then view[g] else []) + Usables(rm[g])
  {
  }

  lemma NoneNamed(view: map<Bytes, seq<Rule>>, rm: RuleMap)
    ensures Extended(view, ToSet([]), rm) == view
  {
  }

  lemma OneMoreNamed(view: map<Bytes, seq<Rule>>, names: seq<Bytes>, rm: RuleMap)
    requires names != [] && (forall g :: g in names ==> g in rm) && Once(names)
    ensures var n, g := |names| - 1, names[|names| - 1];
      && RulesAt(Extended(view, ToSet(names[..n]), rm), g) == RulesAt(view, g)
      && Extended(view, ToSet(names[..n]), rm)[g := RulesAt(view, g) + Usables(rm[g])]
         == Extended(view, ToSet(names), rm)
  {
    hide Usables;
    var n, g := |names| - 1, names[|names| - 1];
    assert g !in names[..n] && names == names[..n] + [g];
    assert ToSet(names) == ToSet(names[..n]) + {g};
    ExtendedByOne(view, ToSet(names[..n]), g, rm);
  }

  lemma ExtendedByOne(view: map<Bytes, seq<Rule>>, names: set<Bytes>, g: Bytes, rm: RuleMap)
    requires names <= rm.Keys && g in rm && g !in names
    ensures RulesAt(Extended(view, names, rm), g) == RulesAt(view, g)
    ensures Extended(view, names, rm)[g := RulesAt(view, g) + Usables(rm[g])] == Extended(view, names + {g}, rm)
  {
    hide Usables;
  }

  lemma SaidOfSorted(view: map<Bytes, seq<Rule>>, names: seq<Bytes>, rm: RuleMap)
    requires ListsInOrder(names, rm.Keys) && Distinct(view)
    ensures var (after, ok) := AddGroups(view, names, rm);
      && (ok <==> forall g :: g in rm ==> AllGood(RulesAt(view, g), rm[g]))
      && (ok ==> after == Extended(view, rm.Keys, rm))
      && (!ok ==> exists i :: Aborted(view, names, rm, i, after))
  {
    hide AddGroups, AllGood, Extended, Aborted, Less, RulesAt;
    forall i, j | 0 <= i < j < |names| ensures names[i] != names[j] { LessIsIrreflexive(names[i]); }
    assert ToSet(names) == rm.Keys;
    AddGroupsExtends(view, names, rm);
    if !AddGroups(view, names, rm).1 {
      var i := AddGroupsAborts(view, names, rm);
    }
  }

  lemma DistinctAt(view: map<Bytes, seq<Rule>>, g: Bytes)
    requires Distinct(view)
    ensures DistinctNames(RulesAt(view, g))
  {
  }

  lemma NameIsNew(rules: seq<Rule>, r: Rule)
    ensures DistinctNames(rules + [r]) <==> DistinctNames(rules) && r.name !in Names(rules)
  {
    var all := rules + [r];
    assert all[|rules|] == r;
    if DistinctNames(all) {
      forall i, j | 0 <= i < j < |rules| ensures rules[i].name != rules[j].name { assert all[i].name != all[j].name; }
      forall q | q in rules ensures q.name != r.name {
        var i :| 0 <= i < |rules| && rules[i] == q;
        assert all[i].name != all[|rules|].name;
      }
    }
  }

  /** The index holds exactly the group's rules, each under its name. */
  ghost predicate Indexes(index: map<Bytes, Rule>, rules: seq<Rule>) {
    && DistinctNames(rules)
    && index.Keys == Names(rules)
    && forall r :: r in rules ==> index[r.name] == r
  }

  class Group {
    const name: Bytes
    var rules: seq<Rule>
    var rulesByName: map<Bytes, Rule>

    constructor (name: Bytes)
      ensures this.name == name && rules == [] && Valid()
    {
      this.name, rules, rulesByName := name, [], map[];
    }

    ghost predicate Valid()
      reads this
    {
      Indexes(rulesByName, rules)
    }

    /** One turn of the loop over candidates; false is the exception it throws. */
    method Add(c: Candidate) returns (ok: bool)
      requires Valid()
      modifies this
      ensures Valid()
      ensures ok <==> c.Usable? && c.rule.name !in Names(old(rules))
      ensures rules == if ok then old(rules) + [c.rule] else old(rules)
    {
      if c.Broken? || c.rule.name in rulesByName {
        return false;
      }
      NameIsNew(rules, c.rule);
      rulesByName := rulesByName[c.rule.name := c.rule];
      rules := rules + [c.rule];
      return true;
    }

    method AddAll(cs: seq<Candidate>) returns (ok: bool)
      requires Valid()
      modifies this
      ensures Valid()
      ensures (rules, ok) == AddCandidates(old(rules), cs)
    {
      hide Names, Indexes;
      for i := 0 to |cs|
        invariant Valid()
        invariant (rules, true) == AddCandidates(old(rules), cs[..i])
      {
        assert cs[..i + 1][..i] == cs[..i];
        ok := Add(cs[i]);
        if !ok {
          StaysBad(old(rules), cs, i + 1);
          return;
        }
      }
      assert cs[..|cs|] == cs;
      return true;
    }
  }

  /** Nothing is taken after the first bad candidate. */
  lemma {:induction false} StaysBad(rules: seq<Rule>, cs: seq<Candidate>, i: nat)
    requires i <= |cs| && !AddCandidates(rules, cs[..i]).1
    ensures AddCandidates(rules, cs) == AddCandidates(rules, cs[..i])
    decreases |cs|
  {
    hide Names;
    if i == |cs| {
      assert cs[..i] == cs;
    } else {
      assert cs[..|cs| - 1][..i] == cs[..i];
      StaysBad(rules, cs[..|cs| - 1], i);
    }
  }

  lemma {:induction false} GroupsStayBad(view: map<Bytes, seq<Rule>>, names: seq<Bytes>, rm: RuleMap, i: nat)
    requires (forall g :: g in names ==> g in rm) && i <= |names| && !AddGroups(view, names[..i], rm).1
    ensures AddGroups(view, names, rm) == AddGroups(view, names[..i], rm)
    decreases |names|
  {
    if i == |names| {
      assert names[..i] == names;
    } else {
      assert names[..|names| - 1][..i] == names[..i];
      GroupsStayBad(view, names[..|names| - 1], rm, i);
    }
  }

  lemma NoGroups(view: map<Bytes, seq<Rule>>, rm: RuleMap)
    ensures AddGroups(view, [], rm) == (view, true)
  {
  }

  lemma AddGroupsNext(view: map<Bytes, seq<Rule>>, names: seq<Bytes>, rm: RuleMap, i: nat)
    requires (forall g :: g in names ==> g in rm) && i < |names| && AddGroups(view, names[..i], rm).1
    ensures var before := AddGroups(view, names[..i], rm).0;
      var added := AddCandidates(RulesAt(before, names[i]), rm[names[i]]);
      AddGroups(view, names[..i + 1], rm) == (before[names[i] := added.0], added.1)
  {
    hide AddCandidates;
    assert names[..i + 1][..i] == names[..i];
  }

  /** The keys of a map in whatever order it is visited. */
  method ListKeys(keys: set<Bytes>) returns (names: seq<Bytes>)
    ensures forall i, j :: 0 <= i < j < |names| ==> names[i] != names[j]
    ensures forall x :: x in names <==> x in keys
  {
    names := [];
    var left := keys;
    while left != {}
      invariant left <= keys && forall x :: x in names <==> x in keys - left
      invariant forall i, j :: 0 <= i < j < |names| ==> names[i] != names[j]
    {
      var g :| g in left;
      assert g !in names;
      names, left := names + [g], left - {g};
    }
  }

  class GroupSet {
    var groups: map<Bytes, Group>

    constructor ()
      ensures Valid() && View() == map[]
    {
      groups := map[];
    }

    /** Groups are distinct objects under their own names, and each one's index fits its rules. */
    ghost predicate Valid()
      reads this, groups.Values
    {
      && (forall g :: g in groups ==> groups[g].name == g && groups[g].Valid())
      && (forall g, h :: g in groups && h in groups && groups[g] == groups[h] ==> g == h)
    }

    ghost function View(): map<Bytes, seq<Rule>>
      reads this, groups.Values
    {
      map g | g in groups :: groups[g].rules
    }

    /** The hook behind addRules. The keys of `rm` come in no particular order and are sorted; an
        exception leaves everything added before it in place. */
    method AddRules(rm: RuleMap) returns (ok: bool, ghost names: seq<Bytes>)
      requires Valid()
      modifies this, groups.Values
      ensures Valid()
      ensures ListsInOrder(names, rm.Keys)
      ensures (View(), ok) == AddGroups(old(View()), names, rm)
      ensures ok <==> forall g :: g in rm ==> AllGood(RulesAt(old(View()), g), rm[g])
      ensures ok ==> View() == Extended(old(View()), rm.Keys, rm)
      ensures ok ==> View().Keys == old(View()).Keys + rm.Keys
      ensures ok ==> forall g :: g in old(View()) && g !in rm ==> View()[g] == old(View())[g]
      ensures ok ==> forall g :: g in rm ==>
        View()[g] == (if g in old(View()) then old(View())[g] else []) + Usables(rm[g])
      ensures !ok ==> exists i :: Aborted(old(View()), names, rm, i, View())
      ensures forall g :: g in groups ==> fresh(groups[g]) || groups[g] in old(groups.Values)
    {
      hide AddCandidates, Sorted, AllGood, Extended, Aborted, DistinctNames, RulesAt, Usables;
      var unsorted := ListKeys(rm.Keys);
      var sorted := SortNames(unsorted);
      names := sorted;
      assert forall g :: g in sorted ==> g in rm;
      SaidOfSorted(View(), sorted, rm);
      ghost var view := View();
      ok := AddInOrder(sorted, rm);
      if ok {
        AllExtended(view, rm, View());
      }
    }

    /** The loop over the sorted group names. */
    method AddInOrder(sorted: seq<Bytes>, rm: RuleMap) returns (ok: bool)
      requires Valid() && forall g :: g in sorted ==> g in rm
      modifies this, groups.Values
      ensures Valid()
      ensures (View(), ok) == AddGroups(old(View()), sorted, rm)
      ensures forall g :: g in groups ==> fresh(groups[g]) || groups[g] in old(groups.Values)
    {
      hide AddCandidates, Indexes, AddGroups;
      NoGroups(View(), rm);
      for i := 0 to |sorted|
        invariant Valid()
        invariant AddGroups(old(View()), sorted[..i], rm) == (View(), true)
        invariant forall g :: g in groups ==> fresh(groups[g]) || groups[g] in old(groups.Values)
      {
        AddGroupsNext(old(View()), sorted, rm, i);
        ok := AddGroup(sorted[i], rm[sorted[i]]);
        if !ok {
          GroupsStayBad(old(View()), sorted, rm, i + 1);
          return;
        }
      }
      assert sorted[..|sorted|] == sorted;
      ok := true;
    }

    /** One turn of the loop over group names. */
    method AddGroup(g: Bytes, cs: seq<Candidate>) returns (ok: bool)
      requires Valid()
      modifies this, groups.Values
      ensures Valid()
      ensures var added := AddCandidates(RulesAt(old(View()), g), cs);
        View() == old(View())[g := added.0] && ok == added.1
      ensures forall h :: h in groups ==> fresh(groups[h]) || groups[h] in old(groups.Values)
    {
      hide AddCandidates, Indexes, DistinctNames, Names;
      if g !in groups {
        var group := new Group(g);
        groups := groups[g := group];
      }
      ok := groups[g].AddAll(cs);
    }

    /** The groups are visited in no particular order. */
    method ToMap() returns (m: map<Bytes, seq<Rule>>)
      requires Valid()
      ensures m == View()
      ensures forall g :: g in m ==> DistinctNames(m[g])
    {
      m := map[];
      var left := groups.Keys;
      while left != {}
        invariant left <= groups.Keys && m.Keys == groups.Keys - left
        invariant forall g :: g in m ==> m[g] == groups[g].rules
      {
        var g :| g in left;
        var rules := CopyRules(groups[g].rules);
        m := m[groups[g].name := rules];
        left := left - {g};
      }
      assert m == View();
      assert forall g :: g in groups ==> groups[g].Valid();
    }
  }

  method CopyRules(rules: seq<Rule>) returns (copy: seq<Rule>)
    ensures copy == rules
  {
    copy := [];
    for i := 0 to |rules|
      invariant copy == rules[..i]
    {
      copy := copy + [rules[i]];
    }
  }

  /** Whether a call succeeds, and what a successful call leaves, does not depend on the order of the
      groups at all. */
  lemma OrderDoesNotMatter(view: map<Bytes, seq<Rule>>, rm: RuleMap, names: seq<Bytes>, names': seq<Bytes>)
    requires Once(names) && Once(names') && ToSet(names) == ToSet(names') == rm.Keys && Distinct(view)
    ensures AddGroups(view, names, rm).1 == AddGroups(view, names', rm).1
    ensures AddGroups(view, names, rm).1 ==> AddGroups(view, names, rm) == AddGroups(view, names', rm)
  {
    hide AddGroups, AllGood, Extended;
    assert forall g :: g in names <==> g in ToSet(names);
    assert forall g :: g in names' <==> g in ToSet(names');
    AddGroupsExtends(view, names, rm);
    AddGroupsExtends(view, names', rm);
  }

  /** What an aborted call leaves does; hence the sorting, which leaves one order. */
  lemma AbortDependsOnOrder() returns (rm: RuleMap, names: seq<Bytes>, names': seq<Bytes>)
    ensures Once(names) && Once(names') && ToSet(names) == ToSet(names') == rm.Keys
    ensures AddGroups(map[], names, rm).0 != AddGroups(map[], names', rm).0
  {
    var a, b: Bytes := [97], [98];
    rm, names, names' := map[a := [Usable(Rule([], 0))], b := [Broken]], [a, b], [b, a];
    assert ToSet(names) == {a, b} == ToSet(names');
    assert names[..1] == [a] && names'[..1] == [b] && names[..1][..0] == [] && names'[..1][..0] == [];
    assert [Broken][..0] == [] && [Usable(Rule([], 0))][..0] == [];
    assert !AddGroups(map[], names'[..1], rm).1;
    assert a in AddGroups(map[], names, rm).0 && a !in AddGroups(map[], names', rm).0;
  }

  /** A loaded registry answers a request for an existing rule with that rule alone. */
  method SelectLoaded(loaded: GroupSet, g: Bytes, name: Bytes) returns (rules: seq<Rule>)
    requires loaded.Valid() && g in loaded.View() && name != [] && name in Names(loaded.View()[g])
    ensures |rules| == 1 && rules[0] in loaded.View()[g] && rules[0].name == name
    ensures forall r :: r in loaded.View()[g] && r.name == name ==> r == rules[0]
  {
    var m := loaded.ToMap();
    rules := SelectRules(m[g], name);
  }
}
