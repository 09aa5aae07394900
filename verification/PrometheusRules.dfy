/** Checking which recording rules of a rule file the cluster lacks, and patching them in. */
module PrometheusRules {
  import opened Options

  datatype Rule = Rule(alert: string, record: string, expr: string)

  datatype Group = Group(name: string, rules: seq<Rule>)

  datatype PrometheusRule = PrometheusRule(labels: map<string, string>, groups: seq<Group>)

  /** All PrometheusRules of the cluster: the one the patch writes to, if it is there, and
      the others. */
  datatype Cluster = Cluster(others: seq<PrometheusRule>, own: Option<PrometheusRule>)
  {
    function All(): seq<PrometheusRule> {
      others + if own.Some? then [own.value] else []
    }
  }

  /** What the parsed file holds under a key; anything but text makes the check panic. */
  datatype Scalar = Text(s: string) | Other

  datatype Entry = Entry(record: Option<Scalar>, expr: Option<Scalar>)

  const GROUP_NAME := "alameda-metrics"

  // --------------------------------------------------------------------- what is there

  function GroupRules(groups: seq<Group>): seq<Rule> {
    if groups == [] then [] else groups[0].rules + GroupRules(groups[1..])
  }

  function RulesOf(all: seq<PrometheusRule>): seq<Rule> {
    if all == [] then [] else GroupRules(all[0].groups) + RulesOf(all[1..])
  }

  predicate Records(r: Rule) {
    r.alert == "" && r.record != ""
  }

  function Existing(rules: seq<Rule>): set<string> {
    set r | r in rules && Records(r) :: r.record
  }

  predicate RecordedIn(groups: seq<Group>, record: string) {
    exists i, j :: 0 <= i < |groups| && 0 <= j < |groups[i].rules|
                   && groups[i].rules[j].alert == "" && groups[i].rules[j].record == record
  }

  lemma {:induction false} GroupsRecordIff(groups: seq<Group>, record: string)
    requires record != ""
    ensures record in Existing(GroupRules(groups)) <==> RecordedIn(groups, record)
  {
    if groups != [] {
      var first, tail := groups[0].rules, groups[1..];
      GroupsRecordIff(tail, record);
      assert Existing(first + GroupRules(tail)) == Existing(first) + Existing(GroupRules(tail));
      if RecordedIn(tail, record) {
        var i, j :| 0 <= i < |tail| && 0 <= j < |tail[i].rules|
                    && tail[i].rules[j].alert == "" && tail[i].rules[j].record == record;
        assert groups[i + 1].rules[j].record == record;
      }
      if RecordedIn(groups, record) && record !in Existing(first) {
        var i, j :| 0 <= i < |groups| && 0 <= j < |groups[i].rules|
                    && groups[i].rules[j].alert == "" && groups[i].rules[j].record == record;
        assert groups[i].rules[j] in groups[i].rules;
        assert tail[i - 1].rules[j].record == record;
      }
    }
  }

  /** A record is there exactly if some rule of some group of some object, in any place, is no
      alert and bears its name, which is not empty. */
  lemma {:induction false} ExistingIff(all: seq<PrometheusRule>, record: string)
    ensures record in Existing(RulesOf(all))
       <==> record != "" && exists i :: 0 <= i < |all| && RecordedIn(all[i].groups, record)
  {
    if all != [] && record != "" {
      var first := GroupRules(all[0].groups);
      ExistingIff(all[1..], record);
      GroupsRecordIff(all[0].groups, record);
      assert Existing(first + RulesOf(all[1..])) == Existing(first) + Existing(RulesOf(all[1..]));
      assert forall i :: 0 <= i < |all[1..]| ==> all[1..][i] == all[i + 1];
    }
  }

  // -------------------------------------------------------------------- what is missing

  predicate Panics(existing: set<string>, e: Entry) {
    || !(e.record.Some? && e.record.value.Text?)
    || (e.record.value.s !in existing && e.expr.Some? && e.expr.value.Other?)
  }

  /** An entry with a record nobody has yet and an expression. */
  predicate Lacks(existing: set<string>, e: Entry, record: string) {
    e.record == Some(Text(record)) && record !in existing && e.expr.Some?
  }

  /** Records of the file that are not there, with the expression last given; None on a panic. */
  function Missing(existing: set<string>, entries: seq<Entry>): Option<map<string, string>> {
    if entries == [] then Some(map[])
    else
      var before, e := Missing(existing, entries[..|entries| - 1]), entries[|entries| - 1];
      if before == None || Panics(existing, e) then None
      else if Lacks(existing, e, e.record.value.s) then Some(before.value[e.record.value.s := e.expr.value.s])
      else before
  }

  /** An entry whose record is no text, or whose record nobody has and whose expression is there
      and no text. */
  predicate FailsAssertion(existing: set<string>, e: Entry) {
    || e.record == None || e.record == Some(Other)
    || (e.record.value.s !in existing && e.expr == Some(Other))
  }

  lemma {:induction false} PanicsIff(existing: set<string>, entries: seq<Entry>)
    ensures Missing(existing, entries) == None
       <==> exists i :: 0 <= i < |entries| && FailsAssertion(existing, entries[i])
  {
    if entries != [] {
      var n := |entries| - 1;
      PanicsIff(existing, entries[..n]);
      if Missing(existing, entries[..n]) == None {
        var i :| 0 <= i < n && FailsAssertion(existing, entries[..n][i]);
        assert FailsAssertion(existing, entries[i]);
      } else {
        assert forall i :: 0 <= i < n ==> !FailsAssertion(existing, entries[..n][i]);
      }
      assert FailsAssertion(existing, entries[n]) <==> Panics(existing, entries[n]);
    }
  }

  /** A record is reported exactly when some entry lacks it, with the last such expression. */
  lemma {:induction false} MissingIff(existing: set<string>, entries: seq<Entry>, record: string)
    requires Missing(existing, entries).Some?
    ensures var m := Missing(existing, entries).value;
            && (record in m <==> exists i :: 0 <= i < |entries| && Lacks(existing, entries[i], record))
            && forall i :: 0 <= i < |entries| && Lacks(existing, entries[i], record)
                           && (forall j :: i < j < |entries| ==> !Lacks(existing, entries[j], record)) ==>
                 entries[i].expr == Some(Text(m[record]))
  {
    if entries != [] {
      var n := |entries| - 1;
      var m := Missing(existing, entries).value;
      var init := entries[..n];
      MissingIff(existing, init, record);
      assert forall i :: 0 <= i < n ==> init[i] == entries[i];
      if Lacks(existing, entries[n], record) {
        assert record in m;
      } else if record in m {
        var i :| 0 <= i < n && Lacks(existing, init[i], record);
        assert Lacks(existing, entries[i], record);
      }
    }
  }

  // ------------------------------------------------------------------------ the patch

  /** The missing rules in some order. */
  ghost predicate IsListing(added: seq<Rule>, missing: map<string, string>) {
    && (forall i, j :: 0 <= i < j < |added| ==> added[i].record != added[j].record)
    && (forall r :: r in added ==> r.record in missing && r == Rule("", r.record, missing[r.record]))
    && (forall k :: k in missing ==> Rule("", k, missing[k]) in added)
  }

  /** The rule object is created, or given its only group, or its first group is extended. */
  function PatchedOwn(own: Option<PrometheusRule>, added: seq<Rule>, labels: map<string, string>): PrometheusRule {
    if own == None || own.value.groups == [] then PrometheusRule(labels, [Group(GROUP_NAME, added)])
    else
      var g := own.value.groups;
      PrometheusRule(labels, g[0 := g[0].(rules := g[0].rules + added)])
  }

  ghost predicate IsPatched(c: Cluster, missing: map<string, string>, labels: map<string, string>, d: Cluster) {
    d.others == c.others
    && exists added :: IsListing(added, missing) && d.own == Some(PatchedOwn(c.own, added, labels))
  }

  // ------------------------------------------------------------------------- counting

  function Count(rules: seq<Rule>, record: string): nat {
    if rules == [] then 0
    else (if rules[0].alert == "" && rules[0].record == record then 1 else 0) + Count(rules[1..], record)
  }

  lemma {:induction false} CountAppend(a: seq<Rule>, b: seq<Rule>, record: string)
    ensures Count(a + b, record) == Count(a, record) + Count(b, record)
  {
    if a == [] {
      assert a + b == b;
    } else {
      assert (a + b)[1..] == a[1..] + b;
      CountAppend(a[1..], b, record);
    }
  }

  lemma {:induction false} CountPositiveIff(rules: seq<Rule>, record: string)
    requires record != ""
    ensures Count(rules, record) > 0 <==> record in Existing(rules)
  {
    if rules != [] {
      CountPositiveIff(rules[1..], record);
      assert rules == [rules[0]] + rules[1..];
    }
  }

  lemma {:induction false} CountListed(added: seq<Rule>, record: string)
    requires forall i, j :: 0 <= i < j < |added| ==> added[i].record != added[j].record
    requires forall r :: r in added ==> r.alert == ""
    ensures Count(added, record) == if exists r :: r in added && r.record == record then 1 else 0
  {
    if added != [] {
      var tail := added[1..];
      assert forall r :: r in tail ==> r in added;
      assert forall i :: 0 <= i < |tail| ==> tail[i] == added[i + 1];
      CountListed(tail, record);
      if exists r :: r in tail && r.record == record {
        var r :| r in tail && r.record == record;
        var i :| 0 <= i < |tail| && tail[i] == r;
        assert added[0].record != added[i + 1].record;
      } else if exists r :: r in added && r.record == record {
        var r :| r in added && r.record == record;
        assert r == added[0];
      } else {
        assert added[0] in added;
      }
    }
  }

  lemma {:induction false} RulesOfAppend(a: seq<PrometheusRule>, p: PrometheusRule, record: string)
    ensures Count(RulesOf(a + [p]), record) == Count(RulesOf(a), record) + Count(GroupRules(p.groups), record)
  {
    if a == [] {
      assert (a + [p])[1..] == [] && RulesOf(a + [p]) == GroupRules(p.groups) + RulesOf([]);
      CountAppend(GroupRules(p.groups), [], record);
    } else {
      assert (a + [p])[1..] == a[1..] + [p] && (a + [p])[0] == a[0];
      RulesOfAppend(a[1..], p, record);
      CountAppend(GroupRules(a[0].groups), RulesOf(a[1..] + [p]), record);
      CountAppend(GroupRules(a[0].groups), RulesOf(a[1..]), record);
    }
  }

  lemma PatchedOwnCount(own: Option<PrometheusRule>, added: seq<Rule>, labels: map<string, string>, record: string)
    ensures Count(GroupRules(PatchedOwn(own, added, labels).groups), record)
         == (if own == None then 0 else Count(GroupRules(own.value.groups), record)) + Count(added, record)
  {
    if own == None || own.value.groups == [] {
      var groups := [Group(GROUP_NAME, added)];
      assert groups[1..] == [] && GroupRules(groups) == added + GroupRules([]);
      CountAppend(added, GroupRules([]), record);
    } else {
      var g := own.value.groups;
      var h := g[0 := g[0].(rules := g[0].rules + added)];
      assert h[1..] == g[1..];
      CountAppend(g[0].rules + added, GroupRules(g[1..]), record);
      CountAppend(g[0].rules, added, record);
      CountAppend(g[0].rules, GroupRules(g[1..]), record);
    }
  }

  function CountIn(c: Cluster, record: string): nat {
    Count(RulesOf(c.All()), record)
  }

  /** A patch adds one rule for each missing record and none for any other. */
  lemma PatchAddsEachOnce(
      c: Cluster, missing: map<string, string>, labels: map<string, string>, d: Cluster, record: string)
    requires IsPatched(c, missing, labels, d)
    ensures CountIn(d, record) == CountIn(c, record) + if record in missing then 1 else 0
  {
    var added :| IsListing(added, missing) && d.own == Some(PatchedOwn(c.own, added, labels));
    CountListed(added, record);
    assert (exists r: Rule :: r in added && r.record == record) <==> record in missing by {
      if record in missing {
        assert Rule("", record, missing[record]) in added;
      }
    }
    PatchedOwnCount(c.own, added, labels, record);
    RulesOfAppend(c.others, d.own.value, record);
    if c.own.Some? {
      RulesOfAppend(c.others, c.own.value, record);
    } else {
      assert c.All() == c.others;
    }
  }

  lemma ExistingAfterPatch(c: Cluster, missing: map<string, string>, labels: map<string, string>, d: Cluster)
    requires IsPatched(c, missing, labels, d)
    ensures Existing(RulesOf(d.All())) == Existing(RulesOf(c.All())) + (missing.Keys - {""})
  {
    forall record
      ensures record in Existing(RulesOf(d.All())) <==> record in Existing(RulesOf(c.All())) + (missing.Keys - {""})
    {
      if record != "" {
        PatchAddsEachOnce(c, missing, labels, d, record);
        CountPositiveIff(RulesOf(c.All()), record);
        CountPositiveIff(RulesOf(d.All()), record);
      }
    }
  }

  // --------------------------------------------------------------------- check and patch

  function Check(c: Cluster, file: seq<Entry>): Option<map<string, string>> {
    Missing(Existing(RulesOf(c.All())), file)
  }

  /** Whether the file asks for a record without a name. */
  ghost predicate AsksForNothing(file: seq<Entry>) {
    exists i :: 0 <= i < |file| && file[i].record == Some(Text("")) && file[i].expr.Some?
  }

  lemma {:induction false} MissingAfter(existing: set<string>, added: set<string>, file: seq<Entry>)
    requires Missing(existing, file).Some?
    ensures Missing(existing + added, file).Some?
    ensures var m := Missing(existing, file).value;
            Missing(existing + added, file).value == map k | k in m && k !in added :: m[k]
  {
    if file != [] {
      MissingAfter(existing, added, file[..|file| - 1]);
    }
  }

  /** A successful patch of what the check reported closes the check exactly when the file
      asks for no record without a name; if it does, that one is reported again. */
  lemma PatchClosesTheCheckIff(c: Cluster, file: seq<Entry>, labels: map<string, string>, d: Cluster)
    requires Check(c, file).Some? && IsPatched(c, Check(c, file).value, labels, d)
    ensures Check(d, file).Some?
    ensures Check(d, file).value == map[] <==> !AsksForNothing(file)
    ensures forall k :: k in Check(d, file).value ==> k == "" && k in Check(c, file).value
  {
    var existing, missing := Existing(RulesOf(c.All())), Check(c, file).value;
    ExistingAfterPatch(c, missing, labels, d);
    MissingAfter(existing, missing.Keys - {""}, file);
    MissingIff(existing, file, "");
    assert "" !in existing;
    if AsksForNothing(file) {
      var i :| 0 <= i < |file| && file[i].record == Some(Text("")) && file[i].expr.Some?;
      assert Lacks(existing, file[i], "");
      assert "" in Check(d, file).value;
    } else {
      assert forall i :: 0 <= i < |file| ==> !Lacks(existing, file[i], "");
      assert Check(d, file).value.Keys == {};
    }
  }

  /** Nothing the cluster records already is added, rules that were there stay where they
      were, and the other objects are not touched. */
  lemma PatchOnlyAdds(c: Cluster, file: seq<Entry>, labels: map<string, string>, d: Cluster)
    requires Check(c, file).Some? && IsPatched(c, Check(c, file).value, labels, d)
    ensures d.others == c.others && d.own.Some? && d.own.value.groups != [] && d.own.value.labels == labels
    ensures c.own == None || c.own.value.groups == [] ==>
              |d.own.value.groups| == 1 && d.own.value.groups[0].name == "alameda-metrics"
    ensures Check(c, file).value.Keys !! Existing(RulesOf(c.All()))
    ensures c.own.Some? ==>
              && |c.own.value.groups| <= |d.own.value.groups|
              && (forall i :: 0 <= i < |c.own.value.groups| ==>
                    c.own.value.groups[i].rules <= d.own.value.groups[i].rules
                    && d.own.value.groups[i].name == c.own.value.groups[i].name)
              && (forall i :: 1 <= i < |d.own.value.groups| ==> d.own.value.groups[i] == c.own.value.groups[i])
  {
    forall k | k in Check(c, file).value ensures k !in Existing(RulesOf(c.All())) {
      MissingIff(Existing(RulesOf(c.All())), file, k);
    }
  }

  /** The rules of the group that is patched: those that were in it and, for each record of the
      file that nobody has, one that is no alert and has the expression the file gives last. */
  lemma PatchedGroupIff(c: Cluster, file: seq<Entry>, labels: map<string, string>, d: Cluster, rule: Rule)
    requires Check(c, file).Some? && IsPatched(c, Check(c, file).value, labels, d)
    ensures d.own.Some? && d.own.value.groups != []
    ensures rule in d.own.value.groups[0].rules
       <==> || (c.own.Some? && c.own.value.groups != [] && rule in c.own.value.groups[0].rules)
            || (&& rule.alert == "" && rule.record !in Existing(RulesOf(c.All()))
                && LastGiven(file, rule.record, rule.expr))
  {
    var missing := Check(c, file).value;
    var added :| IsListing(added, missing) && d.own == Some(PatchedOwn(c.own, added, labels));
    MissingGiven(Existing(RulesOf(c.All())), file, rule.record, rule.expr);
    assert rule in added <==> rule.alert == "" && rule.record in missing && missing[rule.record] == rule.expr by {
      if rule.alert == "" && rule.record in missing && missing[rule.record] == rule.expr {
        assert rule == Rule("", rule.record, missing[rule.record]);
      }
    }
  }

  /** The last of the file's entries for the record that have an expression gives this one. */
  predicate LastGiven(file: seq<Entry>, record: string, expr: string) {
    exists i :: 0 <= i < |file| && file[i] == Entry(Some(Text(record)), Some(Text(expr)))
                && forall j :: i < j < |file| ==> file[j].record != Some(Text(record)) || file[j].expr == None
  }

  lemma {:induction false} MissingGiven(existing: set<string>, file: seq<Entry>, record: string, expr: string)
    requires Missing(existing, file).Some?
    ensures var m := Missing(existing, file).value;
            record in m && m[record] == expr <==> record !in existing && LastGiven(file, record, expr)
  {
    if file != [] {
      var n := |file| - 1;
      MissingGiven(existing, file[..n], record, expr);
      LastGivenSnoc(file, record, expr);
    }
  }

  lemma LastGivenSnoc(file: seq<Entry>, record: string, expr: string)
    requires file != []
    ensures var n := |file| - 1;
            LastGiven(file, record, expr) <==>
              if file[n].record == Some(Text(record)) && file[n].expr.Some? then file[n].expr == Some(Text(expr))
              else LastGiven(file[..n], record, expr)
  {
    var n := |file| - 1;
    var init := file[..n];
    assert forall j :: 0 <= j < n ==> init[j] == file[j];
    if LastGiven(init, record, expr) && !(file[n].record == Some(Text(record)) && file[n].expr.Some?) {
      var i :| 0 <= i < |init| && init[i] == Entry(Some(Text(record)), Some(Text(expr)))
               && forall j :: i < j < |init| ==> init[j].record != Some(Text(record)) || init[j].expr == None;
      assert file[i] == Entry(Some(Text(record)), Some(Text(expr)));
    }
  }

  /** One round: the check finds nothing or panics, or the patch fails, or it goes through. */
  ghost predicate Round(c: Cluster, file: seq<Entry>, d: Cluster) {
    d == c || (Check(c, file).Some? && exists labels :: IsPatched(c, Check(c, file).value, labels, d))
  }

  lemma RoundAdds(c: Cluster, file: seq<Entry>, d: Cluster, record: string)
    requires Round(c, file, d) && record != ""
    ensures CountIn(d, record) == CountIn(c, record) || (CountIn(c, record) == 0 && CountIn(d, record) == 1)
  {
    if d != c {
      var labels :| IsPatched(c, Check(c, file).value, labels, d);
      PatchAddsEachOnce(c, Check(c, file).value, labels, d, record);
      CountPositiveIff(RulesOf(c.All()), record);
      MissingIff(Existing(RulesOf(c.All())), file, record);
    }
  }

  /** However many rounds are made, each named record is added once at most, and only if no
      rule recorded it when the rounds began. */
  lemma {:induction false} RoundsAddEachOnce(trace: seq<Cluster>, file: seq<Entry>, record: string)
    requires trace != [] && record != "" && forall i :: 0 < i < |trace| ==> Round(trace[i - 1], file, trace[i])
    ensures var first, last := CountIn(trace[0], record), CountIn(trace[|trace| - 1], record);
            last == first || (first == 0 && last == 1)
    decreases |trace|
  {
    if |trace| > 1 {
      var n := |trace| - 1;
      RoundsAddEachOnce(trace[..n], file, record);
      RoundAdds(trace[n - 1], file, trace[n], record);
    }
  }

  /** Asked for a record without a name, every round that goes through adds another rule. */
  lemma NamelessRecordIsAddedAgain(c: Cluster, file: seq<Entry>, labels: map<string, string>, d: Cluster)
    requires Check(c, file).Some? && IsPatched(c, Check(c, file).value, labels, d) && AsksForNothing(file)
    ensures CountIn(d, "") == CountIn(c, "") + 1
  {
    var existing := Existing(RulesOf(c.All()));
    var i :| 0 <= i < |file| && file[i].record == Some(Text("")) && file[i].expr.Some?;
    MissingIff(existing, file, "");
    assert Lacks(existing, file[i], "");
    PatchAddsEachOnce(c, Check(c, file).value, labels, d, "");
  }
}
