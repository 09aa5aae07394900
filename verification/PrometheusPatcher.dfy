/** The rule check and the rule patch as they run: maps filled in nested loops, rules appended
    one by one, the rule object rewritten in the cluster. */
module PrometheusPatcher {
  import opened Options
  import opened PrometheusRules

  /** The file's groups one after the other. */
  function Entries(groups: seq<seq<Entry>>): seq<Entry> {
    if groups == [] then [] else Entries(groups[..|groups| - 1]) + groups[|groups| - 1]
  }

  /** One rule looked at, the rest of its group to come. */
  lemma ExistingHead(rules: seq<Rule>, k: nat)
    requires k < |rules|
    ensures Existing(rules[k..]) == (if Records(rules[k]) then {rules[k].record} else {}) + Existing(rules[k + 1..])
  {
  }

  lemma ExistingGroups(groups: seq<Group>, j: nat)
    requires j < |groups|
    ensures Existing(GroupRules(groups[j..])) == Existing(groups[j].rules) + Existing(GroupRules(groups[j + 1..]))
  {
  }

  lemma ExistingObjects(all: seq<PrometheusRule>, i: nat)
    requires i < |all|
    ensures Existing(RulesOf(all[i..])) == Existing(GroupRules(all[i].groups)) + Existing(RulesOf(all[i + 1..]))
  {
  }

  method GroupRecords(known: set<string>, rules: seq<Rule>) returns (existing: set<string>)
    ensures existing == known + Existing(rules)
  {
    existing := known;
    assert rules[0..] == rules;
    for k := 0 to |rules|
      invariant existing + Existing(rules[k..]) == known + Existing(rules)
    {
      ExistingHead(rules, k);
      if rules[k].alert == "" && rules[k].record != "" {
        existing := existing + {rules[k].record};
      }
    }
  }

  method ObjectRecords(known: set<string>, groups: seq<Group>) returns (existing: set<string>)
    ensures existing == known + Existing(GroupRules(groups))
  {
    existing := known;
    assert groups[0..] == groups;
    for j := 0 to |groups|
      invariant existing + Existing(GroupRules(groups[j..])) == known + Existing(GroupRules(groups))
    {
      ExistingGroups(groups, j);
      existing := GroupRecords(existing, groups[j].rules);
    }
    assert groups[|groups|..] == [];
  }

  method ExistingRecords(all: seq<PrometheusRule>) returns (existing: set<string>)
    ensures existing == Existing(RulesOf(all))
  {
    existing := {};
    assert all[0..] == all;
    for i := 0 to |all|
      invariant existing + Existing(RulesOf(all[i..])) == Existing(RulesOf(all))
    {
      ExistingObjects(all, i);
      existing := ObjectRecords(existing, all[i].groups);
    }
    assert all[|all|..] == [];
  }

  /** What the file asks for and the cluster lacks, or None if the check panics. */
  method GetMissingRules(all: seq<PrometheusRule>, groups: seq<seq<Entry>>) returns (r: Option<map<string, string>>)
    ensures r == Missing(Existing(RulesOf(all)), Entries(groups))
  {
    var existing := ExistingRecords(all);
    var rulesMap: map<string, string> := map[];
    for i := 0 to |groups|
      invariant Missing(existing, Entries(groups[..i])) == Some(rulesMap)
    {
      ghost var before := Entries(groups[..i]);
      assert groups[..i + 1][..i] == groups[..i];
      var rules := groups[i];
      assert before + rules[..0] == before;
      for k := 0 to |rules|
        invariant Missing(existing, before + rules[..k]) == Some(rulesMap)
      {
        ghost var done := before + rules[..k + 1];
        assert done[..|done| - 1] == before + rules[..k] && done[|done| - 1] == rules[k];
        if !rules[k].record.Some? || !rules[k].record.value.Text? {
          MissingStops(existing, groups, i, k);
          return None;
        }
        var record := rules[k].record.value.s;
        if record !in existing && rules[k].expr.Some? {
          if rules[k].expr.value.Other? {
            MissingStops(existing, groups, i, k);
            return None;
          }
          rulesMap := rulesMap[record := rules[k].expr.value.s];
        }
      }
      assert rules[..|rules|] == rules;
    }
    assert groups[..|groups|] == groups;
    r := Some(rulesMap);
  }

  /** A panic on one entry ends the check. */
  lemma MissingStops(existing: set<string>, groups: seq<seq<Entry>>, i: nat, k: nat)
    requires i < |groups| && k < |groups[i]| && Panics(existing, groups[i][k])
    ensures Missing(existing, Entries(groups)) == None
  {
    EntriesHolds(groups, i, k);
    PanicsIff(existing, Entries(groups));
  }

  lemma {:induction false} EntriesHolds(groups: seq<seq<Entry>>, i: nat, k: nat)
    requires i < |groups| && k < |groups[i]|
    ensures exists m :: 0 <= m < |Entries(groups)| && Entries(groups)[m] == groups[i][k]
  {
    var n := |groups| - 1;
    if i < n {
      EntriesHolds(groups[..n], i, k);
      var m :| 0 <= m < |Entries(groups[..n])| && Entries(groups[..n])[m] == groups[i][k];
      assert Entries(groups)[m] == groups[i][k];
    } else {
      assert Entries(groups)[|Entries(groups[..n])| + k] == groups[i][k];
    }
  }

  /** Some of the map listed, some of it left. */
  ghost predicate PartlyListed(added: seq<Rule>, missing: map<string, string>, left: set<string>) {
    && left <= missing.Keys
    && (forall i, j :: 0 <= i < j < |added| ==> added[i].record != added[j].record)
    && (forall r :: r in added ==>
      r.record in missing && r.record !in left && r == Rule("", r.record, missing[r.record]))
    && (forall k :: k in missing && k !in left ==> Rule("", k, missing[k]) in added)
  }

  lemma ListOneMore(added: seq<Rule>, missing: map<string, string>, left: set<string>, k: string)
    requires PartlyListed(added, missing, left) && k in left
    ensures PartlyListed(added + [Rule("", k, missing[k])], missing, left - {k})
  {
  }

  /** The map's rules after the given ones, in whatever order the map yields them. */
  method AppendRules(rules: seq<Rule>, missing: map<string, string>) returns (r: seq<Rule>, ghost added: seq<Rule>)
    ensures r == rules + added && IsListing(added, missing)
  {
    r, added := rules, [];
    var left := missing.Keys;
    while left != {}
      invariant r == rules + added && PartlyListed(added, missing, left)
      decreases left
    {
      var k :| k in left;
      ListOneMore(added, missing, left, k);
      added := added + [Rule("", k, missing[k])];
      r := r + [Rule("", k, missing[k])];
      left := left - {k};
    }
  }

  /** The cluster's rule objects, the patched one apart. */
  class RuleStore {
    const others: seq<PrometheusRule>
    var own: Option<PrometheusRule>

    ghost function Contents(): Cluster
      reads this
    {
      Cluster(others, own)
    }

    constructor (c: Cluster)
      ensures Contents() == c
    {
      others, own := c.others, c.own;
    }

    /** `ready` stands for all the look-ups before the rule object is touched, `written` for
        the create or update going through. A failure changes nothing. */
    method PatchMissingRules(missing: map<string, string>, labels: map<string, string>, ready: bool, written: bool)
      returns (ok: bool)
      modifies this
      ensures ok <==> ready && written
      ensures ok ==> IsPatched(old(Contents()), missing, labels, Contents())
      ensures !ok ==> Contents() == old(Contents())
    {
      if !ready {
        return false;
      }
      var rules, added := AppendRules([], missing);
      assert rules == added;
      var next: PrometheusRule;
      if own == None || own.value.groups == [] {
        next := PrometheusRule(labels, [Group(GROUP_NAME, rules)]);
      } else {
        var groups := own.value.groups;
        var extended, again := AppendRules(groups[0].rules, missing);
        next := PrometheusRule(labels, groups[0 := groups[0].(rules := extended)]);
        added := again;
      }
      assert next == PatchedOwn(own, added, labels);
      if !written {
        return false;
      }
      own := Some(next);
      ok := true;
    }
  }
}
