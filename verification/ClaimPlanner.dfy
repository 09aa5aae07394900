/** Which claims the operator installs and which it uninstalls: the global storages choose
    whole lists, then every section appends its claim or removes it in place. */
module ClaimPlanner {
  import opened Options
  import opened StorageTypes
  import opened RangeRemoval

  datatype Mode = Install | Uninstall

  /** An entry of this kind puts the claim on the list; any other takes it off. */
  predicate Adds(mode: Mode, e: Storage) {
    (e.kind == PVC) == (mode == Install)
  }

  predicate GlobalFlag(mode: Mode, storages: seq<Storage>, u: Usage) {
    exists i :: 0 <= i < |storages| && storages[i].Governs(u) && Adds(mode, storages[i])
  }

  /** One section's pass over the list; `None` when a slice expression panics. */
  function SectionPass(mode: Mode, live: seq<Claim>, storages: seq<Storage>, claim: Claim): Option<seq<Claim>>
    decreases |storages|
  {
    if storages == [] then Some(live)
    else if !storages[0].Governs(claim.usage) then SectionPass(mode, live, storages[1..], claim)
    else if Adds(mode, storages[0]) then SectionPass(mode, live + [claim], storages[1..], claim)
    else if Panics(live, claim) then None
    else SectionPass(mode, Kept(live, 0, claim), storages[1..], claim)
  }

  function SectionsPass(mode: Mode, live: seq<Claim>, cs: seq<Component>, p: Parameters, u: Usage): Option<seq<Claim>>
    decreases |cs|
  {
    if cs == [] then Some(live)
    else match SectionPass(mode, live, p.PlannerSection(cs[0]), Claim(cs[0], u))
      case None => None
      case Some(next) => SectionsPass(mode, next, cs[1..], p, u)
  }

  /** The order of the sections and the two global lists. */
  datatype Lists = Lists(order: seq<Component>, logs: seq<Claim>, datas: seq<Claim>)
  {
    function Of(u: Usage): seq<Claim> {
      if u == Log then logs else datas
    }
  }

  const ALL_LISTS := Lists(SECTION_ORDER, LOG_CLAIMS, DATA_CLAIMS)

  /** The list with the usage's global claims appended if the global entries ask for them. */
  function Extended(mode: Mode, base: seq<Claim>, p: Parameters, lists: Lists, u: Usage): seq<Claim> {
    if GlobalFlag(mode, p.storages, u) then base + lists.Of(u) else base
  }

  function InstallOver(p: Parameters, lists: Lists): Option<seq<Claim>> {
    match SectionsPass(Install, Extended(Install, [], p, lists, Log), lists.order, p, Log)
    case None => None
    case Some(logs) => SectionsPass(Install, Extended(Install, logs, p, lists, Data), lists.order, p, Data)
  }

  function UninstallOver(p: Parameters, lists: Lists): Option<seq<Claim>> {
    match SectionsPass(Uninstall, UninstallBase(p, lists), lists.order, p, Log)
    case None => None
    case Some(next) => SectionsPass(Uninstall, next, lists.order, p, Data)
  }

  function UninstallBase(p: Parameters, lists: Lists): seq<Claim> {
    Extended(Uninstall, Extended(Uninstall, [], p, lists, Log), p, lists, Data)
  }

  function InstallPlan(p: Parameters): Option<seq<Claim>> {
    InstallOver(p, ALL_LISTS)
  }

  function UninstallPlan(p: Parameters): Option<seq<Claim>> {
    UninstallOver(p, ALL_LISTS)
  }

  // ------------------------------------------------------------ the slices in place

  /** Go's append of one element: in place while there is capacity, else into a new array. */
  method Append(a: array<Claim>, n: nat, x: Claim) returns (a': array<Claim>, n': nat)
    requires n <= a.Length
    modifies a
    ensures a' == a || fresh(a')
    ensures n' == n + 1 <= a'.Length
    ensures a'[..n'] == old(a[..n]) + [x]
  {
    if n < a.Length {
      a[n] := x;
      return a, n + 1;
    }
    a' := new Claim[2 * n + 1](_ => x);
    for i := 0 to n
      invariant a'[..i] == a[..i] && a'.Length == 2 * n + 1
      invariant forall j :: i <= j < a'.Length ==> a'[j] == x
      invariant a[..n] == old(a[..n])
    {
      a'[i] := a[i];
    }
    n' := n + 1;
    assert a'[n] == x;
  }

  method AppendAll(a: array<Claim>, n: nat, list: array<Claim>) returns (a': array<Claim>, n': nat)
    requires n <= a.Length && a != list
    modifies a
    ensures (a' == a || fresh(a')) && a' != list
    ensures n' <= a'.Length && a'[..n'] == old(a[..n]) + list[..]
  {
    a', n' := a, n;
    for i := 0 to list.Length
      invariant (a' == a || fresh(a')) && a' != list
      invariant n' <= a'.Length && a'[..n'] == old(a[..n]) + list[..i]
    {
      a', n' := Append(a', n', list[i]);
      assert list[..i + 1] == list[..i] + [list[i]];
    }
    assert list[..list.Length] == list[..];
  }

  method SectionInPlace(mode: Mode, a: array<Claim>, n: nat, storages: seq<Storage>, claim: Claim)
    returns (a': array<Claim>, n': nat, panicked: bool)
    requires n <= a.Length
    modifies a
    ensures a' == a || fresh(a')
    ensures n' <= a'.Length
    ensures (if panicked then None else Some(a'[..n'])) == SectionPass(mode, old(a[..n]), storages, claim)
  {
    a', n', panicked := a, n, false;
    for i := 0 to |storages|
      invariant a' == a || fresh(a')
      invariant n' <= a'.Length
      invariant SectionPass(mode, a'[..n'], storages[i..], claim) == SectionPass(mode, old(a[..n]), storages, claim)
    {
      var value := storages[i];
      assert storages[i..][1..] == storages[i + 1..];
      if value.Governs(claim.usage) {
        if Adds(mode, value) {
          a', n' := Append(a', n', claim);
        } else {
          n', panicked := RemoveWhileRanging(a', n', claim);
          if panicked {
            n' := 0;
            return;
          }
        }
      }
    }
  }

  method SectionsInPlace(mode: Mode, a: array<Claim>, n: nat, order: seq<Component>, p: Parameters, u: Usage)
    returns (a': array<Claim>, n': nat, panicked: bool)
    requires n <= a.Length
    modifies a
    ensures a' == a || fresh(a')
    ensures n' <= a'.Length
    ensures (if panicked then None else Some(a'[..n'])) == SectionsPass(mode, old(a[..n]), order, p, u)
  {
    a', n', panicked := a, n, false;
    for i := 0 to |order|
      invariant a' == a || fresh(a')
      invariant n' <= a'.Length
      invariant SectionsPass(mode, a'[..n'], order[i..], p, u)
             == SectionsPass(mode, old(a[..n]), order, p, u)
    {
      var c := order[i];
      assert order[i..][0] == c && order[i..][1..] == order[i + 1..];
      a', n', panicked := SectionInPlace(mode, a', n', p.PlannerSection(c), Claim(c, u));
      if panicked {
        return;
      }
    }
  }

  method Flag(mode: Mode, storages: seq<Storage>, u: Usage) returns (flag: bool)
    ensures flag == GlobalFlag(mode, storages, u)
  {
    flag := false;
    for i := 0 to |storages|
      invariant flag <==> exists j :: 0 <= j < i && storages[j].Governs(u) && Adds(mode, storages[j])
    {
      if storages[i].Governs(u) && Adds(mode, storages[i]) {
        flag := true;
      }
    }
  }

  /** The global step: the whole list for a usage, appended if the global entries ask. */
  method ExtendInPlace(
      mode: Mode, a: array<Claim>, n: nat, p: Parameters, ghost lists: Lists, u: Usage, list: array<Claim>)
    returns (a': array<Claim>, n': nat)
    requires n <= a.Length && a != list && list[..] == lists.Of(u)
    modifies a
    ensures (a' == a || fresh(a')) && a' != list
    ensures n' <= a'.Length && a'[..n'] == Extended(mode, old(a[..n]), p, lists, u)
  {
    var flag := Flag(mode, p.storages, u);
    if flag {
      a', n' := AppendAll(a, n, list);
    } else {
      a', n' := a, n;
    }
  }

  /** The install list. The global lists are read and, having no `modifies` clause, never
      written, although slices of them are appended to and deleted from. */
  method GetInstallClaims(p: Parameters, order: seq<Component>, logs: array<Claim>, datas: array<Claim>)
    returns (a: array<Claim>, n: nat, panicked: bool)
    ensures fresh(a) && n <= a.Length
    ensures (if panicked then None else Some(a[..n])) == InstallOver(p, Lists(order, logs[..], datas[..]))
  {
    ghost var lists := Lists(order, logs[..], datas[..]);
    a, n := new Claim[0], 0;
    assert a[..n] == [];
    a, n := ExtendInPlace(Install, a, n, p, lists, Log, logs);
    a, n, panicked := SectionsInPlace(Install, a, n, order, p, Log);
    if !panicked {
      a, n := ExtendInPlace(Install, a, n, p, lists, Data, datas);
      a, n, panicked := SectionsInPlace(Install, a, n, order, p, Data);
    }
  }

  /** The uninstall list, on the same terms. */
  method GetUninstallClaims(p: Parameters, order: seq<Component>, logs: array<Claim>, datas: array<Claim>)
    returns (a: array<Claim>, n: nat, panicked: bool)
    ensures fresh(a) && n <= a.Length
    ensures (if panicked then None else Some(a[..n])) == UninstallOver(p, Lists(order, logs[..], datas[..]))
  {
    ghost var lists := Lists(order, logs[..], datas[..]);
    a, n := new Claim[0], 0;
    assert a[..n] == [];
    a, n := ExtendInPlace(Uninstall, a, n, p, lists, Log, logs);
    a, n := ExtendInPlace(Uninstall, a, n, p, lists, Data, datas);
    a, n, panicked := SectionsInPlace(Uninstall, a, n, order, p, Log);
    if !panicked {
      a, n, panicked := SectionsInPlace(Uninstall, a, n, order, p, Data);
    }
  }

  // ------------------------------------------------------------ what the lists mean

  /** The entry that decides about a claim: the section's if it has one, else the global one. */
  function Decider(p: Parameters, c: Claim): Option<Storage> {
    match Governing(p.PlannerSection(c.component), c.usage)
    case Some(e) => Some(e)
    case None => Governing(p.storages, c.usage)
  }

  predicate Plannable(c: Claim) {
    c.usage == Log || c.usage == Data
  }

  predicate OneEntryFor(p: Parameters, u: Usage) {
    && AtMostOneGoverns(p.storages, u)
    && forall c: Component :: AtMostOneGoverns(p.Section(c), u)
  }

  predicate OneEntryPerUsage(p: Parameters) {
    OneEntryFor(p, Log) && OneEntryFor(p, Data)
  }

  // ------------------------------------------------------------- one section's entries

  function LastGoverning(storages: seq<Storage>, u: Usage): Option<Storage> {
    if storages == [] then None
    else
      var later := LastGoverning(storages[1..], u);
      if later.Some? then later else if storages[0].Governs(u) then Some(storages[0]) else None
  }

  /** Going through the entries with so many copies of the claim on the list, a removal meets
      two or more. */
  predicate Overruns(mode: Mode, storages: seq<Storage>, u: Usage, copies: nat)
    decreases |storages|
  {
    storages != []
    && if !storages[0].Governs(u) then Overruns(mode, storages[1..], u, copies)
       else if Adds(mode, storages[0]) then Overruns(mode, storages[1..], u, copies + 1)
       else copies >= 2 || Overruns(mode, storages[1..], u, 0)
  }

  predicate AddsAt(mode: Mode, storages: seq<Storage>, u: Usage, i: int) {
    0 <= i < |storages| && storages[i].Governs(u) && Adds(mode, storages[i])
  }

  predicate RemovesAt(mode: Mode, storages: seq<Storage>, u: Usage, i: int) {
    0 <= i < |storages| && storages[i].Governs(u) && !Adds(mode, storages[i])
  }

  predicate NoRemoval(mode: Mode, storages: seq<Storage>, u: Usage, from: int, to: int) {
    forall m :: from <= m < to ==> !RemovesAt(mode, storages, u, m)
  }

  /** Two adding entries before `j` and no removing one after the first of them. */
  predicate TwiceAdded(mode: Mode, storages: seq<Storage>, u: Usage, j: int) {
    exists a, b :: 0 <= a < b < j && AddsAt(mode, storages, u, a) && AddsAt(mode, storages, u, b)
                   && NoRemoval(mode, storages, u, a, j)
  }

  predicate AddedBefore(mode: Mode, storages: seq<Storage>, u: Usage, j: int) {
    exists a :: 0 <= a < j && AddsAt(mode, storages, u, a)
  }

  /** The claim was listed to begin with and nothing removed it before `j`: that, and one more
      entry adding it, make two, as do two copies to begin with. */
  predicate AddedToListed(mode: Mode, storages: seq<Storage>, u: Usage, copies: nat, j: int) {
    && copies >= 1 && NoRemoval(mode, storages, u, 0, j)
    && (copies >= 2 || AddedBefore(mode, storages, u, j))
  }

  /** The removing entry `j` meets two copies: two were added before it and since the last
      removal, or one was added to a claim already listed and never removed. */
  predicate MeetsTwo(mode: Mode, storages: seq<Storage>, u: Usage, copies: nat, j: int) {
    RemovesAt(mode, storages, u, j)
    && (TwiceAdded(mode, storages, u, j) || AddedToListed(mode, storages, u, copies, j))
  }

  lemma ShiftedAt(mode: Mode, storages: seq<Storage>, u: Usage)
    requires storages != []
    ensures forall i :: i >= 1 ==> AddsAt(mode, storages[1..], u, i - 1) == AddsAt(mode, storages, u, i)
    ensures forall i :: i >= 1 ==> RemovesAt(mode, storages[1..], u, i - 1) == RemovesAt(mode, storages, u, i)
  {
  }

  lemma ShiftedNoRemoval(mode: Mode, storages: seq<Storage>, u: Usage, a: int, j: int)
    requires storages != [] && a >= 0
    ensures NoRemoval(mode, storages[1..], u, a, j) <==> NoRemoval(mode, storages, u, a + 1, j + 1)
  {
    ShiftedAt(mode, storages, u);
    forall m | NoRemoval(mode, storages[1..], u, a, j) && a + 1 <= m < j + 1 ensures !RemovesAt(mode, storages, u, m) {
      assert !RemovesAt(mode, storages[1..], u, m - 1);
    }
    forall m | NoRemoval(mode, storages, u, a + 1, j + 1) && a <= m < j ensures !RemovesAt(mode, storages[1..], u, m) {
      assert !RemovesAt(mode, storages, u, m + 1);
    }
  }

  lemma ShiftedAdded(mode: Mode, storages: seq<Storage>, u: Usage, j: int)
    requires storages != [] && j >= 1
    ensures AddedBefore(mode, storages, u, j)
      <==> AddsAt(mode, storages, u, 0) || AddedBefore(mode, storages[1..], u, j - 1)
  {
    ShiftedAt(mode, storages, u);
    if a :| 0 <= a < j && AddsAt(mode, storages, u, a) {
      assert a == 0 || AddsAt(mode, storages[1..], u, a - 1);
    }
    if a :| 0 <= a < j - 1 && AddsAt(mode, storages[1..], u, a) {
      assert AddsAt(mode, storages, u, a + 1);
    }
  }

  lemma ShiftedTwice(mode: Mode, storages: seq<Storage>, u: Usage, j: int)
    requires storages != [] && j >= 1
    ensures TwiceAdded(mode, storages, u, j) <==>
              || TwiceAdded(mode, storages[1..], u, j - 1)
              || (&& AddsAt(mode, storages, u, 0) && AddedBefore(mode, storages[1..], u, j - 1)
                  && NoRemoval(mode, storages, u, 0, j))
  {
    ShiftedAt(mode, storages, u);
    if TwiceAdded(mode, storages, u, j) {
      TwiceTail(mode, storages, u, j);
    }
    if a, b :| 0 <= a < b < j - 1 && AddsAt(mode, storages[1..], u, a) && AddsAt(mode, storages[1..], u, b)
               && NoRemoval(mode, storages[1..], u, a, j - 1) {
      ShiftedNoRemoval(mode, storages, u, a, j - 1);
      assert AddsAt(mode, storages, u, a + 1) && AddsAt(mode, storages, u, b + 1);
    }
    if b :| 0 <= b < j - 1 && AddsAt(mode, storages[1..], u, b) {
      assert AddsAt(mode, storages, u, b + 1);
    }
  }

  lemma TwiceTail(mode: Mode, storages: seq<Storage>, u: Usage, j: int)
    requires storages != [] && j >= 1 && TwiceAdded(mode, storages, u, j)
    ensures || TwiceAdded(mode, storages[1..], u, j - 1)
            || (&& AddsAt(mode, storages, u, 0) && AddedBefore(mode, storages[1..], u, j - 1)
                && NoRemoval(mode, storages, u, 0, j))
  {
    var a, b :| 0 <= a < b < j && AddsAt(mode, storages, u, a) && AddsAt(mode, storages, u, b)
                && NoRemoval(mode, storages, u, a, j);
    ShiftedAt(mode, storages, u);
    assert AddsAt(mode, storages[1..], u, b - 1);
    if a > 0 {
      ShiftedNoRemoval(mode, storages, u, a - 1, j - 1);
      assert AddsAt(mode, storages[1..], u, a - 1);
    }
  }

  /** How many copies there are behind an entry that does not overrun. */
  function CopiesAfter(mode: Mode, e: Storage, u: Usage, copies: nat): nat {
    if !e.Governs(u) then copies else if Adds(mode, e) then copies + 1 else 0
  }

  lemma ShiftedMeetsTwo(mode: Mode, storages: seq<Storage>, u: Usage, copies: nat, j: int)
    requires storages != [] && j >= 1
    ensures MeetsTwo(mode, storages, u, copies, j)
       <==> MeetsTwo(mode, storages[1..], u, CopiesAfter(mode, storages[0], u, copies), j - 1)
  {
    var rest := storages[1..];
    ShiftedAt(mode, storages, u);
    ShiftedTwice(mode, storages, u, j);
    ShiftedAdded(mode, storages, u, j);
    ShiftedNoRemoval(mode, storages, u, 0, j - 1);
    assert NoRemoval(mode, storages, u, 0, j)
      <==> !RemovesAt(mode, storages, u, 0) && NoRemoval(mode, storages, u, 1, j);
  }

  /** A section's removals meet two copies exactly when some removing entry does. */
  lemma {:induction false} OverrunsIff(mode: Mode, storages: seq<Storage>, u: Usage, copies: nat)
    ensures Overruns(mode, storages, u, copies) <==> exists j :: MeetsTwo(mode, storages, u, copies, j)
    decreases |storages|
  {
    if storages != [] {
      var rest, next := storages[1..], CopiesAfter(mode, storages[0], u, copies);
      OverrunsIff(mode, rest, u, next);
      if j :| MeetsTwo(mode, rest, u, next, j) {
        ShiftedMeetsTwo(mode, storages, u, copies, j + 1);
      }
      if j :| MeetsTwo(mode, storages, u, copies, j) {
        if j > 0 {
          ShiftedMeetsTwo(mode, storages, u, copies, j);
        }
      }
      assert MeetsTwo(mode, storages, u, copies, 0) <==> RemovesAt(mode, storages, u, 0) && copies >= 2;
    }
  }

  // -------------------------------------------------- what a section does to the list

  lemma EarlierCopy<T>(s: seq<T>, x: T)
    requires s != [] && s[|s| - 1] == x && multiset(s)[x] >= 2
    ensures x in s[..|s| - 1]
  {
    assert s == s[..|s| - 1] + [s[|s| - 1]];
  }

  /** So many copies, and if there are two or more, one is last. */
  predicate Holds(live: seq<Claim>, claim: Claim, copies: nat) {
    multiset(live)[claim] == copies && (copies >= 2 ==> live != [] && live[|live| - 1] == claim)
  }

  lemma RemovingOne(live: seq<Claim>, claim: Claim, copies: nat)
    requires Holds(live, claim, copies)
    ensures Panics(live, claim) <==> copies >= 2
    ensures copies < 2 ==> Holds(Kept(live, 0, claim), claim, 0)
                           && forall d :: d != claim ==> multiset(Kept(live, 0, claim))[d] == multiset(live)[d]
  {
    if copies >= 2 {
      EarlierCopy(live, claim);
    } else {
      SingleCopyRemoved(live, claim);
      forall d ensures multiset(Kept(live, 0, claim))[d] == if d == claim then 0 else multiset(live)[d] {
        WithoutCounts(live, claim, d);
      }
    }
  }

  /** A section's pass panics exactly when its entries overrun; otherwise its last governing
      entry, if any, settles its own claim, and every other claim keeps its copies. */
  lemma {:induction false} SectionPassEffect(
      mode: Mode, live: seq<Claim>, storages: seq<Storage>, claim: Claim, copies: nat)
    requires Holds(live, claim, copies)
    ensures var r := SectionPass(mode, live, storages, claim);
            && (r == None <==> Overruns(mode, storages, claim.usage, copies))
            && (r.Some? ==>
                  && (claim in r.value <==> match LastGoverning(storages, claim.usage)
                                            case Some(e) => Adds(mode, e)
                                            case None => copies > 0)
                  && forall d :: d != claim ==> multiset(r.value)[d] == multiset(live)[d])
    decreases |storages|
  {
    if storages != [] {
      if !storages[0].Governs(claim.usage) {
        SectionPassEffect(mode, live, storages[1..], claim, copies);
      } else if Adds(mode, storages[0]) {
        SectionPassEffect(mode, live + [claim], storages[1..], claim, copies + 1);
      } else {
        RemovingOne(live, claim, copies);
        if copies < 2 {
          SectionPassEffect(mode, Kept(live, 0, claim), storages[1..], claim, 0);
        }
      }
    }
  }

  /** The outcome for one claim of the sections' passes for its usage. */
  predicate Settled(mode: Mode, before: seq<Claim>, after: seq<Claim>, p: Parameters, d: Claim) {
    match LastGoverning(p.PlannerSection(d.component), d.usage)
    case Some(e) => d in after <==> Adds(mode, e)
    case None => d in after <==> d in before
  }

  predicate SameCopies(before: seq<Claim>, after: seq<Claim>, d: Claim) {
    multiset(after)[d] == multiset(before)[d] && (d in after <==> d in before)
  }

  lemma SameCount(before: seq<Claim>, after: seq<Claim>, d: Claim)
    requires multiset(after)[d] == multiset(before)[d]
    ensures SameCopies(before, after, d)
  {
  }

  /** All components' claims of the usage are settled, nothing else changes. */
  ghost predicate PassSettles(
      mode: Mode, live: seq<Claim>, r: seq<Claim>, cs: seq<Component>, p: Parameters, u: Usage)
  {
    && (forall c :: c in cs ==> Settled(mode, live, r, p, Claim(c, u)))
    && (forall d: Claim :: d.usage != u || d.component !in cs ==> SameCopies(live, r, d))
  }

  /** The sections' passes panic exactly when one section's entries overrun. */
  lemma {:induction false} SectionsPassEffect(
      mode: Mode, live: seq<Claim>, cs: seq<Component>, p: Parameters, u: Usage, copies: nat)
    requires Distinct(cs) && copies <= 1 && forall c :: c in cs ==> multiset(live)[Claim(c, u)] == copies
    ensures var r := SectionsPass(mode, live, cs, p, u);
            && (r == None <==> exists c :: c in cs && Overruns(mode, p.PlannerSection(c), u, copies))
            && (r.Some? ==> PassSettles(mode, live, r.value, cs, p, u))
    decreases |cs|
  {
    if cs != [] {
      var claim, tail := Claim(cs[0], u), cs[1..];
      assert cs == [cs[0]] + tail;
      assert cs[0] !in tail by {
        assert forall i :: 0 <= i < |tail| ==> tail[i] == cs[i + 1];
      }
      SectionPassEffect(mode, live, p.PlannerSection(cs[0]), claim, copies);
      if !Overruns(mode, p.PlannerSection(cs[0]), u, copies) {
        var next := SectionPass(mode, live, p.PlannerSection(cs[0]), claim).value;
        forall c | c in tail ensures multiset(next)[Claim(c, u)] == copies {
          assert Claim(c, u) != claim;
        }
        assert forall i :: 0 <= i < |tail| ==> tail[i] == cs[i + 1];
        SectionsPassEffect(mode, next, tail, p, u, copies);
        var r := SectionsPass(mode, next, tail, p, u);
        if r.Some? {
          PassesCompose(mode, live, next, r.value, cs, p, u);
        }
      }
    }
  }

  lemma PassesCompose(
      mode: Mode, live: seq<Claim>, next: seq<Claim>, r: seq<Claim>, cs: seq<Component>, p: Parameters, u: Usage)
    requires cs != [] && cs[0] !in cs[1..] && PassSettles(mode, next, r, cs[1..], p, u)
    requires Settled(mode, live, next, p, Claim(cs[0], u))
    requires forall d :: d != Claim(cs[0], u) ==> multiset(next)[d] == multiset(live)[d]
    ensures PassSettles(mode, live, r, cs, p, u)
  {
    assert cs == [cs[0]] + cs[1..];
    forall d: Claim | d != Claim(cs[0], u) ensures SameCopies(live, next, d) {
      SameCount(live, next, d);
    }
    assert SameCopies(next, r, Claim(cs[0], u));
    forall c | c in cs ensures Settled(mode, live, r, p, Claim(c, u)) {
      if c != cs[0] {
        assert Settled(mode, next, r, p, Claim(c, u)) && SameCopies(live, next, Claim(c, u));
      }
    }
    forall d: Claim | d.usage != u || d.component !in cs ensures SameCopies(live, r, d) {
      assert SameCopies(live, next, d) && SameCopies(next, r, d);
    }
  }

  // --------------------------------------------------------------- the lists complete

  lemma {:induction false} DistinctCounts(s: seq<Claim>, d: Claim)
    requires Distinct(s)
    ensures multiset(s)[d] == if d in s then 1 else 0
  {
    if s != [] {
      assert s == [s[0]] + s[1..];
      DistinctCounts(s[1..], d);
    }
  }

  /** Every component has its place in the order, and every claim is once on its list. */
  ghost predicate Complete(lists: Lists) {
    && Distinct(lists.order)
    && (forall c: Component :: c in lists.order)
    && (forall d: Claim :: multiset(lists.logs)[d] == if d.usage == Log then 1 else 0)
    && (forall d: Claim :: multiset(lists.datas)[d] == if d.usage == Data then 1 else 0)
  }

  lemma AllListsComplete()
    ensures Complete(ALL_LISTS)
  {
    ListsAreComplete();
    forall d: Claim
      ensures multiset(LOG_CLAIMS)[d] == if d.usage == Log then 1 else 0
      ensures multiset(DATA_CLAIMS)[d] == if d.usage == Data then 1 else 0
    {
      DistinctCounts(LOG_CLAIMS, d);
      DistinctCounts(DATA_CLAIMS, d);
      assert d.component in LOG_ORDER && d.component in DATA_ORDER;
      var i :| 0 <= i < |LOG_ORDER| && LOG_ORDER[i] == d.component;
      assert LOG_CLAIMS[i] == Claim(d.component, Log);
      var j :| 0 <= j < |DATA_ORDER| && DATA_ORDER[j] == d.component;
      assert DATA_CLAIMS[j] == Claim(d.component, Data);
    }
  }

  // ----------------------------------------------------------------- the whole planner

  function Copies(mode: Mode, p: Parameters, u: Usage): nat {
    if GlobalFlag(mode, p.storages, u) then 1 else 0
  }

  /** One pass over all sections panics. */
  predicate PassOverruns(mode: Mode, p: Parameters, u: Usage) {
    exists c: Component :: Overruns(mode, p.PlannerSection(c), u, Copies(mode, p, u))
  }

  /** What the settings say about a claim: the last governing entry of its section decides, or
      else whether any global entry puts the usage's claims on the list. */
  predicate Asked(mode: Mode, p: Parameters, c: Claim) {
    match LastGoverning(p.PlannerSection(c.component), c.usage)
    case Some(e) => Adds(mode, e)
    case None => GlobalFlag(mode, p.storages, c.usage)
  }

  lemma ExtendedEffect(mode: Mode, base: seq<Claim>, p: Parameters, lists: Lists, u: Usage, d: Claim)
    requires u in {Log, Data} && Complete(lists)
    ensures var r := Extended(mode, base, p, lists, u);
            multiset(r)[d] == multiset(base)[d] + if d.usage == u then Copies(mode, p, u) else 0
  {
  }

  /** All sections' passes for one usage, over a list that holds each of its claims alike. */
  lemma OnePass(mode: Mode, live: seq<Claim>, p: Parameters, lists: Lists, u: Usage)
    requires Complete(lists) && forall c: Component :: multiset(live)[Claim(c, u)] == Copies(mode, p, u)
    ensures var r := SectionsPass(mode, live, lists.order, p, u);
            && (r == None <==> PassOverruns(mode, p, u))
            && (r.Some? ==>
                  && (forall c: Component :: Claim(c, u) in r.value <==> Asked(mode, p, Claim(c, u)))
                  && (forall d: Claim :: d.usage != u ==> SameCopies(live, r.value, d)))
  {
    SectionsPassEffect(mode, live, lists.order, p, u, Copies(mode, p, u));
    var r := SectionsPass(mode, live, lists.order, p, u);
    if r.Some? {
      forall c: Component ensures Claim(c, u) in r.value <==> Asked(mode, p, Claim(c, u)) {
        assert c in lists.order && Settled(mode, live, r.value, p, Claim(c, u));
      }
    }
  }

  /** Installing: exactly when it panics, and otherwise exactly what is on the list. */
  lemma InstallIff(p: Parameters, lists: Lists)
    requires Complete(lists)
    ensures var r := InstallOver(p, lists);
            && (r == None <==> PassOverruns(Install, p, Log) || PassOverruns(Install, p, Data))
            && (r.Some? ==> forall d: Claim :: Plannable(d) ==> (d in r.value <==> Asked(Install, p, d)))
  {
    var base := Extended(Install, [], p, lists, Log);
    forall d: Claim ensures multiset(base)[d] == if d.usage == Log then Copies(Install, p, Log) else 0 {
      ExtendedEffect(Install, [], p, lists, Log, d);
    }
    OnePass(Install, base, p, lists, Log);
    var logs := SectionsPass(Install, base, lists.order, p, Log);
    if logs.Some? {
      var live := Extended(Install, logs.value, p, lists, Data);
      forall d: Claim
        ensures multiset(live)[d] == multiset(logs.value)[d] + if d.usage == Data then Copies(Install, p, Data) else 0
      {
        ExtendedEffect(Install, logs.value, p, lists, Data, d);
      }
      forall c: Component ensures multiset(live)[Claim(c, Data)] == Copies(Install, p, Data) {
        assert SameCopies(base, logs.value, Claim(c, Data));
      }
      OnePass(Install, live, p, lists, Data);
      SecondPass(Install, p, logs.value, live, SectionsPass(Install, live, lists.order, p, Data));
    }
  }

  /** The data pass leaves what the log pass settled. */
  lemma SecondPass(mode: Mode, p: Parameters, logs: seq<Claim>, live: seq<Claim>, all: Option<seq<Claim>>)
    requires forall c: Component :: Claim(c, Log) in logs <==> Asked(mode, p, Claim(c, Log))
    requires forall c: Component :: multiset(live)[Claim(c, Log)] == multiset(logs)[Claim(c, Log)]
    requires all.Some? ==>
               && (forall c: Component :: Claim(c, Data) in all.value <==> Asked(mode, p, Claim(c, Data)))
               && (forall d: Claim :: d.usage != Data ==> SameCopies(live, all.value, d))
    ensures all.Some? ==> forall d: Claim :: Plannable(d) ==> (d in all.value <==> Asked(mode, p, d))
  {
    if all.Some? {
      forall d: Claim | Plannable(d) ensures d in all.value <==> Asked(mode, p, d) {
        assert d == Claim(d.component, d.usage);
        if d.usage == Log {
          assert SameCopies(live, all.value, d);
          SameCount(logs, live, d);
        }
      }
    }
  }

  /** Uninstalling: the same, with both global lists in place before the first pass. */
  lemma UninstallIff(p: Parameters, lists: Lists)
    requires Complete(lists)
    ensures var r := UninstallOver(p, lists);
            && (r == None <==> PassOverruns(Uninstall, p, Log) || PassOverruns(Uninstall, p, Data))
            && (r.Some? ==> forall d: Claim :: Plannable(d) ==> (d in r.value <==> Asked(Uninstall, p, d)))
  {
    var base := UninstallBase(p, lists);
    forall d: Claim
      ensures multiset(base)[d] == if d.usage == Log then Copies(Uninstall, p, Log)
                                   else if d.usage == Data then Copies(Uninstall, p, Data) else 0
    {
      ExtendedEffect(Uninstall, [], p, lists, Log, d);
      ExtendedEffect(Uninstall, Extended(Uninstall, [], p, lists, Log), p, lists, Data, d);
    }
    OnePass(Uninstall, base, p, lists, Log);
    var logs := SectionsPass(Uninstall, base, lists.order, p, Log);
    if logs.Some? {
      forall c: Component ensures multiset(logs.value)[Claim(c, Data)] == Copies(Uninstall, p, Data) {
        assert SameCopies(base, logs.value, Claim(c, Data));
      }
      OnePass(Uninstall, logs.value, p, lists, Data);
      SecondPass(Uninstall, p, logs.value, logs.value, SectionsPass(Uninstall, logs.value, lists.order, p, Data));
    }
  }

  /** For any settings: each planning function panics exactly when some section's entries for
      a usage overrun, and otherwise lists a claim exactly when the settings ask for it. */
  lemma PlannerIff(p: Parameters)
    ensures InstallPlan(p) == None <==> PassOverruns(Install, p, Log) || PassOverruns(Install, p, Data)
    ensures UninstallPlan(p) == None <==> PassOverruns(Uninstall, p, Log) || PassOverruns(Uninstall, p, Data)
    ensures InstallPlan(p).Some? ==>
              forall c: Claim :: Plannable(c) ==> (c in InstallPlan(p).value <==> Asked(Install, p, c))
    ensures UninstallPlan(p).Some? ==>
              forall c: Claim :: Plannable(c) ==> (c in UninstallPlan(p).value <==> Asked(Uninstall, p, c))
  {
    AllListsComplete();
    InstallIff(p, ALL_LISTS);
    UninstallIff(p, ALL_LISTS);
  }

  lemma {:induction false} OneEntryDecides(mode: Mode, storages: seq<Storage>, u: Usage, copies: nat)
    requires AtMostOneGoverns(storages, u) && copies <= 1
    ensures !Overruns(mode, storages, u, copies) && LastGoverning(storages, u) == Governing(storages, u)
    ensures GlobalFlag(mode, storages, u) <==> Governing(storages, u).Some? && Adds(mode, Governing(storages, u).value)
    decreases |storages|
  {
    if storages != [] {
      var rest := storages[1..];
      assert forall i :: 0 <= i < |rest| ==> rest[i] == storages[i + 1];
      if storages[0].Governs(u) {
        NothingGoverns(mode, rest, u, CopiesAfter(mode, storages[0], u, copies));
      } else {
        OneEntryDecides(mode, rest, u, copies);
      }
    }
  }

  lemma {:induction false} NothingGoverns(mode: Mode, storages: seq<Storage>, u: Usage, copies: nat)
    requires forall i :: 0 <= i < |storages| ==> !storages[i].Governs(u)
    ensures !Overruns(mode, storages, u, copies) && LastGoverning(storages, u) == None
    decreases |storages|
  {
    if storages != [] {
      NothingGoverns(mode, storages[1..], u, copies);
    }
  }

  lemma OneEntryPerUsageDecides(mode: Mode, p: Parameters, c: Claim)
    requires OneEntryPerUsage(p) && Plannable(c)
    ensures !PassOverruns(mode, p, Log) && !PassOverruns(mode, p, Data)
    ensures Asked(mode, p, c) <==> Decider(p, c).Some? && Adds(mode, Decider(p, c).value)
  {
    assert OneEntryFor(p, Log) && OneEntryFor(p, Data);
    forall b: Component
      ensures !Overruns(mode, p.PlannerSection(b), Log, Copies(mode, p, Log))
      ensures !Overruns(mode, p.PlannerSection(b), Data, Copies(mode, p, Data))
    {
      OneEntryDecides(mode, p.PlannerSection(b), Log, Copies(mode, p, Log));
      OneEntryDecides(mode, p.PlannerSection(b), Data, Copies(mode, p, Data));
    }
    OneEntryDecides(mode, p.PlannerSection(c.component), c.usage, 0);
    OneEntryDecides(mode, p.storages, c.usage, 0);
  }

  /** The planner refines "the section's entry if any, else the global one": with at most one
      entry governing each usage per list, neither list panics, a claim is installed exactly
      when its deciding entry is a pvc, uninstalled exactly when it has one that is not, and
      so is on one list, never both, exactly when some entry decides about it. */
  lemma PlannerRefines(p: Parameters, c: Claim)
    requires OneEntryPerUsage(p) && Plannable(c)
    ensures InstallPlan(p).Some? && UninstallPlan(p).Some?
    ensures c in InstallPlan(p).value <==> Decider(p, c).Some? && Decider(p, c).value.kind == PVC
    ensures c in UninstallPlan(p).value <==> Decider(p, c).Some? && Decider(p, c).value.kind != PVC
    ensures !(c in InstallPlan(p).value && c in UninstallPlan(p).value)
    ensures Decider(p, c).Some? <==> c in InstallPlan(p).value || c in UninstallPlan(p).value
  {
    PlannerIff(p);
    OneEntryPerUsageDecides(Install, p, c);
    OneEntryPerUsageDecides(Uninstall, p, c);
  }

  const PVC_LOG := Storage(PVC, Log, "1Gi")
  const EPHEMERAL_LOG := Storage(Ephemeral, Log, "")

  /** A section with a pvc and an ephemeral entry for one usage, under a global pvc, makes the
      install planner slice out of range, whichever component it is whose section is read. */
  lemma TwoEntriesPanic(c: Component)
    requires c != AgentApp
    ensures InstallPlan(Parameters([PVC_LOG], map[c := [PVC_LOG, EPHEMERAL_LOG]])) == None
  {
    var p := Parameters([PVC_LOG], map[c := [PVC_LOG, EPHEMERAL_LOG]]);
    assert p.PlannerSection(c) == [PVC_LOG, EPHEMERAL_LOG];
    assert [PVC_LOG, EPHEMERAL_LOG][1..] == [EPHEMERAL_LOG];
    assert p.storages[0].Governs(Log) && Adds(Install, p.storages[0]);
    assert Copies(Install, p, Log) == 1;
    assert Overruns(Install, [EPHEMERAL_LOG], Log, 2);
    assert Overruns(Install, p.PlannerSection(c), Log, 1);
    PlannerIff(p);
  }
}
