/** The part of a Deployment that lives behind pointers: volume sources and field
    references, the defaults the merge writes through them, and deep equality. */
module DriftHeap {
  import opened Options

  /** A Secret or ConfigMap volume source; `body` is everything but the default mode. */
  datatype ModeCell = ModeCell(mode: Option<int>, body: string)

  datatype Item = Item(path: string, fieldRef: Option<nat>)

  datatype DownwardCell = DownwardCell(mode: Option<int>, items: seq<Item>)

  datatype FieldCell = FieldCell(apiVersion: string, fieldPath: string)

  /** What the pointers of both Deployments point to, by address. */
  datatype Store = Store(modes: map<nat, ModeCell>, downwards: map<nat, DownwardCell>, fields: map<nat, FieldCell>)
  {
    function Mode(r: nat): ModeCell {
      if r in modes then modes[r] else ModeCell(None, "")
    }

    function Downward(r: nat): DownwardCell {
      if r in downwards then downwards[r] else DownwardCell(None, [])
    }

    function Field(r: nat): FieldCell {
      if r in fields then fields[r] else FieldCell("", "")
    }
  }

  /** A volume source: at most the pointers, and anything else by value. */
  datatype VolumeSource = VolumeSource(secret: Option<nat>, configMap: Option<nat>, downward: Option<nat>, rest: string)

  datatype Volume = Volume(name: string, source: VolumeSource)

  datatype EnvVar = EnvVar(name: string, value: string, fieldRef: Option<nat>)

  const DEFAULT_MODE := 420
  const DEFAULT_API_VERSION := "v1"

  // ------------------------------------------------------------ values behind pointers

  datatype DownwardValue = DownwardValue(mode: Option<int>, items: seq<(string, Option<FieldCell>)>)

  datatype VolumeValue = VolumeValue(
    secret: Option<ModeCell>, configMap: Option<ModeCell>, downward: Option<DownwardValue>, rest: string)

  function FieldValue(st: Store, f: Option<nat>): Option<FieldCell> {
    if f == None then None else Some(st.Field(f.value))
  }

  function ModeValue(st: Store, m: Option<nat>): Option<ModeCell> {
    if m == None then None else Some(st.Mode(m.value))
  }

  function ItemValues(st: Store, items: seq<Item>): (r: seq<(string, Option<FieldCell>)>) {
    seq(|items|, i requires 0 <= i < |items| => (items[i].path, FieldValue(st, items[i].fieldRef)))
  }

  function DownwardOf(st: Store, d: Option<nat>): Option<DownwardValue> {
    if d == None then None
    else Some(DownwardValue(st.Downward(d.value).mode, ItemValues(st, st.Downward(d.value).items)))
  }

  /** Deep equality of two volume sources is equality of their values. */
  function SourceValue(st: Store, v: VolumeSource): VolumeValue {
    VolumeValue(ModeValue(st, v.secret), ModeValue(st, v.configMap), DownwardOf(st, v.downward), v.rest)
  }

  function EnvValue(st: Store, env: seq<EnvVar>): seq<(string, string, Option<FieldCell>)> {
    seq(|env|, i requires 0 <= i < |env| => (env[i].name, env[i].value, FieldValue(st, env[i].fieldRef)))
  }

  // ------------------------------------------------------------ defaults, on values

  function FieldDefaulted(f: Option<FieldCell>): Option<FieldCell> {
    if f.Some? && f.value.apiVersion == "" then Some(f.value.(apiVersion := DEFAULT_API_VERSION)) else f
  }

  function ModeDefaulted(m: Option<int>): Option<int> {
    if m == None then Some(DEFAULT_MODE) else m
  }

  function CellDefaulted(m: Option<ModeCell>): Option<ModeCell> {
    if m == None then None else Some(m.value.(mode := ModeDefaulted(m.value.mode)))
  }

  function DownwardDefaulted(d: Option<DownwardValue>): Option<DownwardValue> {
    if d == None then None
    else
      var items := d.value.items;
      Some(DownwardValue(ModeDefaulted(d.value.mode),
                         seq(|items|, i requires 0 <= i < |items| => (items[i].0, FieldDefaulted(items[i].1)))))
  }

  /** The volume's value once every default this file knows is filled in. */
  function Defaulted(v: VolumeValue): VolumeValue {
    VolumeValue(CellDefaulted(v.secret), CellDefaulted(v.configMap), DownwardDefaulted(v.downward), v.rest)
  }

  function EnvDefaulted(env: seq<(string, string, Option<FieldCell>)>): seq<(string, string, Option<FieldCell>)> {
    seq(|env|, i requires 0 <= i < |env| => (env[i].0, env[i].1, FieldDefaulted(env[i].2)))
  }

  // ------------------------------------------------------------ defaults, through pointers

  function FillField(st: Store, f: Option<nat>): Store {
    if f.Some? && st.Field(f.value).apiVersion == "" then
      st.(fields := st.fields[f.value := st.Field(f.value).(apiVersion := DEFAULT_API_VERSION)])
    else st
  }

  function FillFields(st: Store, fs: seq<Option<nat>>): Store
    decreases |fs|
  {
    if fs == [] then st else FillFields(FillField(st, fs[0]), fs[1..])
  }

  function FillMode(st: Store, m: Option<nat>): Store {
    if m.Some? && st.Mode(m.value).mode == None then
      st.(modes := st.modes[m.value := st.Mode(m.value).(mode := Some(DEFAULT_MODE))])
    else st
  }

  function ItemRefs(items: seq<Item>): seq<Option<nat>> {
    seq(|items|, i requires 0 <= i < |items| => items[i].fieldRef)
  }

  function FillDownward(st: Store, d: Option<nat>): Store {
    if d == None then st
    else
      var st1 := if st.Downward(d.value).mode == None then
                   st.(downwards := st.downwards[d.value := st.Downward(d.value).(mode := Some(DEFAULT_MODE))])
                 else st;
      FillFields(st1, ItemRefs(st1.Downward(d.value).items))
  }

  function FillSource(st: Store, v: VolumeSource): Store {
    FillDownward(FillMode(FillMode(st, v.secret), v.configMap), v.downward)
  }

  function EnvRefs(env: seq<EnvVar>): seq<Option<nat>> {
    seq(|env|, i requires 0 <= i < |env| => env[i].fieldRef)
  }

  function FillEnv(st: Store, env: seq<EnvVar>): Store {
    FillFields(st, EnvRefs(env))
  }

  // ------------------------------------------------------------ filling only fills

  predicate FieldFilled(a: FieldCell, b: FieldCell) {
    b == a || (a.apiVersion == "" && b == a.(apiVersion := DEFAULT_API_VERSION))
  }

  predicate ModeFilled(a: Option<int>, b: Option<int>) {
    b == a || (a == None && b == Some(DEFAULT_MODE))
  }

  /** The second store is the first with some missing defaults written. */
  ghost predicate Fills(a: Store, b: Store) {
    && (forall r: nat :: FieldFilled(a.Field(r), b.Field(r)))
    && (forall r: nat :: a.Mode(r).body == b.Mode(r).body && ModeFilled(a.Mode(r).mode, b.Mode(r).mode))
    && (forall r: nat :: a.Downward(r).items == b.Downward(r).items
                         && ModeFilled(a.Downward(r).mode, b.Downward(r).mode))
  }

  lemma FillsTransitive(a: Store, b: Store, c: Store)
    requires Fills(a, b) && Fills(b, c)
    ensures Fills(a, c)
  {
  }

  lemma FillFieldFills(st: Store, f: Option<nat>)
    ensures Fills(st, FillField(st, f))
  {
  }

  /** Filling a list of references fills exactly those. */
  lemma {:induction false} FillFieldsEffect(st: Store, fs: seq<Option<nat>>)
    ensures var st1 := FillFields(st, fs);
            && Fills(st, st1) && st1.modes == st.modes && st1.downwards == st.downwards
            && (forall r: nat :: Some(r) in fs ==> Some(st1.Field(r)) == FieldDefaulted(Some(st.Field(r))))
            && (forall r: nat :: Some(r) !in fs ==> st1.Field(r) == st.Field(r))
    decreases |fs|
  {
    if fs != [] {
      assert fs == [fs[0]] + fs[1..];
      var mid := FillField(st, fs[0]);
      FillFieldFills(st, fs[0]);
      FillFieldsEffect(mid, fs[1..]);
      FillsTransitive(st, mid, FillFields(st, fs));
    }
  }

  lemma FillModeFills(st: Store, m: Option<nat>)
    ensures Fills(st, FillMode(st, m))
    ensures ModeValue(FillMode(st, m), m) == CellDefaulted(ModeValue(st, m))
  {
  }

  lemma FilledItems(st: Store, st1: Store, items: seq<Item>)
    requires forall i :: 0 <= i < |items| ==>
      FieldValue(st1, items[i].fieldRef) == FieldDefaulted(FieldValue(st, items[i].fieldRef))
    ensures var before := ItemValues(st, items);
            ItemValues(st1, items)
            == seq(|before|, i requires 0 <= i < |before| => (before[i].0, FieldDefaulted(before[i].1)))
  {
  }

  lemma FillDownwardEffect(st: Store, d: Option<nat>)
    ensures Fills(st, FillDownward(st, d))
    ensures DownwardOf(FillDownward(st, d), d) == DownwardDefaulted(DownwardOf(st, d))
    ensures FillDownward(st, d).modes == st.modes
  {
    if d.Some? {
      var items := st.Downward(d.value).items;
      var st1 := if st.Downward(d.value).mode == None then
                   st.(downwards := st.downwards[d.value := st.Downward(d.value).(mode := Some(DEFAULT_MODE))])
                 else st;
      var st2 := FillDownward(st, d);
      var refs := ItemRefs(items);
      FillFieldsEffect(st1, refs);
      assert Fills(st, st1);
      FillsTransitive(st, st1, st2);
      forall i | 0 <= i < |items|
        ensures FieldValue(st2, items[i].fieldRef) == FieldDefaulted(FieldValue(st, items[i].fieldRef))
      {
        assert refs[i] == items[i].fieldRef;
      }
      FilledItems(st, st2, items);
    }
  }

  lemma DefaultedModeStable(a: Store, b: Store, m: Option<nat>)
    requires Fills(a, b)
    ensures CellDefaulted(ModeValue(b, m)) == CellDefaulted(ModeValue(a, m))
  {
  }

  lemma DefaultedFieldStable(a: Store, b: Store, f: Option<nat>)
    requires Fills(a, b)
    ensures FieldDefaulted(FieldValue(b, f)) == FieldDefaulted(FieldValue(a, f))
  {
  }

  /** What a volume will be worth once defaulted does not change while others are filled. */
  lemma DefaultedStable(a: Store, b: Store, v: VolumeSource)
    requires Fills(a, b)
    ensures Defaulted(SourceValue(b, v)) == Defaulted(SourceValue(a, v))
  {
    DefaultedModeStable(a, b, v.secret);
    DefaultedModeStable(a, b, v.configMap);
    if v.downward.Some? {
      var r := v.downward.value;
      var items := a.Downward(r).items;
      assert ModeFilled(a.Downward(r).mode, b.Downward(r).mode);
      forall i | 0 <= i < |items|
        ensures FieldDefaulted(FieldValue(b, items[i].fieldRef)) == FieldDefaulted(FieldValue(a, items[i].fieldRef))
      {
        DefaultedFieldStable(a, b, items[i].fieldRef);
      }
      assert DownwardDefaulted(DownwardOf(b, v.downward)).value.items
          == DownwardDefaulted(DownwardOf(a, v.downward)).value.items;
    }
  }

  lemma EnvDefaultedStable(a: Store, b: Store, env: seq<EnvVar>)
    requires Fills(a, b)
    ensures EnvDefaulted(EnvValue(b, env)) == EnvDefaulted(EnvValue(a, env))
  {
  }

  /** A value with nothing left to default stays what it is while others are filled. */
  lemma FullStable(a: Store, b: Store, v: VolumeSource)
    requires Fills(a, b) && Defaulted(SourceValue(a, v)) == SourceValue(a, v)
    ensures SourceValue(b, v) == SourceValue(a, v)
  {
    var x := SourceValue(a, v);
    if v.secret.Some? {
      assert x.secret.value.mode.Some?;
      assert ModeFilled(a.Mode(v.secret.value).mode, b.Mode(v.secret.value).mode);
    }
    if v.configMap.Some? {
      assert x.configMap.value.mode.Some?;
      assert ModeFilled(a.Mode(v.configMap.value).mode, b.Mode(v.configMap.value).mode);
    }
    if v.downward.Some? {
      var r := v.downward.value;
      var items := a.Downward(r).items;
      assert ModeFilled(a.Downward(r).mode, b.Downward(r).mode);
      assert x.downward.value.mode.Some?;
      var values := x.downward.value.items;
      forall i | 0 <= i < |items|
        ensures FieldValue(b, items[i].fieldRef) == FieldValue(a, items[i].fieldRef)
      {
        assert values[i] == (items[i].path, FieldValue(a, items[i].fieldRef));
        assert Defaulted(x).downward.value.items[i] == (values[i].0, FieldDefaulted(values[i].1));
        if items[i].fieldRef.Some? {
          assert FieldFilled(a.Field(items[i].fieldRef.value), b.Field(items[i].fieldRef.value));
        }
      }
      assert ItemValues(b, items) == ItemValues(a, items);
    }
  }

  lemma EnvFullStable(a: Store, b: Store, env: seq<EnvVar>)
    requires Fills(a, b) && EnvDefaulted(EnvValue(a, env)) == EnvValue(a, env)
    ensures EnvValue(b, env) == EnvValue(a, env)
  {
  }

  lemma DefaultedTwice(v: VolumeValue)
    ensures Defaulted(Defaulted(v)) == Defaulted(v)
  {
    if v.downward.Some? {
      assert DownwardDefaulted(DownwardDefaulted(v.downward)).value.items == DownwardDefaulted(v.downward).value.items;
    }
  }

  lemma EnvDefaultedTwice(env: seq<(string, string, Option<FieldCell>)>)
    ensures EnvDefaulted(EnvDefaulted(env)) == EnvDefaulted(env)
  {
  }

  lemma FillModesEffect(st: Store, s: Option<nat>, m: Option<nat>)
    ensures var st2 := FillMode(FillMode(st, s), m);
            && Fills(st, st2) && st2.downwards == st.downwards && st2.fields == st.fields
            && ModeValue(st2, s) == CellDefaulted(ModeValue(st, s))
            && ModeValue(st2, m) == CellDefaulted(ModeValue(st, m))
  {
    var st1 := FillMode(st, s);
    FillModeFills(st, s);
    FillModeFills(st1, m);
    FillsTransitive(st, st1, FillMode(st1, m));
  }

  lemma DownwardSame(a: Store, b: Store, d: Option<nat>)
    requires a.downwards == b.downwards && a.fields == b.fields
    ensures DownwardOf(a, d) == DownwardOf(b, d)
  {
    if d.Some? {
      assert ItemValues(a, a.Downward(d.value).items) == ItemValues(b, b.Downward(d.value).items);
    }
  }

  /** Filling a volume's own pointers makes its value the defaulted one. */
  lemma FillSourceEffect(st: Store, v: VolumeSource)
    ensures Fills(st, FillSource(st, v))
    ensures SourceValue(FillSource(st, v), v) == Defaulted(SourceValue(st, v))
  {
    var st2 := FillMode(FillMode(st, v.secret), v.configMap);
    FillModesEffect(st, v.secret, v.configMap);
    FillDownwardEffect(st2, v.downward);
    FillsTransitive(st, st2, FillSource(st, v));
    DownwardSame(st, st2, v.downward);
  }

  lemma FillEnvEffect(st: Store, env: seq<EnvVar>)
    ensures Fills(st, FillEnv(st, env))
    ensures EnvValue(FillEnv(st, env), env) == EnvDefaulted(EnvValue(st, env))
  {
    var refs := EnvRefs(env);
    FillFieldsEffect(st, refs);
    forall i | 0 <= i < |env|
      ensures FieldValue(FillEnv(st, env), env[i].fieldRef) == FieldDefaulted(FieldValue(st, env[i].fieldRef))
    {
      assert refs[i] == env[i].fieldRef;
    }
  }

  // ------------------------------------------------------------ nothing left to fill

  lemma {:induction false} FillFieldsIdle(st: Store, fs: seq<Option<nat>>)
    requires forall r: nat :: Some(r) in fs ==> st.Field(r).apiVersion != ""
    ensures FillFields(st, fs) == st
    decreases |fs|
  {
    if fs != [] {
      assert fs == [fs[0]] + fs[1..];
      FillFieldsIdle(st, fs[1..]);
    }
  }

  lemma FillEnvIdle(st: Store, env: seq<EnvVar>)
    requires EnvDefaulted(EnvValue(st, env)) == EnvValue(st, env)
    ensures FillEnv(st, env) == st
  {
    var refs := EnvRefs(env);
    forall r: nat | Some(r) in refs ensures st.Field(r).apiVersion != "" {
      var i :| 0 <= i < |refs| && refs[i] == Some(r);
      assert EnvDefaulted(EnvValue(st, env))[i].2 == FieldDefaulted(EnvValue(st, env)[i].2);
    }
    FillFieldsIdle(st, refs);
  }

  lemma FillSourceIdle(st: Store, v: VolumeSource)
    requires Defaulted(SourceValue(st, v)) == SourceValue(st, v)
    ensures FillSource(st, v) == st
  {
    var x := SourceValue(st, v);
    assert v.secret.Some? ==> x.secret.value.mode.Some?;
    assert v.configMap.Some? ==> x.configMap.value.mode.Some?;
    if v.downward.Some? {
      assert x.downward.value.mode.Some?;
      var items := st.Downward(v.downward.value).items;
      var refs := ItemRefs(items);
      forall r: nat | Some(r) in refs ensures st.Field(r).apiVersion != "" {
        var i :| 0 <= i < |refs| && refs[i] == Some(r);
        assert x.downward.value.items[i] == (items[i].path, FieldValue(st, items[i].fieldRef));
        assert Defaulted(x).downward.value.items[i].1 == FieldDefaulted(x.downward.value.items[i].1);
      }
      FillFieldsIdle(st, refs);
    }
  }
}
