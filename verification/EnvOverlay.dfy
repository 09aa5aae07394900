/** Overlaying one list of environment variables on another: by name, in place where the name
    is there, appended where it is not. */
module EnvOverlay {
  import opened Options

  datatype EnvVar = EnvVar(name: string, content: string)

  function Position(env: seq<EnvVar>, name: string): (r: int)
    ensures -1 <= r < |env|
    ensures r >= 0 ==> env[r].name == name
    ensures forall i :: 0 <= i < (if r == -1 then |env| else r) ==> env[i].name != name
  {
    if env == [] then -1
    else if env[0].name == name then 0
    else
      var r := Position(env[1..], name);
      if r == -1 then -1 else r + 1
  }

  /** One source variable: it takes the place of the first of its name, or goes to the end. */
  function Put(env: seq<EnvVar>, v: EnvVar): seq<EnvVar> {
    var i := Position(env, v.name);
    if i == -1 then env + [v] else env[i := v]
  }

  function Overlay(target: seq<EnvVar>, source: seq<EnvVar>): seq<EnvVar>
    decreases |source|
  {
    if source == [] then target else Overlay(Put(target, source[0]), source[1..])
  }

  predicate DistinctNames(env: seq<EnvVar>) {
    forall i, j :: 0 <= i < j < |env| ==> env[i].name != env[j].name
  }

  /** What a process started with this environment finds under a name. */
  function Lookup(env: seq<EnvVar>, name: string): Option<EnvVar> {
    if Position(env, name) == -1 then None else Some(env[Position(env, name)])
  }

  /** The last entry of a name. */
  function Last(env: seq<EnvVar>, name: string): Option<EnvVar> {
    if env == [] then None
    else if env[|env| - 1].name == name then Some(env[|env| - 1])
    else Last(env[..|env| - 1], name)
  }

  lemma {:induction false} PositionIs(env: seq<EnvVar>, name: string, i: nat)
    requires i < |env| && env[i].name == name && forall j :: 0 <= j < i ==> env[j].name != name
    ensures Position(env, name) == i
  {
  }

  lemma PutEffect(env: seq<EnvVar>, v: EnvVar)
    ensures var r := Put(env, v);
            && |env| <= |r|
            && (forall i :: 0 <= i < |env| ==> r[i].name == env[i].name)
            && (DistinctNames(env) ==> DistinctNames(r))
            && Lookup(r, v.name) == Some(v)
  {
    var r, i := Put(env, v), Position(env, v.name);
    PositionIs(r, v.name, if i == -1 then |env| else i);
  }

  lemma {:induction false} PositionNone(env: seq<EnvVar>, name: string)
    requires forall i :: 0 <= i < |env| ==> env[i].name != name
    ensures Position(env, name) == -1
  {
  }

  lemma PutKeepsOthers(env: seq<EnvVar>, v: EnvVar, name: string)
    requires name != v.name
    ensures Lookup(Put(env, v), name) == Lookup(env, name)
  {
    if Position(env, name) >= 0 {
      PositionIs(Put(env, v), name, Position(env, name));
    } else {
      PositionNone(Put(env, v), name);
    }
  }

  lemma {:induction false} LastHead(source: seq<EnvVar>, name: string)
    requires source != []
    ensures Last(source, name) == if Last(source[1..], name) != None then Last(source[1..], name)
                                  else if source[0].name == name then Some(source[0]) else None
    decreases |source|
  {
    var n := |source| - 1;
    if n > 0 {
      assert source[1..][..n - 1] == source[..n][1..] && source[1..][n - 1] == source[n];
      LastHead(source[..n], name);
    }
  }

  /** A name means what the source last says, or else what it meant before. */
  lemma {:induction false} OverlayOverrides(target: seq<EnvVar>, source: seq<EnvVar>, name: string)
    ensures Lookup(Overlay(target, source), name)
         == if Last(source, name) != None then Last(source, name) else Lookup(target, name)
    decreases |source|
  {
    if source != [] {
      OverlayOverrides(Put(target, source[0]), source[1..], name);
      LastHead(source, name);
      if name == source[0].name {
        PutEffect(target, source[0]);
      } else {
        PutKeepsOthers(target, source[0], name);
      }
    }
  }

  /** The target's names stay where they are; distinct names stay distinct. */
  lemma {:induction false} OverlayKeepsNames(target: seq<EnvVar>, source: seq<EnvVar>)
    ensures var r := Overlay(target, source);
            && |target| <= |r|
            && (forall i :: 0 <= i < |target| ==> r[i].name == target[i].name)
            && (DistinctNames(target) ==> DistinctNames(r))
    decreases |source|
  {
    if source != [] {
      PutEffect(target, source[0]);
      OverlayKeepsNames(Put(target, source[0]), source[1..]);
    }
  }

  /** No name is made up: each comes from the target or the source. */
  lemma {:induction false} OverlayAddsOnlySourceNames(target: seq<EnvVar>, source: seq<EnvVar>, name: string)
    ensures Position(Overlay(target, source), name) >= 0 <==> Position(target, name) >= 0 || Position(source, name) >= 0
    decreases |source|
  {
    OverlayOverrides(target, source, name);
    LastIff(source, name);
  }

  lemma {:induction false} LastIff(source: seq<EnvVar>, name: string)
    ensures Last(source, name) == None <==> Position(source, name) == -1
    ensures Last(source, name) != None ==> Last(source, name).value in source && Last(source, name).value.name == name
  {
    if source != [] {
      var init := source[..|source| - 1];
      LastIff(init, name);
      if Position(source, name) >= 0 && source[|source| - 1].name != name {
        assert init[Position(source, name)].name == name;
      }
    }
  }

  lemma PutInPlace(target: seq<EnvVar>, v: EnvVar)
    requires Position(target, v.name) >= 0
    ensures |Put(target, v)| == |target|
    ensures forall i :: 0 <= i < |target| ==>
      Put(target, v)[i] == if i == Position(target, v.name) then v else target[i]
    ensures forall n :: Position(target, n) >= 0 ==> Position(Put(target, v), n) == Position(target, n)
  {
  }

  /** With every source name there, only the first entry of each name is rewritten. */
  lemma {:induction false} OverlayInPlace(target: seq<EnvVar>, source: seq<EnvVar>, i: nat)
    requires i < |target| && forall k :: 0 <= k < |source| ==> Position(target, source[k].name) >= 0
    ensures var r, name := Overlay(target, source), target[i].name;
            && |r| == |target|
            && r[i] == if Position(target, name) == i && Last(source, name) != None
                       then Last(source, name).value else target[i]
    decreases |source|
  {
    if source != [] {
      var name := target[i].name;
      PutInPlace(target, source[0]);
      assert forall k :: 0 <= k < |source[1..]| ==> source[1..][k] == source[k + 1];
      OverlayInPlace(Put(target, source[0]), source[1..], i);
      LastHead(source, name);
      if Position(target, name) != -1 {
        assert Position(Put(target, source[0]), name) == Position(target, name);
      }
    }
  }

  /** Overlaying the same source again changes nothing, whatever names it repeats. */
  lemma OverlayTwice(target: seq<EnvVar>, source: seq<EnvVar>)
    ensures Overlay(Overlay(target, source), source) == Overlay(target, source)
  {
    var r := Overlay(target, source);
    if source != [] {
      SourceNamesAreThere(target, source, 0);
    }
    forall k | 0 <= k < |source| ensures Position(r, source[k].name) >= 0 {
      SourceNamesAreThere(target, source, k);
    }
    forall i | 0 <= i < |r| ensures |Overlay(r, source)| == |r| && Overlay(r, source)[i] == r[i] {
      OverlayInPlace(r, source, i);
      OverlayOverrides(target, source, r[i].name);
    }
  }

  lemma SourceNamesAreThere(target: seq<EnvVar>, source: seq<EnvVar>, k: nat)
    requires k < |source|
    ensures Position(Overlay(target, source), source[k].name) >= 0
  {
    OverlayAddsOnlySourceNames(target, source, source[k].name);
  }

  // -------------------------------------------------------------------- as it runs

  /** The new list is built on a copy; neither slice passed in is written to. */
  method ReplaceOrAppendEnvVar(target: array<EnvVar>, source: array<EnvVar>) returns (newEnv: seq<EnvVar>)
    ensures newEnv == Overlay(target[..], source[..])
  {
    newEnv := [];
    for i := 0 to target.Length
      invariant newEnv == target[..i]
    {
      newEnv := newEnv + [target[i]];
    }
    assert target[..target.Length] == target[..] && source[0..] == source[..];
    for k := 0 to source.Length
      invariant Overlay(newEnv, source[k..]) == Overlay(target[..], source[..])
    {
      var envVar := source[k];
      ghost var before := newEnv;
      assert source[k..][0] == envVar && source[k..][1..] == source[k + 1..];
      var found := false;
      for i := 0 to |newEnv|
        invariant newEnv == before && !found
        invariant forall j :: 0 <= j < i ==> newEnv[j].name != envVar.name
      {
        if newEnv[i].name == envVar.name {
          found := true;
          PositionIs(before, envVar.name, i);
          newEnv := newEnv[i := envVar];
          break;
        }
      }
      if !found {
        PositionNone(before, envVar.name);
        newEnv := newEnv + [envVar];
      }
    }
  }
}
