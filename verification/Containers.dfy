/** Customising containers: environment variables by name, arguments by flag. */
module Containers {
  import opened KeyedLists
  import opened Options

  /** An environment variable holds a literal value or a reference to take it from. */
  datatype EnvVar = EnvVar(name: string, value: string, valueFrom: Option<string>)

  function EnvName(e: EnvVar): string {
    e.name
  }

  function Literal(name: string, value: string): EnvVar {
    EnvVar(name, value, None)
  }

  /** The flag of an argument: what stands before the first '=', or all of it. */
  function ArgKey(arg: string): (key: string)
    ensures key <= arg && '=' !in key
    ensures key == arg || arg[|key|] == '='
  {
    if arg == "" || arg[0] == '=' then ""
    else
      var rest := ArgKey(arg[1..]);
      assert |rest| < |arg[1..]| ==> arg[|rest| + 1] == arg[1..][|rest|];
      assert arg == [arg[0]] + arg[1..];
      [arg[0]] + rest
  }

  /** The overlay's environment after a variable was set over any of the same name. */
  function Override(env: seq<EnvVar>, name: string, value: string): seq<EnvVar> {
    Without(env, EnvName, name) + [Literal(name, value)]
  }

  /** The same, but an empty value leaves the environment alone. */
  function OverrideOptional(env: seq<EnvVar>, name: string, value: string): seq<EnvVar> {
    if value == "" then env else Override(env, name, value)
  }

  lemma LastOverride(env: seq<EnvVar>, name: string, value: string, k: string)
    ensures Last(Override(env, name, value), EnvName, k)
            == if k == name then Some(Literal(name, value)) else Last(env, EnvName, k)
  {
    LastWithout(env, EnvName, name, k);
    var rest := Without(env, EnvName, name);
    assert Override(env, name, value)[..|rest|] == rest;
  }

  /**
   Merging an overlay's environment into a container's: each name has the
   overlay's last whole entry if there is one, else what the container had; the
   container's names keep their places, and unique names stay unique.
   */
  lemma EnvMerge(base: seq<EnvVar>, overlay: seq<EnvVar>, name: string)
    ensures Find(PutAll(base, EnvName, overlay), EnvName, name)
            == if Last(overlay, EnvName, name).Some? then Last(overlay, EnvName, name) else Find(base, EnvName, name)
    ensures |base| <= |PutAll(base, EnvName, overlay)|
    ensures forall i :: 0 <= i < |base| ==> PutAll(base, EnvName, overlay)[i].name == base[i].name
    ensures UniqueKeys(base, EnvName) ==> UniqueKeys(PutAll(base, EnvName, overlay), EnvName)
  {
    FindPutAll(base, EnvName, overlay, name);
    PutAllPositions(base, EnvName, overlay);
    forall i | 0 <= i < |base|
      ensures PutAll(base, EnvName, overlay)[i].name == base[i].name
    {
      assert EnvName(PutAll(base, EnvName, overlay)[i]) == EnvName(base[i]);
    }
    if UniqueKeys(base, EnvName) {
      PutAllKeepsUnique(base, EnvName, overlay);
    }
  }

  // ---------- Arguments ----------

  /**
   For every flag: it occurs as often as before, but at least once if it was
   replaced; its first occurrence is the last replacement given for it; every
   other position is untouched.
   */
  lemma ArgReplacement(args: seq<string>, replacements: seq<string>, flag: string)
    ensures var r := PutAll(args, ArgKey, replacements);
            && Count(r, ArgKey, flag)
               == (if Last(replacements, ArgKey, flag).Some? && Count(args, ArgKey, flag) == 0 then 1
                  else Count(args, ArgKey, flag))
            && Find(r, ArgKey, flag)
               == (if Last(replacements, ArgKey, flag).Some? then Last(replacements, ArgKey, flag)
                  else Find(args, ArgKey, flag))
            && |args| <= |r|
            && (forall i :: 0 <= i < |args| && r[i] != args[i] ==>
                 i == IndexOf(args, ArgKey, ArgKey(args[i])) && Last(replacements, ArgKey, ArgKey(args[i])).Some?)
  {
    CountPutAll(args, ArgKey, replacements, flag);
    FindPutAll(args, ArgKey, replacements, flag);
    PutAllPositions(args, ArgKey, replacements);
  }

  /** Replacing the same arguments again changes nothing. */
  lemma ArgReplacementIdempotent(args: seq<string>, replacements: seq<string>)
    ensures PutAll(PutAll(args, ArgKey, replacements), ArgKey, replacements) == PutAll(args, ArgKey, replacements)
  {
    PutAllIdempotent(args, ArgKey, replacements);
  }

  // ---------- What merging an overlay means ----------

  /**
   Each name has the overlay's last whole entry, else what was there; names
   keep their places, and unique ones stay so.
   */
  ghost predicate EnvMerged(before: seq<EnvVar>, overlay: seq<EnvVar>, after: seq<EnvVar>) {
    && |before| <= |after|
    && (forall i :: 0 <= i < |before| ==> after[i].name == before[i].name)
    && (forall name: string ::
          Find(after, EnvName, name)
          == if Last(overlay, EnvName, name).Some? then Last(overlay, EnvName, name) else Find(before, EnvName, name))
    && (UniqueKeys(before, EnvName) ==> UniqueKeys(after, EnvName))
  }

  /**
   The arguments before and those added keep their positions, but the first of
   a replaced flag is the last replacement given for it; a replaced flag that
   was missing is there once, and no other flag is added.
   */
  ghost predicate ArgsMerged(before: seq<string>, added: seq<string>, replacements: seq<string>, after: seq<string>) {
    var all := before + added;
    && |all| <= |after|
    && (forall i :: 0 <= i < |all| ==>
          after[i] == if Last(replacements, ArgKey, ArgKey(all[i])).Some? && i == IndexOf(all, ArgKey, ArgKey(all[i]))
                      then Last(replacements, ArgKey, ArgKey(all[i])).value else all[i])
    && (forall flag: string ::
          Find(after, ArgKey, flag)
          == if Last(replacements, ArgKey, flag).Some? then Last(replacements, ArgKey, flag)
             else Find(all, ArgKey, flag))
    && (forall flag: string ::
          Count(after, ArgKey, flag)
          == if Last(replacements, ArgKey, flag).Some? && Count(all, ArgKey, flag) == 0 then 1
             else Count(all, ArgKey, flag))
  }

  lemma EnvIsMerged(before: seq<EnvVar>, overlay: seq<EnvVar>)
    ensures EnvMerged(before, overlay, PutAll(before, EnvName, overlay))
  {
    forall name: string
      ensures Find(PutAll(before, EnvName, overlay), EnvName, name)
              == if Last(overlay, EnvName, name).Some? then Last(overlay, EnvName, name)
                 else Find(before, EnvName, name)
    {
      EnvMerge(before, overlay, name);
    }
    EnvMerge(before, overlay, "");
  }

  lemma ArgsAreMerged(before: seq<string>, added: seq<string>, replacements: seq<string>)
    ensures ArgsMerged(before, added, replacements, PutAll(before + added, ArgKey, replacements))
  {
    var all := before + added;
    var after := PutAll(all, ArgKey, replacements);
    PutAllPositions(all, ArgKey, replacements);
    forall flag: string
      ensures Find(after, ArgKey, flag)
              == if Last(replacements, ArgKey, flag).Some? then Last(replacements, ArgKey, flag)
                 else Find(all, ArgKey, flag)
      ensures Count(after, ArgKey, flag)
              == if Last(replacements, ArgKey, flag).Some? && Count(all, ArgKey, flag) == 0 then 1
                 else Count(all, ArgKey, flag)
    {
      ArgReplacement(all, replacements, flag);
    }
    forall i | 0 <= i < |all| && i == IndexOf(all, ArgKey, ArgKey(all[i]))
      ensures Find(after, ArgKey, ArgKey(all[i])) == Some(after[i])
    {
      FirstStays(all, after, i);
    }
  }

  lemma FirstStays(all: seq<string>, after: seq<string>, i: nat)
    requires i < |all| <= |after| && i == IndexOf(all, ArgKey, ArgKey(all[i]))
    requires forall j :: 0 <= j < |all| ==> ArgKey(after[j]) == ArgKey(all[j])
    ensures Find(after, ArgKey, ArgKey(all[i])) == Some(after[i])
  {
    assert IndexOf(after, ArgKey, ArgKey(all[i])) == i;
  }

  // ---------- The container as it is customised ----------

  /** The overlay of one container: arguments to append and variables to merge. */
  datatype Overlay = Overlay(args: seq<string>, env: seq<EnvVar>)

  function OverlaidArgs(
    args: seq<string>, name: string, overlays: map<string, Overlay>,
    replacements: map<string, seq<string>>): seq<string> {
    PutAll(
      if name in overlays then args + overlays[name].args else args, ArgKey,
      if name in replacements then replacements[name] else [])
  }

  function OverlaidEnv(env: seq<EnvVar>, name: string, overlays: map<string, Overlay>): seq<EnvVar> {
    if name in overlays then PutAll(env, EnvName, overlays[name].env) else env
  }

  lemma OverlaidSays(
    args: seq<string>, env: seq<EnvVar>, name: string, overlays: map<string, Overlay>,
    replacements: map<string, seq<string>>)
    ensures EnvMerged(env, if name in overlays then overlays[name].env else [], OverlaidEnv(env, name, overlays))
    ensures ArgsMerged(
              args, if name in overlays then overlays[name].args else [],
              if name in replacements then replacements[name] else [],
              OverlaidArgs(args, name, overlays, replacements))
  {
    EnvIsMerged(env, if name in overlays then overlays[name].env else []);
    var added := if name in overlays then overlays[name].args else [];
    ArgsAreMerged(args, added, if name in replacements then replacements[name] else []);
    assert args + [] == args;
  }

  /** What a user may say about a container; the resources are taken as a whole. */
  datatype ContainerSpec = ContainerSpec(resources: Option<string>, env: seq<EnvVar>)

  function UserEnv(spec: Option<ContainerSpec>): seq<EnvVar> {
    if spec.Some? then spec.value.env else []
  }

  function UserResources(spec: Option<ContainerSpec>): Option<string> {
    if spec.Some? then spec.value.resources else None
  }

  class Container {
    const name: string
    var resources: Option<string>
    var args: seq<string>
    var env: seq<EnvVar>

    constructor (name: string)
      ensures this.name == name && resources == None && args == [] && env == []
    {
      this.name, resources, args, env := name, None, [], [];
    }

    method FromContainerSpec(spec: Option<ContainerSpec>)
      modifies this`env, this`resources
      ensures env == old(env) + UserEnv(spec)
      ensures resources == if UserResources(spec).Some? then UserResources(spec) else old(resources)
      ensures spec.None? ==> env == old(env) && resources == old(resources)
      ensures spec.Some? ==> env == old(env) + spec.value.env
      ensures spec.Some? && spec.value.resources.Some? ==> resources == spec.value.resources
      ensures spec.Some? && spec.value.resources.None? ==> resources == old(resources)
    {
      if spec.None? {
        return;
      }
      if spec.value.resources.Some? {
        resources := spec.value.resources;
      }
      if |spec.value.env| > 0 {
        env := env + spec.value.env;
      }
    }

    method WithEnv(vars: seq<EnvVar>)
      modifies this`env
      ensures env == old(env) + vars
    {
      env := env + vars;
    }

    /** The operator's own variables, before the user's. */
    method SetPacDefaults(openShift: bool, webhookUrls: bool)
      modifies this`env
      ensures env == old(env) + PacDefaults(openShift, webhookUrls)
    {
      if !openShift {
        WithEnv([Literal("PAC_NAMESPACE", "tekton-pipelines")]);
      }
      if !webhookUrls && !openShift {
        WithEnv([
          Literal("PAC_WEBHOOK_URL", PAC_WEBHOOK_URL)]);
      }
    }

    method WithoutEnv(name: string)
      modifies this`env
      ensures env == Without(old(env), EnvName, name)
    {
      var filtered := [];
      for i := 0 to |env|
        invariant env == old(env)
        invariant filtered == Without(env[..i], EnvName, name)
      {
        assert env[..i + 1][..i] == env[..i];
        if env[i].name != name {
          filtered := filtered + [env[i]];
        }
      }
      assert env[..|env|] == env;
      env := filtered;
    }

    method WithEnvOverride(name: string, value: string)
      modifies this`env
      ensures env == Override(old(env), name, value)
    {
      WithoutEnv(name);
      env := env + [Literal(name, value)];
    }

    method WithOptionalEnvOverride(name: string, value: string)
      modifies this`env
      ensures env == OverrideOptional(old(env), name, value)
    {
      if value != "" {
        WithEnvOverride(name, value);
      }
    }

    /** The typed field, after the user's variables. */
    method SetInsecureSsl(insecureSsl: Option<bool>)
      modifies this`env
      ensures env == WithInsecureSsl(old(env), insecureSsl)
    {
      if insecureSsl.Some? {
        if insecureSsl.value {
          WithEnvOverride(INSECURE_SSL, "1");
        } else {
          WithoutEnv(INSECURE_SSL);
        }
      }
    }

    method MergeEnvByName(overlay: seq<EnvVar>)
      modifies this`env
      ensures env == PutAll(old(env), EnvName, overlay)
    {
      for n := 0 to |overlay|
        invariant env == PutAll(old(env), EnvName, overlay[..n])
      {
        assert overlay[..n + 1][..n] == overlay[..n];
        var before := env;
        var found := false;
        for j := 0 to |env|
          invariant !found && env == before
          invariant forall m :: 0 <= m < j ==> env[m].name != overlay[n].name
        {
          if env[j].name == overlay[n].name {
            assert j == IndexOf(before, EnvName, EnvName(overlay[n]));
            env := env[j := overlay[n]];
            found := true;
            break;
          }
        }
        if !found {
          env := env + [overlay[n]];
        }
        assert env == Put(before, EnvName, overlay[n]);
      }
      assert overlay[..|overlay|] == overlay;
    }

    method ReplaceArg(replacement: string)
      modifies this`args
      ensures args == Put(old(args), ArgKey, replacement)
    {
      var key := ArgKey(replacement);
      for j := 0 to |args|
        invariant args == old(args)
        invariant forall m :: 0 <= m < j ==> ArgKey(args[m]) != key
      {
        if ArgKey(args[j]) == key {
          assert j == IndexOf(args, ArgKey, key);
          args := args[j := replacement];
          return;
        }
      }
      args := args + [replacement];
    }

    method ReplaceArgs(replacements: seq<string>)
      modifies this`args
      ensures args == PutAll(old(args), ArgKey, replacements)
    {
      for n := 0 to |replacements|
        invariant args == PutAll(old(args), ArgKey, replacements[..n])
      {
        assert replacements[..n + 1][..n] == replacements[..n];
        ReplaceArg(replacements[n]);
      }
      assert replacements[..|replacements|] == replacements;
    }

    /** Merges the container's overlay, if there is one, and then its argument replacements. */
    method Overlay(overlays: map<string, Overlay>, replacements: map<string, seq<string>>)
      modifies this`args, this`env
      ensures args == OverlaidArgs(old(args), name, overlays, replacements)
      ensures env == OverlaidEnv(old(env), name, overlays)
    {
      if name in overlays {
        args := args + overlays[name].args;
        MergeEnvByName(overlays[name].env);
      }
      if name in replacements {
        ReplaceArgs(replacements[name]);
      }
    }
  }

  /**
   Merges overlays and argument replacements into a list of containers. The
   merge of all other fields may fail for a container; then the containers
   before it are done, and it and those after it keep their lists.
   */
  method MergeContainerList(
    containers: seq<Container>, overlays: map<string, Overlay>, replacements: map<string, seq<string>>,
    mergeFails: string -> bool)
    returns (done: nat)
    requires forall i, j :: 0 <= i < j < |containers| ==> containers[i] != containers[j]
    modifies containers
    ensures done <= |containers|
    ensures done < |containers| ==> containers[done].name in overlays && mergeFails(containers[done].name)
    ensures forall i :: 0 <= i < done ==> !(containers[i].name in overlays && mergeFails(containers[i].name))
    ensures forall i :: 0 <= i < done ==>
              && containers[i].args == OverlaidArgs(old(containers[i].args), containers[i].name, overlays, replacements)
              && containers[i].env == OverlaidEnv(old(containers[i].env), containers[i].name, overlays)
    ensures forall i :: done <= i < |containers| ==>
              containers[i].args == old(containers[i].args) && containers[i].env == old(containers[i].env)
    ensures forall i :: 0 <= i < done ==>
              EnvMerged(
                old(containers[i].env), if containers[i].name in overlays then overlays[containers[i].name].env else [],
                containers[i].env)
    ensures forall i :: 0 <= i < done ==>
              ArgsMerged(
                old(containers[i].args),
                if containers[i].name in overlays then overlays[containers[i].name].args else [],
                if containers[i].name in replacements then replacements[containers[i].name] else [], containers[i].args)
  {
    done := MergeOverlays(containers, overlays, replacements, mergeFails);
    forall i | 0 <= i < done
      ensures EnvMerged(
                old(containers[i].env), if containers[i].name in overlays then overlays[containers[i].name].env else [],
                containers[i].env)
      ensures ArgsMerged(
                old(containers[i].args),
                if containers[i].name in overlays then overlays[containers[i].name].args else [],
                if containers[i].name in replacements then replacements[containers[i].name] else [], containers[i].args)
    {
      OverlaidSays(old(containers[i].args), old(containers[i].env), containers[i].name, overlays, replacements);
    }
  }

  /** The loop over the containers. */
  method MergeOverlays(
    containers: seq<Container>, overlays: map<string, Overlay>, replacements: map<string, seq<string>>,
    mergeFails: string -> bool)
    returns (done: nat)
    requires forall i, j :: 0 <= i < j < |containers| ==> containers[i] != containers[j]
    modifies containers
    ensures done <= |containers|
    ensures done < |containers| ==> containers[done].name in overlays && mergeFails(containers[done].name)
    ensures forall i :: 0 <= i < done ==> !(containers[i].name in overlays && mergeFails(containers[i].name))
    ensures forall i :: 0 <= i < done ==>
              && containers[i].args == OverlaidArgs(old(containers[i].args), containers[i].name, overlays, replacements)
              && containers[i].env == OverlaidEnv(old(containers[i].env), containers[i].name, overlays)
    ensures forall i :: done <= i < |containers| ==>
              containers[i].args == old(containers[i].args) && containers[i].env == old(containers[i].env)
  {
    done := 0;
    while done < |containers|
      invariant done <= |containers|
      invariant forall i :: 0 <= i < done ==> !(containers[i].name in overlays && mergeFails(containers[i].name))
      invariant forall i :: 0 <= i < done ==>
                  && containers[i].args
                     == OverlaidArgs(old(containers[i].args), containers[i].name, overlays, replacements)
                  && containers[i].env == OverlaidEnv(old(containers[i].env), containers[i].name, overlays)
      invariant forall i :: done <= i < |containers| ==>
                  containers[i].args == old(containers[i].args) && containers[i].env == old(containers[i].env)
    {
      var base := containers[done];
      assert forall i :: 0 <= i < |containers| && i != done ==> containers[i] != base;
      if base.name in overlays && mergeFails(base.name) {
        return;
      }
      base.Overlay(overlays, replacements);
      done := done + 1;
    }
  }

  /** Merges one overlay and one list of replacements into the containers called manager. */
  method MergeManager(
    containers: seq<Container>, overlay: Overlay, replacements: seq<string>, mergeFails: string -> bool)
    returns (done: nat)
    requires forall i, j :: 0 <= i < j < |containers| ==> containers[i] != containers[j]
    modifies containers
    ensures done <= |containers|
    ensures done < |containers| ==> containers[done].name == "manager" && mergeFails("manager")
    ensures forall i :: 0 <= i < done && containers[i].name == "manager" ==>
              && EnvMerged(old(containers[i].env), overlay.env, containers[i].env)
              && ArgsMerged(old(containers[i].args), overlay.args, replacements, containers[i].args)
    ensures forall i :: 0 <= i < |containers| && (containers[i].name != "manager" || done <= i) ==>
              containers[i].env == old(containers[i].env) && containers[i].args == old(containers[i].args)
  {
    done := MergeContainerList(containers, map["manager" := overlay], map["manager" := replacements], mergeFails);
  }

  // ---------- The overlays of two operands ----------

  /** What is done to a pod beside the overlay of its container: replaced arguments and renamed config map volumes. */
  datatype PodOptions = PodOptions(argReplacements: seq<string>, configMapVolumes: map<string, string>)

  const LEADER_ELECT := "--leader-elect"
  const ZAP_ENCODER := "--zap-encoder"

  function Flag(name: string, value: string, wanted: bool): Option<string> {
    if wanted then Some(name + "=" + value) else None
  }

  function LeaderElection(replicas: int): Option<string> {
    Flag(LEADER_ELECT, "true", replicas > 1)
  }

  function LogEncoding(encoder: string): Option<string> {
    Flag(ZAP_ENCODER, encoder, encoder != "")
  }

  function Present(a: Option<string>, b: Option<string>): seq<string> {
    (if a.Some? then [a.value] else []) + (if b.Some? then [b.value] else [])
  }

  lemma {:induction false} KeyOfFlag(flag: string, value: string)
    requires '=' !in flag
    ensures ArgKey(flag + "=" + value) == flag
  {
    if flag != "" {
      KeyOfFlag(flag[1..], value);
      assert (flag + "=" + value)[1..] == flag[1..] + "=" + value;
      assert flag == [flag[0]] + flag[1..];
    }
  }

  lemma PresentArgs(args: seq<string>, a: Option<string>, b: Option<string>, flag: string)
    ensures Find(PutAll(args, ArgKey, Present(a, b)), ArgKey, flag)
            == if b.Some? && ArgKey(b.value) == flag then b
               else if a.Some? && ArgKey(a.value) == flag then a
               else Find(args, ArgKey, flag)
  {
    var first, second := if a.Some? then [a.value] else [], if b.Some? then [b.value] else [];
    LastConcat(first, second, ArgKey, flag);
    FindPutAll(args, ArgKey, Present(a, b), flag);
  }

  lemma FlagArgs(args: seq<string>, f: string, x: string, onF: bool, g: string, y: string, onG: bool, flag: string)
    requires '=' !in f && '=' !in g && f != g
    ensures Find(PutAll(args, ArgKey, Present(Flag(f, x, onF), Flag(g, y, onG))), ArgKey, flag)
            == if flag == f && onF then Flag(f, x, onF) else if flag == g && onG then Flag(g, y, onG)
               else Find(args, ArgKey, flag)
  {
    KeyOfFlag(f, x);
    KeyOfFlag(g, y);
    PresentArgs(args, Flag(f, x, onF), Flag(g, y, onG), flag);
  }

  lemma FlagTexts(encoder: string, replicas: int)
    ensures LeaderElection(replicas) == if replicas > 1 then Some("--leader-elect=true") else None
    ensures LogEncoding(encoder) == if encoder == "" then None else Some("--zap-encoder=" + encoder)
  {
    assert "--leader-elect" + "=" + "true" == "--leader-elect=true";
    assert "--zap-encoder" + "=" == "--zap-encoder=";
  }

  lemma FlagsApart()
    ensures '=' !in LEADER_ELECT && '=' !in ZAP_ENCODER && LEADER_ELECT != ZAP_ENCODER
  {
    assert LEADER_ELECT[2] == 'l' && ZAP_ENCODER[2] == 'z';
  }

  /** A flag that was asked for wins over the base's, however often that has it; every other flag is the base's. */
  lemma ManagerArgs(args: seq<string>, encoder: string, replicas: int, flag: string)
    ensures Find(PutAll(args, ArgKey, Present(LogEncoding(encoder), LeaderElection(replicas))), ArgKey, flag)
            == if flag == ZAP_ENCODER && encoder != "" then LogEncoding(encoder)
               else if flag == LEADER_ELECT && replicas > 1 then LeaderElection(replicas)
               else Find(args, ArgKey, flag)
  {
    FlagsApart();
    FlagArgs(args, ZAP_ENCODER, encoder, encoder != "", LEADER_ELECT, "true", replicas > 1, flag);
  }

  /** The URL without one trailing slash. */
  function TrimSlash(url: string): string {
    if url != "" && url[|url| - 1] == '/' then url[..|url| - 1] else url
  }

  function ConsoleTemplate(consoleUrl: string): string {
    if consoleUrl == "" then "" else TrimSlash(consoleUrl) + "/ns/{{ .Namespace }}/pipelinerun/{{ .PipelineRunName }}"
  }

  function TasklogTemplate(consoleUrl: string): string {
    if consoleUrl == "" then "" else ConsoleTemplate(consoleUrl) + "/logs/{{ .TaskName }}"
  }

  /** One trailing slash of the console's URL does not matter. */
  lemma ConsoleSays(url: string)
    requires url != "" && url[|url| - 1] != '/'
    ensures ConsoleTemplate(url) == url + "/ns/{{ .Namespace }}/pipelinerun/{{ .PipelineRunName }}"
    ensures ConsoleTemplate(url + "/") == ConsoleTemplate(url)
    ensures TasklogTemplate(url) == ConsoleTemplate(url) + "/logs/{{ .TaskName }}"
  {
    assert (url + "/")[..|url|] == url;
  }

  /** The integration service's typed fields. */
  datatype IntegrationFields = IntegrationFields(consoleUrl: string, pipeline: string, tasks: string, final: string)

  /** The value a typed field gives to the name: the console URLs always, the timeouts when set. */
  function TypedValue(f: IntegrationFields, name: string): Option<string> {
    if name == "CONSOLE_URL" then Some(ConsoleTemplate(f.consoleUrl))
    else if name == "CONSOLE_URL_TASKLOG" then Some(TasklogTemplate(f.consoleUrl))
    else if name == "PIPELINE_TIMEOUT" && f.pipeline != "" then Some(f.pipeline)
    else if name == "TASKS_TIMEOUT" && f.tasks != "" then Some(f.tasks)
    else if name == "FINALLY_TIMEOUT" && f.final != "" then Some(f.final)
    else None
  }

  function IntegrationUrls(user: seq<EnvVar>, f: IntegrationFields): seq<EnvVar> {
    var env := Override(user, "CONSOLE_URL", ConsoleTemplate(f.consoleUrl));
    Override(env, "CONSOLE_URL_TASKLOG", TasklogTemplate(f.consoleUrl))
  }

  function IntegrationTimeouts(env: seq<EnvVar>, f: IntegrationFields): seq<EnvVar> {
    OverrideOptional(
      OverrideOptional(OverrideOptional(env, "PIPELINE_TIMEOUT", f.pipeline), "TASKS_TIMEOUT", f.tasks),
      "FINALLY_TIMEOUT", f.final)
  }

  function IntegrationOverlayEnv(user: seq<EnvVar>, f: IntegrationFields): seq<EnvVar> {
    IntegrationTimeouts(IntegrationUrls(user, f), f)
  }

  /** A controller's deployment as the user specifies it. */
  datatype ManagerSpec = ManagerSpec(replicas: int, manager: Option<ContainerSpec>)

  function ManagerOf(spec: Option<ManagerSpec>): Option<ContainerSpec> {
    if spec.Some? then spec.value.manager else None
  }

  /** The integration controller's overlay: user entries first, typed fields over them. */
  method BuildIntegrationOverlay(spec: Option<ManagerSpec>, f: IntegrationFields)
    returns (c: Container, pod: PodOptions)
    ensures fresh(c) && c.name == "manager" && c.args == []
    ensures c.env == IntegrationOverlayEnv(UserEnv(ManagerOf(spec)), f) && c.resources == UserResources(ManagerOf(spec))
    ensures pod == PodOptions(Present(None, LeaderElection(if spec.Some? then spec.value.replicas else 1)), map[])
  {
    var replicas, managerSpec := 1, None;
    if spec.Some? {
      replicas, managerSpec := spec.value.replicas, spec.value.manager;
    }
    c := new Container("manager");
    c.FromContainerSpec(managerSpec);
    assert c.env == UserEnv(managerSpec);
    c.WithEnvOverride("CONSOLE_URL", ConsoleTemplate(f.consoleUrl));
    c.WithEnvOverride("CONSOLE_URL_TASKLOG", TasklogTemplate(f.consoleUrl));
    c.WithOptionalEnvOverride("PIPELINE_TIMEOUT", f.pipeline);
    c.WithOptionalEnvOverride("TASKS_TIMEOUT", f.tasks);
    c.WithOptionalEnvOverride("FINALLY_TIMEOUT", f.final);
    pod := PodOptions(Present(None, LeaderElection(replicas)), map[]);
  }

  lemma LastOverrideOptional(env: seq<EnvVar>, name: string, value: string, k: string)
    ensures Last(OverrideOptional(env, name, value), EnvName, k)
            == if k == name && value != "" then Some(Literal(name, value)) else Last(env, EnvName, k)
  {
    LastOverride(env, name, value, k);
  }

  lemma LastOfUrls(user: seq<EnvVar>, f: IntegrationFields, k: string)
    ensures Last(IntegrationUrls(user, f), EnvName, k)
            == if k == "CONSOLE_URL" || k == "CONSOLE_URL_TASKLOG" then Some(Literal(k, TypedValue(f, k).value))
               else Last(user, EnvName, k)
  {
    LastOverride(user, "CONSOLE_URL", ConsoleTemplate(f.consoleUrl), k);
    var env := Override(user, "CONSOLE_URL", ConsoleTemplate(f.consoleUrl));
    LastOverride(env, "CONSOLE_URL_TASKLOG", TasklogTemplate(f.consoleUrl), k);
  }

  lemma LastOfTimeouts(env: seq<EnvVar>, f: IntegrationFields, k: string)
    ensures Last(IntegrationTimeouts(env, f), EnvName, k)
            == if k != "CONSOLE_URL" && k != "CONSOLE_URL_TASKLOG" && TypedValue(f, k).Some? then
                 Some(Literal(k, TypedValue(f, k).value))
               else Last(env, EnvName, k)
  {
    var env1 := OverrideOptional(env, "PIPELINE_TIMEOUT", f.pipeline);
    var env2 := OverrideOptional(env1, "TASKS_TIMEOUT", f.tasks);
    LastOverrideOptional(env, "PIPELINE_TIMEOUT", f.pipeline, k);
    LastOverrideOptional(env1, "TASKS_TIMEOUT", f.tasks, k);
    LastOverrideOptional(env2, "FINALLY_TIMEOUT", f.final, k);
  }

  /** What a typed value, the user's last whole entry and the base give, in this order. */
  function Preferred(
    typed: Option<string>, user: seq<EnvVar>, base: seq<EnvVar>, name: string): Option<EnvVar> {
    if typed.Some? then Some(Literal(name, typed.value))
    else if Last(user, EnvName, name).Some? then Last(user, EnvName, name)
    else Find(base, EnvName, name)
  }

  /**
   The integration controller's environment, from the user's list to the merged
   container: each name has the typed value if the field gives one, else the
   user's last whole entry, else the base's; so a replaced variable never mixes
   a value with a reference.
   */
  lemma IntegrationEnvPrecedence(
    base: seq<EnvVar>, user: seq<EnvVar>, f: IntegrationFields, merged: seq<EnvVar>, name: string)
    requires EnvMerged(base, IntegrationOverlayEnv(user, f), merged)
    ensures Find(merged, EnvName, name)
            == if TypedValue(f, name).Some? then Some(Literal(name, TypedValue(f, name).value))
               else if Last(user, EnvName, name).Some? then Last(user, EnvName, name)
               else Find(base, EnvName, name)
  {
    LastOfUrls(user, f, name);
    LastOfTimeouts(IntegrationUrls(user, f), f, name);
  }

  /** Builds the integration controller's overlay and merges it into the containers of its pod. */
  method CustomizeIntegration(
    containers: seq<Container>, spec: Option<ManagerSpec>, f: IntegrationFields, mergeFails: string -> bool)
    returns (done: nat)
    requires forall i, j :: 0 <= i < j < |containers| ==> containers[i] != containers[j]
    modifies containers
    ensures done <= |containers|
    ensures done < |containers| ==> containers[done].name == "manager" && mergeFails("manager")
    ensures forall i :: 0 <= i < done && containers[i].name == "manager" ==>
              EnvMerged(old(containers[i].env), IntegrationOverlayEnv(UserEnv(ManagerOf(spec)), f), containers[i].env)
    ensures var user := if spec.Some? && spec.value.manager.Some? then spec.value.manager.value.env else [];
            forall i, name: string :: 0 <= i < done && containers[i].name == "manager" ==>
              Find(containers[i].env, EnvName, name)
              == Preferred(TypedValue(f, name), user, old(containers[i].env), name)
    ensures forall i :: 0 <= i < |containers| && containers[i].name != "manager" ==>
              containers[i].env == old(containers[i].env) && containers[i].args == old(containers[i].args)
  {
    var c, pod := BuildIntegrationOverlay(spec, f);
    done := MergeManager(containers, Overlay(c.args, c.env), pod.argReplacements, mergeFails);
    forall i, name: string | 0 <= i < done && containers[i].name == "manager"
      ensures Find(containers[i].env, EnvName, name)
              == Preferred(TypedValue(f, name), UserEnv(ManagerOf(spec)), old(containers[i].env), name)
    {
      IntegrationEnvPrecedence(old(containers[i].env), UserEnv(ManagerOf(spec)), f, containers[i].env, name);
    }
  }

  /** Where the webhook service answers outside OpenShift. */
  const PAC_WEBHOOK_URL := "http://pipelines-as-code-controller" + ".tekton-pipelines.svc.cluster.local" + ":8080"

  const INSECURE_SSL := "PAC_WEBHOOK_INSECURE_SSL"

  /** What the build service sets before the user's entries. */
  function PacDefaults(openShift: bool, webhookUrls: bool): seq<EnvVar> {
    (if openShift then [] else [Literal("PAC_NAMESPACE", "tekton-pipelines")])
    + (if openShift || webhookUrls then []
       else [Literal("PAC_WEBHOOK_URL", PAC_WEBHOOK_URL)])
  }

  function WithInsecureSsl(env: seq<EnvVar>, insecureSsl: Option<bool>): seq<EnvVar> {
    match insecureSsl
    case None => env
    case Some(true) => Override(env, INSECURE_SSL, "1")
    case Some(false) => Without(env, EnvName, INSECURE_SSL)
  }

  function BuildOverlayEnv(
    user: seq<EnvVar>, openShift: bool, webhookUrls: bool, insecureSsl: Option<bool>): seq<EnvVar> {
    WithInsecureSsl(PacDefaults(openShift, webhookUrls) + user, insecureSsl)
  }

  method BuildPodOptions(encoder: string, configMap: string, replicas: int) returns (pod: PodOptions)
    ensures pod.argReplacements == Present(LogEncoding(encoder), LeaderElection(replicas))
    ensures pod.configMapVolumes == if configMap != "" then map["webhook-config" := configMap] else map[]
  {
    var volumes := map[];
    if configMap != "" {
      volumes := volumes["webhook-config" := configMap];
    }
    var replacements := [];
    var encoding, election := LogEncoding(encoder), LeaderElection(replicas);
    if encoding.Some? {
      replacements := replacements + [encoding.value];
    }
    if election.Some? {
      replacements := replacements + [election.value];
    }
    assert replacements == Present(encoding, election);
    pod := PodOptions(replacements, volumes);
  }

  /** The build controller's overlay; a deployment that is not specified counts as one of no replicas. */
  method BuildBuildOverlay(
    spec: Option<ManagerSpec>, openShift: bool, webhookUrls: bool, insecureSsl: Option<bool>, encoder: string,
    configMap: string)
    returns (c: Container, pod: PodOptions)
    ensures fresh(c) && c.name == "manager" && c.args == []
    ensures c.env == BuildOverlayEnv(UserEnv(ManagerOf(spec)), openShift, webhookUrls, insecureSsl)
    ensures c.resources == UserResources(ManagerOf(spec))
    ensures pod.argReplacements
            == Present(LogEncoding(encoder), LeaderElection(if spec.Some? then spec.value.replicas else 0))
    ensures pod.configMapVolumes == if configMap != "" then map["webhook-config" := configMap] else map[]
  {
    pod := BuildPodOptions(encoder, configMap, if spec.Some? then spec.value.replicas else 0);
    c := new Container("manager");
    c.SetPacDefaults(openShift, webhookUrls);
    assert c.env == PacDefaults(openShift, webhookUrls);
    c.FromContainerSpec(ManagerOf(spec));
    c.SetInsecureSsl(insecureSsl);
  }

  /** The operator's own value of a name, outside OpenShift. */
  function DefaultValue(openShift: bool, webhookUrls: bool, name: string): Option<string> {
    if name == "PAC_NAMESPACE" && !openShift then Some("tekton-pipelines")
    else if name == "PAC_WEBHOOK_URL" && !openShift && !webhookUrls then
      Some(PAC_WEBHOOK_URL)
    else None
  }

  lemma DefaultsSay(openShift: bool, webhookUrls: bool, name: string)
    ensures Last(PacDefaults(openShift, webhookUrls), EnvName, name)
            == if DefaultValue(openShift, webhookUrls, name).Some? then
                 Some(Literal(name, DefaultValue(openShift, webhookUrls, name).value))
               else None
  {
    assert "PAC_NAMESPACE"[4] == 'N' && "PAC_WEBHOOK_URL"[4] == 'W';
  }

  /**
   The build controller's environment, up to the merged container: user entries
   beat the operator's defaults and the base; the typed field, when true, beats
   all; when false it drops the user's entry but the base's variable stays.
   */
  lemma BuildEnvPrecedence(
    base: seq<EnvVar>, user: seq<EnvVar>, openShift: bool, webhookUrls: bool, insecureSsl: Option<bool>,
    merged: seq<EnvVar>, name: string)
    requires EnvMerged(base, BuildOverlayEnv(user, openShift, webhookUrls, insecureSsl), merged)
    ensures Find(merged, EnvName, name)
            == if name == INSECURE_SSL && insecureSsl == Some(true) then Some(Literal(INSECURE_SSL, "1"))
               else if name == INSECURE_SSL && insecureSsl == Some(false) then Find(base, EnvName, name)
               else if Last(user, EnvName, name).Some? then Last(user, EnvName, name)
               else if DefaultValue(openShift, webhookUrls, name).Some? then
                 Some(Literal(name, DefaultValue(openShift, webhookUrls, name).value))
               else Find(base, EnvName, name)
  {
    DefaultsSay(openShift, webhookUrls, name);
    PrecedenceOver(base, PacDefaults(openShift, webhookUrls), user, insecureSsl, merged, name);
  }

  lemma PrecedenceOver(
    base: seq<EnvVar>, defaults: seq<EnvVar>, user: seq<EnvVar>, insecureSsl: Option<bool>,
    merged: seq<EnvVar>, name: string)
    requires EnvMerged(base, WithInsecureSsl(defaults + user, insecureSsl), merged)
    ensures Find(merged, EnvName, name)
            == if name == INSECURE_SSL && insecureSsl == Some(true) then Some(Literal(INSECURE_SSL, "1"))
               else if name == INSECURE_SSL && insecureSsl == Some(false) then Find(base, EnvName, name)
               else if Last(user, EnvName, name).Some? then Last(user, EnvName, name)
               else if Last(defaults, EnvName, name).Some? then Last(defaults, EnvName, name)
               else Find(base, EnvName, name)
  {
    LastConcat(defaults, user, EnvName, name);
    LastInsecureSsl(defaults + user, insecureSsl, name);
  }

  lemma LastInsecureSsl(env: seq<EnvVar>, insecureSsl: Option<bool>, name: string)
    ensures Last(WithInsecureSsl(env, insecureSsl), EnvName, name)
            == if name == INSECURE_SSL && insecureSsl.Some? then
                 (if insecureSsl.value then Some(Literal(INSECURE_SSL, "1")) else None)
               else Last(env, EnvName, name)
  {
    if insecureSsl == Some(true) {
      LastOverride(env, INSECURE_SSL, "1", name);
    } else if insecureSsl == Some(false) {
      LastWithout(env, EnvName, INSECURE_SSL, name);
    }
  }

  /** So the typed field, when false, leaves the variable unset exactly when the base does not have it. */
  lemma InsecureSslOff(base: seq<EnvVar>, user: seq<EnvVar>, openShift: bool, webhookUrls: bool, merged: seq<EnvVar>)
    requires EnvMerged(base, BuildOverlayEnv(user, openShift, webhookUrls, Some(false)), merged)
    ensures Find(merged, EnvName, INSECURE_SSL).None? <==> Find(base, EnvName, INSECURE_SSL).None?
  {
    BuildEnvPrecedence(base, user, openShift, webhookUrls, Some(false), merged, INSECURE_SSL);
  }

  /** Builds the build controller's overlay and merges it into the containers of its pod. */
  method CustomizeBuild(
    containers: seq<Container>, spec: Option<ManagerSpec>, openShift: bool, webhookUrls: bool,
    insecureSsl: Option<bool>, encoder: string, mergeFails: string -> bool)
    returns (done: nat)
    requires forall i, j :: 0 <= i < j < |containers| ==> containers[i] != containers[j]
    modifies containers
    ensures done <= |containers|
    ensures done < |containers| ==> containers[done].name == "manager" && mergeFails("manager")
    ensures var user := if spec.Some? && spec.value.manager.Some? then spec.value.manager.value.env else [];
            forall i :: 0 <= i < done && containers[i].name == "manager" ==>
              EnvMerged(
                old(containers[i].env), BuildOverlayEnv(user, openShift, webhookUrls, insecureSsl), containers[i].env)
    ensures var replicas := if spec.Some? then spec.value.replicas else 0;
            forall i :: 0 <= i < done && containers[i].name == "manager" ==>
              ArgsMerged(
                old(containers[i].args), [], Present(LogEncoding(encoder), LeaderElection(replicas)),
                containers[i].args)
    ensures forall i :: 0 <= i < |containers| && containers[i].name != "manager" ==>
              containers[i].env == old(containers[i].env) && containers[i].args == old(containers[i].args)
  {
    var c, pod := BuildBuildOverlay(spec, openShift, webhookUrls, insecureSsl, encoder, "");
    assert UserEnv(ManagerOf(spec))
           == if spec.Some? && spec.value.manager.Some? then spec.value.manager.value.env else [];
    done := MergeManager(containers, Overlay(c.args, c.env), pod.argReplacements, mergeFails);
  }

  /** The first argument of a flag: what was asked for, else the base's. */
  function ManagerArg(base: seq<string>, encoder: string, replicas: int, flag: string): Option<string> {
    if flag == ZAP_ENCODER && encoder != "" then LogEncoding(encoder)
    else if flag == LEADER_ELECT && replicas > 1 then LeaderElection(replicas)
    else Find(base, ArgKey, flag)
  }

  lemma MergedArgs(base: seq<string>, encoder: string, replicas: int, merged: seq<string>, flag: string)
    requires ArgsMerged(base, [], Present(LogEncoding(encoder), LeaderElection(replicas)), merged)
    ensures Find(merged, ArgKey, flag) == ManagerArg(base, encoder, replicas, flag)
  {
    assert base + [] == base;
    ManagerArgs(base, encoder, replicas, flag);
    FindPutAll(base, ArgKey, Present(LogEncoding(encoder), LeaderElection(replicas)), flag);
  }
}
