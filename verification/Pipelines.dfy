/** Merging the user's pipeline entries into the default pipeline configuration. */
module Pipelines {
  import opened KeyedLists
  import opened Options

  datatype Entry = Entry(name: string, bundle: string, description: string)

  datatype UserEntry = UserEntry(name: string, bundle: string, description: string, removed: bool)

  datatype PipelineSpec = PipelineSpec(removeDefaults: bool, pipelines: seq<UserEntry>, defaultName: string)

  function EntryName(e: Entry): string {
    e.name
  }

  /** The first entry with the name. */
  function Lookup(list: seq<Entry>, name: string): Option<Entry> {
    Find(list, EntryName, name)
  }

  /** Replaces the first entry of that name, keeping its description unless the user gives one, or appends. */
  function Upsert(list: seq<Entry>, u: UserEntry): seq<Entry> {
    var i := IndexOf(list, EntryName, u.name);
    if i < |list| then
      list[i := Entry(u.name, u.bundle, if u.description == "" then list[i].description else u.description)]
    else list + [Entry(u.name, u.bundle, u.description)]
  }

  function Merge(base: seq<Entry>, users: seq<UserEntry>): seq<Entry>
    decreases |users|
  {
    if users == [] then base
    else
      var list := Merge(base, users[..|users| - 1]);
      var u := users[|users| - 1];
      if u.removed then Without(list, EntryName, u.name) else Upsert(list, u)
  }

  // ---------- Closed form ----------

  /** Entry i is the user's last word on the name. */
  predicate LastFor(users: seq<UserEntry>, name: string, i: int) {
    0 <= i < |users| && users[i].name == name && forall j :: i < j < |users| ==> users[j].name != name
  }

  /** Entry i holds the last description given for the name since its last removal. */
  predicate Describes(users: seq<UserEntry>, name: string, i: int) {
    && 0 <= i < |users| && users[i].name == name && !users[i].removed && users[i].description != ""
    && forall j :: i < j < |users| && users[j].name == name ==> !users[j].removed && users[j].description == ""
  }

  /** The position of the user's last word on the name, or -1. */
  function LastIndex(users: seq<UserEntry>, name: string): (i: int)
    ensures -1 <= i < |users|
    ensures i >= 0 ==> LastFor(users, name, i)
    ensures i < 0 ==> forall j :: 0 <= j < |users| ==> users[j].name != name
    decreases |users|
  {
    if users == [] then -1
    else if users[|users| - 1].name == name then |users| - 1
    else LastIndex(users[..|users| - 1], name)
  }

  /** The position of the last description since the last removal, or -1. */
  function DescriptionIndex(users: seq<UserEntry>, name: string): (i: int)
    ensures -1 <= i < |users|
    ensures i >= 0 ==> Describes(users, name, i)
    ensures i < 0 ==> forall j :: 0 <= j < |users| ==> !Describes(users, name, j)
    decreases |users|
  {
    if users == [] then -1
    else
      var n := |users| - 1;
      if users[n].name == name && users[n].removed then -1
      else if users[n].name == name && users[n].description != "" then n
      else
        assert forall j :: 0 <= j < n && Describes(users, name, j) ==> Describes(users[..n], name, j);
        DescriptionIndex(users[..n], name)
  }

  predicate Removed(users: seq<UserEntry>, name: string) {
    exists j :: 0 <= j < |users| && users[j].name == name && users[j].removed
  }

  /** The description a name starts from. */
  function Inherited(base: seq<Entry>, users: seq<UserEntry>, name: string): string {
    if Removed(users, name) || Lookup(base, name).None? then "" else Lookup(base, name).value.description
  }

  lemma LookupUpsert(list: seq<Entry>, u: UserEntry, name: string)
    ensures Lookup(Upsert(list, u), name)
            == if name != u.name then Lookup(list, name)
               else Some(Entry(u.name, u.bundle,
                               if u.description != "" then u.description
                               else if Lookup(list, name).Some? then Lookup(list, name).value.description else ""))
  {
    var i := IndexOf(list, EntryName, u.name);
    if i < |list| {
      var list' := Upsert(list, u);
      var j, k := IndexOf(list, EntryName, name), IndexOf(list', EntryName, name);
      assert forall m :: 0 <= m < |list| ==> list'[m].name == list[m].name;
      assert j == k;
    } else {
      FindAppend(list, EntryName, Entry(u.name, u.bundle, u.description), name);
    }
  }

  /**
   What a merged list is to say about a name: the last user entry decides
   presence and bundle; the last description since the last removal wins, and
   else the base's is inherited.
   */
  function Expected(base: seq<Entry>, users: seq<UserEntry>, name: string): Option<Entry> {
    var i, d := LastIndex(users, name), DescriptionIndex(users, name);
    if i < 0 then Lookup(base, name)
    else if users[i].removed then None
    else Some(Entry(name, users[i].bundle, if d >= 0 then users[d].description else Inherited(base, users, name)))
  }

  /** The merged list says that about every name, for any base list and any user list, with repeats. */
  lemma {:induction false} ClosedForm(base: seq<Entry>, users: seq<UserEntry>, name: string)
    ensures Lookup(Merge(base, users), name) == Expected(base, users, name)
    decreases |users|
  {
    if users != [] {
      var n := |users| - 1;
      ClosedForm(base, users[..n], name);
      LookupStep(Merge(base, users[..n]), users[n], name);
      ExpectedStep(base, users, name);
    }
  }

  lemma ExpectedStep(base: seq<Entry>, users: seq<UserEntry>, name: string)
    requires users != []
    ensures var u, before := users[|users| - 1], Expected(base, users[..|users| - 1], name);
            Expected(base, users, name)
            == if u.name != name then before
               else if u.removed then None
               else Some(Entry(name, u.bundle,
                               if u.description != "" then u.description
                               else if before.Some? then before.value.description else ""))
  {
    var n := |users| - 1;
    RemovedStep(users, name);
    if n > 0 {
      RemovedStep(users[..n], name);
    }
  }

  lemma LookupStep(list: seq<Entry>, u: UserEntry, name: string)
    ensures var r := Lookup(list, name);
            var r' := Lookup(if u.removed then Without(list, EntryName, u.name) else Upsert(list, u), name);
            && (name != u.name ==> r' == r)
            && (name == u.name && u.removed ==> r' == None)
            && (name == u.name && !u.removed ==>
                 r'.Some? && r'.value.name == name && r'.value.bundle == u.bundle
                 && r'.value.description
                    == if u.description != "" then u.description else if r.Some? then r.value.description else "")
  {
    FindWithout(list, EntryName, u.name, name);
    LookupUpsert(list, u, name);
  }

  lemma RemovedStep(users: seq<UserEntry>, name: string)
    requires users != []
    ensures var n := |users| - 1;
            Removed(users, name) <==> Removed(users[..n], name) || (users[n].name == name && users[n].removed)
    ensures var i := LastIndex(users, name);
            i >= 0 && users[i].removed ==> Removed(users, name)
  {
    var n := |users| - 1;
    if Removed(users[..n], name) {
      var j :| 0 <= j < n && users[..n][j].name == name && users[..n][j].removed;
      assert users[j].name == name && users[j].removed;
    }
  }

  /** Merging the same user entries into the result again changes no lookup. */
  lemma MergeIdempotent(base: seq<Entry>, users: seq<UserEntry>, name: string)
    ensures Lookup(Merge(Merge(base, users), users), name) == Lookup(Merge(base, users), name)
  {
    ClosedForm(base, users, name);
    ClosedForm(Merge(base, users), users, name);
  }

  // ---------- Uniqueness and order ----------

  /** A further entry appends a new name at the end, replaces a name where it stands, or drops every entry of it. */
  lemma MergeOneMore(base: seq<Entry>, users: seq<UserEntry>, u: UserEntry)
    ensures var before, after := Merge(base, users), Merge(base, users + [u]);
            && (u.removed ==> after == Without(before, EntryName, u.name))
            && (!u.removed && Lookup(before, u.name).None? ==>
                 after == before + [Entry(u.name, u.bundle, u.description)])
            && (!u.removed && Lookup(before, u.name).Some? ==>
                 && |after| == |before|
                 && exists i :: 0 <= i < |before| && before[i].name == u.name && after[i].name == u.name
                      && after[..i] == before[..i] && after[i + 1..] == before[i + 1..])
  {
    assert (users + [u])[..|users|] == users;
    var before := Merge(base, users);
    var i := IndexOf(before, EntryName, u.name);
    if !u.removed && i < |before| {
      var after := Merge(base, users + [u]);
      assert before[i].name == u.name && after[i].name == u.name;
      assert after[..i] == before[..i] && after[i + 1..] == before[i + 1..];
    }
  }

  /** Unique names stay unique, also when the user list repeats names. */
  lemma {:induction false} MergeKeepsUnique(base: seq<Entry>, users: seq<UserEntry>)
    requires UniqueKeys(base, EntryName)
    ensures UniqueKeys(Merge(base, users), EntryName)
    decreases |users|
  {
    if users != [] {
      var n := |users| - 1;
      MergeKeepsUnique(base, users[..n]);
      WithoutMembers(Merge(base, users[..n]), EntryName, users[n].name);
    }
  }

  /** The names of the list that lie in the set, in order. */
  function NamesIn(list: seq<Entry>, names: set<string>): seq<string>
    decreases |list|
  {
    if list == [] then []
    else
      var last := list[|list| - 1].name;
      NamesIn(list[..|list| - 1], names) + if last in names then [last] else []
  }

  lemma {:induction false} NamesInWithout(list: seq<Entry>, removed: string, names: set<string>)
    requires removed !in names
    ensures NamesIn(Without(list, EntryName, removed), names) == NamesIn(list, names)
    decreases |list|
  {
    if list != [] {
      var n := |list| - 1;
      NamesInWithout(list[..n], removed, names);
      var rest := Without(list[..n], EntryName, removed);
      assert (rest + [list[n]])[..|rest|] == rest;
      assert rest + [] == rest;
    }
  }

  lemma {:induction false} NamesInSame(a: seq<Entry>, b: seq<Entry>, names: set<string>)
    requires |a| == |b| && forall i :: 0 <= i < |a| ==> a[i].name == b[i].name
    ensures NamesIn(a, names) == NamesIn(b, names)
    decreases |a|
  {
    if a != [] {
      NamesInSame(a[..|a| - 1], b[..|b| - 1], names);
    }
  }

  /** Names of the base that no user entry removes keep their order and their number of occurrences. */
  lemma {:induction false} MergeKeepsOrder(base: seq<Entry>, users: seq<UserEntry>, names: set<string>)
    requires forall name :: name in names ==> Lookup(base, name).Some? && !Removed(users, name)
    ensures NamesIn(Merge(base, users), names) == NamesIn(base, names)
    decreases |users|
  {
    if users != [] {
      var n := |users| - 1;
      var earlier, u := users[..n], users[n];
      forall name | name in names
        ensures !Removed(earlier, name) && !(u.name == name && u.removed)
      {
        RemovedStep(users, name);
      }
      MergeKeepsOrder(base, earlier, names);
      var list := Merge(base, earlier);
      if u.removed {
        assert u.name !in names;
        NamesInWithout(list, u.name, names);
      } else if IndexOf(list, EntryName, u.name) < |list| {
        NamesInSame(Upsert(list, u), list, names);
      } else {
        assert Upsert(list, u)[..|list|] == list;
        if u.name in names {
          StaysPresent(base, earlier, u.name);
        }
      }
    }
  }

  lemma StaysPresent(base: seq<Entry>, users: seq<UserEntry>, name: string)
    requires Lookup(base, name).Some? && !Removed(users, name)
    ensures Lookup(Merge(base, users), name).Some?
  {
    ClosedForm(base, users, name);
    var i := LastIndex(users, name);
    assert i >= 0 ==> users[i].name == name && !users[i].removed;
  }

  // ---------- The merge as it is done ----------

  /** The entries of other names, in order. */
  method Filter(list: seq<Entry>, name: string) returns (filtered: seq<Entry>)
    ensures filtered == Without(list, EntryName, name)
  {
    filtered := [];
    for k := 0 to |list|
      invariant filtered == Without(list[..k], EntryName, name)
    {
      assert list[..k + 1][..k] == list[..k];
      if list[k].name != name {
        filtered := filtered + [list[k]];
      }
    }
    assert list[..|list|] == list;
  }

  /** Replaces the entry of that name in place, or appends one. */
  method UpsertEntry(list: seq<Entry>, p: UserEntry) returns (result: seq<Entry>)
    ensures result == Upsert(list, p)
  {
    result := list;
    for i := 0 to |list|
      invariant result == list
      invariant forall j :: 0 <= j < i ==> list[j].name != p.name
    {
      if list[i].name == p.name {
        assert i == IndexOf(list, EntryName, p.name);
        var desc := p.description;
        if desc == "" {
          desc := list[i].description;
        }
        result := result[i := Entry(p.name, p.bundle, desc)];
        return;
      }
    }
    result := result + [Entry(p.name, p.bundle, p.description)];
  }

  method MergePipelines(defaults: seq<Entry>, spec: PipelineSpec) returns (result: seq<Entry>)
    ensures result == Merge(if spec.removeDefaults then [] else defaults, spec.pipelines)
    ensures forall name: string :: Lookup(result, name)
              == Expected(if spec.removeDefaults then [] else defaults, spec.pipelines, name)
  {
    result := [];
    if !spec.removeDefaults {
      result := defaults;
    }
    ghost var kept := result;
    var users := spec.pipelines;
    for n := 0 to |users|
      invariant result == Merge(kept, users[..n])
    {
      assert users[..n + 1][..n] == users[..n];
      if users[n].removed {
        result := Filter(result, users[n].name);
      } else {
        result := UpsertEntry(result, users[n]);
      }
    }
    assert users[..|users|] == users;
    forall name: string
      ensures Lookup(result, name) == Expected(kept, users, name)
    {
      ClosedForm(kept, users, name);
    }
  }

  /** What the configuration map holds under its key. */
  datatype Stored = KeyMissing | Unreadable | Readable

  class PipelineConfig {
    const stored: Stored
    var defaultPipelineName: string
    var pipelines: seq<Entry>

    constructor (stored: Stored, defaultPipelineName: string, pipelines: seq<Entry>)
      ensures this.stored == stored && this.defaultPipelineName == defaultPipelineName && this.pipelines == pipelines
    {
      this.stored, this.defaultPipelineName, this.pipelines := stored, defaultPipelineName, pipelines;
    }

    /** Promotes the first pipeline when the default is not in the list. */
    method EnsureDefaultPipeline()
      modifies this`defaultPipelineName
      ensures defaultPipelineName == "" || pipelines == [] || Lookup(pipelines, defaultPipelineName).Some?
      ensures defaultPipelineName == old(defaultPipelineName) ||
              (pipelines != [] && Lookup(pipelines, old(defaultPipelineName)).None?
               && defaultPipelineName == pipelines[0].name)
    {
      if defaultPipelineName == "" || |pipelines| == 0 {
        return;
      }
      for i := 0 to |pipelines|
        invariant forall j :: 0 <= j < i ==> pipelines[j].name != defaultPipelineName
      {
        if pipelines[i].name == defaultPipelineName {
          return;
        }
      }
      defaultPipelineName := pipelines[0].name;
    }

    /**
     Merges the spec, if there is one, into the configuration. The
     configuration is left alone when it cannot be read or, at the end, not be
     written.
     */
    method ApplyMerge(spec: Option<PipelineSpec>, marshals: bool) returns (ok: bool)
      modifies this
      ensures ok <==> spec.None? || (stored.Readable? && marshals)
      ensures spec.None? || !ok ==> pipelines == old(pipelines) && defaultPipelineName == old(defaultPipelineName)
      ensures spec.Some? && ok ==>
                var wanted := if spec.value.defaultName != "" then spec.value.defaultName else old(defaultPipelineName);
                && pipelines == Merge(if spec.value.removeDefaults then [] else old(pipelines), spec.value.pipelines)
                && (defaultPipelineName == "" || pipelines == [] || Lookup(pipelines, defaultPipelineName).Some?)
                && (defaultPipelineName == wanted ||
                    (pipelines != [] && Lookup(pipelines, wanted).None? && defaultPipelineName == pipelines[0].name))
    {
      if spec.None? {
        return true;
      }
      if !stored.Readable? {
        return false;
      }
      var data := new PipelineConfig(stored, defaultPipelineName, pipelines);
      data.pipelines := MergePipelines(data.pipelines, spec.value);
      if spec.value.defaultName != "" {
        data.defaultPipelineName := spec.value.defaultName;
      }
      data.EnsureDefaultPipeline();
      if !marshals {
        return false;
      }
      defaultPipelineName, pipelines := data.defaultPipelineName, data.pipelines;
      return true;
    }
  }
}
