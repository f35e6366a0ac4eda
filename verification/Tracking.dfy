/**
 The tracking client: what a reconcile applied, and the concurrent cleanup of
 what it did not apply. Cleanup runs one task per listed kind; the tasks
 interleave freely and every API call of theirs may fail.
 */
module Tracking {
  import opened Options

  datatype Gvk = Gvk(group: string, version: string, kind: string)

  datatype ResourceKey = ResourceKey(gvk: Gvk, namespace: string, name: string)

  /** The metadata cleanup looks at: the owner label and the controller reference. */
  datatype Meta = Meta(labelled: bool, controller: Controller)

  /** Who holds the controller owner reference of an object (by name and UID). */
  datatype Controller = Nobody | Ours | Theirs

  type Objects = map<ResourceKey, Meta>

  /** What becomes of a write: it is done, it has no effect and fails, or it is done and reported as failed. */
  datatype WriteFault = Done | Lost | Unacknowledged

  const CRD_KIND := "CustomResourceDefinition"

  /** The API server admits one controller; a custom resource definition is applied without one. */
  predicate Refused(objects: Objects, key: ResourceKey) {
    key.gvk.kind != CRD_KIND && key in objects && objects[key].controller.Theirs?
  }

  function ControllerAfter(objects: Objects, key: ResourceKey): Controller {
    if key.gvk.kind != CRD_KIND then Ours
    else if key in objects then objects[key].controller
    else Nobody
  }

  /** Names of cluster-scoped objects that cleanup may delete, per kind; kinds not listed are unrestricted. */
  type AllowList = Option<map<Gvk, set<string>>>

  predicate IsAllowed(allow: AllowList, key: ResourceKey) {
    if key.namespace != "" then true
    else if allow.None? then true
    else if key.gvk !in allow.value then true
    else key.name in allow.value[key.gvk]
  }

  /** One call of CleanupOrphans. `owned` is false for a client made without an owner. */
  datatype Cleanup = Cleanup(gvks: seq<Gvk>, tracked: set<ResourceKey>, owned: bool, allow: AllowList)

  /** The checks made on a listed item before it is deleted. */
  predicate ShouldDelete(c: Cleanup, item: Item) {
    && item.key !in c.tracked
    && (c.owned ==> item.meta.controller.Ours?)
    && IsAllowed(c.allow, item.key)
  }

  datatype Item = Item(key: ResourceKey, meta: Meta)

  /** What the promise of cleanup calls an orphan. */
  predicate IsOrphan(c: Cleanup, key: ResourceKey, meta: Meta) {
    && key.gvk in c.gvks
    && meta.labelled
    && ShouldDelete(c, Item(key, meta))
  }

  function Orphans(c: Cleanup, objects: Objects): set<ResourceKey> {
    set k | k in objects && IsOrphan(c, k, objects[k])
  }

  /** A complete answer of the API server to listing the labelled objects of a kind, in any order. */
  ghost predicate IsListing(objects: Objects, gvk: Gvk, items: seq<Item>) {
    && (forall j :: 0 <= j < |items| ==>
         && items[j].key in objects && items[j].key.gvk == gvk
         && items[j].meta == objects[items[j].key] && items[j].meta.labelled)
    && (forall k :: k in objects && k.gvk == gvk && objects[k].labelled ==> Item(k, objects[k]) in items)
  }

  /** Handling one listed item; an item that is already gone is no error. */
  function HandleItem(c: Cleanup, objects: Objects, item: Item, fault: WriteFault): (Objects, bool) {
    if !ShouldDelete(c, item) then (objects, true)
    else
      match fault
      case Done => (objects - {item.key}, true)
      case Lost => (objects, false)
      case Unacknowledged => (objects - {item.key}, false)
  }

  datatype Task = Waiting | Deleting(rest: seq<Item>) | Finished | Failed

  datatype State = State(objects: Objects, tasks: seq<Task>)

  /** One API call of task i. */
  datatype Action =
    | List(i: nat, items: seq<Item>)
    | KindNotInstalled(i: nat)
    | ListFails(i: nat)
    | Handle(i: nat, fault: WriteFault)

  ghost predicate Enabled(c: Cleanup, s: State, a: Action) {
    && a.i < |s.tasks| == |c.gvks|
    && match a
       case List(i, items) => s.tasks[i].Waiting? && IsListing(s.objects, c.gvks[i], items)
       case KindNotInstalled(i) => s.tasks[i].Waiting? && forall k :: k in s.objects ==> k.gvk != c.gvks[i]
       case ListFails(i) => s.tasks[i].Waiting?
       case Handle(i, fault) => s.tasks[i].Deleting?
  }

  function Next(c: Cleanup, s: State, a: Action): State
    requires a.i < |s.tasks|
    requires a.Handle? ==> s.tasks[a.i].Deleting?
  {
    match a
    case List(i, items) => s.(tasks := s.tasks[i := Deleting(items)])
    case KindNotInstalled(i) => s.(tasks := s.tasks[i := Finished])
    case ListFails(i) => s.(tasks := s.tasks[i := Failed])
    case Handle(i, fault) =>
      var rest := s.tasks[i].rest;
      if rest == [] then s.(tasks := s.tasks[i := Finished])
      else
        var (objects, ok) := HandleItem(c, s.objects, rest[0], fault);
        State(objects, s.tasks[i := if ok then Deleting(rest[1..]) else Failed])
  }

  function Start(c: Cleanup, objects: Objects): State {
    State(objects, seq(|c.gvks|, _ => Waiting))
  }

  /** s is reached from the start by the given interleaving of calls. */
  ghost predicate Reaches(c: Cleanup, objects: Objects, actions: seq<Action>, s: State)
    decreases |actions|
  {
    if actions == [] then s == Start(c, objects)
    else
      var last := actions[|actions| - 1];
      exists before ::
        Reaches(c, objects, actions[..|actions| - 1], before) && Enabled(c, before, last) && s == Next(c, before, last)
  }

  predicate Succeeded(s: State) {
    forall i :: 0 <= i < |s.tasks| ==> s.tasks[i].Finished?
  }

  /** What every call of every task keeps. */
  ghost predicate Inv(c: Cleanup, initial: Objects, s: State) {
    && |s.tasks| == |c.gvks|
    && (forall k :: k in s.objects ==> k in initial && s.objects[k] == initial[k])
    && (forall k :: k in initial && k !in s.objects ==> IsOrphan(c, k, initial[k]))
    && (forall i :: 0 <= i < |s.tasks| ==> TaskInv(c, initial, s.objects, c.gvks[i], s.tasks[i]))
  }

  /** A task still holds every orphan of its kind that is left, and holds only what the cluster once had. */
  ghost predicate TaskInv(c: Cleanup, initial: Objects, objects: Objects, gvk: Gvk, task: Task) {
    match task
    case Waiting => true
    case Failed => true
    case Finished => forall k :: k in objects && k.gvk == gvk ==> !IsOrphan(c, k, objects[k])
    case Deleting(rest) =>
      && (forall k :: k in objects && k.gvk == gvk && IsOrphan(c, k, objects[k]) ==> Item(k, objects[k]) in rest)
      && (forall item :: item in rest ==>
           item.key in initial && item.meta == initial[item.key] && item.meta.labelled && item.key.gvk == gvk)
  }

  /** What others delete costs a task nothing. */
  lemma OtherTask(c: Cleanup, initial: Objects, objects: Objects, fewer: Objects, gvk: Gvk, task: Task)
    requires TaskInv(c, initial, objects, gvk, task)
    requires forall k :: k in fewer ==> k in objects && fewer[k] == objects[k]
    ensures TaskInv(c, initial, fewer, gvk, task)
  {
  }

  lemma OwnTask(c: Cleanup, initial: Objects, objects: Objects, gvk: Gvk, rest: seq<Item>, fault: WriteFault)
    requires rest != [] && TaskInv(c, initial, objects, gvk, Deleting(rest))
    ensures HandleItem(c, objects, rest[0], fault).1 ==>
              TaskInv(c, initial, HandleItem(c, objects, rest[0], fault).0, gvk, Deleting(rest[1..]))
  {
    assert rest[0] in rest;
    assert forall item :: item in rest ==> item == rest[0] || item in rest[1..];
  }

  lemma InvStep(c: Cleanup, initial: Objects, s: State, a: Action)
    requires Inv(c, initial, s) && Enabled(c, s, a)
    ensures Inv(c, initial, Next(c, s, a))
  {
    if a.Handle? {
      InvHandle(c, initial, s, a.i, a.fault);
    }
  }

  lemma InvHandle(c: Cleanup, initial: Objects, s: State, i: nat, fault: WriteFault)
    requires i < |s.tasks| && s.tasks[i].Deleting? && Inv(c, initial, s)
    ensures Inv(c, initial, Next(c, s, Handle(i, fault)))
  {
    var rest := s.tasks[i].rest;
    assert TaskInv(c, initial, s.objects, c.gvks[i], s.tasks[i]);
    if rest != [] {
      assert rest[0] in rest;
      var s' := Next(c, s, Handle(i, fault));
      OwnTask(c, initial, s.objects, c.gvks[i], rest, fault);
      forall j | 0 <= j < |s.tasks|
        ensures TaskInv(c, initial, s'.objects, c.gvks[j], s'.tasks[j])
      {
        OtherTask(c, initial, s.objects, s'.objects, c.gvks[j], s.tasks[j]);
      }
    }
  }

  lemma {:induction false} InvHolds(c: Cleanup, objects: Objects, actions: seq<Action>, s: State)
    requires Reaches(c, objects, actions, s)
    ensures Inv(c, objects, s)
    decreases |actions|
  {
    if actions != [] {
      var last := actions[|actions| - 1];
      var before :|
        Reaches(c, objects, actions[..|actions| - 1], before) && Enabled(c, before, last) && s == Next(c, before, last);
      InvHolds(c, objects, actions[..|actions| - 1], before);
      InvStep(c, objects, before, last);
    }
  }

  /**
   At every point of every interleaving, also after errors, only orphans are
   gone; so nothing tracked, unlabelled, foreign or not allowed is ever removed.
   */
  lemma OnlyOrphansRemoved(c: Cleanup, objects: Objects, actions: seq<Action>, s: State)
    requires Reaches(c, objects, actions, s)
    ensures forall k :: k in s.objects ==> k in objects && s.objects[k] == objects[k]
    ensures objects.Keys - s.objects.Keys <= Orphans(c, objects)
    ensures forall k :: k in objects && k in c.tracked ==> k in s.objects
    ensures c.allow.Some? ==>
              forall k :: k in objects && k.namespace == "" && k.gvk in c.allow.value && k !in s.objects ==>
                k.name in c.allow.value[k.gvk]
    ensures forall k :: k in objects && k !in s.objects ==>
              k.gvk in c.gvks && objects[k].labelled && (c.owned ==> objects[k].controller.Ours?)
  {
    InvHolds(c, objects, actions, s);
  }

  /** When every task succeeds, exactly the orphans are gone, whatever the interleaving and repeated kinds. */
  lemma CleanupExact(c: Cleanup, objects: Objects, actions: seq<Action>, s: State)
    requires Reaches(c, objects, actions, s) && Succeeded(s)
    ensures s.objects == objects - Orphans(c, objects)
    ensures forall k :: k in objects ==>
              (k !in s.objects <==>
                && k.gvk in c.gvks && k !in c.tracked
                && objects[k].labelled && (c.owned ==> objects[k].controller.Ours?)
                && (k.namespace != "" || c.allow.None? || k.gvk !in c.allow.value || k.name in c.allow.value[k.gvk]))
  {
    InvHolds(c, objects, actions, s);
    forall k | k in s.objects
      ensures !IsOrphan(c, k, s.objects[k])
    {
      if k.gvk in c.gvks {
        var i :| 0 <= i < |c.gvks| && c.gvks[i] == k.gvk;
        assert TaskInv(c, objects, s.objects, c.gvks[i], s.tasks[i]) && s.tasks[i].Finished?;
      }
    }
  }

  /** After a success, no interleaving of a second run with the same tracked set removes anything. */
  lemma CleanupIdempotent(c: Cleanup, objects: Objects, actions: seq<Action>, s: State, again: seq<Action>, s': State)
    requires Reaches(c, objects, actions, s) && Succeeded(s)
    requires Reaches(c, s.objects, again, s')
    ensures s'.objects == s.objects
  {
    CleanupExact(c, objects, actions, s);
    OnlyOrphansRemoved(c, s.objects, again, s');
    assert Orphans(c, s.objects) == {};
    assert s'.objects.Keys == s.objects.Keys - (s.objects.Keys - s'.objects.Keys);
  }

  lemma {:induction false} ListingExists(objects: Objects, gvk: Gvk, keys: set<ResourceKey>) returns (items: seq<Item>)
    requires keys <= objects.Keys
    ensures forall item :: item in items <==>
              item.key in keys && item.key.gvk == gvk && item.meta == objects[item.key] && item.meta.labelled
  {
    items := [];
    if keys != {} {
      var k :| k in keys;
      items := ListingExists(objects, gvk, keys - {k});
      if k.gvk == gvk && objects[k].labelled {
        items := items + [Item(k, objects[k])];
      }
    }
  }

  /** No interleaving is stuck: until all tasks are over, some call can be made that does not fail. */
  lemma CleanupProgress(c: Cleanup, objects: Objects, actions: seq<Action>, s: State)
    requires Reaches(c, objects, actions, s)
    requires exists i :: 0 <= i < |s.tasks| && (s.tasks[i].Waiting? || s.tasks[i].Deleting?)
    ensures exists a :: Enabled(c, s, a) && !Next(c, s, a).tasks[a.i].Failed?
  {
    InvHolds(c, objects, actions, s);
    var i :| 0 <= i < |s.tasks| && (s.tasks[i].Waiting? || s.tasks[i].Deleting?);
    var items := ListingExists(s.objects, c.gvks[i], s.objects.Keys);
    assert forall j :: 0 <= j < |items| ==> items[j] in items;
    var a := if s.tasks[i].Waiting? then List(i, items) else Handle(i, Done);
    assert Enabled(c, s, a) && !Next(c, s, a).tasks[a.i].Failed?;
  }

  /** The answer of the API server to one list call. */
  datatype Answer = Listed(items: seq<Item>) | NotInstalled | ListError

  /** The tracking client of one reconcile, with the objects of the cluster it talks to. */
  class Client {
    var objects: Objects
    var tracked: set<ResourceKey>
    const owned: bool

    constructor (objects: Objects, owned: bool)
      ensures this.objects == objects && tracked == {} && this.owned == owned
    {
      this.objects, tracked, this.owned := objects, {}, owned;
    }

    method Track(key: ResourceKey)
      modifies this`tracked
      ensures tracked == old(tracked) + {key}
    {
      tracked := tracked + {key};
    }

    /**
     Applies an object with the owner's label and, unless it is a custom
     resource definition, the owner's controller reference. It is tracked only
     when the apply is acknowledged.
     */
    method ApplyOwned(key: ResourceKey, fault: WriteFault) returns (ok: bool)
      modifies this
      ensures ok <==> owned && fault.Done? && !Refused(old(objects), key)
      ensures owned && !fault.Lost? && key.gvk.kind != "CustomResourceDefinition" ==>
                if key in old(objects) && old(objects)[key].controller.Theirs? then objects == old(objects)
                else objects == old(objects)[key := Meta(true, Ours)]
      ensures owned && !fault.Lost? && key.gvk.kind == "CustomResourceDefinition" ==>
                && (fault.Done? ==> ok)
                && key in objects && objects[key].labelled && (objects[key].controller.Ours? ==> key in old(objects))
                && (key in old(objects) ==> objects[key].controller == old(objects)[key].controller)
      ensures tracked == if ok then old(tracked) + {key} else old(tracked)
      ensures objects ==
              if !owned || fault.Lost? || Refused(old(objects), key) then old(objects)
              else old(objects)[key := Meta(true, ControllerAfter(old(objects), key))]
    {
      if !owned {
        return false;
      }
      if Refused(objects, key) {
        return false;
      }
      if !fault.Lost? {
        objects := objects[key := Meta(true, ControllerAfter(objects, key))];
      }
      if !fault.Done? {
        return false;
      }
      Track(key);
      return true;
    }

    /**
     The cleanup task of one kind. On success exactly the orphans of that kind
     are gone; on an error only some of them are.
     */
    method CleanupOrphansForGvk(gvk: Gvk, allow: AllowList, answer: Answer, faults: ResourceKey -> WriteFault)
      returns (ok: bool)
      requires answer.Listed? ==> IsListing(objects, gvk, answer.items)
      requires answer.NotInstalled? ==> forall k :: k in objects ==> k.gvk != gvk
      modifies this`objects
      ensures var c := Cleanup([gvk], tracked, owned, allow);
              && (ok ==> objects == old(objects) - Orphans(c, old(objects)))
              && (forall k :: k in objects ==> k in old(objects) && objects[k] == old(objects)[k])
              && old(objects).Keys - objects.Keys <= Orphans(c, old(objects))
      ensures forall k :: k in old(objects) && k !in objects ==>
                && k.gvk == gvk && k !in tracked
                && old(objects)[k].labelled && (owned ==> old(objects)[k].controller.Ours?)
                && (k.namespace != "" || allow.None? || k.gvk !in allow.value || k.name in allow.value[k.gvk])
      ensures ok ==> forall k :: k in objects ==>
                !(&& k.gvk == gvk && k !in tracked
                  && objects[k].labelled && (owned ==> objects[k].controller.Ours?)
                  && (k.namespace != "" || allow.None? || k.gvk !in allow.value || k.name in allow.value[k.gvk]))
      ensures var c := Cleanup([gvk], tracked, owned, allow);
              ok <==> !answer.ListError? && forall k :: k in Orphans(c, old(objects)) ==> faults(k).Done?
    {
      if answer.ListError? {
        return false;
      }
      if answer.NotInstalled? {
        assert objects - Orphans(Cleanup([gvk], tracked, owned, allow), objects) == objects;
        return true;
      }
      var c := Cleanup([gvk], tracked, owned, allow);
      var items := answer.items;
      ghost var gone := Orphans(c, objects);
      for n := 0 to |items|
        invariant forall k :: k in objects ==> k in old(objects) && objects[k] == old(objects)[k]
        invariant forall k :: k in old(objects) && k !in objects ==> k in gone
        invariant forall j :: 0 <= j < n && ShouldDelete(c, items[j]) ==>
                  items[j].key !in objects && faults(items[j].key).Done?
      {
        var item := items[n];
        if item.key !in tracked {
          if (!owned || item.meta.controller.Ours?) && IsAllowed(allow, item.key) {
            assert item.key in gone;
            var fault := faults(item.key);
            if !fault.Lost? {
              objects := objects - {item.key};
            }
            if !fault.Done? {
              return false;
            }
          }
        }
      }
      forall k | k in gone
        ensures k !in objects && faults(k).Done?
      {
        var j :| 0 <= j < |items| && items[j] == Item(k, old(objects)[k]);
      }
      return true;
    }
  }
}
