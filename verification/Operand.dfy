/**
 One reconcile of an operand with component metrics on and a token creator set:
 the deferred ServiceMonitor, the scrape wiring, then orphan cleanup. Together
 with what others do to the Secrets and the ServiceMonitor this makes runs.
 */
module Operand {
  import opened Options
  import opened Instants
  import opened ScrapeTokens
  import opened ServiceMonitors
  import opened MetricsTls
  import opened Tracking
  import opened Wiring

  const CLEANUP_GVKS := [
    SERVICE_MONITOR_GVK, SECRET_GVK, Gvk("", "v1", "ServiceAccount"),
    Gvk("rbac.authorization.k8s.io", "v1", "ClusterRole"),
    Gvk("rbac.authorization.k8s.io", "v1", "ClusterRoleBinding")]

  const ALLOW_LIST: AllowList := Some(map[
    Gvk("rbac.authorization.k8s.io", "v1", "ClusterRole") := {"build-service-metrics-reader"},
    Gvk("rbac.authorization.k8s.io", "v1", "ClusterRoleBinding") := {"prometheus-build-service-metrics-reader"}])

  /**
   What one reconcile meets: whether the steps before the scrape wiring
   succeed, the wiring's inputs, whether every cleanup task succeeds, whether
   cleanup got as far as deleting the ServiceMonitor in case it did not, and
   whether the status update succeeds.
   */
  datatype Inputs = Inputs(
    early: bool, t: Readings, mint: Mint, io: Io, cleanupOk: bool, cleanupReachedSm: bool, status: bool)

  /** The reconciler counts the ServiceMonitor as an orphan: untracked, labelled and its own. */
  predicate SmIsOrphan(w: World, tracked: set<ResourceKey>) {
    w.sm.Some? && w.sm.value.labelled && w.sm.value.controller.Ours? && SERVICE_MONITOR_KEY !in tracked
  }

  function Cleaned(w: World, tracked: set<ResourceKey>, ok: bool, reachedSm: bool): World {
    if SmIsOrphan(w, tracked) && (ok || reachedSm) then w.(sm := None) else w
  }

  function Reconciled(w: World, inp: Inputs): Outcome<int> {
    if !inp.early then Outcome(w, Err, {}, false)
    else
      var s := Scrape(AsOwner, w, inp.t, inp.mint, inp.io);
      if s.result.Err? then s
      else
        Outcome(
          Cleaned(s.world, s.tracked, inp.cleanupOk, inp.cleanupReachedSm),
          if inp.cleanupOk && inp.status then s.result else Err,
          s.tracked, s.patched)
  }

  // ---------- Cleanup of the operand's objects refines Cleaned ----------

  /**
   The cluster as cleanup sees it. The token Secret is taken to be labelled and
   controlled, so that only being tracked can save it; the TLS Secret belongs
   to cert-manager and is among the others.
   */
  function ObjectsOf(w: World, others: Objects): Objects {
    var withSm :=
      if w.sm.Some? then others[SERVICE_MONITOR_KEY := Meta(w.sm.value.labelled, w.sm.value.controller)]
      else others - {SERVICE_MONITOR_KEY};
    if w.token.Some? then withSm[TOKEN_KEY := Meta(true, Ours)] else withSm - {TOKEN_KEY}
  }

  /** The world that remains when cleanup has left the given objects. */
  function Remaining(w: World, objects: Objects): World {
    w.(sm := if SERVICE_MONITOR_KEY in objects then w.sm else None,
       token := if TOKEN_KEY in objects then w.token else None)
  }

  /**
   Every interleaving of the cleanup tasks, over any other objects, changes
   the wiring's world as Cleaned says; the tracked token Secret survives.
   */
  lemma CleanupRefinesCleaned(w: World, others: Objects, tracked: set<ResourceKey>, actions: seq<Action>, s: State)
    requires TOKEN_KEY in tracked
    requires Reaches(Cleanup(CLEANUP_GVKS, tracked, true, ALLOW_LIST), ObjectsOf(w, others), actions, s)
    ensures Remaining(w, s.objects) == Cleaned(w, tracked, Succeeded(s), SERVICE_MONITOR_KEY !in s.objects)
  {
    var c := Cleanup(CLEANUP_GVKS, tracked, true, ALLOW_LIST);
    var objects := ObjectsOf(w, others);
    assert TOKEN_KEY != SERVICE_MONITOR_KEY;
    assert SERVICE_MONITOR_KEY in objects <==> w.sm.Some?;
    assert TOKEN_KEY in objects <==> w.token.Some?;
    assert SERVICE_MONITOR_GVK == CLEANUP_GVKS[0];
    assert SERVICE_MONITOR_KEY in Orphans(c, objects) <==> SmIsOrphan(w, tracked);
    OnlyOrphansRemoved(c, objects, actions, s);
    if SERVICE_MONITOR_KEY in objects && SERVICE_MONITOR_KEY !in s.objects {
      assert SERVICE_MONITOR_KEY in objects.Keys - s.objects.Keys;
    }
    if Succeeded(s) {
      CleanupExact(c, objects, actions, s);
    }
  }

  /** A wiring that completes has applied the token Secret. */
  lemma CompletedTracksToken(w: World, t: Readings, mint: Mint, io: Io)
    ensures Scrape(AsOwner, w, t, mint, io).result.Ok? ==> TOKEN_KEY in Scrape(AsOwner, w, t, mint, io).tracked
  {
  }

  /**
   So a reconcile does to the world what its wiring and then any interleaving
   of the cleanup tasks do, whether or not they succeed. The one tracking
   client of the reconcile has tracked what was applied before the wiring and
   what the wiring applied.
   */
  lemma ReconciledIsCleanup(
    w: World, inp: Inputs, applied: set<ResourceKey>, others: Objects, actions: seq<Action>, s: State)
    requires inp.early && Scrape(AsOwner, w, inp.t, inp.mint, inp.io).result.Ok?
    requires SERVICE_MONITOR_KEY !in applied
    requires var wired := Scrape(AsOwner, w, inp.t, inp.mint, inp.io);
             var c := Cleanup(CLEANUP_GVKS, applied + wired.tracked, true, ALLOW_LIST);
             Reaches(c, ObjectsOf(wired.world, others), actions, s)
    requires inp.cleanupOk == Succeeded(s) && inp.cleanupReachedSm == (SERVICE_MONITOR_KEY !in s.objects)
    ensures Remaining(Scrape(AsOwner, w, inp.t, inp.mint, inp.io).world, s.objects) == Reconciled(w, inp).world
  {
    CompletedTracksToken(w, inp.t, inp.mint, inp.io);
    var wired := Scrape(AsOwner, w, inp.t, inp.mint, inp.io);
    CleanupRefinesCleaned(wired.world, others, applied + wired.tracked, actions, s);
  }

  // ---------- The reconcile, step by step ----------

  /** A manifest of the component, and whether it is the operand ServiceMonitor or another scrape resource. */
  datatype Manifest = Manifest(key: ResourceKey, serviceMonitor: bool, scrapeResource: bool, openShiftOnly: bool)

  /** Which manifests a reconcile passes over. */
  predicate Skipped(m: Manifest, metricsEnabled: bool, tokenCreator: bool, openShift: bool) {
    || (metricsEnabled && tokenCreator && m.serviceMonitor)
    || (!metricsEnabled && (m.serviceMonitor || m.scrapeResource))
    || (m.openShiftOnly && !openShift)
  }

  /**
   What an apply of manifests meets: the mode of the component, whether each
   manifest can be prepared (customised, merged, bound to its subjects), and
   how each apply ends.
   */
  datatype Setting = Setting(
    metricsEnabled: bool, tokenCreator: bool, openShift: bool, prepares: ResourceKey -> bool,
    faults: ResourceKey -> WriteFault)

  predicate Selected(m: Manifest, g: Setting) {
    !Skipped(m, g.metricsEnabled, g.tokenCreator, g.openShift)
  }

  function SelectedKeys(manifests: seq<Manifest>, g: Setting): set<ResourceKey> {
    set m | m in manifests && Selected(m, g) :: m.key
  }

  predicate CanApply(objects: Objects, owned: bool, m: Manifest, g: Setting) {
    g.prepares(m.key) && owned && g.faults(m.key).Done? && !Refused(objects, m.key)
  }

  predicate AllApply(objects: Objects, owned: bool, manifests: seq<Manifest>, g: Setting) {
    forall m :: m in manifests && Selected(m, g) ==> CanApply(objects, owned, m, g)
  }

  /** The component's ServiceMonitor is marked as one, so that it can be deferred. */
  predicate Marked(manifests: seq<Manifest>) {
    forall m :: m in manifests && m.key == SERVICE_MONITOR_KEY ==> m.serviceMonitor
  }

  /**
   Applies the manifests of the component in order. It succeeds exactly when
   each of those not passed over can be prepared and applied, and then exactly
   those are tracked besides what was, so a deferred ServiceMonitor is an
   orphan until the scrape wiring applies it.
   */
  method ApplyManifests(client: Client, manifests: seq<Manifest>, g: Setting) returns (ok: bool)
    modifies client
    ensures ok <==> AllApply(old(client.objects), client.owned, manifests, g)
    ensures ok ==> client.tracked == old(client.tracked) + SelectedKeys(manifests, g)
    ensures SelectedKeys(manifests, g)
            == set m | m in manifests
                       && (m.openShiftOnly ==> g.openShift)
                       && (if g.metricsEnabled then !(g.tokenCreator && m.serviceMonitor)
                           else !m.serviceMonitor && !m.scrapeResource) :: m.key
    ensures ok ==> client.owned || SelectedKeys(manifests, g) == {}
    ensures ok ==> forall k :: k in SelectedKeys(manifests, g) ==> g.prepares(k) && g.faults(k).Done?
    ensures client.tracked <= old(client.tracked) + SelectedKeys(manifests, g)
    ensures old(client.objects).Keys <= client.objects.Keys <= old(client.objects).Keys + SelectedKeys(manifests, g)
    ensures g.metricsEnabled && g.tokenCreator && Marked(manifests) ==>
            SERVICE_MONITOR_KEY !in SelectedKeys(manifests, g)
  {
    for n := 0 to |manifests|
      invariant client.tracked == old(client.tracked) + SelectedKeys(manifests[..n], g)
      invariant AllApply(old(client.objects), client.owned, manifests[..n], g)
      invariant old(client.objects).Keys <= client.objects.Keys <= old(client.objects).Keys + SelectedKeys(manifests, g)
      invariant forall k :: Refused(client.objects, k) <==> Refused(old(client.objects), k)
    {
      var m := manifests[n];
      assert m in manifests;
      assert manifests[..n + 1] == manifests[..n] + [m];
      assert forall j :: j in manifests[..n] ==> j in manifests;
      if g.metricsEnabled && g.tokenCreator && m.serviceMonitor {
        continue;
      }
      if !g.metricsEnabled && (m.serviceMonitor || m.scrapeResource) {
        continue;
      }
      if m.openShiftOnly && !g.openShift {
        continue;
      }
      assert Selected(m, g) && m.key in SelectedKeys(manifests, g);
      if !g.prepares(m.key) {
        return false;
      }
      var applied := client.ApplyOwned(m.key, g.faults(m.key));
      if !applied {
        return false;
      }
    }
    assert manifests[..|manifests|] == manifests;
    return true;
  }

  /**
   The reconcile of an operand namespace. The tracking client is new and has
   tracked at most what the steps before the manifests applied; its objects
   are the cluster beside the wiring's world.
   */
  method Reconcile(
    ns: OperandNamespace, client: Client, before: bool, manifests: seq<Manifest>, g: Setting, inp: Inputs)
    returns (r: Result<int>)
    requires ns.who.AsOwner? && g.metricsEnabled && g.tokenCreator && Marked(manifests)
    requires SERVICE_MONITOR_KEY !in client.tracked
    requires inp.early <==> before && AllApply(client.objects, client.owned, manifests, g)
    modifies ns, client
    ensures ns.View() == Reconciled(old(ns.View()), inp).world
    ensures r == Reconciled(old(ns.View()), inp).result
    ensures r.Ok? ==>
            ns.tracked == old(client.tracked) + SelectedKeys(manifests, g) + Reconciled(old(ns.View()), inp).tracked
  {
    if !before {
      return Err;
    }
    var applied := ApplyManifests(client, manifests, g);
    if !applied {
      return Err;
    }
    ns.tracked := client.tracked;
    r := ns.ReconcilePrometheusScrapeToken(inp.t, inp.mint, inp.io);
    if r.Err? {
      return Err;
    }
    if SmIsOrphan(ns.View(), ns.tracked) && (inp.cleanupOk || inp.cleanupReachedSm) {
      ns.sm := None;
    }
    if !inp.cleanupOk || !inp.status {
      return Err;
    }
  }

  // ---------- Runs ----------

  /** A reconcile, or a change that someone else makes. */
  datatype Event =
    | Reconcile(inp: Inputs)
    | WriteToken(token: Option<Token>, expiresAt: Stamp, adopted: bool)
    | DeleteToken
    | WriteTls(ca: string, leaf: string, verifies: bool)
    | TurnTls(verifies: bool)
    | DeleteTls
    | EditSmOwner(labelled: bool, controller: Controller)
    | EditSmAnnotations(annotations: Annotations)
    | DeleteSm

  /** Every write by others gets a fresh version; none of them creates the ServiceMonitor. */
  function Step(w: World, e: Event): World {
    match e
    case Reconcile(inp) => Reconciled(w, inp).world
    case WriteToken(token, expiresAt, adopted) =>
      w.(token := Some(TokenSecret(token, expiresAt, adopted, w.nextRV)), nextRV := w.nextRV + 1)
    case DeleteToken => w.(token := None)
    case WriteTls(ca, leaf, verifies) =>
      w.(tls := Some(TlsSecret(ca, leaf, verifies, w.nextRV)), nextRV := w.nextRV + 1)
    case TurnTls(verifies) => if w.tls.Some? then w.(tls := Some(w.tls.value.(verifies := verifies))) else w
    case DeleteTls => w.(tls := None)
    case EditSmOwner(labelled, controller) =>
      if w.sm.Some? then w.(sm := Some(w.sm.value.(labelled := labelled, controller := controller))) else w
    case EditSmAnnotations(annotations) =>
      if w.sm.Some? then w.(sm := Some(w.sm.value.(annotations := annotations))) else w
    case DeleteSm => w.(sm := None)
  }

  /** The world after the given events. */
  function Run(w: World, events: seq<Event>): World
    decreases |events|
  {
    if events == [] then w
    else Step(Run(w, events[..|events| - 1]), events[|events| - 1])
  }

  /** The versions in use were handed out before the next one. */
  predicate Fresh(w: World) {
    && (w.token.Some? ==> w.token.value.rv < w.nextRV)
    && (w.tls.Some? ==> w.tls.value.rv < w.nextRV)
  }

  /** After the token is ensured, a reconcile changes nothing but the ServiceMonitor. */
  lemma OnlyEnsureChangesSecrets(w: World, inp: Inputs)
    ensures var w' := Reconciled(w, inp).world;
            var e := if inp.early then EnsureToken(w, inp.t.ensure, 0, inp.mint, inp.io).world else w;
            w'.token == e.token && w'.tls == e.tls == w.tls && w'.nextRV == e.nextRV
  {
    ScrapeKeeps(AsOwner, w, inp.t, inp.mint, inp.io);
  }

  lemma FreshStep(w: World, e: Event)
    requires Fresh(w)
    ensures Fresh(Step(w, e))
  {
    if e.Reconcile? {
      OnlyEnsureChangesSecrets(w, e.inp);
      FreshEnsure(w, e.inp);
    }
  }

  lemma FreshEnsure(w: World, inp: Inputs)
    requires Fresh(w)
    ensures Fresh(EnsureToken(w, inp.t.ensure, 0, inp.mint, inp.io).world)
  {
  }

  lemma {:induction false} FreshRun(w: World, events: seq<Event>)
    requires Fresh(w)
    ensures Fresh(Run(w, events))
    decreases |events|
  {
    if events != [] {
      FreshRun(w, events[..|events| - 1]);
      FreshStep(Run(w, events[..|events| - 1]), events[|events| - 1]);
    }
  }
}
