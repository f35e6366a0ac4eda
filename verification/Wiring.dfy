/**
 The metrics-scrape wiring of one operand namespace: ensure the scrape token,
 gate on the TLS Secret, apply or retain the ServiceMonitor, nudge it.

 `Scrape` and the functions it calls say what one reconcile does to the world,
 for every clock reading, token request and API failure; the methods of class
 `OperandNamespace` do it step by step.
 */
module Wiring {
  import opened Options
  import opened Instants
  import opened ScrapeTokens
  import opened ServiceMonitors
  import opened MetricsTls
  import opened Tracking

  const SERVICE_MONITOR_GVK := Gvk("monitoring.coreos.com", "v1", "ServiceMonitor")
  const SECRET_GVK := Gvk("", "v1", "Secret")
  const OPERAND_NAMESPACE := "build-service"
  const SERVICE_MONITOR_KEY := ResourceKey(SERVICE_MONITOR_GVK, OPERAND_NAMESPACE, "build-service")
  const TOKEN_KEY := ResourceKey(SECRET_GVK, OPERAND_NAMESPACE, "prometheus-scrape-token")

  /** The objects that survive between reconciles; `nextRV` is the version the next real change gets. */
  datatype World = World(
    token: Option<TokenSecret>, tls: Option<TlsSecret>, sm: Option<ServiceMonitor>, nextRV: Version)

  /** The readings of the clock in one reconcile, in the order they are taken. */
  datatype Readings = Readings(ensure: int, plan: int, at: int, mark: int)

  /** The answer to a token request: an error, or a token (None when empty) and its expiry. */
  datatype Mint = MintFails | Mints(token: Option<Token>, expiry: int)

  /** How the API calls of one reconcile end; false and Lost are errors. */
  datatype Io = Io(
    getToken: bool, applyToken: WriteFault, getTls: bool, probeRetain: bool,
    probe: bool, applySm: WriteFault, getSm: bool, patchSm: WriteFault)

  /** The part of the ensured token that the later steps use. */
  datatype Ensured = Ensured(requeueAfter: int, tokenUpdated: bool, secretExisted: bool, rv: nat)

  /** A step's effect: the world, the objects it tracked, and whether it patched the annotations. */
  datatype Outcome<+T> = Outcome(world: World, result: Result<T>, tracked: set<ResourceKey>, patched: bool)

  function EffectiveTtl(ttl: int): int {
    if ttl <= 0 then DEFAULT_TTL else ttl
  }

  /** Server-side apply of a Secret: a version is used up only by a real change. */
  function StoreToken(w: World, token: Option<Token>, expiresAt: Stamp): World {
    if w.token.Some? && w.token.value == TokenSecret(token, expiresAt, true, w.token.value.rv) then w
    else w.(token := Some(TokenSecret(token, expiresAt, true, w.nextRV)), nextRV := w.nextRV + 1)
  }

  function EnsureToken(w: World, now: int, ttl: int, mint: Mint, io: Io): Outcome<Ensured> {
    if !io.getToken then Outcome(w, Err, {}, false)
    else if !NeedsRefresh(w.token, now, EffectiveTtl(ttl)) then
      var existing := w.token.value;
      var stored := if io.applyToken.Lost? then w else StoreToken(w, existing.token, existing.expiresAt);
      if io.applyToken.Done? then
        var delay := RequeueAfter(existing, now, EffectiveTtl(ttl));
        Outcome(stored, Ok(Ensured(delay, false, true, existing.rv)), {TOKEN_KEY}, false)
      else Outcome(stored, Err, {}, false)
    else if mint.MintFails? then Outcome(w, Err, {}, false)
    else
      var stored := if io.applyToken.Lost? then w else StoreToken(w, mint.token, Format(mint.expiry));
      if !io.applyToken.Done? then Outcome(stored, Err, {}, false)
      else if mint.token.None? then Outcome(stored, Err, {TOKEN_KEY}, false)
      else
        var delay := RequeueAfter(stored.token.value, now, EffectiveTtl(ttl));
        Outcome(stored, Ok(Ensured(delay, true, w.token.Some?, stored.token.value.rv)), {TOKEN_KEY}, false)
  }

  /**
   Who wires: an operand's reconciler, which applies as the owner, or the
   operator's own rotator, which owns nothing and passes over a cluster where
   the kind ServiceMonitor is not installed. The rotator's tracked set is not
   used by anyone.
   */
  datatype Writer = AsOwner | AsRotator(installed: bool)

  /**
   Applying the ServiceMonitor. The API server admits one controller only; the
   rotator creates the object or merges labels and spec into it.
   */
  function ApplySm(who: Writer, w: World, fault: WriteFault): Outcome<()> {
    if fault.Lost? || (who.AsOwner? && w.sm.Some? && w.sm.value.controller.Theirs?) then Outcome(w, Err, {}, false)
    else
      var applied :=
        match who
        case AsOwner => Some(ServiceMonitor(true, Ours, if w.sm.Some? then w.sm.value.annotations else NO_ANNOTATIONS))
        case AsRotator(installed) =>
          if w.sm.Some? then Some(w.sm.value.(labelled := false))
          else if installed then Some(ServiceMonitor(false, Nobody, NO_ANNOTATIONS))
          else None;
      if fault.Done? then Outcome(w.(sm := applied), Ok(()), {SERVICE_MONITOR_KEY}, false)
      else Outcome(w.(sm := applied), Err, {}, false)
  }

  function Retain(who: Writer, w: World, io: Io): Outcome<()> {
    if !io.probeRetain then Outcome(w, Err, {}, false)
    else if w.sm.None? then Outcome(w, Ok(()), {}, false)
    else ApplySm(who, w, io.applySm)
  }

  /** The nudge to make, and how long to wait for the settle deadline; `prior` is None when the probe saw nothing. */
  function Plan(now: int, token: Ensured, tls: TlsResult, prior: Option<Annotations>): (ResyncOptions, int) {
    var storedSecretRV := if prior.Some? then prior.value.secretRV else 0;
    var storedCaRV := if prior.Some? then prior.value.caRV else 0;
    if token.tokenUpdated then
      var reason := if token.secretExisted then TOKEN_REFRESHED else TOKEN_MINTED;
      (ResyncOptions(true, reason, token.rv, tls.caRV, true, false), 0)
    else if prior.Some? && SettlePending(prior.value) then
      var wait := SettleRemaining(prior.value, now);
      if wait > 0 then (NO_RESYNC, wait)
      else (ResyncOptions(true, SETTLE_RETRY, token.rv, tls.caRV, false, true), 0)
    else if token.rv != 0 && token.rv != storedSecretRV then
      (ResyncOptions(true, SECRET_SYNC, token.rv, tls.caRV, false, false), 0)
    else if tls.caRV != 0 && tls.caRV != storedCaRV then
      (ResyncOptions(true, CA_SYNC, token.rv, tls.caRV, false, false), 0)
    else (NO_RESYNC, 0)
  }

  function ResyncSm(w: World, opts: ResyncOptions, t: Readings, io: Io): Outcome<()> {
    if !io.getSm then Outcome(w, Err, {}, false)
    else if w.sm.None? || ResyncSkipped(w.sm.value.annotations, opts) then Outcome(w, Ok(()), {}, false)
    else if io.patchSm.Lost? then Outcome(w, Err, {}, false)
    else
      var before := w.sm.value.annotations;
      var patch := MergePatch(before, Nudge(before, opts, t.at, t.mark), before);
      Outcome(w.(sm := Some(w.sm.value.(annotations := patch))), if io.patchSm.Done? then Ok(()) else Err, {}, true)
  }

  /** The steps after the TLS gate is passed. */
  function ApplyAndNudge(who: Writer, w: World, token: Ensured, tls: TlsResult, t: Readings, io: Io): Outcome<int> {
    var prior := if io.probe && w.sm.Some? then Some(w.sm.value.annotations) else None;
    var a := ApplySm(who, w, io.applySm);
    if a.result.Err? then Outcome(a.world, Err, {}, false)
    else
      var (opts, settleWait) := Plan(t.plan, token, tls, prior);
      var r :=
        if opts.force || opts.markSettle then ResyncSm(a.world, opts, t, io)
        else Outcome(a.world, Ok(()), {}, false);
      var delay :=
        if token.tokenUpdated then SETTLE_DELAY
        else if settleWait > 0 then settleWait
        else token.requeueAfter;
      Outcome(r.world, if r.result.Ok? then Ok(delay) else Err, a.tracked, r.patched)
  }

  /** One whole reconcile of the scrape wiring; the result is the delay until the next one. */
  function Scrape(who: Writer, w: World, t: Readings, mint: Mint, io: Io): Outcome<int> {
    var e := EnsureToken(w, t.ensure, 0, mint, io);
    if e.result.Err? || !io.getTls then Outcome(e.world, Err, e.tracked, false)
    else
      var tls := EvaluateMetricsScrapeTls(e.world.tls);
      if tls.ready then
        var a := ApplyAndNudge(who, e.world, e.result.value, tls, t, io);
        a.(tracked := e.tracked + a.tracked)
      else if tls.reason.CertMissing? then Outcome(e.world, Ok(TLS_REQUEUE), e.tracked, false)
      else
        var r := Retain(who, e.world, io);
        Outcome(r.world, if r.result.Ok? then Ok(TLS_REQUEUE) else Err, e.tracked + r.tracked, false)
  }

  // ---------- What each step leaves alone ----------

  /** Ensuring the token touches only the token and the next version. */
  lemma EnsureKeeps(w: World, now: int, ttl: int, mint: Mint, io: Io)
    ensures var w' := EnsureToken(w, now, ttl, mint, io).world;
            w'.tls == w.tls && w'.sm == w.sm
  {
  }

  /** The other steps touch only the ServiceMonitor. */
  lemma RetainKeeps(who: Writer, w: World, io: Io)
    ensures Retain(who, w, io).world == w.(sm := Retain(who, w, io).world.sm)
  {
  }

  lemma ResyncKeeps(w: World, opts: ResyncOptions, t: Readings, io: Io)
    ensures ResyncSm(w, opts, t, io).world == w.(sm := ResyncSm(w, opts, t, io).world.sm)
  {
  }

  lemma ApplyAndNudgeKeeps(who: Writer, w: World, token: Ensured, tls: TlsResult, t: Readings, io: Io)
    ensures var w' := ApplyAndNudge(who, w, token, tls, t, io).world;
            w' == w.(sm := w'.sm)
  {
    var applied := ApplySm(who, w, io.applySm).world;
    var prior := if io.probe && w.sm.Some? then Some(w.sm.value.annotations) else None;
    ResyncKeeps(applied, Plan(t.plan, token, tls, prior).0, t, io);
  }

  lemma ScrapeKeeps(who: Writer, w: World, t: Readings, mint: Mint, io: Io)
    ensures var w', e := Scrape(who, w, t, mint, io).world, EnsureToken(w, t.ensure, 0, mint, io).world;
            w' == e.(sm := w'.sm) && e.tls == w.tls && e.sm == w.sm
  {
    var e := EnsureToken(w, t.ensure, 0, mint, io);
    EnsureKeeps(w, t.ensure, 0, mint, io);
    if e.result.Ok? && io.getTls {
      ApplyAndNudgeKeeps(who, e.world, e.result.value, EvaluateMetricsScrapeTls(e.world.tls), t, io);
      RetainKeeps(who, e.world, io);
    }
  }

  /** A namespace as its reconciler changes it, with the tracked set of the current reconcile. */
  class OperandNamespace {
    const who: Writer
    var token: Option<TokenSecret>
    var tls: Option<TlsSecret>
    var sm: Option<ServiceMonitor>
    var nextRV: Version
    var tracked: set<ResourceKey>

    constructor (who: Writer, w: World)
      ensures this.who == who && View() == w && tracked == {}
    {
      this.who := who;
      token, tls, sm, nextRV, tracked := w.token, w.tls, w.sm, w.nextRV, {};
    }

    function View(): World
      reads this
    {
      World(token, tls, sm, nextRV)
    }

    /** Writes the token Secret through the tracking client. */
    method ApplyTokenSecret(data: Option<Token>, expiresAt: Stamp, fault: WriteFault) returns (ok: bool)
      modifies this
      ensures View() == if fault.Lost? then old(View()) else StoreToken(old(View()), data, expiresAt)
      ensures ok <==> fault.Done?
      ensures tracked == if ok then old(tracked) + {TOKEN_KEY} else old(tracked)
    {
      if fault.Lost? {
        return false;
      }
      if !(token.Some? && token.value.token == data && token.value.expiresAt == expiresAt && token.value.adopted) {
        token := Some(TokenSecret(data, expiresAt, true, nextRV));
        nextRV := nextRV + 1;
      }
      if fault.Done? {
        tracked := tracked + {TOKEN_KEY};
      }
      return fault.Done?;
    }

    method EnsurePrometheusScrapeToken(now: int, ttl: int, mint: Mint, io: Io) returns (r: Result<Ensured>)
      modifies this
      ensures var e := EnsureToken(old(View()), now, ttl, mint, io);
              View() == e.world && r == e.result && tracked == old(tracked) + e.tracked
    {
      var lifetime := if ttl <= 0 then DEFAULT_TTL else ttl;
      if !io.getToken {
        return Err;
      }
      var existed := token.Some?;
      if existed && !NeedsRefresh(token, now, lifetime) {
        var existing := token.value;
        var applied := ApplyTokenSecret(existing.token, existing.expiresAt, io.applyToken);
        if !applied {
          return Err;
        }
        return Ok(Ensured(RequeueAfter(existing, now, lifetime), false, existed, existing.rv));
      }
      if mint.MintFails? {
        return Err;
      }
      var applied := ApplyTokenSecret(mint.token, Format(mint.expiry), io.applyToken);
      if !applied {
        return Err;
      }
      if token.value.token.None? {
        return Err;
      }
      return Ok(Ensured(RequeueAfter(token.value, now, lifetime), true, existed, token.value.rv));
    }

    method ApplyServiceMonitor(fault: WriteFault) returns (ok: bool)
      modifies this`sm, this`tracked
      ensures var a := ApplySm(who, old(View()), fault);
              View() == a.world && ok == a.result.Ok? && tracked == old(tracked) + a.tracked
    {
      if who.AsOwner? {
        if fault.Lost? || (sm.Some? && sm.value.controller.Theirs?) {
          return false;
        }
        if sm.Some? {
          sm := Some(sm.value.(labelled := true, controller := Ours));
        } else {
          sm := Some(ServiceMonitor(true, Ours, NO_ANNOTATIONS));
        }
      } else {
        if fault.Lost? {
          return false;
        }
        if sm.Some? {
          sm := Some(sm.value.(labelled := false));
        } else if who.installed {
          sm := Some(ServiceMonitor(false, Nobody, NO_ANNOTATIONS));
        }
      }
      if fault.Done? {
        tracked := tracked + {SERVICE_MONITOR_KEY};
      }
      return fault.Done?;
    }

    method RetainOperandServiceMonitorIfPresent(io: Io) returns (ok: bool)
      modifies this`sm, this`tracked
      ensures var a := Retain(who, old(View()), io);
              View() == a.world && ok == a.result.Ok? && tracked == old(tracked) + a.tracked
    {
      if !io.probeRetain {
        return false;
      }
      if sm.None? {
        return true;
      }
      ok := ApplyServiceMonitor(io.applySm);
    }

    method ResyncOperandServiceMonitor(opts: ResyncOptions, t: Readings, io: Io) returns (ok: bool)
      modifies this`sm
      ensures var a := ResyncSm(old(View()), opts, t, io);
              View() == a.world && ok == a.result.Ok?
    {
      if !io.getSm {
        return false;
      }
      if sm.None? {
        return true;
      }
      var existing := sm.value.annotations;
      if !opts.force && !opts.markSettle && !existing.resyncAt.Missing? {
        return true;
      }
      var annotations := existing;
      annotations := annotations.(resyncAt := Format(t.at));
      if opts.reason != "" {
        annotations := annotations.(reason := opts.reason);
      }
      if opts.secretRV != 0 {
        annotations := annotations.(secretRV := opts.secretRV);
      }
      if opts.caRV != 0 {
        annotations := annotations.(caRV := opts.caRV);
      }
      if opts.markSettle {
        annotations := annotations.(settle := Format(t.mark + SETTLE_DELAY));
      }
      if opts.clearSettle {
        annotations := annotations.(settle := Missing);
      }
      assert annotations == Nudge(existing, opts, t.at, t.mark);
      if !io.patchSm.Lost? {
        sm := Some(sm.value.(annotations := MergePatch(existing, annotations, sm.value.annotations)));
      }
      return io.patchSm.Done?;
    }

    method ReconcilePrometheusScrapeToken(t: Readings, mint: Mint, io: Io) returns (r: Result<int>)
      modifies this
      ensures var s := Scrape(who, old(View()), t, mint, io);
              View() == s.world && r == s.result && tracked == old(tracked) + s.tracked
    {
      var ensured := EnsurePrometheusScrapeToken(t.ensure, 0, mint, io);
      if ensured.Err? || !io.getTls {
        return Err;
      }
      var tlsResult := EvaluateMetricsScrapeTls(tls);
      if !tlsResult.ready {
        if !tlsResult.reason.CertMissing? {
          var retained := RetainOperandServiceMonitorIfPresent(io);
          if !retained {
            return Err;
          }
        }
        return Ok(TLS_REQUEUE);
      }
      var prior := if io.probe && sm.Some? then Some(sm.value.annotations) else None;
      var applied := ApplyServiceMonitor(io.applySm);
      if !applied {
        return Err;
      }
      var (opts, settleWait) := Plan(t.plan, ensured.value, tlsResult, prior);
      if opts.force || opts.markSettle {
        var resynced := ResyncOperandServiceMonitor(opts, t, io);
        if !resynced {
          return Err;
        }
      }
      if ensured.value.tokenUpdated {
        return Ok(SETTLE_DELAY);
      }
      if settleWait > 0 {
        return Ok(settleWait);
      }
      return Ok(ensured.value.requeueAfter);
    }
  }
}
