/**
 When a reconcile completes, how long it then waits, and exactly what it leaves,
 in terms of what it met: the world, the clock and the ends of its API calls.
 */
module Completion {
  import opened Options
  import opened Instants
  import opened ScrapeTokens
  import opened ServiceMonitors
  import opened MetricsTls
  import opened Tracking
  import opened Wiring
  import opened Operand

  /** The stored token has more than half an hour left. */
  predicate TokenFresh(token: Option<TokenSecret>, now: int) {
    && token.Some? && token.value.token.Some?
    && token.value.expiresAt.At? && token.value.expiresAt.instant - now > 30 * MINUTE
  }

  /** A token is refreshed exactly when it is not fresh: absent, empty, without a readable expiry, or half over. */
  lemma RefreshUnlessFresh(token: Option<TokenSecret>, now: int)
    ensures NeedsRefresh(token, now, DEFAULT_TTL) <==> !TokenFresh(token, now)
  {
    if token.Some? && token.value.token.Some? && token.value.expiresAt.At? {
      RefreshNotEarly(token.value, now, DEFAULT_TTL);
    }
  }

  /** The token is read, fresh or minted non-empty, and its apply is acknowledged. */
  predicate TokenEnsured(w: World, now: int, mint: Mint, io: Io) {
    io.getToken && io.applyToken.Done? && (TokenFresh(w.token, now) || (mint.Mints? && mint.token.Some?))
  }

  lemma EnsureCompletes(w: World, now: int, mint: Mint, io: Io)
    ensures EnsureToken(w, now, 0, mint, io).result.Ok? <==> TokenEnsured(w, now, mint, io)
  {
    RefreshUnlessFresh(w.token, now);
  }

  /** The metrics TLS Secret is there, complete, and verifies. */
  predicate Verified(tls: Option<TlsSecret>) {
    tls.Some? && tls.value.ca != "" && tls.value.leaf != "" && tls.value.verifies
  }

  /** The apply of the ServiceMonitor is acknowledged; an owner is refused when another controller holds it. */
  predicate SmApplies(who: Writer, w: World, io: Io) {
    io.applySm.Done? && !(who.AsOwner? && w.sm.Some? && w.sm.value.controller.Theirs?)
  }

  /** A nudge is asked for. */
  predicate Asked(w: World, t: Readings, io: Io) {
    || !TokenFresh(w.token, t.ensure)
    || !io.probe
    || w.sm.None?
    || (var ann := w.sm.value.annotations;
        if !ann.settle.Missing? then !(ann.settle.At? && t.plan < ann.settle.instant)
        else ann.secretRV != w.token.value.rv || w.tls.None? || ann.caRV != w.tls.value.rv)
  }

  /** The wiring completes exactly when each call of the branch it takes succeeds. */
  lemma ScrapeCompletes(who: Writer, w: World, t: Readings, mint: Mint, io: Io)
    ensures Scrape(who, w, t, mint, io).result.Ok?
            <==> && TokenEnsured(w, t.ensure, mint, io)
                 && io.getTls
                 && (w.tls.Some? ==>
                      if Verified(w.tls) then
                        && SmApplies(who, w, io)
                        && (Asked(w, t, io) ==>
                             io.getSm && (io.patchSm.Done? || (w.sm.None? && who == AsRotator(false))))
                      else io.probeRetain && (w.sm.Some? ==> SmApplies(who, w, io)))
  {
    EnsureCompletes(w, t.ensure, mint, io);
    EnsureKeeps(w, t.ensure, 0, mint, io);
    RefreshUnlessFresh(w.token, t.ensure);
  }

  /**
   A reconcile completes exactly when the steps before the wiring, the calls of
   the branch that the TLS Secret selects, cleanup and the status update
   succeed.
   */
  lemma Completes(w: World, inp: Inputs)
    ensures Reconciled(w, inp).result.Ok?
            <==> && inp.early
                 && inp.io.getToken && inp.io.applyToken.Done?
                 && (TokenFresh(w.token, inp.t.ensure) || (inp.mint.Mints? && inp.mint.token.Some?))
                 && inp.io.getTls
                 && (w.tls.Some? ==>
                      if w.tls.value.ca != "" && w.tls.value.leaf != "" && w.tls.value.verifies then
                        && SmApplies(AsOwner, w, inp.io)
                        && (Asked(w, inp.t, inp.io) ==> inp.io.getSm && inp.io.patchSm.Done?)
                      else inp.io.probeRetain && (w.sm.Some? ==> SmApplies(AsOwner, w, inp.io)))
                 && inp.cleanupOk && inp.status
  {
    ScrapeCompletes(AsOwner, w, inp.t, inp.mint, inp.io);
    assert Reconciled(w, inp).result.Ok?
           <==> inp.early && Scrape(AsOwner, w, inp.t, inp.mint, inp.io).result.Ok? && inp.cleanupOk && inp.status;
  }

  function AtMost(bound: int, d: int): int {
    if d < bound then d else bound
  }

  /**
   The delay it returns: 15 seconds while TLS is not ready and after a mint, the
   rest of the settle window that the probe saw, and else the time to the
   token's refresh, at least a minute.
   */
  lemma DelayReturned(who: Writer, w: World, t: Readings, mint: Mint, io: Io)
    requires Scrape(who, w, t, mint, io).result.Ok?
    ensures Scrape(who, w, t, mint, io).result.value
            == if !Verified(w.tls) || !TokenFresh(w.token, t.ensure) then 15 * SECOND
               else if io.probe && w.sm.Some? && w.sm.value.annotations.settle.At?
                       && t.plan < w.sm.value.annotations.settle.instant then
                 AtMost(MAX_DURATION, w.sm.value.annotations.settle.instant - t.plan)
               else
                 var left := w.token.value.expiresAt.instant - 30 * MINUTE - t.ensure;
                 if left < MINUTE then MINUTE else AtMost(MAX_DURATION, left)
  {
    EnsureCompletes(w, t.ensure, mint, io);
    EnsureKeeps(w, t.ensure, 0, mint, io);
    RefreshUnlessFresh(w.token, t.ensure);
    assert Half(DEFAULT_TTL) == 30 * MINUTE;
  }

  /** The token Secret after a reconcile, whatever fails: a version is used up exactly by a real change. */
  lemma TokenExactly(w: World, inp: Inputs)
    ensures var w', token := Reconciled(w, inp).world, w.token;
            if !inp.early || !inp.io.getToken || inp.io.applyToken.Lost?
               || (!TokenFresh(token, inp.t.ensure) && inp.mint.MintFails?) then
              w'.token == token && w'.nextRV == w.nextRV
            else
              var data := if TokenFresh(token, inp.t.ensure) then token.value.token else inp.mint.token;
              var expiry := if TokenFresh(token, inp.t.ensure) then token.value.expiresAt else Format(inp.mint.expiry);
              var same := token.Some? && token.value.adopted
                          && token.value.token == data && token.value.expiresAt == expiry;
              && w'.token.Some? && w'.token.value.adopted
              && w'.token.value.token == data && w'.token.value.expiresAt == expiry
              && (if same then
                    w'.token.value.rv == token.value.rv && w'.nextRV == w.nextRV
                  else w'.token.value.rv == w.nextRV && w'.nextRV == w.nextRV + 1)
  {
    OnlyEnsureChangesSecrets(w, inp);
    RefreshUnlessFresh(w.token, inp.t.ensure);
  }

  /** The ServiceMonitor was applied: its TLS Secret verifies, or it was there to be retained. */
  predicate SmWritten(w: World, inp: Inputs) {
    && inp.early && TokenEnsured(w, inp.t.ensure, inp.mint, inp.io) && inp.io.getTls
    && w.tls.Some? && (Verified(w.tls) || (inp.io.probeRetain && w.sm.Some?))
    && !inp.io.applySm.Lost? && !(w.sm.Some? && w.sm.value.controller.Theirs?)
  }

  /** Cleanup dropped the reconciler's own ServiceMonitor, for there is no TLS Secret. */
  predicate SmDropped(w: World, inp: Inputs) {
    && inp.early && TokenEnsured(w, inp.t.ensure, inp.mint, inp.io) && inp.io.getTls && w.tls.None?
    && w.sm.Some? && w.sm.value.labelled && w.sm.value.controller.Ours?
    && (inp.cleanupOk || inp.cleanupReachedSm)
  }

  /** Presence and ownership of the ServiceMonitor after a reconcile, whatever fails. */
  lemma ServiceMonitorAfter(w: World, inp: Inputs)
    ensures var sm' := Reconciled(w, inp).world.sm;
            && (sm'.Some? <==> SmWritten(w, inp) || (w.sm.Some? && !SmDropped(w, inp)))
            && (SmWritten(w, inp) ==> sm'.Some? && sm'.value.labelled && sm'.value.controller.Ours?)
            && (sm'.Some? && !SmWritten(w, inp) ==>
                 sm'.value.labelled == w.sm.value.labelled && sm'.value.controller == w.sm.value.controller)
  {
    EnsureCompletes(w, inp.t.ensure, inp.mint, inp.io);
    EnsureKeeps(w, inp.t.ensure, 0, inp.mint, inp.io);
    assert SERVICE_MONITOR_KEY != TOKEN_KEY;
  }

  /** The resync patch, field by field: when it is made, when it fails, and what it writes. */
  lemma ResyncSays(w: World, opts: ResyncOptions, t: Readings, io: Io)
    ensures var r := ResyncSm(w, opts, t, io);
            var wanted := io.getSm && w.sm.Some?
                          && (opts.force || opts.markSettle || w.sm.value.annotations.resyncAt.Missing?);
            && (r.patched <==> wanted && !io.patchSm.Lost?)
            && (r.result.Ok? <==> io.getSm && (wanted ==> io.patchSm.Done?))
            && (!r.patched ==> r.world == w)
            && (r.patched ==>
                 var before, after := w.sm.value.annotations, r.world.sm.value.annotations;
                 && after.resyncAt == Format(t.at)
                 && after.reason == (if opts.reason == "" then before.reason else opts.reason)
                 && after.secretRV == (if opts.secretRV == 0 then before.secretRV else opts.secretRV)
                 && after.caRV == (if opts.caRV == 0 then before.caRV else opts.caRV)
                 && (opts.clearSettle ==> after.settle == Missing)
                 && (opts.markSettle && !opts.clearSettle ==> after.settle == Format(t.mark + 15 * SECOND))
                 && (!opts.markSettle && !opts.clearSettle ==> after.settle == before.settle)
                 && after.others == before.others)
  {
    if w.sm.Some? {
      NudgePatchKeepsOthers(w.sm.value.annotations, opts, t.at, t.mark, w.sm.value.annotations);
    }
  }

  /**
   A completed round of the rotator with a verified TLS Secret leaves a
   ServiceMonitor where the kind is installed, with the old annotations unless
   it nudged, and others' ones always; it takes no ownership and drops nothing.
   */
  lemma RotatorLeavesSm(w: World, installed: bool, t: Readings, mint: Mint, io: Io)
    requires Scrape(AsRotator(installed), w, t, mint, io).result.Ok?
    ensures var s := Scrape(AsRotator(installed), w, t, mint, io);
            var before := if w.sm.Some? then w.sm.value else ServiceMonitor(false, Nobody, NO_ANNOTATIONS);
            && (s.world.sm.Some? <==> w.sm.Some? || (installed && Verified(w.tls)))
            && (s.world.sm.Some? ==>
                 && s.world.sm.value.controller == before.controller
                 && s.world.sm.value.annotations.others == before.annotations.others
                 && (!s.patched ==> s.world.sm.value.annotations == before.annotations))
            && (s.patched <==> Verified(w.tls) && Asked(w, t, io) && s.world.sm.Some?)
  {
    ScrapeCompletes(AsRotator(installed), w, t, mint, io);
    EnsureKeeps(w, t.ensure, 0, mint, io);
    RefreshUnlessFresh(w.token, t.ensure);
  }
}
