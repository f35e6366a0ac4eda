/** When the reconciler creates and deletes the operand ServiceMonitor, over whole runs. */
module ServiceMonitorGate {
  import opened Options
  import opened ServiceMonitors
  import opened MetricsTls
  import opened Tracking
  import opened Wiring
  import opened Operand

  /** The TLS Secret is there, with a CA and a leaf that verifies against it. */
  predicate TlsReady(w: World) {
    w.tls.Some? && w.tls.value.ca != "" && w.tls.value.leaf != "" && w.tls.value.verifies
  }

  predicate TokenStored(w: World) {
    w.token.Some? && w.token.value.token.Some?
  }

  /** The wiring creates the ServiceMonitor only through the gate. */
  lemma ScrapeGate(w: World, t: Readings, mint: Mint, io: Io)
    requires w.sm.None? && Scrape(AsOwner, w, t, mint, io).world.sm.Some?
    ensures TlsReady(w) && TokenStored(Scrape(AsOwner, w, t, mint, io).world)
  {
    var ensured := EnsureToken(w, t.ensure, 0, mint, io);
    EnsureKeeps(w, t.ensure, 0, mint, io);
    ScrapeKeeps(AsOwner, w, t, mint, io);
    assert ensured.result.Ok?;
    assert TokenStored(ensured.world);
  }

  /** The ServiceMonitor appears in one step only through the gate. */
  lemma GateStep(w: World, e: Event)
    requires w.sm.None? && Step(w, e).sm.Some?
    ensures e.Reconcile? && TokenStored(Step(w, e))
    ensures w.tls.Some? && w.tls.value.ca != "" && w.tls.value.leaf != "" && w.tls.value.verifies
  {
    if e.Reconcile? && e.inp.early {
      var s := Scrape(AsOwner, w, e.inp.t, e.inp.mint, e.inp.io);
      assert s.world.sm.Some? && Step(w, e).token == s.world.token;
      ScrapeGate(w, e.inp.t, e.inp.mint, e.inp.io);
    }
  }

  predicate Present(w: World, events: seq<Event>) {
    Run(w, events).sm.Some?
  }

  lemma OneMorePresent(w: World, events: seq<Event>, earlier: seq<Event>, i: nat)
    requires i < |events| && Present(w, events)
    requires earlier == events[..|events| - 1]
    requires forall j :: i < j < |events| ==> Present(w, earlier[..j])
    ensures forall j :: i < j <= |events| ==> Present(w, events[..j])
  {
    assert events[..|events|] == events;
    assert forall j :: 0 <= j < |events| ==> earlier[..j] == events[..j];
  }

  /**
   In every run that starts without a ServiceMonitor and ends with one, it was
   created by a reconcile that read TLS ready and left a non-empty token
   stored, and it has been there since.
   */
  lemma {:induction false} GateRun(w: World, events: seq<Event>) returns (i: nat)
    requires w.sm.None? && Present(w, events)
    ensures i < |events| && events[i].Reconcile?
    ensures !Present(w, events[..i]) && TokenStored(Run(w, events[..i + 1]))
    ensures var tls := Run(w, events[..i]).tls;
            tls.Some? && tls.value.ca != "" && tls.value.leaf != "" && tls.value.verifies
    ensures forall j :: i < j <= |events| ==> Present(w, events[..j])
    decreases |events|
  {
    var n := |events| - 1;
    var earlier := events[..n];
    if Present(w, earlier) {
      i := GateRun(w, earlier);
      assert earlier[..i] == events[..i] && earlier[..i + 1] == events[..i + 1];
    } else {
      i := n;
      assert events[..i + 1] == events;
      GateStep(Run(w, earlier), events[n]);
    }
    OneMorePresent(w, events, earlier, i);
  }

  /** A reconcile deletes the ServiceMonitor only when it read the TLS Secret as missing, and only its own. */
  lemma DeletedOnlyWhenCertMissing(w: World, inp: Inputs)
    requires w.sm.Some? && Reconciled(w, inp).world.sm.None?
    ensures w.tls.None? && w.sm.value.labelled && w.sm.value.controller.Ours?
    ensures Scrape(AsOwner, w, inp.t, inp.mint, inp.io).result == Ok(TLS_REQUEUE)
  {
    var ensured := EnsureToken(w, inp.t.ensure, 0, inp.mint, inp.io);
    assert ensured.world.tls == w.tls && ensured.world.sm == w.sm;
  }

  /** A reconcile that fails before cleanup deletes nothing. */
  lemma ErrorDeletesNothing(w: World, inp: Inputs)
    requires !inp.early || Scrape(AsOwner, w, inp.t, inp.mint, inp.io).result.Err?
    ensures w.sm.Some? ==> Reconciled(w, inp).world.sm.Some?
    ensures w.token.Some? ==> Reconciled(w, inp).world.token.Some?
  {
    var ensured := EnsureToken(w, inp.t.ensure, 0, inp.mint, inp.io);
    assert ensured.world.sm == w.sm;
  }

  /**
   After a reconcile that completed without the TLS Secret, the ServiceMonitor
   is there exactly when it was before and was not the reconciler's own.
   */
  lemma AbsentAfterCertMissing(w: World, inp: Inputs)
    requires w.tls.None? && Reconciled(w, inp).result.Ok?
    ensures Reconciled(w, inp).world.sm
            == if w.sm.Some? && !(w.sm.value.labelled && w.sm.value.controller.Ours?) then w.sm else None
  {
    var ensured := EnsureToken(w, inp.t.ensure, 0, inp.mint, inp.io);
    assert ensured.world.tls == w.tls && ensured.world.sm == w.sm;
    assert SERVICE_MONITOR_KEY != TOKEN_KEY;
  }

  /**
   While the TLS Secret is there but not ready, a completed reconcile keeps the
   ServiceMonitor and takes ownership of it.
   */
  lemma RetainedDuringTlsWait(w: World, inp: Inputs)
    requires w.tls.Some? && !TlsReady(w) && Reconciled(w, inp).result.Ok?
    ensures Reconciled(w, inp).result == Ok(TLS_REQUEUE)
    ensures Reconciled(w, inp).world.sm
            == if w.sm.Some? then Some(ServiceMonitor(true, Ours, w.sm.value.annotations)) else None
  {
    var ensured := EnsureToken(w, inp.t.ensure, 0, inp.mint, inp.io);
    assert ensured.world.tls == w.tls && ensured.world.sm == w.sm;
    assert SERVICE_MONITOR_KEY != TOKEN_KEY;
  }
}
