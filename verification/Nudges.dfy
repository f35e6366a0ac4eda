/**
 Annotation nudges over whole runs: no change is lost, the number of patches is
 bounded by what happened, and the settle window is kept.
 */
module Nudges {
  import opened Options
  import opened Instants
  import opened ScrapeTokens
  import opened ServiceMonitors
  import opened MetricsTls
  import opened Tracking
  import opened Wiring
  import opened Operand
  import opened ServiceMonitorGate

  function TokenRV(w: World): nat {
    if w.token.Some? then w.token.value.rv else 0
  }

  function CaRV(w: World): nat {
    if w.tls.Some? then w.tls.value.rv else 0
  }

  /** The recorded versions are those of the current Secrets. */
  predicate Recorded(w: World) {
    w.sm.Some? && w.sm.value.annotations.secretRV == TokenRV(w) && w.sm.value.annotations.caRV == CaRV(w)
  }

  /** The settle marker holds a deadline after `now`. */
  predicate Settling(w: World, now: int) {
    w.sm.Some? && SettleRemaining(w.sm.value.annotations, now) > 0
  }

  /** The reconcile's token is stored as it was read, so the version it records is the current one. */
  predicate Adopted(w: World) {
    w.token.Some? && w.token.value.adopted
  }

  predicate Minting(w: World, inp: Inputs) {
    NeedsRefresh(w.token, inp.t.ensure, DEFAULT_TTL)
  }

  predicate Monotone(t: Readings) {
    t.ensure <= t.plan <= t.at <= t.mark
  }

  // ---------- No lost change ----------

  /**
   After a reconcile that completes with TLS ready, a settle deadline lies
   ahead or both recorded versions are current, exactly unless the token was
   fresh, carried no owner metadata yet and no deadline was running: then
   applying it moved its version after that version had been read. Earlier
   failed or stopped reconciles make no difference, for w is any world.
   */
  lemma NoLostChange(w: World, inp: Inputs)
    requires Fresh(w) && TlsReady(w) && Reconciled(w, inp).result.Ok? && Monotone(inp.t)
    ensures var w' := Reconciled(w, inp).world;
            && w'.sm.Some? && TokenRV(w') > 0 && CaRV(w') > 0
            && (Settling(w', inp.t.plan) || Recorded(w')
                <==> Minting(w, inp) || Adopted(w) || Settling(w, inp.t.plan))
    ensures Minting(w, inp) ==> Settling(Reconciled(w, inp).world, inp.t.mark)
  {
    var e := EnsureToken(w, inp.t.ensure, 0, inp.mint, inp.io);
    assert e.world.tls == w.tls && e.world.sm == w.sm;
    DeadlineAhead(inp.t.mark);
    var tls := EvaluateMetricsScrapeTls(w.tls);
    var a := ApplyAndNudge(AsOwner, e.world, e.result.value, tls, inp.t, inp.io);
    assert Reconciled(w, inp).world == a.world;
    assert a.world.token == e.world.token && a.world.tls == w.tls;
    if !Minting(w, inp) && !Adopted(w) {
      assert TokenRV(e.world) == w.nextRV && e.result.value.rv == w.token.value.rv;
    }
  }

  // ---------- When the annotations are patched ----------

  /** The reconcile gets as far as planning the nudge. */
  predicate ReachesPlanning(w: World, inp: Inputs) {
    && inp.early
    && EnsureToken(w, inp.t.ensure, 0, inp.mint, inp.io).result.Ok?
    && inp.io.getTls
    && TlsReady(w)
    && inp.io.applySm.Done?
    && !(w.sm.Some? && w.sm.value.controller.Theirs?)
  }

  /** It gets there, and a patch it then asks for is written. */
  predicate WritesPatch(w: World, inp: Inputs) {
    ReachesPlanning(w, inp) && inp.io.getSm && !inp.io.patchSm.Lost?
  }

  /**
   A nudge is planned: after a mint, for a marker that is due, or for a version
   that differs from the recorded one.
   */
  predicate NudgeDue(w: World, inp: Inputs) {
    || Minting(w, inp)
    || (if inp.io.probe && w.sm.Some? && SettlePending(w.sm.value.annotations) then !Settling(w, inp.t.plan)
        else !(inp.io.probe && Recorded(w)))
  }

  /** In every world, and whatever fails, exactly such reconciles patch the annotations. */
  lemma PatchedExactly(w: World, inp: Inputs)
    ensures Reconciled(w, inp).patched <==> WritesPatch(w, inp) && NudgeDue(w, inp)
  {
    EnsureKeeps(w, inp.t.ensure, 0, inp.mint, inp.io);
  }

  /** Why the reconcile nudges, from what it met. */
  function Cause(w: World, inp: Inputs): string {
    if Minting(w, inp) then (if w.token.Some? then TOKEN_REFRESHED else TOKEN_MINTED)
    else if inp.io.probe && w.sm.Some? && SettlePending(w.sm.value.annotations) then SETTLE_RETRY
    else if inp.io.probe && w.sm.Some? && w.sm.value.annotations.secretRV == TokenRV(w) then CA_SYNC
    else SECRET_SYNC
  }

  /**
   The annotations after a reconcile that completed with TLS ready: untouched,
   or the nudge with its time, cause and both versions it read; the marker is
   set by a mint, cleared by a settle retry, and kept otherwise. A mint always
   nudges and asks to be called again after the settle delay.
   */
  lemma AnnotationsAfter(w: World, inp: Inputs)
    requires TlsReady(w) && Reconciled(w, inp).result.Ok?
    ensures var r := Reconciled(w, inp);
            var before := if w.sm.Some? then w.sm.value.annotations else NO_ANNOTATIONS;
            && r.world.sm.Some?
            && r.world.sm.value.annotations ==
               (if !r.patched then before
                else Annotations(
                       Format(inp.t.at), Cause(w, inp),
                       if Minting(w, inp) then TokenRV(r.world) else TokenRV(w), CaRV(w),
                       if Minting(w, inp) then Format(inp.t.mark + SETTLE_DELAY)
                       else if Cause(w, inp) == SETTLE_RETRY then Missing else before.settle,
                       before.others))
            && (Minting(w, inp) ==> r.patched && r.result == Ok(SETTLE_DELAY))
            && (r.patched <==> NudgeDue(w, inp))
  {
    var e := EnsureToken(w, inp.t.ensure, 0, inp.mint, inp.io);
    assert e.world.tls == w.tls && e.world.sm == w.sm;
    assert SERVICE_MONITOR_KEY != TOKEN_KEY;
    assert SECRET_SYNC[1] == 'e' && CA_SYNC[0] == 'c' && SETTLE_RETRY[2] == 't' && SECRET_SYNC[2] == 'c';
  }

  // ---------- Bounded nudges ----------

  /** Whether another patch is owed without anything else happening. */
  function Potential(w: World): nat {
    if w.sm.Some? && !SettlePending(w.sm.value.annotations) && Recorded(w) then 0 else 1
  }

  /** What can make a patch necessary, or make the reconciler believe so. */
  datatype Count = Count(patches: nat, mints: nat, others: nat, blind: nat)

  function One(b: bool): nat {
    if b then 1 else 0
  }

  /** The token request was made and its answer was written. */
  predicate MintWritten(w: World, inp: Inputs) {
    inp.early && inp.io.getToken && Minting(w, inp) && inp.mint.Mints? && !inp.io.applyToken.Lost?
  }

  /** Applying a fresh token changed the stored Secret. */
  predicate AdoptionWritten(w: World, inp: Inputs) {
    inp.early && inp.io.getToken && !Minting(w, inp) && !Adopted(w) && !inp.io.applyToken.Lost?
  }

  /** A patch that nothing called for: the failed probe hid a marker, or recorded versions that were current. */
  predicate Blind(w: World, inp: Inputs) {
    && WritesPatch(w, inp)
    && !Minting(w, inp) && !inp.io.probe
    && w.sm.Some? && (Recorded(w) || SettlePending(w.sm.value.annotations))
  }

  /**
   The counts of one event: an adoption, a changed Secret and a deleted or
   edited ServiceMonitor each count once.
   */
  function CountOf(w: World, e: Event): Count {
    match e
    case Reconcile(inp) =>
      Count(
        One(Reconciled(w, inp).patched),
        One(MintWritten(w, inp)),
        One(AdoptionWritten(w, inp)) + One(w.sm.Some? && Reconciled(w, inp).world.sm.None?),
        One(Blind(w, inp)))
    case TurnTls(_) => Count(0, 0, 0, 0)
    case EditSmOwner(_, _) => Count(0, 0, 0, 0)
    case _ => Count(0, 0, 1, 0)
  }

  function Counts(w: World, events: seq<Event>): Count
    decreases |events|
  {
    if events == [] then Count(0, 0, 0, 0)
    else
      var earlier := events[..|events| - 1];
      var c := Counts(w, earlier);
      var d := CountOf(Run(w, earlier), events[|events| - 1]);
      Count(c.patches + d.patches, c.mints + d.mints, c.others + d.others, c.blind + d.blind)
  }

  /** When ensuring the token wrote nothing, a patch is one that was owed, or a blind one. */
  lemma NudgeScrape(w: World, inp: Inputs)
    requires inp.early && EnsureToken(w, inp.t.ensure, 0, inp.mint, inp.io).world == w
    requires Minting(w, inp) ==> EnsureToken(w, inp.t.ensure, 0, inp.mint, inp.io).result.Err?
    ensures var s := Scrape(AsOwner, w, inp.t, inp.mint, inp.io);
            One(s.patched) + Potential(s.world) == Potential(w) + One(Blind(w, inp))
  {
  }

  lemma NothingWritten(w: World, inp: Inputs)
    requires inp.early && !MintWritten(w, inp) && !AdoptionWritten(w, inp)
    ensures EnsureToken(w, inp.t.ensure, 0, inp.mint, inp.io).world == w
    ensures Minting(w, inp) ==> EnsureToken(w, inp.t.ensure, 0, inp.mint, inp.io).result.Err?
  {
  }

  /** A ServiceMonitor that a completed wiring created is tracked, so cleanup leaves it. */
  lemma CreatedIsKept(w: World, inp: Inputs)
    requires inp.early && w.sm.None?
    ensures Reconciled(w, inp).world == Scrape(AsOwner, w, inp.t, inp.mint, inp.io).world
  {
    EnsureKeeps(w, inp.t.ensure, 0, inp.mint, inp.io);
  }

  lemma NudgeReconcile(w: World, inp: Inputs)
    requires inp.early
    ensures var c := CountOf(w, Reconcile(inp));
            c.patches + Potential(Reconciled(w, inp).world) <= Potential(w) + 2 * c.mints + c.others + c.blind
    ensures var c := CountOf(w, Reconcile(inp));
            c.mints == 0 && c.others == 0 ==> c.patches + Potential(Reconciled(w, inp).world) == Potential(w) + c.blind
  {
    var s := Scrape(AsOwner, w, inp.t, inp.mint, inp.io);
    assert Reconciled(w, inp).world == s.world || Reconciled(w, inp).world == s.world.(sm := None);
    if w.sm.None? {
      CreatedIsKept(w, inp);
    }
    if !MintWritten(w, inp) && !AdoptionWritten(w, inp) {
      NothingWritten(w, inp);
      NudgeScrape(w, inp);
    } else if AdoptionWritten(w, inp) {
      PatchedExactly(w, inp);
    }
  }

  lemma NudgeStep(w: World, e: Event)
    ensures var c := CountOf(w, e);
            c.patches + Potential(Step(w, e)) <= Potential(w) + 2 * c.mints + c.others + c.blind
    ensures var c := CountOf(w, e);
            c.mints == 0 && c.others == 0 ==> c.patches + Potential(Step(w, e)) == Potential(w) + c.blind
  {
    if e.Reconcile? && e.inp.early {
      NudgeReconcile(w, e.inp);
    }
  }

  /**
   In every run the patches made and the one still owed are at most the one
   owed at the start, two for each token minted, one for each other change or
   deletion, and one for each blind patch.
   */
  lemma {:induction false} NudgeBound(w: World, events: seq<Event>)
    ensures var c := Counts(w, events);
            c.patches + Potential(Run(w, events)) <= Potential(w) + 2 * c.mints + c.others + c.blind
    ensures var c := Counts(w, events);
            c.patches <= 1 + 2 * c.mints + c.others + c.blind
    ensures (forall e :: e in events && e.Reconcile? ==> e.inp.io.probe) ==> Counts(w, events).blind == 0
    decreases |events|
  {
    if events != [] {
      var earlier := events[..|events| - 1];
      NudgeBound(w, earlier);
      assert events[|events| - 1] in events;
      NudgeStep(Run(w, earlier), events[|events| - 1]);
    }
  }

  /**
   With fixed inputs, nothing minted and nothing else changed, the patches are
   exactly the one owed at the start, if it is no longer owed, and the blind
   ones; so such a run keeps to one patch exactly when that is at most one.
   */
  lemma {:induction false} NudgeLaw(w: World, events: seq<Event>)
    requires Counts(w, events).mints == 0 && Counts(w, events).others == 0
    ensures var c := Counts(w, events);
            && c.patches + Potential(Run(w, events)) == Potential(w) + c.blind
            && (c.patches <= 1 <==> Potential(w) + c.blind <= 1 + Potential(Run(w, events)))
    decreases |events|
  {
    if events != [] {
      var earlier := events[..|events| - 1];
      NudgeLaw(w, earlier);
      NudgeStep(Run(w, earlier), events[|events| - 1]);
    }
  }

  /** The world owes no patch and is as the reconciler leaves it. */
  predicate Quiet(w: World) {
    Potential(w) == 0 && TlsReady(w) && Adopted(w) && w.sm.value.labelled && w.sm.value.controller.Ours?
  }

  /** A completed reconcile that minted nothing changes a quiet world in nothing, if its probe succeeded. */
  lemma QuietIsFixpoint(w: World, inp: Inputs)
    requires Quiet(w) && !Minting(w, inp) && Reconciled(w, inp).result.Ok?
    ensures inp.io.probe ==> Reconciled(w, inp).world == w && !Reconciled(w, inp).patched
    ensures inp.io.probe ==> Reconciled(w, inp).result == Ok(RequeueAfter(w.token.value, inp.t.ensure, DEFAULT_TTL))
    ensures !inp.io.probe ==> Reconciled(w, inp).patched && Quiet(Reconciled(w, inp).world)
  {
    var e := EnsureToken(w, inp.t.ensure, 0, inp.mint, inp.io);
    assert e.world == w;
    assert SERVICE_MONITOR_KEY != TOKEN_KEY;
  }

  /**
   From any world with TLS ready, one completed reconcile and a second one
   reach the quiet fixpoint exactly when the second mints nothing and comes
   when no deadline is ahead, or, if its probe fails, no marker is there.
   */
  lemma Converges(w: World, first: Inputs, second: Inputs)
    requires TlsReady(w) && Reconciled(w, first).result.Ok?
    requires Reconciled(Reconciled(w, first).world, second).result.Ok?
    ensures var w1 := Reconciled(w, first).world;
            && w1.sm.Some?
            && (Quiet(Reconciled(w1, second).world)
                <==> !Minting(w1, second)
                     && if second.io.probe then !Settling(w1, second.t.plan)
                        else !SettlePending(w1.sm.value.annotations))
  {
    CompletedAdopts(w, first);
    SecondQuiet(Reconciled(w, first).world, second);
  }

  lemma SecondQuiet(w: World, inp: Inputs)
    requires TlsReady(w) && Adopted(w) && w.sm.Some? && Reconciled(w, inp).result.Ok?
    ensures Quiet(Reconciled(w, inp).world)
            <==> !Minting(w, inp)
                 && if inp.io.probe then !Settling(w, inp.t.plan) else !SettlePending(w.sm.value.annotations)
  {
    CompletedAdopts(w, inp);
    AnnotationsAfter(w, inp);
    OnlyEnsureChangesSecrets(w, inp);
  }

  // ---------- What a failed probe does ----------

  /** Completed reconciles that mint nothing and whose probe fails. */
  predicate ProbesFail(w: World, events: seq<Event>)
    decreases |events|
  {
    if events == [] then true
    else
      var earlier, e := events[..|events| - 1], events[|events| - 1];
      && ProbesFail(w, earlier)
      && e.Reconcile? && !e.inp.io.probe
      && !Minting(Run(w, earlier), e.inp) && Reconciled(Run(w, earlier), e.inp).result.Ok?
  }

  /** Each of them patches a quiet world and leaves it quiet, so the blind patches are needed in the bound. */
  lemma {:induction false} FailedProbesPatch(w: World, events: seq<Event>)
    requires Quiet(w) && ProbesFail(w, events)
    ensures Quiet(Run(w, events)) && Counts(w, events) == Count(|events|, 0, 0, |events|)
    decreases |events|
  {
    if events != [] {
      var earlier := events[..|events| - 1];
      FailedProbesPatch(w, earlier);
      FailedProbePatches(Run(w, earlier), events[|events| - 1].inp);
    }
  }

  lemma FailedProbePatches(w: World, inp: Inputs)
    requires Quiet(w) && !Minting(w, inp) && !inp.io.probe && Reconciled(w, inp).result.Ok?
    ensures Quiet(Reconciled(w, inp).world) && CountOf(w, Reconcile(inp)) == Count(1, 0, 0, 1)
  {
    QuietIsFixpoint(w, inp);
    PatchedExactly(w, inp);
  }

  /** A wired namespace: the token has 50 minutes left at time 0. */
  function Example(settle: Stamp): World {
    World(
      Some(TokenSecret(Some(Token("token", 50 * MINUTE)), At(50 * MINUTE), true, 1)),
      Some(TlsSecret("ca", "leaf", true, 2)),
      Some(ServiceMonitor(true, Ours, Annotations(At(0), TOKEN_MINTED, 1, 2, settle, map[]))),
      3)
  }

  /** A reconcile at time 0 in which nothing but the probe fails. */
  const FAILED_PROBE := Inputs(
    true, Readings(0, 0, 0, 0), MintFails, Io(true, Done, true, true, false, Done, true, Done), true, true, true)

  /**
   A fresh token whose Secret carries no owner metadata: a reconcile without
   faults records the version it then moves.
   */
  lemma StaleVersion()
    ensures var token := Example(Missing).token.value.(adopted := false);
            var w := Example(Missing).(token := Some(token));
            var inp := FAILED_PROBE.(io := FAILED_PROBE.io.(probe := true));
            var w' := Reconciled(w, inp).world;
            && TlsReady(w) && Reconciled(w, inp).result.Ok?
            && !Settling(w', inp.t.plan) && w'.sm.value.annotations.secretRV == 1 && TokenRV(w') == 3
  {
    var token := Example(Missing).token.value.(adopted := false);
    var w := Example(Missing).(token := Some(token));
    NoLostChange(w, FAILED_PROBE.(io := FAILED_PROBE.io.(probe := true)));
  }

  /** Two failed probes exceed the bound without them. */
  lemma PlainBoundFails()
    ensures var c := Counts(Example(Missing), [Reconcile(FAILED_PROBE), Reconcile(FAILED_PROBE)]);
            c.patches > 1 + 2 * c.mints + c.others
  {
    var w, r := Example(Missing), Reconcile(FAILED_PROBE);
    QuietIsFixpoint(w, FAILED_PROBE);
    assert [r, r][..1] == [r] && [r][..0] == [];
    assert Run(w, []) == w && ProbesFail(w, []);
    assert Run(w, [r]) == Reconciled(w, FAILED_PROBE).world && ProbesFail(w, [r]);
    FailedProbesPatch(w, [r, r]);
  }

  /** A reconcile that completes with TLS ready leaves the token and the ServiceMonitor as its own. */
  lemma CompletedAdopts(w: World, inp: Inputs)
    requires TlsReady(w) && Reconciled(w, inp).result.Ok?
    ensures var w' := Reconciled(w, inp).world;
            Adopted(w') && TlsReady(w') && w'.sm.Some? && w'.sm.value.labelled && w'.sm.value.controller.Ours?
  {
    var e := EnsureToken(w, inp.t.ensure, 0, inp.mint, inp.io);
    assert e.world.tls == w.tls && Adopted(e.world);
    assert SERVICE_MONITOR_KEY != TOKEN_KEY;
  }

  // ---------- The settle window ----------

  /**
   Before the deadline a completed reconcile that mints nothing leaves the
   annotations alone and waits exactly until it, if and only if its probe
   succeeded; a failed probe hides the marker, and then both versions are
   recorded within the window and the delay is the token's.
   */
  lemma SettleWindow(w: World, inp: Inputs)
    requires TlsReady(w) && !Minting(w, inp) && Reconciled(w, inp).result.Ok?
    requires Settling(w, inp.t.plan)
    ensures var r, before := Reconciled(w, inp), w.sm.value.annotations;
            && r.world.sm.Some?
            && (!r.patched <==> inp.io.probe)
            && r.world.sm.value.annotations ==
               (if inp.io.probe then before
                else Annotations(Format(inp.t.at), SECRET_SYNC, TokenRV(w), CaRV(w), before.settle, before.others))
            && r.result ==
               Ok(if inp.io.probe then Since(before.settle.instant, inp.t.plan)
                  else RequeueAfter(w.token.value, inp.t.ensure, DEFAULT_TTL))
  {
    AnnotationsAfter(w, inp);
    EnsureKeeps(w, inp.t.ensure, 0, inp.mint, inp.io);
  }

  /**
   The first completed reconcile at or after the deadline that mints nothing
   records the versions it read; it clears the marker if and only if its probe
   succeeded.
   */
  lemma SettleDue(w: World, inp: Inputs)
    requires TlsReady(w) && !Minting(w, inp) && Reconciled(w, inp).result.Ok?
    requires w.sm.Some? && SettlePending(w.sm.value.annotations) && !Settling(w, inp.t.plan)
    ensures var r, before := Reconciled(w, inp), w.sm.value.annotations;
            && r.patched && r.world.sm.Some?
            && (r.world.sm.value.annotations.settle.Missing? <==> inp.io.probe)
            && r.world.sm.value.annotations ==
               Annotations(
                 Format(inp.t.at), if inp.io.probe then SETTLE_RETRY else SECRET_SYNC, TokenRV(w), CaRV(w),
                 if inp.io.probe then Missing else before.settle, before.others)
  {
    AnnotationsAfter(w, inp);
  }

  /** With 15 seconds of the window left, a failed probe patches and waits 20 minutes. */
  lemma ProbeBreaksWindow()
    ensures var w := Example(At(15 * SECOND));
            var r := Reconciled(w, FAILED_PROBE);
            && Settling(w, FAILED_PROBE.t.plan)
            && SettleRemaining(w.sm.value.annotations, FAILED_PROBE.t.plan) == 15 * SECOND
            && r.patched && r.result == Ok(20 * MINUTE)
  {
    SettleWindow(Example(At(15 * SECOND)), FAILED_PROBE);
  }

  /** Before the deadline exactly the reconciles that minted or did not see the marker patch, completed or not. */
  lemma WindowPatch(w: World, inp: Inputs)
    requires Settling(w, inp.t.plan)
    ensures Reconciled(w, inp).patched <==> WritesPatch(w, inp) && (Minting(w, inp) || !inp.io.probe)
    ensures !Reconciled(w, inp).patched && Reconciled(w, inp).world.sm.Some? ==>
              Reconciled(w, inp).world.sm.value.annotations == w.sm.value.annotations
  {
    PatchedExactly(w, inp);
    EnsureKeeps(w, inp.t.ensure, 0, inp.mint, inp.io);
  }

  /** An event inside the window up to `deadline` that leaves the annotations alone. */
  predicate WindowEvent(w: World, e: Event, deadline: int) {
    match e
    case EditSmAnnotations(_) => false
    case Reconcile(inp) => inp.t.plan < deadline && !(WritesPatch(w, inp) && (Minting(w, inp) || !inp.io.probe))
    case _ => true
  }

  /**
   Over a whole run inside the window, whatever fails and whatever happens to
   the Secrets, the annotations stay as they were for as long as the
   ServiceMonitor is there.
   */
  lemma {:induction false} SettleWindowRun(w: World, events: seq<Event>, deadline: int)
    requires w.sm.Some? && w.sm.value.annotations.settle == At(deadline)
    requires forall i :: 0 <= i < |events| ==> WindowEvent(Run(w, events[..i]), events[i], deadline)
    requires forall i :: 0 <= i <= |events| ==> Run(w, events[..i]).sm.Some?
    ensures Run(w, events).sm.Some? && Run(w, events).sm.value.annotations == w.sm.value.annotations
    decreases |events|
  {
    assert events[..|events|] == events;
    if events != [] {
      var n := |events| - 1;
      var earlier := events[..n];
      forall i | 0 <= i <= n
        ensures earlier[..i] == events[..i]
      {
      }
      assert forall i :: 0 <= i < n ==> earlier[i] == events[i];
      SettleWindowRun(w, earlier, deadline);
      assert Run(w, events[..n + 1]).sm.Some?;
      WindowStep(Run(w, earlier), events[n], deadline);
    }
  }

  lemma WindowStep(w: World, e: Event, deadline: int)
    requires w.sm.Some? && w.sm.value.annotations.settle == At(deadline) && WindowEvent(w, e, deadline)
    ensures Step(w, e).sm.Some? ==> Step(w, e).sm.value.annotations == w.sm.value.annotations
  {
    if e.Reconcile? {
      WindowPatch(w, e.inp);
    }
  }

  /** No settle deadline lies further ahead of `now` than the settle delay. */
  predicate MarkerWithin(w: World, now: int) {
    w.sm.Some? && w.sm.value.annotations.settle.At? ==> w.sm.value.annotations.settle.instant <= now + SETTLE_DELAY
  }

  /** An edit by others whose marker lies no further ahead than the reconciler's own. */
  predicate MildEdit(annotations: Annotations, now: int) {
    annotations.settle.At? ==> annotations.settle.instant <= now + SETTLE_DELAY
  }

  /** The latest clock reading of the run. */
  function Clock(events: seq<Event>, start: int): int
    decreases |events|
  {
    if events == [] then start
    else
      match events[|events| - 1]
      case Reconcile(inp) => inp.t.mark
      case _ => Clock(events[..|events| - 1], start)
  }

  /** The clock of the run never goes back, and others write no marker further ahead than the reconciler does. */
  predicate MonotoneRun(events: seq<Event>, start: int)
    decreases |events|
  {
    if events == [] then true
    else
      var earlier := events[..|events| - 1];
      && MonotoneRun(earlier, start)
      && match events[|events| - 1]
         case Reconcile(inp) => Clock(earlier, start) <= inp.t.ensure && Monotone(inp.t)
         case EditSmAnnotations(annotations) => MildEdit(annotations, Clock(earlier, start))
         case _ => true
  }

  lemma MarkerNudge(who: Writer, w: World, token: Ensured, tls: TlsResult, t: Readings, io: Io)
    requires MarkerWithin(w, t.mark)
    ensures MarkerWithin(ApplyAndNudge(who, w, token, tls, t, io).world, t.mark)
  {
    DeadlineAhead(t.mark);
  }

  lemma MarkerScrape(who: Writer, w: World, t: Readings, mint: Mint, io: Io, now: int)
    requires MarkerWithin(w, now) && now <= t.ensure && Monotone(t)
    ensures MarkerWithin(Scrape(who, w, t, mint, io).world, t.mark)
  {
    var e := EnsureToken(w, t.ensure, 0, mint, io);
    EnsureKeeps(w, t.ensure, 0, mint, io);
    if e.result.Ok? && io.getTls {
      MarkerNudge(who, e.world, e.result.value, EvaluateMetricsScrapeTls(e.world.tls), t, io);
    }
  }

  lemma MarkerStep(w: World, inp: Inputs, now: int)
    requires MarkerWithin(w, now) && now <= inp.t.ensure && Monotone(inp.t)
    ensures MarkerWithin(Reconciled(w, inp).world, inp.t.mark)
  {
    MarkerScrape(AsOwner, w, inp.t, inp.mint, inp.io, now);
  }

  /** Under a monotone clock, and unless others write one, a marker is never further ahead than 15 seconds. */
  lemma {:induction false} MarkerRun(w: World, events: seq<Event>, start: int)
    requires MarkerWithin(w, start) && MonotoneRun(events, start)
    ensures MarkerWithin(Run(w, events), Clock(events, start))
    decreases |events|
  {
    if events != [] {
      var earlier := events[..|events| - 1];
      MarkerRun(w, earlier, start);
      var e := events[|events| - 1];
      if e.Reconcile? {
        MarkerStep(Run(w, earlier), e.inp, Clock(earlier, start));
      }
    }
  }

  /** So the remaining wait that a reconcile returns for a settle deadline never exceeds 15 seconds. */
  lemma SettleWaitBounded(w: World, events: seq<Event>, start: int, inp: Inputs)
    requires MarkerWithin(w, start) && MonotoneRun(events + [Reconcile(inp)], start)
    requires Settling(Run(w, events), inp.t.plan)
    ensures 0 < SettleRemaining(Run(w, events).sm.value.annotations, inp.t.plan) <= SETTLE_DELAY
  {
    assert (events + [Reconcile(inp)])[..|events|] == events;
    MarkerRun(w, events, start);
  }
}
