/** The scrape token outlives the delay of every reconcile, over whole runs of an operand and of the rotator. */
module TokenLifetime {
  import opened Options
  import opened Instants
  import opened ScrapeTokens
  import opened ServiceMonitors
  import opened Wiring
  import opened Operand
  import opened Nudges

  /** The stored token is there and its true expiry lies after x. */
  predicate Lasts(w: World, x: int) {
    w.token.Some? && w.token.value.token.Some? && w.token.value.token.value.expiry > x
  }

  /** The expiry annotation never promises more than the token holds. */
  predicate Truthful(w: World) {
    (w.token.Some? && w.token.value.token.Some? && w.token.value.expiresAt.At?) ==>
      w.token.value.expiresAt.instant <= w.token.value.token.value.expiry
  }

  /** A token request at `now` yields a token that lives more than half the default lifetime and a second. */
  predicate GoodMint(mint: Mint, now: int) {
    mint.Mints? ==> mint.token.Some? && mint.token.value.expiry >= mint.expiry > now + 30 * MINUTE + SECOND
  }

  lemma EnsuredTokenLasts(w: World, now: int, mint: Mint, io: Io)
    requires Truthful(w) && GoodMint(mint, now)
    ensures Truthful(EnsureToken(w, now, 0, mint, io).world)
    ensures var e := EnsureToken(w, now, 0, mint, io);
            e.result.Ok? ==>
              && e.result.value.requeueAfter > 0
              && Lasts(e.world, now + 30 * MINUTE)
              && (!e.result.value.tokenUpdated ==> Lasts(e.world, now + e.result.value.requeueAfter + 29 * MINUTE))
    ensures var w' := EnsureToken(w, now, 0, mint, io).world;
            w'.token.Some? ==> Lasts(w', now + 30 * MINUTE) || w'.token == w.token
  {
    if !NeedsRefresh(w.token, now, DEFAULT_TTL) {
      FreshTokenOutlivesDelay(w.token.value, now);
    } else if mint.Mints? {
      StoredExpiryIsFloor(mint.expiry);
    }
  }

  /**
   A fresh token is never replaced, whatever fails; a token due for refresh is
   either left as it was or replaced by the minted one with its expiry rounded
   down, and a completed reconcile did replace it.
   */
  lemma TokenAfter(w: World, inp: Inputs)
    ensures var w' := Reconciled(w, inp).world;
            var minted := w'.token.Some? && inp.mint.Mints?
                          && w'.token.value.token == inp.mint.token
                          && w'.token.value.expiresAt == Format(inp.mint.expiry);
            && (!Minting(w, inp) ==>
                 && w'.token.Some?
                 && w'.token.value.token == w.token.value.token
                 && w'.token.value.expiresAt == w.token.value.expiresAt)
            && (Minting(w, inp) ==> w'.token == w.token || minted)
            && (Minting(w, inp) && Reconciled(w, inp).result.Ok? ==> minted && inp.mint.token.Some?)
  {
    OnlyEnsureChangesSecrets(w, inp);
  }

  /**
   Every successful reconcile, whichever way it goes (minted, waiting for TLS,
   waiting to settle, steady), returns a positive delay that leaves more than
   29 minutes of validity when it has passed.
   */
  lemma DelayLeavesToken(who: Writer, w: World, t: Readings, mint: Mint, io: Io)
    requires Truthful(w) && GoodMint(mint, t.ensure) && Monotone(t) && MarkerWithin(w, t.ensure)
    ensures var s := Scrape(who, w, t, mint, io);
            s.result.Ok? ==> s.result.value > 0 && Lasts(s.world, t.ensure + s.result.value + 29 * MINUTE)
  {
    var e := EnsureToken(w, t.ensure, 0, mint, io);
    EnsuredTokenLasts(w, t.ensure, mint, io);
    var s := Scrape(who, w, t, mint, io);
    assert e.world.sm == w.sm && s.world.token == e.world.token;
    if w.sm.Some? && SettleRemaining(w.sm.value.annotations, t.plan) > 0 {
      assert SettleRemaining(w.sm.value.annotations, t.plan) <= SETTLE_DELAY;
    }
  }

  // ---------- Runs of an operand ----------

  /**
   The latest start of a punctual next reconcile: 29 minutes after the delay
   that a success returned; a failure keeps the deadline it met, but no longer
   than 30 minutes from its start.
   */
  function DueAfter(due: Option<int>, start: int, r: Result<int>): Option<int> {
    if r.Ok? then Some(start + r.value + 29 * MINUTE)
    else if due.Some? && due.value > start + 30 * MINUTE then Some(start + 30 * MINUTE)
    else due
  }

  /** The deadline after the run; None before the first success. */
  function Due(w: World, events: seq<Event>): Option<int>
    decreases |events|
  {
    if events == [] then None
    else
      var earlier := events[..|events| - 1];
      match events[|events| - 1]
      case Reconcile(inp) => DueAfter(Due(w, earlier), inp.t.ensure, Reconciled(Run(w, earlier), inp).result)
      case _ => Due(w, earlier)
  }

  /**
   Punctual reconciles, which may fail in every way; others may do everything
   but overwrite the token or set a marker further ahead than the reconciler.
   */
  predicate PunctualRun(w: World, events: seq<Event>, start: int)
    decreases |events|
  {
    if events == [] then true
    else
      var earlier := events[..|events| - 1];
      && PunctualRun(w, earlier, start)
      && match events[|events| - 1]
         case Reconcile(inp) =>
           && Clock(earlier, start) <= inp.t.ensure && Monotone(inp.t) && GoodMint(inp.mint, inp.t.ensure)
           && (Due(w, earlier).Some? ==> inp.t.ensure <= Due(w, earlier).value)
         case WriteToken(_, _, _) => false
         case EditSmAnnotations(annotations) => MildEdit(annotations, Clock(earlier, start))
         case _ => true
  }

  /** Whatever fails, the deadline of the next reconcile lies within the validity of the token then held. */
  lemma PunctualStep(w: World, inp: Inputs, due: Option<int>)
    requires Truthful(w) && GoodMint(inp.mint, inp.t.ensure) && Monotone(inp.t) && MarkerWithin(w, inp.t.ensure)
    requires due.Some? && w.token.Some? ==> Lasts(w, due.value)
    ensures Truthful(Reconciled(w, inp).world)
    ensures var r, d := Reconciled(w, inp), DueAfter(due, inp.t.ensure, Reconciled(w, inp).result);
            d.Some? && r.world.token.Some? ==> Lasts(r.world, d.value)
  {
    if inp.early {
      EnsuredTokenLasts(w, inp.t.ensure, inp.mint, inp.io);
      DelayLeavesToken(AsOwner, w, inp.t, inp.mint, inp.io);
      OnlyEnsureChangesSecrets(w, inp);
      ScrapeKeeps(AsOwner, w, inp.t, inp.mint, inp.io);
    }
  }

  lemma {:induction false} PunctualRunKeeps(w: World, events: seq<Event>, start: int)
    requires Truthful(w) && MarkerWithin(w, start) && PunctualRun(w, events, start)
    ensures Truthful(Run(w, events)) && MarkerWithin(Run(w, events), Clock(events, start))
    ensures var d := Due(w, events);
            d.Some? && Run(w, events).token.Some? ==> Lasts(Run(w, events), d.value)
    decreases |events|
  {
    if events != [] {
      var earlier := events[..|events| - 1];
      PunctualRunKeeps(w, earlier, start);
      var before := Run(w, earlier);
      var e := events[|events| - 1];
      if e.Reconcile? {
        var inp := e.inp;
        MarkerStep(before, inp, Clock(earlier, start));
        PunctualStep(before, inp, Due(w, earlier));
      }
    }
  }

  /**
   In such a run the token that is held stays valid up to the next reconcile:
   at every instant until the latest permitted wake-up, hence also when that
   reconcile starts.
   */
  lemma TokenNeverLapses(w: World, events: seq<Event>, start: int, next: Inputs)
    requires Truthful(w) && MarkerWithin(w, start)
    requires PunctualRun(w, events + [Reconcile(next)], start)
    requires Due(w, events).Some? && Run(w, events).token.Some?
    ensures forall x :: x <= Due(w, events).value ==> Lasts(Run(w, events), x)
    ensures Lasts(Run(w, events), next.t.ensure)
  {
    assert (events + [Reconcile(next)])[..|events|] == events;
    PunctualRunKeeps(w, events, start);
  }

  // ---------- Runs of the rotator ----------

  /** How long the rotator waits after a reconcile that returned r. */
  function RotationWait(interval: int, r: Result<int>): (d: int)
    ensures interval <= 0 && (r.Err? || r.value <= 0 || r.value >= 15 * MINUTE) ==> d == 15 * MINUTE
    ensures interval <= 0 && r.Ok? && 0 < r.value <= 15 * MINUTE ==> d == r.value
    ensures interval > 0 ==> 0 < d <= interval && (r.Err? || r.value <= 0 ==> d == interval)
  {
    var wait := if interval > 0 then interval else ROTATION_INTERVAL;
    if r.Ok? && 0 < r.value < wait then r.value else wait
  }

  /** A round of the rotator, or a change by others between two rounds. */
  datatype Beat =
    | Round(early: bool, installed: bool, t: Readings, mint: Mint, io: Io)
    | Other(event: Event)

  function RoundOutcome(w: World, b: Beat): Outcome<int>
    requires b.Round?
  {
    if !b.early then Outcome(w, Err, {}, false) else Scrape(AsRotator(b.installed), w, b.t, b.mint, b.io)
  }

  function Play(w: World, beats: seq<Beat>): World
    decreases |beats|
  {
    if beats == [] then w
    else
      var before := Play(w, beats[..|beats| - 1]);
      match beats[|beats| - 1]
      case Other(e) => Step(before, e)
      case Round(_, _, _, _, _) => RoundOutcome(before, beats[|beats| - 1]).world
  }

  /** How the last round since the first success ended and when the next one starts at the latest. */
  datatype Status = NoRound | RoundOk(wake: int) | RoundFailed(wake: int)

  function StatusOf(w: World, beats: seq<Beat>, lag: nat): Status
    decreases |beats|
  {
    if beats == [] then NoRound
    else
      var earlier := beats[..|beats| - 1];
      match beats[|beats| - 1]
      case Other(_) => StatusOf(w, earlier, lag)
      case Round(_, _, t, _, _) =>
        var r := RoundOutcome(Play(w, earlier), beats[|beats| - 1]).result;
        var wake := t.ensure + RotationWait(0, r) + lag;
        if r.Ok? then RoundOk(wake)
        else if StatusOf(w, earlier, lag).NoRound? then NoRound
        else RoundFailed(wake)
  }

  function BeatClock(beats: seq<Beat>, start: int): int
    decreases |beats|
  {
    if beats == [] then start
    else
      match beats[|beats| - 1]
      case Round(_, _, t, _, _) => t.mark
      case Other(_) => BeatClock(beats[..|beats| - 1], start)
  }

  /**
   A run of the rotator in which, once a round has succeeded, no two in a row
   fail; each round after that starts at most the wait and `lag` after the
   start of the one before; a Secret event may start it earlier.
   */
  predicate RotatorRun(w: World, beats: seq<Beat>, start: int, lag: nat)
    decreases |beats|
  {
    if beats == [] then true
    else
      var earlier := beats[..|beats| - 1];
      && RotatorRun(w, earlier, start, lag)
      && match beats[|beats| - 1]
         case Other(e) =>
           && !e.Reconcile? && !e.WriteToken?
           && (e.EditSmAnnotations? ==> MildEdit(e.annotations, BeatClock(earlier, start)))
         case Round(_, _, t, mint, _) =>
           && BeatClock(earlier, start) <= t.ensure && Monotone(t) && GoodMint(mint, t.ensure)
           && match StatusOf(w, earlier, lag)
              case NoRound => true
              case RoundOk(wake) => t.ensure <= wake
              case RoundFailed(wake) =>
                t.ensure <= wake && RoundOutcome(Play(w, earlier), beats[|beats| - 1]).result.Ok?
  }

  /** The validity left at the latest wake-up: 29 minutes after a success, 14 after a failure, less the lags. */
  predicate LeftAtWake(w: World, status: Status, lag: nat) {
    w.token.None? ||
    match status
    case NoRound => true
    case RoundOk(wake) => Lasts(w, wake + 29 * MINUTE - lag)
    case RoundFailed(wake) => Lasts(w, wake + 14 * MINUTE - 2 * lag)
  }

  /**
   Whenever the rotator wakes, timely or early, after its first success and at
   most one failure in a row, a token that is there has more than 14 minutes
   left, less two lags.
   */
  lemma {:induction false} RotatorTolerates(w: World, beats: seq<Beat>, start: int, lag: nat)
    requires Truthful(w) && MarkerWithin(w, start) && RotatorRun(w, beats, start, lag)
    ensures Truthful(Play(w, beats)) && MarkerWithin(Play(w, beats), BeatClock(beats, start))
    ensures LeftAtWake(Play(w, beats), StatusOf(w, beats, lag), lag)
    decreases |beats|
  {
    if beats != [] {
      var earlier := beats[..|beats| - 1];
      RotatorTolerates(w, earlier, start, lag);
      var before := Play(w, earlier);
      var b := beats[|beats| - 1];
      if b.Round? && b.early {
        MarkerScrape(AsRotator(b.installed), before, b.t, b.mint, b.io, BeatClock(earlier, start));
        ScrapeKeeps(AsRotator(b.installed), before, b.t, b.mint, b.io);
        EnsuredTokenLasts(before, b.t.ensure, b.mint, b.io);
        DelayLeavesToken(AsRotator(b.installed), before, b.t, b.mint, b.io);
      }
    }
  }
}
