/** The annotation nudges on an operand ServiceMonitor and the settle marker. */
module ServiceMonitors {
  import opened Instants
  import opened Tracking

  const SETTLE_DELAY: int := 15 * SECOND

  const TOKEN_MINTED := "token-minted"
  const TOKEN_REFRESHED := "token-refreshed"
  const SECRET_SYNC := "secret-sync"
  const CA_SYNC := "ca-sync"
  const SETTLE_RETRY := "settle-retry"

  /**
   The annotations of a ServiceMonitor: the five resync keys and all others.
   A recorded resource version is 0 when the key is missing or empty. The
   marker value "pending" of older releases is no time, so it is Unparseable.
   */
  datatype Annotations = Annotations(
    resyncAt: Stamp, reason: string, secretRV: nat, caRV: nat, settle: Stamp, others: map<string, string>)

  const NO_ANNOTATIONS := Annotations(Missing, "", 0, 0, Missing, map[])

  datatype ServiceMonitor = ServiceMonitor(labelled: bool, controller: Controller, annotations: Annotations)

  /** What one resync patch is asked to write; version 0 leaves the recorded one alone. */
  datatype ResyncOptions = ResyncOptions(
    force: bool, reason: string, secretRV: nat, caRV: nat, markSettle: bool, clearSettle: bool)

  const NO_RESYNC := ResyncOptions(false, "", 0, 0, false, false)

  predicate SettlePending(ann: Annotations) {
    !ann.settle.Missing?
  }

  /** How long until the settle retry may run; 0 when it is due or nothing is pending. */
  function SettleRemaining(ann: Annotations, now: int): (wait: int)
    ensures wait > 0 <==> ann.settle.At? && now < ann.settle.instant
  {
    match ann.settle
    case At(deadline) => if now >= deadline then 0 else Since(deadline, now)
    case _ => 0
  }

  /** The resync patch is skipped when it is not forced and one was made before. */
  predicate ResyncSkipped(ann: Annotations, opts: ResyncOptions) {
    !opts.force && !opts.markSettle && !ann.resyncAt.Missing?
  }

  /** The annotations after the edit, made with clock readings `at` and `mark`. */
  function Nudge(ann: Annotations, opts: ResyncOptions, at: int, mark: int): Annotations {
    ann.(
      resyncAt := Format(at),
      reason := if opts.reason != "" then opts.reason else ann.reason,
      secretRV := if opts.secretRV != 0 then opts.secretRV else ann.secretRV,
      caRV := if opts.caRV != 0 then opts.caRV else ann.caRV,
      settle :=
        if opts.clearSettle then Missing
        else if opts.markSettle then Format(mark + SETTLE_DELAY)
        else ann.settle)
  }

  /**
   JSON merge patch (section 2 of RFC 7396) from `before` to `after`, applied
   to an object that may have moved on to `live` meanwhile: only keys that
   differ between `before` and `after` are written.
   */
  function MergePatch(before: Annotations, after: Annotations, live: Annotations): Annotations {
    Annotations(
      if after.resyncAt != before.resyncAt then after.resyncAt else live.resyncAt,
      if after.reason != before.reason then after.reason else live.reason,
      if after.secretRV != before.secretRV then after.secretRV else live.secretRV,
      if after.caRV != before.caRV then after.caRV else live.caRV,
      if after.settle != before.settle then after.settle else live.settle,
      map k | k in live.others && !(k in before.others && k !in after.others) :: live.others[k])
  }

  /**
   A nudge never touches a foreign annotation, also when the object changes
   between the read and the patch, and without such a change the patched object
   is the edited one.
   */
  lemma NudgePatchKeepsOthers(before: Annotations, opts: ResyncOptions, at: int, mark: int, live: Annotations)
    ensures MergePatch(before, Nudge(before, opts, at, mark), live).others == live.others
    ensures MergePatch(before, Nudge(before, opts, at, mark), before) == Nudge(before, opts, at, mark)
    ensures opts.secretRV == 0 ==> MergePatch(before, Nudge(before, opts, at, mark), live).secretRV == live.secretRV
    ensures !opts.markSettle && !opts.clearSettle ==>
              MergePatch(before, Nudge(before, opts, at, mark), live).settle == live.settle
  {
    assert MergePatch(before, Nudge(before, opts, at, mark), before).others == before.others;
  }

  /** A deadline written at `mark` still lies ahead then, by at most the settle delay. */
  lemma DeadlineAhead(mark: int)
    ensures Format(mark + SETTLE_DELAY).At?
    ensures mark < Format(mark + SETTLE_DELAY).instant <= mark + SETTLE_DELAY
  {
    assert (mark + SETTLE_DELAY) % SECOND < SECOND;
  }
}
