/** Readiness of the metrics TLS Secret for verified scraping. */
module MetricsTls {
  import opened Options
  import opened Instants
  import opened ScrapeTokens

  const TLS_REQUEUE: int := 15 * SECOND

  /**
   The metrics-server-cert Secret. `verifies` is the verdict of checking the
   leaf against the CA; it may turn without a new resource version, because
   certificates expire.
   */
  datatype TlsSecret = TlsSecret(ca: string, leaf: string, verifies: bool, rv: Version)

  datatype Reason = NoReason | CertMissing | CaEmpty | LeafEmpty | LeafCaMismatch

  /** `caRV` is 0 when there is no Secret. */
  datatype TlsResult = TlsResult(ready: bool, caRV: nat, reason: Reason)

  function EvaluateMetricsScrapeTls(secret: Option<TlsSecret>): (r: TlsResult)
    ensures r.ready <==> r.reason.NoReason?
    ensures r.ready <==> secret.Some? && secret.value.ca != "" && secret.value.leaf != "" && secret.value.verifies
    ensures r.reason.CertMissing? <==> secret.None?
    ensures r.reason.CaEmpty? <==> secret.Some? && secret.value.ca == ""
    ensures r.reason.LeafEmpty? <==> secret.Some? && secret.value.leaf == "" && secret.value.ca != ""
    ensures r.caRV == (if secret.Some? then secret.value.rv else 0)
  {
    match secret
    case None => TlsResult(false, 0, CertMissing)
    case Some(s) =>
      if s.ca == "" then TlsResult(false, s.rv, CaEmpty)
      else if s.leaf == "" then TlsResult(false, s.rv, LeafEmpty)
      else if !s.verifies then TlsResult(false, s.rv, LeafCaMismatch)
      else TlsResult(true, s.rv, NoReason)
  }
}
