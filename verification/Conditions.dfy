/** Status conditions: setting one, copying those of a sub-resource, aggregating readiness. */
module Conditions {
  import opened Instants
  import opened KeyedLists
  import opened Options
  import opened Text

  datatype Status = IsTrue | IsFalse | IsUnknown

  /** `since` is the last transition time and `generation` the observed generation. */
  datatype Condition = Condition(
    kind: string, status: Status, reason: string, message: string, generation: int, since: int)

  const READY := "Ready"
  const CERT_MANAGER_AVAILABLE := "CertManagerAvailable"

  function Kind(c: Condition): string {
    c.kind
  }

  /** The condition that setting c leaves, over the one that was there. */
  function Updated(prior: Option<Condition>, generation: int, c: Condition, now: int): Condition {
    var kept := prior.Some? && prior.value.status == c.status;
    c.(generation := generation, since := if kept then prior.value.since else now)
  }

  /** Setting a condition: the transition time moves only when the status does. */
  function Set(list: seq<Condition>, generation: int, c: Condition, now: int): seq<Condition> {
    Put(list, Kind, Updated(Find(list, Kind, c.kind), generation, c, now))
  }

  lemma FindSet(list: seq<Condition>, generation: int, c: Condition, now: int, kind: string)
    ensures Find(Set(list, generation, c, now), Kind, kind)
            == if kind == c.kind then Some(Updated(Find(list, Kind, kind), generation, c, now))
               else Find(list, Kind, kind)
  {
    FindPut(list, Kind, Updated(Find(list, Kind, c.kind), generation, c, now), kind);
  }

  function SetAll(list: seq<Condition>, generation: int, cs: seq<Condition>, now: int): seq<Condition>
    decreases |cs|
  {
    if cs == [] then list
    else Set(SetAll(list, generation, cs[..|cs| - 1], now), generation, cs[|cs| - 1], now)
  }

  /** The conditions whose kind is to be kept, in order. */
  function KeepKinds(list: seq<Condition>, keep: string -> bool): seq<Condition>
    decreases |list|
  {
    if list == [] then []
    else
      var last := list[|list| - 1];
      KeepKinds(list[..|list| - 1], keep) + if keep(last.kind) then [last] else []
  }

  lemma {:induction false} FindKeepKinds(list: seq<Condition>, keep: string -> bool, kind: string)
    ensures Find(KeepKinds(list, keep), Kind, kind) == if keep(kind) then Find(list, Kind, kind) else None
    decreases |list|
  {
    if list != [] {
      var n := |list| - 1;
      FindKeepKinds(list[..n], keep, kind);
      FindAppend(list[..n], Kind, list[n], kind);
      FindAppend(KeepKinds(list[..n], keep), Kind, list[n], kind);
      assert list == list[..n] + [list[n]];
      assert KeepKinds(list[..n], keep) + [] == KeepKinds(list[..n], keep);
    }
  }

  /** Every condition of the kind has the status of the prior one. */
  predicate StatusKept(prior: Option<Condition>, cs: seq<Condition>, kind: string) {
    prior.Some? && forall i :: 0 <= i < |cs| && cs[i].kind == kind ==> cs[i].status == prior.value.status
  }

  /** What setting all of cs leaves under a kind: the last of that kind; its time moves unless every status was kept. */
  function Latest(
    prior: Option<Condition>, generation: int, cs: seq<Condition>, now: int, kind: string): Option<Condition> {
    match Last(cs, Kind, kind)
    case None => prior
    case Some(c) =>
      Some(c.(generation := generation, since := if StatusKept(prior, cs, kind) then prior.value.since else now))
  }

  lemma {:induction false} FindSetAll(list: seq<Condition>, generation: int, cs: seq<Condition>, now: int, kind: string)
    ensures Find(SetAll(list, generation, cs, now), Kind, kind)
            == Latest(Find(list, Kind, kind), generation, cs, now, kind)
    decreases |cs|
  {
    if cs != [] {
      var n := |cs| - 1;
      FindSetAll(list, generation, cs[..n], now, kind);
      FindSet(SetAll(list, generation, cs[..n], now), generation, cs[n], now, kind);
      StatusKeptStep(Find(list, Kind, kind), cs, kind);
      StatusOfLast(cs[..n], kind);
    }
  }

  lemma StatusKeptStep(prior: Option<Condition>, cs: seq<Condition>, kind: string)
    requires cs != []
    ensures var n := |cs| - 1;
            StatusKept(prior, cs, kind)
            <==> StatusKept(prior, cs[..n], kind) && (cs[n].kind == kind ==> cs[n].status == prior.value.status)
  {
    var n := |cs| - 1;
    assert forall i :: 0 <= i < n ==> cs[..n][i] == cs[i];
  }

  lemma StatusOfLast(cs: seq<Condition>, kind: string)
    ensures Last(cs, Kind, kind).Some? ==>
            exists i :: 0 <= i < |cs| && cs[i].kind == kind && cs[i] == Last(cs, Kind, kind).value
  {
  }

  predicate IsConditionTrue(list: seq<Condition>, kind: string) {
    var c := Find(list, Kind, kind);
    c.Some? && c.value.status.IsTrue?
  }

  /** The first condition of the kind is there and true. */
  predicate FirstIsTrue(list: seq<Condition>, kind: string) {
    exists i :: 0 <= i < |list| && list[i].kind == kind && list[i].status.IsTrue?
                && forall j :: 0 <= j < i ==> list[j].kind != kind
  }

  lemma TrueIsFirst(list: seq<Condition>, kind: string)
    ensures IsConditionTrue(list, kind) <==> FirstIsTrue(list, kind)
  {
    var i := IndexOf(list, Kind, kind);
    assert forall j :: 0 <= j < i ==> Kind(list[j]) != kind;
    assert i < |list| ==> Kind(list[i]) == kind;
    if FirstIsTrue(list, kind) {
      var m :| 0 <= m < |list| && list[m].kind == kind && list[m].status.IsTrue?
               && forall j :: 0 <= j < m ==> list[j].kind != kind;
      assert Kind(list[m]) == kind;
      assert i == m;
    }
  }

  // ---------- Copying the conditions of a sub-resource ----------

  /** A sub-resource: the prefix of its conditions in the parent, and its conditions. */
  datatype SubResource = SubResource(prefix: string, conditions: seq<Condition>)

  predicate Under(kind: string, prefix: string) {
    prefix + "." <= kind
  }

  function Image(prefix: string, c: Condition): Condition {
    c.(kind := prefix + "." + SlashesToDots(c.kind))
  }

  function Images(sub: SubResource): seq<Condition> {
    seq(|sub.conditions|, i requires 0 <= i < |sub.conditions| => Image(sub.prefix, sub.conditions[i]))
  }

  function KindsOf(cs: seq<Condition>): set<string> {
    set c | c in cs :: c.kind
  }

  /** Copies the images and drops stale conditions under the prefix. */
  function Copied(list: seq<Condition>, generation: int, sub: SubResource, now: int): seq<Condition> {
    var updated := KindsOf(Images(sub));
    KeepKinds(SetAll(list, generation, Images(sub), now), kind => !(Under(kind, sub.prefix) && kind !in updated))
  }

  function CopiedAll(list: seq<Condition>, generation: int, subs: seq<SubResource>, now: int): seq<Condition>
    decreases |subs|
  {
    if subs == [] then list
    else Copied(CopiedAll(list, generation, subs[..|subs| - 1], now), generation, subs[|subs| - 1], now)
  }

  /**
   What the parent shows of a sub-resource under a kind, when it showed `prior`:
   the last condition with that image.
   */
  function Shown(
    prior: Option<Condition>, sub: SubResource, generation: int, now: int, kind: string): Option<Condition> {
    if Last(Images(sub), Kind, kind).None? then None else Latest(prior, generation, Images(sub), now, kind)
  }

  /**
   Under the prefix exactly the images remain, the last of each kind, with
   their times kept unless the status moved; every other condition is left
   alone.
   */
  lemma CopiedSays(list: seq<Condition>, generation: int, sub: SubResource, now: int, kind: string)
    ensures Find(Copied(list, generation, sub, now), Kind, kind)
            == if Under(kind, sub.prefix) then Shown(Find(list, Kind, kind), sub, generation, now, kind)
               else Find(list, Kind, kind)
  {
    var images := Images(sub);
    var updated := KindsOf(images);
    FindSetAll(list, generation, images, now, kind);
    FindKeepKinds(SetAll(list, generation, images, now), kind => !(Under(kind, sub.prefix) && kind !in updated), kind);
    var last := Last(images, Kind, kind);
    if last.Some? {
      assert last.value in images && last.value.kind in updated;
      var i :| 0 <= i < |images| && images[i] == last.value;
      assert images[i].kind == sub.prefix + "." + SlashesToDots(sub.conditions[i].kind);
    } else {
      assert kind !in updated;
    }
  }

  /**
   Each condition of the sub-resource that no later one of the same sanitised
   kind replaces is shown field by field, with the parent's generation.
   */
  lemma CopiedEach(list: seq<Condition>, generation: int, sub: SubResource, now: int, i: nat)
    requires i < |sub.conditions|
    requires forall j :: i < j < |sub.conditions| ==>
               SlashesToDots(sub.conditions[j].kind) != SlashesToDots(sub.conditions[i].kind)
    ensures var c := sub.conditions[i];
            var kind := sub.prefix + "." + SlashesToDots(c.kind);
            var r := Find(Copied(list, generation, sub, now), Kind, kind);
            && r.Some? && r.value.kind == kind && r.value.status == c.status
            && r.value.reason == c.reason && r.value.message == c.message && r.value.generation == generation
  {
    var kind := sub.prefix + "." + SlashesToDots(sub.conditions[i].kind);
    var images := Images(sub);
    forall j | i < j < |images|
      ensures images[j].kind != kind
    {
      assert images[j].kind[|sub.prefix| + 1..] == SlashesToDots(sub.conditions[j].kind);
      assert kind[|sub.prefix| + 1..] == SlashesToDots(sub.conditions[i].kind);
    }
    LastAt(images, i, kind);
    CopiedSays(list, generation, sub, now, kind);
  }

  lemma {:induction false} LastAt(cs: seq<Condition>, i: nat, kind: string)
    requires i < |cs| && cs[i].kind == kind && forall j :: i < j < |cs| ==> cs[j].kind != kind
    ensures Last(cs, Kind, kind) == Some(cs[i])
    decreases |cs|
  {
    if i < |cs| - 1 {
      LastAt(cs[..|cs| - 1], i, kind);
    }
  }

  predicate DotFree(prefix: string) {
    '.' !in prefix
  }

  /** Prefixes without a dot do not share a kind. */
  lemma PrefixesApart(kind: string, p: string, q: string)
    requires DotFree(p) && DotFree(q) && Under(kind, p) && Under(kind, q)
    ensures p == q
  {
    assert kind[|p|] == '.' == kind[|q|];
    assert forall j :: 0 <= j < |p| ==> kind[j] == p[j] && p[j] in p;
    assert forall j :: 0 <= j < |q| ==> kind[j] == q[j] && q[j] in q;
    assert |p| == |q|;
    assert p == kind[..|p|] == q;
  }

  predicate DistinctPrefixes(subs: seq<SubResource>) {
    && (forall i :: 0 <= i < |subs| ==> DotFree(subs[i].prefix))
    && (forall i, j :: 0 <= i < j < |subs| ==> subs[i].prefix != subs[j].prefix)
  }

  /** The last sub-resource whose prefix covers the kind, or -1. */
  function Owner(subs: seq<SubResource>, kind: string): (i: int)
    ensures -1 <= i < |subs|
    ensures i >= 0 ==> Under(kind, subs[i].prefix)
    ensures forall j :: i < j < |subs| ==> !Under(kind, subs[j].prefix)
    decreases |subs|
  {
    if subs == [] then -1
    else if Under(kind, subs[|subs| - 1].prefix) then |subs| - 1
    else Owner(subs[..|subs| - 1], kind)
  }

  /**
   After copying every sub-resource, each kind under some prefix shows exactly
   what its owner has, over what those before it left, and all other kinds are
   as they were.
   */
  lemma {:induction false} CopiedAllSays(
    list: seq<Condition>, generation: int, subs: seq<SubResource>, now: int, kind: string)
    ensures var r, i := Find(CopiedAll(list, generation, subs, now), Kind, kind), Owner(subs, kind);
            if i < 0 then r == Find(list, Kind, kind)
            else
              var before := Find(CopiedAll(list, generation, subs[..i], now), Kind, kind);
              r == Shown(before, subs[i], generation, now, kind)
    decreases |subs|
  {
    if subs != [] {
      var n := |subs| - 1;
      CopiedAllSays(list, generation, subs[..n], now, kind);
      CopiedSays(CopiedAll(list, generation, subs[..n], now), generation, subs[n], now, kind);
      var i := Owner(subs, kind);
      assert 0 <= i < n ==> subs[..n][..i] == subs[..i];
    }
  }

  /** When prefixes are distinct and without dots, the owner's conditions are shown over what was there at the start. */
  lemma CopiedAllDistinct(list: seq<Condition>, generation: int, subs: seq<SubResource>, now: int, kind: string)
    requires DistinctPrefixes(subs)
    ensures var r, i := Find(CopiedAll(list, generation, subs, now), Kind, kind), Owner(subs, kind);
            r == if i < 0 then Find(list, Kind, kind) else Shown(Find(list, Kind, kind), subs[i], generation, now, kind)
  {
    CopiedAllSays(list, generation, subs, now, kind);
    var i := Owner(subs, kind);
    if i >= 0 {
      CopiedAllSays(list, generation, subs[..i], now, kind);
      var j := Owner(subs[..i], kind);
      if j >= 0 {
        PrefixesApart(kind, subs[i].prefix, subs[j].prefix);
        assert false;
      }
    }
  }

  /**
   With distinct prefixes without dots, a kind has one owner wherever it
   stands, so the copying order does not matter: every kind shows the same,
   transition times included.
   */
  lemma CopyOrderIrrelevant(
    list: seq<Condition>, generation: int, subs: seq<SubResource>, others: seq<SubResource>, now: int, kind: string)
    requires DistinctPrefixes(subs) && DistinctPrefixes(others)
    requires forall s :: s in subs <==> s in others
    ensures Find(CopiedAll(list, generation, subs, now), Kind, kind)
            == Find(CopiedAll(list, generation, others, now), Kind, kind)
  {
    CopiedAllDistinct(list, generation, subs, now, kind);
    CopiedAllDistinct(list, generation, others, now, kind);
    var i, j := Owner(subs, kind), Owner(others, kind);
    assert j >= 0 ==> others[j] in subs;
    assert i < 0 ==> forall s :: s in subs ==> !Under(kind, s.prefix);
    if i >= 0 {
      assert subs[i] in others;
      var m :| 0 <= m < |others| && others[m] == subs[i];
      assert j >= 0;
      PrefixesApart(kind, others[m].prefix, others[j].prefix);
      assert m == j;
    }
  }

  // ---------- Aggregated readiness ----------

  datatype SubStatus = SubStatus(name: string, ready: bool)

  function StatusesOf(subs: seq<SubResource>): seq<SubStatus> {
    seq(|subs|, i requires 0 <= i < |subs| => SubStatus(subs[i].prefix, IsConditionTrue(subs[i].conditions, READY)))
  }

  lemma CopiedOneMore(list: seq<Condition>, generation: int, subs: seq<SubResource>, i: nat, now: int)
    requires i < |subs|
    ensures CopiedAll(list, generation, subs[..i + 1], now)
            == Copied(CopiedAll(list, generation, subs[..i], now), generation, subs[i], now)
    ensures StatusesOf(subs[..i + 1])
            == StatusesOf(subs[..i]) + [SubStatus(subs[i].prefix, IsConditionTrue(subs[i].conditions, READY))]
  {
    assert subs[..i + 1][..i] == subs[..i];
  }

  function NotReadyReasons(statuses: seq<SubStatus>): (reasons: seq<string>)
    ensures reasons == [] <==> forall i :: 0 <= i < |statuses| ==> statuses[i].ready
    decreases |statuses|
  {
    if statuses == [] then []
    else
      var last := statuses[|statuses| - 1];
      NotReadyReasons(statuses[..|statuses| - 1]) + if last.ready then [] else [last.name + " is not ready"]
  }

  function AggregatedReady(statuses: seq<SubStatus>): Condition {
    if NotReadyReasons(statuses) == [] then
      Condition(READY, IsTrue, "AllComponentsReady", "All " + Decimal(|statuses|) + " components are ready", 0, 0)
    else Condition(READY, IsFalse, "ComponentsNotReady", Join(NotReadyReasons(statuses), "; "), 0, 0)
  }

  /** The answer to whether the cert-manager resource definitions are there. */
  datatype CertManager = Installed | NotInstalled | CheckFails(error: string)

  const CERT_MANAGER_ADVICE :=
    "cert-manager CRDs are not installed. "
    + "Several Konflux components require cert-manager to create Certificate resources for TLS. "
    + "Please install cert-manager before proceeding."

  const CERT_MANAGER_MISSING :=
    "cert-manager CRDs are not installed. " + "Some components require cert-manager to function properly."

  function CertManagerCondition(cm: CertManager): Condition {
    match cm
    case Installed =>
      Condition(CERT_MANAGER_AVAILABLE, IsTrue, "CertManagerInstalled", "cert-manager CRDs are installed", 0, 0)
    case NotInstalled =>
      Condition(CERT_MANAGER_AVAILABLE, IsFalse, "CertManagerNotInstalled", CERT_MANAGER_ADVICE, 0, 0)
    case CheckFails(error) =>
      Condition(CERT_MANAGER_AVAILABLE, IsUnknown, "CertManagerInstallationCheckFailed",
        "Failed to check cert-manager availability: " + error, 0, 0)
  }

  /** How soon to look again; 0 for not at all. */
  function CertManagerRequeue(cm: CertManager): int {
    match cm
    case Installed => 0
    case NotInstalled => MINUTE
    case CheckFails(_) => 30 * SECOND
  }

  /** A dependency whose explicit absence overrides readiness. */
  datatype Dependency = Dependency(kind: string, reason: string, message: string)

  const CERT_MANAGER_DEPENDENCY := Dependency(
    CERT_MANAGER_AVAILABLE, "CertManagerNotInstalled", CERT_MANAGER_MISSING)

  predicate ExplicitlyFalse(list: seq<Condition>, kind: string) {
    var c := Find(list, Kind, kind);
    c.Some? && c.value.status.IsFalse?
  }

  /** The first dependency that is explicitly false, or the number of dependencies. */
  function FirstFalse(list: seq<Condition>, deps: seq<Dependency>): (i: nat)
    ensures i <= |deps|
    ensures i < |deps| ==> ExplicitlyFalse(list, deps[i].kind)
    ensures forall j :: 0 <= j < i ==> !ExplicitlyFalse(list, deps[j].kind)
  {
    if deps == [] || ExplicitlyFalse(list, deps[0].kind) then 0 else 1 + FirstFalse(list, deps[1..])
  }

  function Overridden(list: seq<Condition>, generation: int, deps: seq<Dependency>, now: int): seq<Condition> {
    var i := FirstFalse(list, deps);
    if i == |deps| then list
    else Set(list, generation, Condition(READY, IsFalse, deps[i].reason, deps[i].message, 0, 0), now)
  }

  /** Sets readiness and the state of cert-manager, whose absence overrides readiness. */
  function WithReadiness(
    list: seq<Condition>, generation: int, ready: Condition, cert: Condition, now: int): seq<Condition> {
    var checked := Set(Set(list, generation, ready, now), generation, cert, now);
    Overridden(checked, generation, [CERT_MANAGER_DEPENDENCY], now)
  }

  /** The conditions after the whole status collection of the parent. */
  function Collected(
    list: seq<Condition>, generation: int, subs: seq<SubResource>, cm: CertManager, now: int): seq<Condition> {
    WithReadiness(
      CopiedAll(list, generation, subs, now), generation,
      AggregatedReady(StatusesOf(subs)), CertManagerCondition(cm), now)
  }

  /**
   The parent ends up ready exactly when every sub-resource is ready and
   cert-manager is not known to be missing: in each list the first condition of
   the kind Ready is there and true.
   */
  lemma CollectedReady(list: seq<Condition>, generation: int, subs: seq<SubResource>, cm: CertManager, now: int)
    ensures var r := Collected(list, generation, subs, cm, now);
            (exists i :: 0 <= i < |r| && r[i].kind == READY && r[i].status.IsTrue?
                         && forall j :: 0 <= j < i ==> r[j].kind != READY)
            <==> (forall s :: s in subs ==>
                    exists i :: 0 <= i < |s.conditions|
                                && s.conditions[i].kind == READY && s.conditions[i].status.IsTrue?
                                && forall j :: 0 <= j < i ==> s.conditions[j].kind != READY)
                 && !cm.NotInstalled?
    ensures FirstIsTrue(Collected(list, generation, subs, cm, now), READY)
            <==> (forall s :: s in subs ==> FirstIsTrue(s.conditions, READY)) && !cm.NotInstalled?
  {
    AllReady(subs);
    ReadyAfterChecks(CopiedAll(list, generation, subs, now), generation, AggregatedReady(StatusesOf(subs)), cm, now);
    TrueIsFirst(Collected(list, generation, subs, cm, now), READY);
  }

  /** What is shown: the missing dependency, else the aggregate; and always the answer about cert-manager. */
  lemma CollectedSays(list: seq<Condition>, generation: int, subs: seq<SubResource>, cm: CertManager, now: int)
    ensures var r := Find(Collected(list, generation, subs, cm, now), Kind, READY);
            && r.Some? && r.value.generation == generation
            && (if cm.NotInstalled? then r.value.reason == CERT_MANAGER_DEPENDENCY.reason && r.value.status.IsFalse?
                else r.value.reason == AggregatedReady(StatusesOf(subs)).reason
                     && r.value.message == AggregatedReady(StatusesOf(subs)).message)
    ensures var r := Find(Collected(list, generation, subs, cm, now), Kind, CERT_MANAGER_AVAILABLE);
            && r.Some? && r.value.generation == generation
            && r.value.status == (if cm.Installed? then IsTrue else if cm.NotInstalled? then IsFalse else IsUnknown)
            && r.value.reason == CertManagerCondition(cm).reason
  {
    AllReady(subs);
    CertManagerSays(cm);
    var copied, ready := CopiedAll(list, generation, subs, now), AggregatedReady(StatusesOf(subs));
    var cert := CertManagerCondition(cm);
    FindFinal(copied, generation, ready, cert, CERT_MANAGER_DEPENDENCY, now, READY);
    FindFinal(copied, generation, ready, cert, CERT_MANAGER_DEPENDENCY, now, CERT_MANAGER_AVAILABLE);
  }

  /** The reasons are one text for each that is not ready, in order. */
  lemma {:induction false} NotReadyConcat(a: seq<SubStatus>, b: seq<SubStatus>)
    ensures NotReadyReasons(a + b) == NotReadyReasons(a) + NotReadyReasons(b)
    decreases |b|
  {
    if b == [] {
      assert a + b == a;
    } else {
      NotReadyConcat(a, b[..|b| - 1]);
      assert (a + b)[..|a + b| - 1] == a + b[..|b| - 1];
    }
  }

  lemma AggregatedSays(statuses: seq<SubStatus>, name: string)
    ensures NotReadyReasons([SubStatus(name, false)]) == [name + " is not ready"]
    ensures NotReadyReasons([SubStatus(name, true)]) == []
    ensures var r := AggregatedReady(statuses);
            && r.kind == "Ready"
            && (r.status.IsTrue? <==> forall i :: 0 <= i < |statuses| ==> statuses[i].ready)
            && (if r.status.IsTrue? then
                  && r.reason == "AllComponentsReady"
                  && r.message == "All " + Decimal(|statuses|) + " components are ready"
                else
                  && r.status.IsFalse? && r.reason == "ComponentsNotReady"
                  && r.message == Join(NotReadyReasons(statuses), "; "))
  {
    assert [SubStatus(name, false)][..0] == [] && [SubStatus(name, true)][..0] == [];
  }

  lemma AllReady(subs: seq<SubResource>)
    ensures AggregatedReady(StatusesOf(subs)).status.IsTrue?
            <==> forall s :: s in subs ==> FirstIsTrue(s.conditions, READY)
    ensures AggregatedReady(StatusesOf(subs)).kind == READY
  {
    forall s | s in subs
      ensures IsConditionTrue(s.conditions, READY) <==> FirstIsTrue(s.conditions, READY)
    {
      TrueIsFirst(s.conditions, READY);
    }
    assert forall i :: 0 <= i < |subs| ==> StatusesOf(subs)[i].ready == IsConditionTrue(subs[i].conditions, READY);
    assert forall s :: s in subs ==> exists i :: 0 <= i < |subs| && subs[i] == s;
  }

  lemma ReadyAfterChecks(copied: seq<Condition>, generation: int, ready: Condition, cm: CertManager, now: int)
    requires ready.kind == READY
    ensures var final := WithReadiness(copied, generation, ready, CertManagerCondition(cm), now);
            && Find(final, Kind, READY).Some?
            && (IsConditionTrue(final, READY) <==> ready.status.IsTrue? && !cm.NotInstalled?)
  {
    CertManagerSays(cm);
    FindFinal(copied, generation, ready, CertManagerCondition(cm), CERT_MANAGER_DEPENDENCY, now, READY);
  }

  lemma CertManagerSays(cm: CertManager)
    ensures CertManagerCondition(cm).kind == CERT_MANAGER_AVAILABLE == CERT_MANAGER_DEPENDENCY.kind
    ensures CertManagerCondition(cm).status
            == (if cm.Installed? then IsTrue else if cm.NotInstalled? then IsFalse else IsUnknown)
    ensures CertManagerCondition(cm).reason
            == (if cm.Installed? then "CertManagerInstalled"
                else if cm.NotInstalled? then "CertManagerNotInstalled"
                else "CertManagerInstallationCheckFailed")
    ensures cm.CheckFails? ==>
              CertManagerCondition(cm).message == "Failed to check cert-manager availability: " + cm.error
  {
  }

  /** Every kind but Ready and CertManagerAvailable is what copying left. */
  lemma CollectedOthers(
    list: seq<Condition>, generation: int, subs: seq<SubResource>, cm: CertManager, now: int, kind: string)
    requires kind != READY && kind != CERT_MANAGER_AVAILABLE
    ensures Find(Collected(list, generation, subs, cm, now), Kind, kind)
            == Find(CopiedAll(list, generation, subs, now), Kind, kind)
  {
    AllReady(subs);
    var copied := CopiedAll(list, generation, subs, now);
    OthersAfterChecks(copied, generation, AggregatedReady(StatusesOf(subs)), cm, now, kind);
  }

  lemma OthersAfterChecks(
    copied: seq<Condition>, generation: int, ready: Condition, cm: CertManager, now: int, kind: string)
    requires ready.kind == READY && kind != READY && kind != CERT_MANAGER_AVAILABLE
    ensures Find(WithReadiness(copied, generation, ready, CertManagerCondition(cm), now), Kind, kind)
            == Find(copied, Kind, kind)
  {
    CertManagerSays(cm);
    FindFinal(copied, generation, ready, CertManagerCondition(cm), CERT_MANAGER_DEPENDENCY, now, kind);
  }

  lemma FindFinal(
    list: seq<Condition>, generation: int, ready: Condition, cert: Condition, dep: Dependency, now: int, kind: string)
    requires ready.kind == READY && cert.kind == CERT_MANAGER_AVAILABLE == dep.kind
    ensures var checked := Set(Set(list, generation, ready, now), generation, cert, now);
            var final := Overridden(checked, generation, [dep], now);
            var r := Find(final, Kind, kind);
            && (kind == READY ==>
                 && r.Some? && r.value.generation == generation
                 && (if cert.status.IsFalse? then
                       r.value.status.IsFalse? && r.value.reason == dep.reason && r.value.message == dep.message
                     else
                       && r.value.status == ready.status
                       && r.value.reason == ready.reason && r.value.message == ready.message))
            && (kind == CERT_MANAGER_AVAILABLE ==>
                 && r.Some? && r.value.generation == generation
                 && r.value.status == cert.status && r.value.reason == cert.reason && r.value.message == cert.message)
            && (kind != READY && kind != CERT_MANAGER_AVAILABLE ==> r == Find(list, Kind, kind))
  {
    var checked := Set(Set(list, generation, ready, now), generation, cert, now);
    FindChecked(list, generation, ready, cert, now, kind);
    FindChecked(list, generation, ready, cert, now, CERT_MANAGER_AVAILABLE);
    assert [dep][0] == dep;
    FindOverridden(checked, generation, [dep], now, kind);
  }

  lemma FindChecked(list: seq<Condition>, generation: int, ready: Condition, cert: Condition, now: int, kind: string)
    requires ready.kind == READY && cert.kind == CERT_MANAGER_AVAILABLE
    ensures var r := Find(Set(Set(list, generation, ready, now), generation, cert, now), Kind, kind);
            && (kind == READY ==> r == Some(Updated(Find(list, Kind, READY), generation, ready, now)))
            && (kind == CERT_MANAGER_AVAILABLE ==>
                 r == Some(Updated(Find(list, Kind, CERT_MANAGER_AVAILABLE), generation, cert, now)))
            && (kind != READY && kind != CERT_MANAGER_AVAILABLE ==> r == Find(list, Kind, kind))
  {
    FindSet(list, generation, ready, now, kind);
    FindSet(Set(list, generation, ready, now), generation, cert, now, kind);
  }

  /** The first dependency that is explicitly false sets Ready to false with its reason, and nothing else changes. */
  lemma FindOverridden(list: seq<Condition>, generation: int, deps: seq<Dependency>, now: int, kind: string)
    ensures var r := Find(Overridden(list, generation, deps, now), Kind, kind);
            if kind == READY && exists d :: d in deps && ExplicitlyFalse(list, d.kind) then
              exists i :: 0 <= i < |deps| && ExplicitlyFalse(list, deps[i].kind)
                          && (forall j :: 0 <= j < i ==> !ExplicitlyFalse(list, deps[j].kind))
                          && r.Some? && r.value.kind == READY
                          && r.value.status.IsFalse? && r.value.generation == generation
                          && r.value.reason == deps[i].reason && r.value.message == deps[i].message
            else r == Find(list, Kind, kind)
  {
    var i := FirstFalse(list, deps);
    if i < |deps| {
      assert deps[i] in deps && ExplicitlyFalse(list, deps[i].kind);
      FindSet(list, generation, Condition(READY, IsFalse, deps[i].reason, deps[i].message, 0, 0), now, kind);
    } else {
      assert forall d :: d in deps ==> exists j :: 0 <= j < |deps| && deps[j] == d;
    }
  }

  // ---------- Component statuses ----------

  /** A condition in the status of a deployment. */
  datatype Problem = Problem(kind: string, status: Status, reason: string, message: string)

  datatype Deployment = Deployment(
    namespace: string, name: string, readyReplicas: nat, replicas: nat, updatedReplicas: nat, problems: seq<Problem>)

  predicate IsDeploymentReady(d: Deployment) {
    d.readyReplicas == d.replicas && d.replicas > 0 && d.updatedReplicas == d.replicas
  }

  function Fraction(part: nat, whole: nat): string {
    Decimal(part) + "/" + Decimal(whole)
  }

  function WithProblem(text: string, p: Problem): string {
    if p.kind == "Progressing" && p.status.IsFalse? then text + " - " + p.reason + ": " + p.message
    else if p.kind == "ReplicaFailure" && p.status.IsTrue? then text + " - ReplicaFailure: " + p.message
    else text
  }

  function WithProblems(text: string, problems: seq<Problem>): string
    decreases |problems|
  {
    if problems == [] then text
    else WithProblem(WithProblems(text, problems[..|problems| - 1]), problems[|problems| - 1])
  }

  function ReplicasReady(d: Deployment): string {
    "Deployment has " + Fraction(d.readyReplicas, d.replicas) + " replicas ready"
  }

  function Progress(d: Deployment): string {
    "Ready: " + Fraction(d.readyReplicas, d.replicas) + ", Updated: " + Fraction(d.updatedReplicas, d.replicas)
  }

  function DeploymentCondition(d: Deployment): Condition {
    var kind := d.namespace + "/" + d.name;
    if IsDeploymentReady(d) then
      Condition(kind, IsTrue, "DeploymentReady", ReplicasReady(d), 0, 0)
    else Condition(kind, IsFalse, "DeploymentNotReady", WithProblems(Progress(d), d.problems), 0, 0)
  }

  function DeploymentConditions(ds: seq<Deployment>): seq<Condition> {
    seq(|ds|, i requires 0 <= i < |ds| => DeploymentCondition(ds[i]))
  }

  /** The condition of a deployment, field by field. */
  lemma DeploymentSays(d: Deployment)
    ensures var c := DeploymentCondition(d);
            var ready := d.readyReplicas == d.replicas && d.replicas > 0 && d.updatedReplicas == d.replicas;
            && c.kind == d.namespace + "/" + d.name
            && c.status == (if ready then IsTrue else IsFalse)
            && c.reason == (if ready then "DeploymentReady" else "DeploymentNotReady")
            && (ready ==>
                 c.message == "Deployment has " + Decimal(d.replicas) + "/" + Decimal(d.replicas) + " replicas ready")
            && (!ready && d.problems == [] ==>
                 c.message == "Ready: " + Decimal(d.readyReplicas) + "/" + Decimal(d.replicas)
                              + ", Updated: " + Decimal(d.updatedReplicas) + "/" + Decimal(d.replicas))
  {
    assert d.problems == [] ==> WithProblems(Progress(d), d.problems) == Progress(d);
    var ready, updated := Fraction(d.readyReplicas, d.replicas), Decimal(d.updatedReplicas);
    TextsJoin("Ready: ", ready, ", Updated: ", updated, Decimal(d.replicas));
    TextsSplit("Ready: ", Decimal(d.readyReplicas), Decimal(d.replicas));
    TextsSplit("Deployment has ", Decimal(d.readyReplicas), Decimal(d.replicas));
  }

  lemma TextsJoin(a: string, b: string, c: string, d: string, e: string)
    ensures a + b + c + (d + "/" + e) == a + b + c + d + "/" + e
  {
  }

  lemma TextsSplit(a: string, b: string, c: string)
    ensures a + (b + "/" + c) == a + b + "/" + c
  {
  }

  /** A further problem adds to the text when progress stopped or a replica failed, and else nothing. */
  lemma OneMoreProblem(text: string, problems: seq<Problem>, p: Problem)
    ensures WithProblems(text, problems + [p])
            == WithProblems(text, problems)
               + (if p.kind == "Progressing" && p.status.IsFalse? then " - " + p.reason + ": " + p.message
                  else if p.kind == "ReplicaFailure" && p.status.IsTrue? then " - ReplicaFailure: " + p.message
                  else "")
  {
    assert (problems + [p])[..|problems|] == problems;
    var before := WithProblems(text, problems);
    assert before + " - " + p.reason + ": " + p.message == before + (" - " + p.reason + ": " + p.message);
    assert before + " - ReplicaFailure: " + p.message == before + (" - ReplicaFailure: " + p.message);
    assert before + "" == before;
  }

  method MakeDeploymentCondition(d: Deployment) returns (c: Condition)
    ensures c == DeploymentCondition(d)
  {
    var kind := d.namespace + "/" + d.name;
    if IsDeploymentReady(d) {
      return Condition(kind, IsTrue, "DeploymentReady", ReplicasReady(d), 0, 0);
    }
    var message := Progress(d);
    for i := 0 to |d.problems|
      invariant message == WithProblems(Progress(d), d.problems[..i])
    {
      assert d.problems[..i + 1][..i] == d.problems[..i];
      message := WithProblem(message, d.problems[i]);
    }
    assert d.problems[..|d.problems|] == d.problems;
    return Condition(kind, IsFalse, "DeploymentNotReady", message, 0, 0);
  }

  function NotReadyNames(ds: seq<Deployment>): (names: seq<string>)
    ensures names == [] <==> forall d :: d in ds ==> IsDeploymentReady(d)
    decreases |ds|
  {
    if ds == [] then []
    else
      var n := |ds| - 1;
      assert ds == ds[..n] + [ds[n]];
      NotReadyNames(ds[..n]) + if IsDeploymentReady(ds[n]) then [] else [ds[n].name]
  }

  function OverallReady(total: nat, notReady: seq<string>): Condition {
    if notReady == [] then
      Condition(
        READY, IsTrue, "AllComponentsReady",
        if total == 0 then "Component ready (no deployments to track)"
        else "All " + Decimal(total) + " deployments are ready",
        0, 0)
    else Condition(READY, IsFalse, "ComponentsNotReady", "Deployments not ready: [" + Join(notReady, " ") + "]", 0, 0)
  }

  /** The conditions of a component after its deployments were looked at, with the overall condition to set. */
  function ComponentStatuses(
    list: seq<Condition>, generation: int, cs: seq<Condition>, overall: Condition, now: int): seq<Condition> {
    var seen := KindsOf(cs);
    Set(KeepKinds(SetAll(list, generation, cs, now), kind => kind == READY || kind in seen), generation, overall, now)
  }

  /**
   Afterwards the component has a condition for each of its deployments, the
   last one of that name, and Ready, and no other; times move only with the
   status, and Ready is true exactly when every deployment is ready.
   */
  lemma ComponentStatusesSay(list: seq<Condition>, generation: int, ds: seq<Deployment>, now: int, kind: string)
    ensures var overall := OverallReady(|ds|, NotReadyNames(ds));
            var r := Find(ComponentStatuses(list, generation, DeploymentConditions(ds), overall, now), Kind, kind);
            && (overall.status.IsTrue?
                <==> forall d :: d in ds ==>
                       d.readyReplicas == d.replicas && d.replicas > 0 && d.updatedReplicas == d.replicas)
            && (if kind == READY then r == Some(Updated(Find(list, Kind, READY), generation, overall, now))
                else
                  var shown := Last(DeploymentConditions(ds), Kind, kind);
                  if shown.None? then r == None
                  else r == Latest(Find(list, Kind, kind), generation, DeploymentConditions(ds), now, kind))
  {
    var cs, overall := DeploymentConditions(ds), OverallReady(|ds|, NotReadyNames(ds));
    assert overall.kind == READY;
    NoDeploymentIsReady(ds);
    FindComponentStatuses(list, generation, cs, overall, now, kind);
  }

  lemma FindComponentStatuses(
    list: seq<Condition>, generation: int, cs: seq<Condition>, overall: Condition, now: int, kind: string)
    requires overall.kind == READY && forall c :: c in cs ==> c.kind != READY
    ensures var r := Find(ComponentStatuses(list, generation, cs, overall, now), Kind, kind);
            if kind == READY then r == Some(Updated(Find(list, Kind, READY), generation, overall, now))
            else if Last(cs, Kind, kind).None? then r == None
            else r == Latest(Find(list, Kind, kind), generation, cs, now, kind)
  {
    var seen := KindsOf(cs);
    var all := SetAll(list, generation, cs, now);
    FindSetAll(list, generation, cs, now, kind);
    FindKeepKinds(all, k => k == READY || k in seen, kind);
    FindSet(KeepKinds(all, k => k == READY || k in seen), generation, overall, now, kind);
    var last := Last(cs, Kind, kind);
    if last.Some? {
      assert last.value in cs && last.value.kind in seen;
    } else {
      assert kind !in seen;
    }
  }

  /** A deployment's kind has a slash, so it never is Ready. */
  lemma NoDeploymentIsReady(ds: seq<Deployment>)
    ensures forall c :: c in DeploymentConditions(ds) ==> c.kind != READY
  {
    forall i | 0 <= i < |ds|
      ensures DeploymentCondition(ds[i]).kind != READY
    {
      assert DeploymentCondition(ds[i]).kind[|ds[i].namespace|] == '/';
      assert '/' !in READY;
    }
  }

  // ---------- The resource whose conditions are set ----------

  method ReadyOf(sub: SubResource) returns (status: SubStatus)
    ensures status == SubStatus(sub.prefix, IsConditionTrue(sub.conditions, READY))
    ensures status.ready <==> FirstIsTrue(sub.conditions, READY)
    ensures status.ready
            <==> exists i :: 0 <= i < |sub.conditions|
                             && sub.conditions[i].kind == READY && sub.conditions[i].status.IsTrue?
                             && forall j :: 0 <= j < i ==> sub.conditions[j].kind != READY
  {
    TrueIsFirst(sub.conditions, READY);
    status := SubStatus(sub.prefix, IsConditionTrue(sub.conditions, READY));
  }

  class Resource {
    const generation: int
    var conditions: seq<Condition>

    constructor (generation: int, conditions: seq<Condition>)
      ensures this.generation == generation && this.conditions == conditions
    {
      this.generation, this.conditions := generation, conditions;
    }

    method SetCondition(c: Condition, now: int)
      modifies this
      ensures conditions == Set(old(conditions), generation, c, now)
    {
      for i := 0 to |conditions|
        invariant conditions == old(conditions)
        invariant forall j :: 0 <= j < i ==> conditions[j].kind != c.kind
      {
        if conditions[i].kind == c.kind {
          assert i == IndexOf(conditions, Kind, c.kind);
          var since := if conditions[i].status == c.status then conditions[i].since else now;
          conditions := conditions[i := c.(generation := generation, since := since)];
          return;
        }
      }
      conditions := conditions + [c.(generation := generation, since := now)];
    }

    /** Keeps only the conditions whose kind is to be kept. */
    method CleanupStaleConditions(keep: string -> bool)
      modifies this
      ensures conditions == KeepKinds(old(conditions), keep)
    {
      var kept := [];
      for i := 0 to |conditions|
        invariant conditions == old(conditions)
        invariant kept == KeepKinds(conditions[..i], keep)
      {
        assert conditions[..i + 1][..i] == conditions[..i];
        if keep(conditions[i].kind) {
          kept := kept + [conditions[i]];
        }
      }
      assert conditions[..|conditions|] == conditions;
      conditions := kept;
    }

    method CopySubCrStatus(sub: SubResource, now: int) returns (status: SubStatus)
      modifies this
      ensures conditions == Copied(old(conditions), generation, sub, now)
      ensures status == SubStatus(sub.prefix, IsConditionTrue(sub.conditions, READY))
      ensures status.ready <==> FirstIsTrue(sub.conditions, READY)
    {
      var images := Images(sub);
      var updated: set<string> := {};
      for i := 0 to |images|
        invariant updated == KindsOf(images[..i])
        invariant conditions == SetAll(old(conditions), generation, images[..i], now)
      {
        assert images[..i + 1][..i] == images[..i];
        assert images[..i + 1] == images[..i] + [images[i]];
        updated := updated + {images[i].kind};
        SetCondition(images[i], now);
      }
      assert images[..|images|] == images;
      CleanupStaleConditions(kind => !(Under(kind, sub.prefix) && kind !in updated));
      status := ReadyOf(sub);
    }

    /** Looks at the listed deployments; None when listing them fails. */
    method UpdateComponentStatuses(listing: Option<seq<Deployment>>, now: int) returns (ok: bool)
      modifies this
      ensures ok <==> listing.Some?
      ensures conditions ==
              if ok then
                ComponentStatuses(
                  old(conditions), generation, DeploymentConditions(listing.value),
                  OverallReady(|listing.value|, NotReadyNames(listing.value)), now)
              else old(conditions)
    {
      if listing.None? {
        return false;
      }
      var notReady := SetDeploymentConditions(listing.value, now);
      var cs := DeploymentConditions(listing.value);
      var seen := set c | c in cs :: c.kind;
      CleanupStaleConditions(kind => kind == READY || kind in seen);
      SetCondition(OverallReady(|listing.value|, notReady), now);
      return true;
    }

    method SetDeploymentConditions(ds: seq<Deployment>, now: int) returns (notReady: seq<string>)
      modifies this
      ensures conditions == SetAll(old(conditions), generation, DeploymentConditions(ds), now)
      ensures notReady == NotReadyNames(ds)
    {
      ghost var cs := DeploymentConditions(ds);
      notReady := [];
      for i := 0 to |ds|
        invariant notReady == NotReadyNames(ds[..i])
        invariant conditions == SetAll(old(conditions), generation, cs[..i], now)
      {
        assert cs[..i + 1][..i] == cs[..i];
        assert ds[..i + 1][..i] == ds[..i];
        var c := MakeDeploymentCondition(ds[i]);
        if !IsDeploymentReady(ds[i]) {
          notReady := notReady + [ds[i].name];
        }
        SetCondition(c, now);
      }
      assert ds[..|ds|] == ds && cs[..|cs|] == cs;
    }

    method OverrideReadyIfDependencyFalse(deps: seq<Dependency>, now: int)
      modifies this
      ensures conditions == Overridden(old(conditions), generation, deps, now)
    {
      for i := 0 to |deps|
        invariant conditions == old(conditions)
        invariant forall j :: 0 <= j < i ==> !ExplicitlyFalse(conditions, deps[j].kind)
      {
        var c := Find(conditions, Kind, deps[i].kind);
        if c.Some? && c.value.status.IsFalse? {
          assert i == FirstFalse(conditions, deps);
          SetCondition(Condition(READY, IsFalse, deps[i].reason, deps[i].message, 0, 0), now);
          return;
        }
      }
    }

    method SetAggregatedReadyCondition(statuses: seq<SubStatus>, now: int)
      modifies this
      ensures conditions == Set(old(conditions), generation, AggregatedReady(statuses), now)
    {
      var reasons := [];
      for i := 0 to |statuses|
        invariant reasons == NotReadyReasons(statuses[..i])
      {
        assert statuses[..i + 1][..i] == statuses[..i];
        if !statuses[i].ready {
          reasons := reasons + [statuses[i].name + " is not ready"];
        }
      }
      assert statuses[..|statuses|] == statuses;
      if reasons == [] {
        var message := "All " + Decimal(|statuses|) + " components are ready";
        SetCondition(Condition(READY, IsTrue, "AllComponentsReady", message, 0, 0), now);
      } else {
        SetCondition(Condition(READY, IsFalse, "ComponentsNotReady", Join(reasons, "; "), 0, 0), now);
      }
    }

    method SetThenOverride(c: Condition, deps: seq<Dependency>, now: int)
      modifies this
      ensures conditions == Overridden(Set(old(conditions), generation, c, now), generation, deps, now)
    {
      SetCondition(c, now);
      OverrideReadyIfDependencyFalse(deps, now);
    }

    method CheckCertManagerAvailability(cm: CertManager, now: int) returns (requeue: int)
      modifies this
      ensures requeue == CertManagerRequeue(cm)
      ensures (cm.Installed? ==> requeue == 0) && (cm.NotInstalled? ==> requeue == 60 * SECOND)
              && (cm.CheckFails? ==> requeue == 30 * SECOND)
      ensures var updated := Set(old(conditions), generation, CertManagerCondition(cm), now);
              conditions == Overridden(updated, generation, [CERT_MANAGER_DEPENDENCY], now)
    {
      SetThenOverride(CertManagerCondition(cm), [CERT_MANAGER_DEPENDENCY], now);
      return CertManagerRequeue(cm);
    }

    method SetReadiness(statuses: seq<SubStatus>, cm: CertManager, now: int) returns (requeue: int)
      modifies this
      ensures requeue == CertManagerRequeue(cm)
      ensures conditions
              == WithReadiness(old(conditions), generation, AggregatedReady(statuses), CertManagerCondition(cm), now)
    {
      SetAggregatedReadyCondition(statuses, now);
      requeue := CheckCertManagerAvailability(cm, now);
    }

    /** Copies the conditions of all sub-resources; reading the one at `unreadable`, if there is one, fails. */
    method CopySubCrStatuses(subs: seq<SubResource>, unreadable: nat, now: int)
      returns (ok: bool, statuses: seq<SubStatus>)
      modifies this
      ensures ok <==> unreadable >= |subs|
      ensures ok ==> conditions == CopiedAll(old(conditions), generation, subs, now) && statuses == StatusesOf(subs)
      ensures !ok ==> conditions == CopiedAll(old(conditions), generation, subs[..unreadable], now)
      ensures ok ==> |statuses| == |subs| && forall i :: 0 <= i < |subs| ==>
                statuses[i].name == subs[i].prefix && (statuses[i].ready <==> FirstIsTrue(subs[i].conditions, READY))
    {
      forall i | 0 <= i < |subs|
        ensures IsConditionTrue(subs[i].conditions, READY) <==> FirstIsTrue(subs[i].conditions, READY)
      {
        TrueIsFirst(subs[i].conditions, READY);
      }
      statuses := [];
      ghost var start := conditions;
      for i := 0 to |subs|
        invariant unreadable >= i && |statuses| == i
        invariant statuses == StatusesOf(subs[..i])
        invariant conditions == CopiedAll(start, generation, subs[..i], now)
      {
        if i == unreadable {
          return false, statuses;
        }
        CopiedOneMore(start, generation, subs, i, now);
        var status := CopySubCrStatus(subs[i], now);
        statuses := statuses + [status];
      }
      assert subs[..|subs|] == subs;
      return true, statuses;
    }

    /** Collects the statuses of the sub-resources and sets the overall readiness. */
    method CollectStatuses(subs: seq<SubResource>, unreadable: nat, cm: CertManager, now: int)
      returns (ok: bool, requeue: int)
      modifies this
      ensures ok <==> unreadable >= |subs|
      ensures ok ==> requeue == CertManagerRequeue(cm)
      ensures ok ==> conditions == Collected(old(conditions), generation, subs, cm, now)
      ensures ok ==>
                (FirstIsTrue(conditions, READY)
                 <==> (forall s :: s in subs ==> FirstIsTrue(s.conditions, READY)) && !cm.NotInstalled?)
      ensures !ok ==> conditions == CopiedAll(old(conditions), generation, subs[..unreadable], now)
    {
      requeue := 0;
      ghost var start := conditions;
      var copied, statuses := CopySubCrStatuses(subs, unreadable, now);
      ok := copied;
      if !copied {
        return;
      }
      assert conditions == CopiedAll(start, generation, subs, now);
      assert statuses == StatusesOf(subs);
      requeue := SetReadiness(statuses, cm, now);
      CollectedReady(start, generation, subs, cm, now);
    }
  }
}
