/**
 The two Secrets of the internal registry: the htpasswd entry and the client's
 docker configuration. Each is known by the password it was made from.
 */
module RegistryCredentials {
  import opened Options
  import opened Tracking

  /** A Secret; `password` is None when its data key is missing or empty. */
  datatype Secret = Secret(password: Option<string>)

  datatype Pair = Pair(htpasswd: Option<Secret>, client: Option<Secret>)

  predicate HasData(s: Option<Secret>) {
    s.Some? && s.value.password.Some?
  }

  /** If both Secrets have data, they hold the same password. */
  predicate InSync(p: Pair) {
    HasData(p.htpasswd) && HasData(p.client) ==> p.htpasswd == p.client
  }

  /** How the calls of one reconcile end; `random` is false when no password can be generated. */
  datatype Calls = Calls(
    getHtpasswd: bool, getClient: bool, random: bool, writeHtpasswd: WriteFault, writeClient: WriteFault)

  predicate FaultFree(c: Calls) {
    c.getHtpasswd && c.getClient && c.random && c.writeHtpasswd.Done? && c.writeClient.Done?
  }

  predicate Rotates(p: Pair) {
    !HasData(p.htpasswd) || !HasData(p.client)
  }

  class Registry {
    var htpasswd: Option<Secret>
    var client: Option<Secret>

    function View(): Pair
      reads this
    {
      Pair(htpasswd, client)
    }

    /** Keeps the credentials when both sides have data, else rotates both, in this order. */
    method EnsureRegistryCredentials(password: string, calls: Calls) returns (ok: bool)
      modifies this
      ensures View() == Ensured(old(View()), password, calls)
      ensures ok <==> calls.getHtpasswd && calls.getClient && (Rotates(old(View())) ==> calls.random)
                      && calls.writeHtpasswd.Done? && calls.writeClient.Done?
      ensures old(htpasswd.Some? && htpasswd.value.password.Some? && client.Some? && client.value.password.Some?) ==>
                htpasswd == old(htpasswd) && client == old(client)
    {
      if !calls.getHtpasswd || !calls.getClient {
        return false;
      }
      var rotate := !HasData(htpasswd) || !HasData(client);
      if rotate && !calls.random {
        return false;
      }
      if rotate && !calls.writeHtpasswd.Lost? {
        htpasswd := Some(Secret(Some(password)));
      }
      if !calls.writeHtpasswd.Done? {
        return false;
      }
      if rotate && !calls.writeClient.Lost? {
        client := Some(Secret(Some(password)));
      }
      return calls.writeClient.Done?;
    }
  }

  /** The Secrets after one reconcile. */
  function Ensured(p: Pair, password: string, calls: Calls): Pair {
    if !calls.getHtpasswd || !calls.getClient || !Rotates(p) || !calls.random || calls.writeHtpasswd.Lost? then p
    else
      var fresh' := Some(Secret(Some(password)));
      if calls.writeHtpasswd.Done? && !calls.writeClient.Lost? then Pair(fresh', fresh') else p.(htpasswd := fresh')
  }

  /** Two Secrets with data are left alone by every reconcile, in sync or not, and it then needs no new password. */
  lemma DataIsKept(p: Pair, password: string, calls: Calls)
    requires p.htpasswd.Some? && p.htpasswd.value.password.Some? && p.client.Some? && p.client.value.password.Some?
    ensures Ensured(p, password, calls) == p && !Rotates(p)
  {
  }

  /** When either is missing or empty, a fault-free reconcile gives both the new password. */
  lemma MissingRotates(p: Pair, password: string, calls: Calls)
    requires FaultFree(calls)
    requires p.htpasswd.None? || p.htpasswd.value.password.None? || p.client.None? || p.client.value.password.None?
    ensures Ensured(p, password, calls) == Pair(Some(Secret(Some(password))), Some(Secret(Some(password))))
  {
  }

  /** The reconcile wrote the first Secret of a rotation and not the second. */
  predicate HalfRotated(p: Pair, calls: Calls) {
    && calls.getHtpasswd && calls.getClient && calls.random && Rotates(p)
    && !calls.writeHtpasswd.Lost? && !(calls.writeHtpasswd.Done? && !calls.writeClient.Lost?)
  }

  /**
   Whatever fails, the Secrets stay in sync exactly unless a rotation stopped
   between its writes while the client Secret held another password.
   */
  lemma SyncKept(p: Pair, password: string, calls: Calls)
    requires InSync(p)
    ensures InSync(Ensured(p, password, calls))
            <==> !HalfRotated(p, calls) || !HasData(p.client) || p.client.value.password.value == password
  {
  }

  /** A client with data whose htpasswd Secret is gone, and a rotation that stops between its writes. */
  lemma TornRotation()
    ensures var p := Pair(None, Some(Secret(Some("old"))));
            InSync(p) && !InSync(Ensured(p, "new", Calls(true, true, true, Done, Lost)))
  {
    SyncKept(Pair(None, Some(Secret(Some("old")))), "new", Calls(true, true, true, Done, Lost));
  }

  /** A change by others, or a reconcile with the password it would generate. */
  datatype Event =
    | DeleteHtpasswd
    | DeleteClient
    | ClearHtpasswd
    | ClearClient
    | Reconcile(password: string, calls: Calls)

  function Step(p: Pair, e: Event): Pair {
    match e
    case DeleteHtpasswd => p.(htpasswd := None)
    case DeleteClient => p.(client := None)
    case ClearHtpasswd => if p.htpasswd.Some? then p.(htpasswd := Some(Secret(None))) else p
    case ClearClient => if p.client.Some? then p.(client := Some(Secret(None))) else p
    case Reconcile(password, calls) => Ensured(p, password, calls)
  }

  function Run(p: Pair, events: seq<Event>): Pair
    decreases |events|
  {
    if events == [] then p else Step(Run(p, events[..|events| - 1]), events[|events| - 1])
  }

  /**
   In every run of deletions and fault-free reconciles the Secrets stay in
   sync, and whenever the last event is a reconcile both are there.
   */
  lemma {:induction false} SyncRun(p: Pair, events: seq<Event>)
    requires InSync(p)
    requires forall e :: e in events && e.Reconcile? ==> FaultFree(e.calls)
    ensures InSync(Run(p, events))
    ensures events != [] && events[|events| - 1].Reconcile? ==>
              HasData(Run(p, events).htpasswd) && HasData(Run(p, events).client)
    decreases |events|
  {
    if events != [] {
      SyncRun(p, events[..|events| - 1]);
      var e := events[|events| - 1];
      assert e in events;
      if e.Reconcile? {
        SyncKept(Run(p, events[..|events| - 1]), e.password, e.calls);
      }
    }
  }

  /** Secrets that are out of sync stay so through every run of reconciles alone, whatever fails. */
  lemma {:induction false} MismatchStays(p: Pair, events: seq<Event>)
    requires !InSync(p)
    requires forall e :: e in events ==> e.Reconcile?
    ensures Run(p, events) == p
    decreases |events|
  {
    if events != [] {
      MismatchStays(p, events[..|events| - 1]);
      assert events[|events| - 1] in events;
    }
  }

  /** Deleting or emptying either Secret lets one fault-free reconcile bring both back in sync. */
  lemma MismatchHeals(p: Pair, change: Event, password: string, calls: Calls)
    requires !change.Reconcile? && FaultFree(calls)
    ensures var synced := Some(Secret(Some(password)));
            !InSync(p) ==> Run(p, [change, Reconcile(password, calls)]) == Pair(synced, synced)
  {
    var events := [change, Reconcile(password, calls)];
    assert events[..1] == [change] && [change][..0] == [];
    assert Run(p, [change]) == Step(Run(p, []), change);
  }
}
