/**
 Coalescing wake-ups over channels of capacity one: the Secret handler and the
 select loop of the rotator, and the broadcaster of rotation ticks.
 */
module Wakeups {

  const SCRAPE_TOKEN_SECRET := "prometheus-scrape-token"
  const METRICS_TLS_SECRET := "metrics-server-cert"

  /** What an informer hands to its handlers; a deletion may come wrapped in a tombstone. */
  datatype Notice = SecretNotice(namespace: string, name: string) | Tombstone(last: Notice) | OtherObject

  /** The notice is about a scrape-wiring Secret of the namespace; a tombstone is opened once. */
  predicate Matches(namespace: string, n: Notice) {
    var inner := if n.Tombstone? then n.last else n;
    && inner.SecretNotice?
    && inner.namespace == namespace
    && inner.namespace != ""
    && (inner.name == SCRAPE_TOKEN_SECRET || inner.name == METRICS_TLS_SECRET)
  }

  datatype Loop = Reconciling | Selecting | Stopped

  /** The rotator's loop, its wake channel (full or not), its timer and its context. */
  datatype Machine = Machine(loop: Loop, wake: bool, timer: bool, cancelled: bool)

  /** The loop enters with a reconcile, after the handlers are registered. */
  const START := Machine(Reconciling, false, false, false)

  datatype Label = Notify(notice: Notice) | TimerFires | Cancel | Finish | TakeTimer | TakeWake | TakeDone

  predicate Enabled(m: Machine, l: Label) {
    match l
    case Notify(_) => true
    case TimerFires => m.loop.Selecting?
    case Cancel => true
    case Finish => m.loop.Reconciling?
    case TakeTimer => m.loop.Selecting? && m.timer
    case TakeWake => m.loop.Selecting? && m.wake
    case TakeDone => m.loop.Selecting? && m.cancelled
  }

  /** Notifying never blocks: a full channel is left as it is. Leaving the select stops the timer. */
  function Next(namespace: string, m: Machine, l: Label): Machine {
    match l
    case Notify(n) => if Matches(namespace, n) && !m.wake then m.(wake := true) else m
    case TimerFires => m.(timer := true)
    case Cancel => m.(cancelled := true)
    case Finish => m.(loop := Selecting, timer := false)
    case TakeTimer => m.(loop := Reconciling, timer := false)
    case TakeWake => m.(loop := Reconciling, wake := false, timer := false)
    case TakeDone => m.(loop := Stopped, timer := false)
  }

  /** The machine after the labels of the trace, from m on. */
  function After(namespace: string, m: Machine, trace: seq<Label>): Machine
    decreases |trace|
  {
    if trace == [] then m
    else Next(namespace, After(namespace, m, trace[..|trace| - 1]), trace[|trace| - 1])
  }

  predicate Possible(namespace: string, m: Machine, trace: seq<Label>)
    decreases |trace|
  {
    if trace == [] then true
    else
      var earlier := trace[..|trace| - 1];
      Possible(namespace, m, earlier) && Enabled(After(namespace, m, earlier), trace[|trace| - 1])
  }

  /** A reconcile starts with this label. */
  predicate Starts(l: Label) {
    l.TakeTimer? || l.TakeWake?
  }

  predicate LoopMove(l: Label) {
    Starts(l) || l.Finish? || l.TakeDone?
  }

  /** How often the loop itself moves in the trace. */
  function Moves(trace: seq<Label>): nat
    decreases |trace|
  {
    if trace == [] then 0
    else Moves(trace[..|trace| - 1]) + if LoopMove(trace[|trace| - 1]) then 1 else 0
  }

  /** No reconcile starts in the trace and the loop does not stop. */
  predicate NothingStarts(trace: seq<Label>) {
    forall l :: l in trace ==> !Starts(l) && !l.TakeDone?
  }

  /**
   If no reconcile started and the loop did not stop since a matching notice,
   the wake channel is still full and the loop is at most one finish further.
   */
  lemma {:induction false} StillPending(namespace: string, m: Machine, n: Notice, since: seq<Label>)
    requires Matches(namespace, n) && !m.loop.Stopped?
    requires Possible(namespace, Next(namespace, m, Notify(n)), since) && NothingStarts(since)
    ensures var m' := After(namespace, Next(namespace, m, Notify(n)), since);
            m'.wake && !m'.loop.Stopped? && Moves(since) <= (if m'.loop.Selecting? then 1 else 0)
    decreases |since|
  {
    if since != [] {
      assert since[|since| - 1] in since;
      StillPending(namespace, m, n, since[..|since| - 1]);
    }
  }

  /**
   No wake-up is lost: in every interleaving, once the loop has moved twice
   after a matching notice, a reconcile has started after the notice or the
   loop has stopped because its context was cancelled.
   */
  lemma NoLostWakeup(namespace: string, m: Machine, n: Notice, since: seq<Label>)
    requires Matches(namespace, n) && !m.loop.Stopped?
    requires Possible(namespace, Next(namespace, m, Notify(n)), since) && Moves(since) >= 2
    ensures exists l :: l in since && (Starts(l) || l.TakeDone?)
  {
    if NothingStarts(since) {
      StillPending(namespace, m, n, since);
    }
  }

  /**
   And the loop is never kept from moving: until then it can finish its
   reconcile or take the wake-up, without the timer.
   */
  lemma WakeupNotBlocked(namespace: string, m: Machine, n: Notice, since: seq<Label>)
    requires Matches(namespace, n) && !m.loop.Stopped?
    requires Possible(namespace, Next(namespace, m, Notify(n)), since) && NothingStarts(since)
    ensures var m' := After(namespace, Next(namespace, m, Notify(n)), since);
            Enabled(m', Finish) || Enabled(m', TakeWake)
  {
    StillPending(namespace, m, n, since);
  }

  /** The loop stops only when its context was cancelled. */
  lemma {:induction false} StopsOnlyWhenCancelled(namespace: string, trace: seq<Label>)
    requires Possible(namespace, START, trace)
    ensures After(namespace, START, trace).loop.Stopped? ==> After(namespace, START, trace).cancelled && Cancel in trace
    ensures After(namespace, START, trace).cancelled ==> Cancel in trace
    decreases |trace|
  {
    if trace != [] {
      StopsOnlyWhenCancelled(namespace, trace[..|trace| - 1]);
    }
  }

  /** A channel that holds at most one event. */
  class Channel {
    var full: bool

    constructor ()
      ensures !full
    {
      full := false;
    }

    /** A send that does not block; it is skipped when the channel is full. */
    method TrySend() returns (sent: bool)
      modifies this
      ensures full && sent == !old(full)
    {
      sent := !full;
      full := true;
    }
  }

  /** The handler of one informer notice. */
  method NotifyScrapeWiringWake(namespace: string, wake: Channel, n: Notice)
    modifies wake
    ensures wake.full == (old(wake.full) || Matches(namespace, n))
    ensures wake.full
            <==> old(wake.full)
                 || (namespace != ""
                     && (n == SecretNotice(namespace, "prometheus-scrape-token")
                         || n == SecretNotice(namespace, "metrics-server-cert")
                         || n == Tombstone(SecretNotice(namespace, "prometheus-scrape-token"))
                         || n == Tombstone(SecretNotice(namespace, "metrics-server-cert"))))
  {
    var inner := n;
    if !inner.SecretNotice? {
      if !inner.Tombstone? {
        return;
      }
      inner := inner.last;
      if !inner.SecretNotice? {
        return;
      }
    }
    if inner.namespace != namespace || inner.namespace == ""
       || (inner.name != SCRAPE_TOKEN_SECRET && inner.name != METRICS_TLS_SECRET) {
      return;
    }
    var _ := wake.TrySend();
  }

  class Broadcaster {
    var subscribers: seq<Channel>

    predicate Valid()
      reads this
    {
      forall i, j :: 0 <= i < j < |subscribers| ==> subscribers[i] != subscribers[j]
    }

    constructor ()
      ensures Valid() && subscribers == []
    {
      subscribers := [];
    }

    method Subscribe() returns (ch: Channel)
      requires Valid()
      modifies this
      ensures Valid() && fresh(ch) && !ch.full && subscribers == old(subscribers) + [ch]
    {
      ch := new Channel();
      assert ch !in subscribers;
      subscribers := subscribers + [ch];
    }

    /** One tick: afterwards every subscriber holds an event, and those skipped held one before. */
    method Broadcast() returns (skipped: seq<bool>)
      requires Valid()
      modifies subscribers
      ensures |skipped| == |subscribers|
      ensures forall i :: 0 <= i < |subscribers| ==> subscribers[i].full && skipped[i] == old(subscribers[i].full)
    {
      skipped := [];
      for n := 0 to |subscribers|
        invariant |skipped| == n
        invariant forall i :: 0 <= i < n ==> subscribers[i].full && skipped[i] == old(subscribers[i].full)
        invariant forall i :: n <= i < |subscribers| ==> subscribers[i].full == old(subscribers[i].full)
      {
        var sent := subscribers[n].TrySend();
        skipped := skipped + [!sent];
      }
    }
  }
}
