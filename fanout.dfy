/**
 * The counting discipline shared by the two fan-out coordinators. A
 * coordinator sees a sequence of events: a host was discovered (a worker is
 * spawned and `hosts_found` grows), or a worker reported (`hosts_handled`
 * grows). After every report it compares the two counters and, when they are
 * equal, signals completion: the knowledge-graph variant asks for the graph,
 * the host-list variant stops.
 *
 * The second half of the module defines a guarded coordinator that also
 * waits for the discovery stream to end and signals at most once.
 */
module FanOut {
  import opened Wrappers

  /** What a coordinator receives; a report carries `None` for the empty result. */
  datatype Event<R> = Discovered | Reported(result: Option<R>)

  /** `hosts_found` after the events `t`. */
  function Found<R>(t: seq<Event<R>>): nat
  {
    if |t| == 0 then 0 else Found(t[..|t| - 1]) + (if t[|t| - 1].Discovered? then 1 else 0)
  }

  /** `hosts_handled` after the events `t`. */
  function Handled<R>(t: seq<Event<R>>): nat
  {
    if |t| == 0 then 0 else Handled(t[..|t| - 1]) + (if t[|t| - 1].Reported? then 1 else 0)
  }

  /** Whether the last event of `t` is a report after which the counters are equal. */
  predicate SignalsAtEnd<R>(t: seq<Event<R>>)
  {
    |t| > 0 && t[|t| - 1].Reported? && Found(t) == Handled(t)
  }

  /** How many times completion is signalled along `t`. */
  function Signals<R>(t: seq<Event<R>>): nat
  {
    if |t| == 0 then 0 else Signals(t[..|t| - 1]) + (if SignalsAtEnd(t) then 1 else 0)
  }

  /**
   * The events a coordinator that stops at its first completion signal
   * handles, out of the events `t` sent to it: those up to and including the
   * report that signals; the later ones are dropped with its mailbox.
   */
  function Delivered<R>(t: seq<Event<R>>): seq<Event<R>>
  {
    if |t| == 0 then []
    else if Signals(t[..|t| - 1]) > 0 then Delivered(t[..|t| - 1])
    else t
  }

  /**
   * The delivered events are a prefix of those sent; they signal once if the
   * events sent ever signal, and then end with that signal; when nothing
   * signals, every event is delivered.
   */
  lemma {:induction false} DeliveredSpec<R>(t: seq<Event<R>>)
    ensures var d := Delivered(t);
            && |d| <= |t| && d == t[..|d|]
            && Signals(d) == (if Signals(t) > 0 then 1 else 0)
            && (Signals(t) > 0 ==> SignalsAtEnd(d))
            && (Signals(t) == 0 ==> d == t)
  {
    if |t| > 0 {
      var init := t[..|t| - 1];
      if Signals(init) > 0 {
        DeliveredSpec(init);
        var d := Delivered(init);
        assert init[..|d|] == t[..|d|];
      }
    }
  }

  /** `n` discoveries. */
  function Discoveries<R>(n: nat): (t: seq<Event<R>>)
    ensures |t| == n && forall i :: 0 <= i < n ==> t[i].Discovered?
  {
    if n == 0 then [] else Discoveries(n - 1) + [Discovered]
  }

  /** One report per outcome, in the order the outcomes arrive. */
  function Reports<R>(outcomes: seq<Option<R>>): (t: seq<Event<R>>)
    ensures |t| == |outcomes| && forall i :: 0 <= i < |t| ==> t[i] == Reported(outcomes[i])
  {
    if |outcomes| == 0 then [] else Reports(outcomes[..|outcomes| - 1]) + [Reported(outcomes[|outcomes| - 1])]
  }

  /** The counters count the events of each kind. */
  lemma {:induction false} CountersCount<R>(t: seq<Event<R>>)
    ensures Found(t) + Handled(t) == |t|
  {
    if |t| > 0 {
      CountersCount(t[..|t| - 1]);
    }
  }

  /**
   * When every host is discovered before any worker reports, completion is
   * signalled exactly once, after the last report, whatever the order in which
   * the outcomes arrive and whichever of them are empty.
   */
  lemma {:induction false} DiscoveredFirstSignalsOnce<R>(n: nat, outcomes: seq<Option<R>>)
    requires |outcomes| <= n
    ensures var t := Discoveries<R>(n) + Reports(outcomes);
            Found(t) == n && Handled(t) == |outcomes| &&
            Signals(t) == (if 0 < n == |outcomes| then 1 else 0)
  {
    var t := Discoveries<R>(n) + Reports(outcomes);
    if |outcomes| == 0 {
      assert t == Discoveries<R>(n);
      DiscoveriesCounts<R>(n);
    } else {
      var init := outcomes[..|outcomes| - 1];
      DiscoveredFirstSignalsOnce<R>(n, init);
      assert t[..|t| - 1] == Discoveries<R>(n) + Reports(init);
    }
  }

  /** Discoveries alone never signal. */
  lemma {:induction false} DiscoveriesCounts<R>(n: nat)
    ensures Found(Discoveries<R>(n)) == n && Handled(Discoveries<R>(n)) == 0 && Signals(Discoveries<R>(n)) == 0
  {
    if n > 0 {
      DiscoveriesCounts<R>(n - 1);
      assert Discoveries<R>(n)[..n - 1] == Discoveries<R>(n - 1);
    }
  }

  /**
   * A trace that ends balanced with a report has signalled: the last worker
   * to report always triggers completion.
   */
  lemma BalancedEndSignals<R>(t: seq<Event<R>>)
    requires |t| > 0 && t[|t| - 1].Reported? && Found(t) == Handled(t)
    ensures Signals(t) >= 1
  {
  }

  /**
   * The check on its own has no once-only guard and does not wait for the
   * stream to end: a host that reports before the next one is discovered
   * makes the counters meet early, while a second host is still to come, and
   * the check would be met again after that host's report. Neither
   * coordinator reaches the second time: each stops at the first, the
   * host-list one at once and the knowledge-graph one when its queued graph
   * request is handled, ahead of the later report.
   */
  lemma EarlyRepeatedSignal<R>(a: Option<R>, b: Option<R>)
    ensures var t := [Discovered, Reported(a), Discovered, Reported(b)];
            Signals(t[..2]) == 1 && Found(t[..2]) < Found(t) && Signals(t) == 2
  {
    var t := [Discovered, Reported(a), Discovered, Reported(b)];
    assert t[..1][..0] == [];
    assert Found(t[..1]) == 1 && Handled(t[..1]) == 0 && Signals(t[..1]) == 0;
    assert t[..2][..1] == t[..1];
    assert Found(t[..2]) == 1 && Handled(t[..2]) == 1 && Signals(t[..2]) == 1;
    assert t[..3][..2] == t[..2];
    assert Found(t[..3]) == 2 && Handled(t[..3]) == 1 && Signals(t[..3]) == 1;
    assert t[..3] == t[..|t| - 1];
  }

  // ---------------------------------------------------------------------
  // A guarded coordinator: completion needs the end of the stream as well,
  // and fires at most once.
  // ---------------------------------------------------------------------

  /** What the guarded coordinator receives: the end of discovery is an event of its own. */
  datatype GuardedEvent = HostDiscovered | HostReported | StreamClosed

  datatype GuardedState = GuardedState(found: nat, handled: nat, closed: bool, finalized: bool)

  /** Whether completion fires when the guarded coordinator is in state `s` after an event. */
  predicate Fires(s: GuardedState)
  {
    s.closed && s.found == s.handled && !s.finalized
  }

  /** One event: the counters and the flag move, then the guarded check runs on reports and on the close. */
  function GuardedStep(s: GuardedState, e: GuardedEvent): GuardedState
  {
    var s' := match e
      case HostDiscovered => s.(found := s.found + 1)
      case HostReported => s.(handled := s.handled + 1)
      case StreamClosed => s.(closed := true);
    if Fires(s') then s'.(finalized := true) else s'
  }

  function GuardedRun(t: seq<GuardedEvent>): GuardedState
  {
    if |t| == 0 then GuardedState(0, 0, false, false) else GuardedStep(GuardedRun(t[..|t| - 1]), t[|t| - 1])
  }

  /** How many times the guarded coordinator finalises along `t`. */
  function GuardedFirings(t: seq<GuardedEvent>): nat
  {
    if |t| == 0 then 0
    else
      var before := GuardedRun(t[..|t| - 1]);
      var e := t[|t| - 1];
      var s' := match e
        case HostDiscovered => before.(found := before.found + 1)
        case HostReported => before.(handled := before.handled + 1)
        case StreamClosed => before.(closed := true);
      GuardedFirings(t[..|t| - 1]) + (if Fires(s') then 1 else 0)
  }

  /** No host is discovered after the stream has closed. */
  predicate DiscoveryBeforeClose(t: seq<GuardedEvent>)
  {
    forall i, j :: 0 <= i < j < |t| && t[i] == StreamClosed ==> t[j] != HostDiscovered
  }

  /** The guarded coordinator finalises at most once, and only after the stream has closed. */
  lemma {:induction false} GuardedAtMostOnce(t: seq<GuardedEvent>)
    ensures GuardedFirings(t) == (if GuardedRun(t).finalized then 1 else 0)
    ensures GuardedRun(t).finalized ==> GuardedRun(t).closed
    ensures GuardedRun(t).closed <==> StreamClosed in t
  {
    if |t| > 0 {
      GuardedAtMostOnce(t[..|t| - 1]);
      assert t == t[..|t| - 1] + [t[|t| - 1]];
    }
  }

  /**
   * Once the stream has closed and every discovered host has reported, the
   * guarded coordinator has finalised, exactly once, whatever the
   * interleaving of discoveries and reports before that.
   */
  lemma {:induction false} GuardedFiresOnce(t: seq<GuardedEvent>)
    requires StreamClosed in t && GuardedRun(t).found == GuardedRun(t).handled
    ensures GuardedRun(t).finalized && GuardedFirings(t) == 1
  {
    ClosedBalancedFinalized(t);
    GuardedAtMostOnce(t);
  }

  /** Under the guard, a closed and balanced coordinator has finalised. */
  lemma ClosedBalancedFinalized(t: seq<GuardedEvent>)
    ensures var s := GuardedRun(t); s.closed && s.found == s.handled ==> s.finalized
  {
  }

  /**
   * When the stream task closes the stream after its last discovery, no host
   * is discovered once the guarded coordinator has finalised: every host it
   * will ever count was counted, and had reported, when it completed.
   */
  lemma {:induction false} GuardedNoHostAfterStop(t: seq<GuardedEvent>, k: nat, m: nat)
    requires DiscoveryBeforeClose(t)
    requires k <= m <= |t| && GuardedRun(t[..k]).finalized
    ensures GuardedRun(t[..m]).found == GuardedRun(t[..k]).found
  {
    if m > k {
      GuardedNoHostAfterStop(t, k, m - 1);
      GuardedAtMostOnce(t[..k]);
      var i :| 0 <= i < k && t[..k][i] == StreamClosed;
      assert t[i] == StreamClosed && t[m - 1] != HostDiscovered;
      assert t[..m][..m - 1] == t[..m - 1];
    }
  }
}
