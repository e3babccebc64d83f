/**
 * The coordinator of the host-listing command: it counts discovered and
 * handled hosts, writes one numbered line per host that reported, and stops
 * whenever the two counters meet.
 */
module ListCoordinator {
  import opened Wrappers
  import opened FanOut
  import opened Search
  import Text

  /** `HostResultMessage`: a host's DID, url, version and, when it was asked for, its twin count. */
  datatype HostReport = HostReport(hostDid: string, url: string, version: string, twinsCount: Option<nat>)

  /** One printed line: sequence number, url, host DID, version and the twins column. */
  datatype ReportLine = ReportLine(number: nat, url: string, hostDid: string, version: string, twins: string)

  /** The twins column: the count right-aligned in six characters, or nothing when there is no count. */
  function TwinsColumn(count: Option<nat>): string
  {
    match count
    case None => ""
    case Some(n) => Text.PadLeft(Text.Decimal(n), 6)
  }

  /** Reading a twins column back: empty means no count, otherwise the trimmed digits. */
  function ReadTwinsColumn(column: string): Option<nat>
  {
    if column == "" then None else Some(Text.ParseDecimal(Text.TrimStart(column)))
  }

  /** The twins column loses nothing: the count, or its absence, can be read back. */
  lemma TwinsColumnReads(count: Option<nat>)
    ensures ReadTwinsColumn(TwinsColumn(count)) == count
  {
    if count.Some? {
      Text.PaddedNumberReads(count.value, 6);
    }
  }

  /** The line written for a report handled as the `number`-th. */
  function Line(number: nat, r: HostReport): ReportLine
  {
    ReportLine(number, r.url, r.hostDid, r.version, TwinsColumn(r.twinsCount))
  }

  /** The lines written along the events `t`: one per non-empty report, numbered by the handled count. */
  function Printed(t: seq<Event<HostReport>>): seq<ReportLine>
  {
    if |t| == 0 then []
    else
      var e := t[|t| - 1];
      Printed(t[..|t| - 1]) + (if e.Reported? && e.result.Some? then [Line(Handled(t), e.result.value)] else [])
  }

  /**
   * The line numbers are between 1 and the handled count and strictly
   * increasing; they skip the numbers of empty reports.
   */
  lemma {:induction false} PrintedNumbering(t: seq<Event<HostReport>>)
    ensures |Printed(t)| <= Handled(t)
    ensures forall i :: 0 <= i < |Printed(t)| ==> 1 <= Printed(t)[i].number <= Handled(t)
    ensures forall i, j :: 0 <= i < j < |Printed(t)| ==> Printed(t)[i].number < Printed(t)[j].number
  {
    if |t| > 0 {
      PrintedNumbering(t[..|t| - 1]);
    }
  }

  /** Without empty reports the lines are numbered 1, 2, 3, ... with no gap. */
  lemma {:induction false} PrintedConsecutive(t: seq<Event<HostReport>>)
    requires forall i :: 0 <= i < |t| ==> t[i] != Reported(None)
    ensures |Printed(t)| == Handled(t)
    ensures forall i :: 0 <= i < |Printed(t)| ==> Printed(t)[i].number == i + 1
  {
    if |t| > 0 {
      PrintedConsecutive(t[..|t| - 1]);
    }
  }

  /**
   * The race the completion check does not guard against: the first host
   * reports before the second is discovered, the counters meet, and the
   * coordinator stops; the second host is discovered and reports, and its
   * line is never written.
   */
  lemma EarlyStopDropsHost(a: HostReport, b: HostReport)
    ensures var t := [Discovered, Reported(Some(a)), Discovered, Reported(Some(b))];
            && Delivered(t) == t[..2]
            && Printed(Delivered(t)) == [Line(1, a)]
            && Found(t) == 2 && Handled(t) == 2 && |Printed(t)| == 2
  {
    var t := [Discovered, Reported(Some(a)), Discovered, Reported(Some(b))];
    var t1, t2, t3 := t[..1], t[..2], t[..3];
    assert t1[..0] == [] && t2[..1] == t1 && t3[..2] == t2 && t[..3] == t3;
    assert Found(t1) == 1 && Handled(t1) == 0 && Signals(t1) == 0 && Printed(t1) == [];
    assert Found(t2) == 1 && Handled(t2) == 1 && Signals(t2) == 1 && Printed(t2) == [Line(1, a)];
    assert Found(t3) == 2 && Handled(t3) == 1 && Signals(t3) == 1 && Printed(t3) == [Line(1, a)];
    assert Found(t) == 2 && Handled(t) == 2 && Printed(t) == [Line(1, a), Line(2, b)];
    assert Delivered(t2) == t2;
    assert Delivered(t3) == t2;
  }

  class Coordinator {
    var hostsFound: nat
    var hostsHandled: nat
    /** The result lines written so far, after the header. */
    var lines: seq<ReportLine>
    var stopped: bool
    /** The messages handled so far. */
    ghost var trace: seq<Event<HostReport>>

    /** The counters and lines follow the messages handled, and the coordinator has stopped at the one completion signal. */
    ghost predicate Valid()
      reads this
    {
      && hostsFound == Found(trace) && hostsHandled == Handled(trace) && lines == Printed(trace)
      && Signals(trace) == (if stopped then 1 else 0)
    }

    /** `CoordinatorActor::new`. */
    constructor ()
      ensures Valid() && trace == []
      ensures hostsFound == 0 && hostsHandled == 0 && lines == [] && !stopped
    {
      hostsFound, hostsHandled, lines, stopped := 0, 0, [], false;
      trace := [];
    }

    /**
     * `ProcessHostMessage`: a discovered host is counted and its worker
     * started; a stopped coordinator handles no message.
     */
    method ProcessHost()
      requires Valid()
      modifies this
      ensures Valid()
      ensures old(stopped) ==> unchanged(this)
      ensures !old(stopped) ==> trace == old(trace) + [Discovered]
      ensures !old(stopped) ==> hostsFound == old(hostsFound) + 1 && hostsHandled == old(hostsHandled)
      ensures lines == old(lines) && stopped == old(stopped)
    {
      if stopped {
        return;
      }
      hostsFound := hostsFound + 1;
      trace := trace + [Discovered];
      assert trace[..|trace| - 1] == old(trace);
    }

    /**
     * The stream task: each page with a payload becomes one discovered host;
     * transport errors and pages without a payload are skipped. The task runs
     * in the coordinator's context, so a stopped coordinator forwards nothing.
     */
    method ReceivePages(pages: seq<SearchPage>) returns (forwarded: seq<Option<string>>)
      requires Valid()
      modifies this
      ensures Valid()
      ensures old(stopped) ==> forwarded == [] && unchanged(this)
      ensures !old(stopped) ==> forwarded == HostRecords(pages) && trace == old(trace) + Discoveries(|forwarded|)
      ensures !old(stopped) ==> hostsFound == old(hostsFound) + |forwarded| && hostsHandled == old(hostsHandled)
      ensures lines == old(lines) && stopped == old(stopped)
    {
      forwarded := [];
      if stopped {
        return;
      }
      var i := 0;
      while i < |pages|
        invariant 0 <= i <= |pages|
        invariant Valid() && !stopped
        invariant forwarded == HostRecords(pages[..i])
        invariant trace == old(trace) + Discoveries(|forwarded|)
        invariant hostsFound == old(hostsFound) + |forwarded| && hostsHandled == old(hostsHandled)
        invariant lines == old(lines)
      {
        var page := pages[i];
        HostRecordsStep(pages, i);
        if page.Page? && page.payload.Some? {
          ProcessHost();
          forwarded := forwarded + [page.payload.value.remoteHostId];
          assert trace == old(trace) + Discoveries(|forwarded|);
        }
        i := i + 1;
      }
      assert pages[..|pages|] == pages;
    }

    /**
     * `HostResultMessage`: the host is counted as handled, a line numbered by
     * the new handled count is written, and the coordinator stops when the
     * counters are equal; a stopped coordinator handles no message.
     */
    method HostResultMessage(report: HostReport)
      requires Valid()
      modifies this
      ensures Valid()
      ensures old(stopped) ==> unchanged(this)
      ensures !old(stopped) ==> trace == old(trace) + [Reported(Some(report))]
      ensures !old(stopped) ==> hostsFound == old(hostsFound) && hostsHandled == old(hostsHandled) + 1
      ensures !old(stopped) ==> lines == old(lines) + [Line(hostsHandled, report)]
      ensures !old(stopped) ==> (stopped <==> hostsFound == hostsHandled)
    {
      if stopped {
        return;
      }
      hostsHandled := hostsHandled + 1;
      lines := lines + [Line(hostsHandled, report)];
      trace := trace + [Reported(Some(report))];
      assert trace[..|trace| - 1] == old(trace);
      if hostsFound == hostsHandled {
        stopped := true;
      }
    }

    /**
     * `HostEmptyResultMessage`: the host is counted as handled and nothing is
     * written; the coordinator stops when the counters are equal. A stopped
     * coordinator handles no message.
     */
    method HostEmptyResultMessage()
      requires Valid()
      modifies this
      ensures Valid()
      ensures old(stopped) ==> unchanged(this)
      ensures !old(stopped) ==> trace == old(trace) + [Reported(None)]
      ensures !old(stopped) ==> hostsFound == old(hostsFound) && hostsHandled == old(hostsHandled) + 1
      ensures lines == old(lines)
      ensures !old(stopped) ==> (stopped <==> hostsFound == hostsHandled)
    {
      if stopped {
        return;
      }
      hostsHandled := hostsHandled + 1;
      trace := trace + [Reported(None)];
      assert trace[..|trace| - 1] == old(trace);
      if hostsFound == hostsHandled {
        stopped := true;
      }
    }

    /** One message from the mailbox, passed to its handler. */
    method Receive(e: Event<HostReport>)
      requires Valid()
      modifies this
      ensures Valid()
      ensures old(stopped) ==> unchanged(this)
      ensures !old(stopped) ==> trace == old(trace) + [e]
    {
      match e {
        case Discovered => ProcessHost();
        case Reported(None) => HostEmptyResultMessage();
        case Reported(Some(r)) => HostResultMessage(r);
      }
    }

    /**
     * A fresh coordinator given the messages `incoming`, in mailbox order:
     * it handles those up to its first completion signal and drops the rest,
     * so the lines written are those of the delivered messages.
     */
    method HandleAll(incoming: seq<Event<HostReport>>)
      requires Valid() && trace == []
      modifies this
      ensures Valid() && trace == Delivered(incoming)
      ensures lines == Printed(Delivered(incoming))
      ensures stopped <==> Signals(incoming) > 0
    {
      var i := 0;
      while i < |incoming|
        invariant 0 <= i <= |incoming|
        invariant Valid() && trace == Delivered(incoming[..i])
      {
        var x := incoming[..i];
        assert incoming[..i + 1][..i] == x;
        DeliveredSpec(x);
        Receive(incoming[i]);
        i := i + 1;
      }
      assert incoming[..|incoming|] == incoming;
      DeliveredSpec(incoming);
    }
  }
}
