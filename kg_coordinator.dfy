/**
 * The coordinator of the knowledge-graph command: it counts discovered and
 * handled hosts, keeps every reported host's twin list keyed by url, asks for
 * the graph whenever the two counters meet, and builds the graph from the
 * collected hosts.
 */
module KgCoordinator {
  import opened Wrappers
  import opened FanOut
  import opened Resolver
  import opened Search
  import Text

  /** `HostResultMessage`: a host's DID, its shortened url and its resolved twins. */
  datatype HostResult = HostResult(hostDid: string, url: string, twins: seq<TwinDidDocument>)

  /** One printed result line: sequence number, url, host DID and the twin count its last column shows. */
  datatype ResultLine = ResultLine(number: nat, url: string, hostDid: string, twinCount: nat)

  /** The summary printed before the graph is generated. */
  datatype Summary = Summary(hostCount: nat, twinCount: nat)

  /** What graph generation produces: the summary, the graph, and the text written to the export file. */
  datatype KbExport = KbExport(summary: Summary, graph: set<Triple>, exported: string)

  datatype Term = Iri(iri: string) | Literal(text: string)
  datatype Triple = Triple(subject: string, property: string, value: Term)

  const RdfType: string := "http://www.w3.org/1999/02/22-rdf-syntax-ns#type"
  const RdfsLabel: string := "http://www.w3.org/2000/01/rdf-schema#label"
  const DiddyHost: string := "https://data.iotics.com/diddy/Host"
  const DiddyAddress: string := "https://data.iotics.com/diddy/address"

  /** The address literal a host is given in the graph. */
  function AddressLiteral(host: string): string
  {
    "https://" + host + ".iotics.space"
  }

  /** The triples asserted for one host: its type, its label and its address. */
  function HostTriples(host: string): (r: set<Triple>)
    ensures |r| == 3
    ensures Triple(host, RdfType, Iri(DiddyHost)) in r
    ensures forall tr :: tr in r ==> tr.subject == host
  {
    {Triple(host, RdfType, Iri(DiddyHost)),
     Triple(host, RdfsLabel, Literal(host)),
     Triple(host, DiddyAddress, Literal(AddressLiteral(host)))}
  }

  /** The triples asserted for every host of `hosts`. */
  function HostGraph(hosts: set<string>): set<Triple>
  {
    set h, tr | h in hosts && tr in HostTriples(h) :: tr
  }

  /** Adding one host to a set adds its three triples to the graph. */
  lemma HostGraphAdd(hosts: set<string>, host: string)
    ensures HostGraph(hosts + {host}) == HostGraph(hosts) + HostTriples(host)
  {
  }

  /** The subjects a graph types as `diddy:Host`. */
  function TypedHosts(g: set<Triple>): set<string>
  {
    set tr | tr in g && tr.property == RdfType && tr.value == Iri(DiddyHost) :: tr.subject
  }

  /**
   * The hosts typed in the generated graph are exactly the collected hosts,
   * provided the ontology itself types nothing as a host; it may still
   * mention the class, as a domain or a range.
   */
  lemma GraphTypesCollectedHosts(ontology: set<Triple>, hosts: set<string>)
    requires forall tr :: tr in ontology ==> !(tr.property == RdfType && tr.value == Iri(DiddyHost))
    ensures TypedHosts(ontology + HostGraph(hosts)) == hosts
  {
    forall h | h in hosts ensures h in TypedHosts(ontology + HostGraph(hosts)) {
      assert Triple(h, RdfType, Iri(DiddyHost)) in HostTriples(h);
    }
  }

  /** `host_twins` after the events `t`: each result sets its url's entry, replacing an earlier one. */
  function Collected(t: seq<Event<HostResult>>): map<string, seq<TwinDidDocument>>
  {
    if |t| == 0 then map[]
    else
      var e := t[|t| - 1];
      if e.Reported? && e.result.Some? then Collected(t[..|t| - 1])[e.result.value.url := e.result.value.twins]
      else Collected(t[..|t| - 1])
  }

  /** The line written for a result handled as the `number`-th. */
  function ResultLineOf(number: nat, r: HostResult): ResultLine
  {
    ResultLine(number, r.url, r.hostDid, |r.twins|)
  }

  /** The last column of a result line: its twin count right-aligned in six characters. */
  function TwinsColumn(line: ResultLine): string
  {
    Text.PadLeft(Text.Decimal(line.twinCount), 6)
  }

  /** The twins column is at least six wide and reads back as the line's twin count. */
  lemma TwinsColumnReads(line: ResultLine)
    ensures |TwinsColumn(line)| >= 6
    ensures Text.ParseDecimal(Text.TrimStart(TwinsColumn(line))) == line.twinCount
  {
    Text.PaddedNumberReads(line.twinCount, 6);
  }

  /** The lines written along the events `t`: one per non-empty report, numbered by the handled count. */
  function ResultLines(t: seq<Event<HostResult>>): seq<ResultLine>
  {
    if |t| == 0 then []
    else
      var e := t[|t| - 1];
      ResultLines(t[..|t| - 1]) + (if e.Reported? && e.result.Some? then [ResultLineOf(Handled(t), e.result.value)] else [])
  }

  /**
   * The result lines are numbered between 1 and the handled count, strictly
   * increasing, and each shows its host's twin count.
   */
  lemma {:induction false} ResultLinesNumbering(t: seq<Event<HostResult>>)
    ensures |ResultLines(t)| <= Handled(t)
    ensures forall i :: 0 <= i < |ResultLines(t)| ==> 1 <= ResultLines(t)[i].number <= Handled(t)
    ensures forall i, j :: 0 <= i < j < |ResultLines(t)| ==> ResultLines(t)[i].number < ResultLines(t)[j].number
  {
    if |t| > 0 {
      ResultLinesNumbering(t[..|t| - 1]);
    }
  }

  /** One more report: the handled count grows, and a non-empty report records its twins and adds its line. */
  lemma ReportFolds(t: seq<Event<HostResult>>, r: Option<HostResult>)
    ensures var t' := t + [Reported(r)];
            && Found(t') == Found(t) && Handled(t') == Handled(t) + 1
            && Collected(t') == (if r.Some? then Collected(t)[r.value.url := r.value.twins] else Collected(t))
            && ResultLines(t') == ResultLines(t) + (if r.Some? then [ResultLineOf(Handled(t) + 1, r.value)] else [])
  {
    var t' := t + [Reported(r)];
    assert t'[..|t'| - 1] == t;
  }

  /** One more discovery: only the found count grows. */
  lemma DiscoveryFolds(t: seq<Event<HostResult>>)
    ensures var t' := t + [Discovered];
            && Found(t') == Found(t) + 1 && Handled(t') == Handled(t)
            && Collected(t') == Collected(t) && ResultLines(t') == ResultLines(t)
  {
    var t' := t + [Discovered];
    assert t'[..|t'| - 1] == t;
  }

  /** No more hosts are collected than reports were handled. */
  lemma {:induction false} CollectedAtMostHandled(t: seq<Event<HostResult>>)
    ensures |Collected(t)| <= Handled(t)
  {
    if |t| > 0 {
      CollectedAtMostHandled(t[..|t| - 1]);
      var e := t[|t| - 1];
      if e.Reported? && e.result.Some? {
        var m := Collected(t[..|t| - 1]);
        assert m[e.result.value.url := e.result.value.twins].Keys == m.Keys + {e.result.value.url};
      }
    }
  }

  /** Taking one host out of a map leaves one host fewer. */
  lemma RemoveOne(m: map<string, seq<TwinDidDocument>>, k: string)
    requires k in m
    ensures |m - {k}| == |m| - 1
  {
    assert (m - {k}).Keys == m.Keys - {k};
  }

  /** Some host of a non-empty map. */
  ghost function Pick(m: map<string, seq<TwinDidDocument>>): (k: string)
    requires |m| > 0
    ensures k in m
  {
    assert m.Keys != {};
    var k :| k in m; k
  }

  /** The number of twins over all hosts of `m`. */
  ghost function TwinTotal(m: map<string, seq<TwinDidDocument>>): nat
    decreases |m|
  {
    if |m| == 0 then 0
    else
      var k := Pick(m);
      RemoveOne(m, k);
      |m[k]| + TwinTotal(m - {k})
  }

  /** The twin total can be taken apart at any host, not only at the one its definition picks. */
  lemma {:induction false} TwinTotalRemove(m: map<string, seq<TwinDidDocument>>, k: string)
    requires k in m
    ensures TwinTotal(m) == |m[k]| + TwinTotal(m - {k})
    decreases |m|
  {
    var j := Pick(m);
    if j != k {
      var mj, mk := m - {j}, m - {k};
      RemoveOne(m, j);
      RemoveOne(m, k);
      TwinTotalRemove(mj, k);
      TwinTotalRemove(mk, j);
      assert mj - {k} == mk - {j};
    }
  }

  /**
   * A host result changes the twin total by replacing the old entry's twins
   * for that url, if any, by the new ones.
   */
  lemma TwinTotalAfterResult(m: map<string, seq<TwinDidDocument>>, url: string, twins: seq<TwinDidDocument>)
    ensures TwinTotal(m[url := twins]) == TwinTotal(m - {url}) + |twins|
    ensures url in m ==> TwinTotal(m) == TwinTotal(m - {url}) + |m[url]|
  {
    TwinTotalRemove(m[url := twins], url);
    assert m[url := twins] - {url} == m - {url};
    if url in m {
      TwinTotalRemove(m, url);
    }
  }

  /** The fold over the hosts' twin lists that totals their lengths. */
  method CountTwins(hostTwins: map<string, seq<TwinDidDocument>>) returns (twinCount: nat)
    ensures twinCount == TwinTotal(hostTwins)
  {
    twinCount := 0;
    var rest := hostTwins;
    while rest != map[]
      invariant twinCount + TwinTotal(rest) == TwinTotal(hostTwins)
      decreases |rest|
    {
      var url :| url in rest;
      TwinTotalRemove(rest, url);
      twinCount := twinCount + |rest[url]|;
      RemoveOne(rest, url);
      rest := rest - {url};
    }
  }

  /** Inserting a host's three triples one at a time extends the graph by that host. */
  lemma AddHostTriples(ontologyTriples: set<Triple>, done: set<string>, host: string)
    ensures ontologyTriples + HostGraph(done)
              + {Triple(host, RdfType, Iri(DiddyHost))}
              + {Triple(host, RdfsLabel, Literal(host))}
              + {Triple(host, DiddyAddress, Literal(AddressLiteral(host)))}
            == ontologyTriples + HostGraph(done + {host})
  {
    HostGraphAdd(done, host);
  }

  /** The store loaded with the ontology, then given each host's three triples. */
  method BuildGraph(ontologyTriples: set<Triple>, hosts: set<string>) returns (graph: set<Triple>)
    ensures graph == ontologyTriples + HostGraph(hosts)
  {
    graph := ontologyTriples;
    var pending := hosts;
    ghost var done: set<string> := {};
    while pending != {}
      invariant pending + done == hosts
      invariant graph == ontologyTriples + HostGraph(done)
      decreases pending
    {
      var host :| host in pending;
      AddHostTriples(ontologyTriples, done, host);
      graph := graph + {Triple(host, RdfType, Iri(DiddyHost))};
      graph := graph + {Triple(host, RdfsLabel, Literal(host))};
      graph := graph + {Triple(host, DiddyAddress, Literal(AddressLiteral(host)))};
      done := done + {host};
      pending := pending - {host};
    }
  }

  class Coordinator {
    var hostsFound: nat
    var hostsHandled: nat
    var hostTwins: map<string, seq<TwinDidDocument>>
    /** The result lines written so far. */
    var lines: seq<ResultLine>
    var stopped: bool
    /** The messages handled so far, apart from graph generation. */
    ghost var trace: seq<Event<HostResult>>

    /** The counters, the collected twins and the lines written follow the messages handled. */
    ghost predicate Valid()
      reads this
    {
      && hostsFound == Found(trace) && hostsHandled == Handled(trace) && hostTwins == Collected(trace)
      && lines == ResultLines(trace)
    }

    /** `CoordinatorActor::new`. */
    constructor ()
      ensures Valid() && trace == []
      ensures hostsFound == 0 && hostsHandled == 0 && hostTwins == map[] && lines == [] && !stopped
    {
      hostsFound, hostsHandled, hostTwins, lines, stopped := 0, 0, map[], [], false;
      trace := [];
    }

    /**
     * `ProcessHostMessage`: a discovered host is counted and its worker
     * started; a stopped coordinator handles no message.
     */
    method ProcessHost()
      requires Valid()
      modifies this
      ensures Valid()
      ensures old(stopped) ==> unchanged(this)
      ensures !old(stopped) ==> trace == old(trace) + [Discovered]
      ensures !old(stopped) ==> hostsFound == old(hostsFound) + 1 && hostsHandled == old(hostsHandled)
      ensures hostTwins == old(hostTwins) && lines == old(lines) && stopped == old(stopped)
    {
      if stopped {
        return;
      }
      DiscoveryFolds(trace);
      hostsFound := hostsFound + 1;
      trace := trace + [Discovered];
    }

    /**
     * The stream task: each page with a payload becomes one discovered host;
     * transport errors and pages without a payload are skipped. The task runs
     * in the coordinator's context, so a stopped coordinator forwards nothing.
     */
    method ReceivePages(pages: seq<SearchPage>) returns (forwarded: seq<Option<string>>)
      requires Valid()
      modifies this
      ensures Valid()
      ensures old(stopped) ==> forwarded == [] && unchanged(this)
      ensures !old(stopped) ==> forwarded == HostRecords(pages) && trace == old(trace) + Discoveries(|forwarded|)
      ensures !old(stopped) ==> hostsFound == old(hostsFound) + |forwarded| && hostsHandled == old(hostsHandled)
      ensures hostTwins == old(hostTwins) && lines == old(lines) && stopped == old(stopped)
    {
      forwarded := [];
      if stopped {
        return;
      }
      var i := 0;
      while i < |pages|
        invariant 0 <= i <= |pages|
        invariant Valid() && !stopped
        invariant forwarded == HostRecords(pages[..i])
        invariant trace == old(trace) + Discoveries(|forwarded|)
        invariant hostsFound == old(hostsFound) + |forwarded| && hostsHandled == old(hostsHandled)
        invariant hostTwins == old(hostTwins) && lines == old(lines)
      {
        var page := pages[i];
        HostRecordsStep(pages, i);
        if page.Page? && page.payload.Some? {
          ProcessHost();
          forwarded := forwarded + [page.payload.value.remoteHostId];
          assert trace == old(trace) + Discoveries(|forwarded|);
        }
        i := i + 1;
      }
      assert pages[..|pages|] == pages;
    }

    /**
     * `HostResultMessage`: the host is counted as handled, a line numbered by
     * the new handled count is written, the url's twin list is recorded, and
     * the graph is asked for exactly when the counters are equal; a stopped
     * coordinator handles no message.
     */
    method HostResultMessage(result: HostResult) returns (generate: bool)
      requires Valid()
      modifies this
      ensures Valid()
      ensures old(stopped) ==> unchanged(this) && !generate
      ensures !old(stopped) ==> trace == old(trace) + [Reported(Some(result))]
      ensures !old(stopped) ==> hostsFound == old(hostsFound) && hostsHandled == old(hostsHandled) + 1
      ensures !old(stopped) ==> hostTwins == old(hostTwins)[result.url := result.twins]
      ensures !old(stopped) ==> lines == old(lines) + [ResultLineOf(hostsHandled, result)]
      ensures !old(stopped) ==> (generate <==> hostsFound == hostsHandled)
      ensures !old(stopped) ==> (generate <==> SignalsAtEnd(trace))
      ensures stopped == old(stopped)
    {
      if stopped {
        return false;
      }
      ReportFolds(trace, Some(result));
      hostsHandled := hostsHandled + 1;
      lines := lines + [ResultLineOf(hostsHandled, result)];
      hostTwins := hostTwins[result.url := result.twins];
      trace := trace + [Reported(Some(result))];
      generate := hostsFound == hostsHandled;
    }

    /**
     * `HostEmptyResultMessage`: the host is counted as handled and nothing
     * else changes but the check; a stopped coordinator handles no message.
     */
    method HostEmptyResultMessage() returns (generate: bool)
      requires Valid()
      modifies this
      ensures Valid()
      ensures old(stopped) ==> unchanged(this) && !generate
      ensures !old(stopped) ==> trace == old(trace) + [Reported(None)]
      ensures !old(stopped) ==> hostsFound == old(hostsFound) && hostsHandled == old(hostsHandled) + 1
      ensures hostTwins == old(hostTwins) && lines == old(lines) && stopped == old(stopped)
      ensures !old(stopped) ==> (generate <==> hostsFound == hostsHandled)
      ensures !old(stopped) ==> (generate <==> SignalsAtEnd(trace))
    {
      if stopped {
        return false;
      }
      ReportFolds(trace, None);
      hostsHandled := hostsHandled + 1;
      trace := trace + [Reported(None)];
      generate := hostsFound == hostsHandled;
    }

    /**
     * `GenerateKbMessage`: the summary counts the collected hosts and all
     * their twins; the graph is the ontology plus three triples per host; the
     * export is the ontology text followed by the serialised graph; the
     * coordinator then stops. A request that reaches an already stopped
     * coordinator is dropped.
     */
    method GenerateKb(ontologyTriples: set<Triple>, ontologyText: string, serialize: set<Triple> -> string)
      returns (r: Option<KbExport>)
      modifies this`stopped
      ensures old(stopped) ==> r.None? && stopped
      ensures !old(stopped) ==> r.Some? && stopped
      ensures r.Some? ==> r.value.summary == Summary(|hostTwins|, TwinTotal(hostTwins))
      ensures r.Some? ==> r.value.graph == ontologyTriples + HostGraph(hostTwins.Keys)
      ensures r.Some? ==> r.value.exported == ontologyText + serialize(r.value.graph)
    {
      if stopped {
        return None;
      }
      var twinCount := CountTwins(hostTwins);
      var graph := BuildGraph(ontologyTriples, hostTwins.Keys);
      r := Some(KbExport(Summary(|hostTwins|, twinCount), graph, ontologyText + serialize(graph)));
      stopped := true;
    }

    /**
     * The early generation the completion check allows, in the order the
     * mailbox delivers it: host `a` is discovered and reports, the counters
     * meet and the graph is requested; host `b` is discovered before the
     * request is handled, and its report arrives behind the request. The
     * graph and the summary cover `a` only, and `b`'s report is dropped by
     * the stopped coordinator.
     */
    static method EarlyGeneration(a: HostResult, b: HostResult, ontologyTriples: set<Triple>, ontologyText: string,
                                  serialize: set<Triple> -> string)
      returns (c: Coordinator, requested: bool, generated: Option<KbExport>, requestedAgain: bool)
      ensures requested && !requestedAgain && c.stopped
      ensures generated.Some?
      ensures generated.value.summary.hostCount == 1 && generated.value.summary.twinCount == |a.twins|
      ensures generated.value.graph == ontologyTriples + HostGraph({a.url})
      ensures c.hostsFound == 2 && c.hostsHandled == 1
      ensures c.hostTwins == map[a.url := a.twins] && c.lines == [ResultLineOf(1, a)]
    {
      c := new Coordinator();
      c.ProcessHost();
      requested := c.HostResultMessage(a);
      c.ProcessHost();
      generated := c.GenerateKb(ontologyTriples, ontologyText, serialize);
      requestedAgain := c.HostResultMessage(b);
      assert c.hostTwins.Keys == {a.url};
      TwinTotalAfterResult(map[], a.url, a.twins);
      assert map[][a.url := a.twins] - {a.url} == map[];
    }
  }
}
