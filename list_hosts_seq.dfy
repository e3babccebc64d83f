/**
 * The sequential host listing: it reads the search stream to its end and,
 * for each host whose url is known, writes a line numbered by a running
 * count, with the host's version when asked for.
 */
module ListHostsSeq {
  import opened Wrappers
  import opened Search
  import opened HostLookup

  /** A listed host: its url without `.iotics.space`, its DID and its version. */
  datatype Entry = Entry(url: string, hostDid: string, version: string)

  /** One printed line: the running count and the entry. */
  datatype Line = Line(number: nat, entry: Entry)

  /** The entry of one host record, when its url is known. */
  function EntryOf(remoteHostId: Option<string>, hostAddress: string, withVersion: bool,
                   dig: string -> DigResult, fetch: string -> VersionResponse): Option<Entry>
  {
    var (did, url) := HostUrl(remoteHostId, Prod, hostAddress, dig);
    if url.None? then None
    else Some(Entry(StripDomain(url.value), did, GetHostVersion(withVersion, url.value, fetch)))
  }

  /** The entry one item of the stream contributes: none for an error, an empty payload or an unknown url. */
  function PageEntry(page: SearchPage, hostAddress: string, withVersion: bool,
                     dig: string -> DigResult, fetch: string -> VersionResponse): seq<Entry>
  {
    if page.Page? && page.payload.Some? then
      match EntryOf(page.payload.value.remoteHostId, hostAddress, withVersion, dig, fetch)
      case Some(e) => [e]
      case None => []
    else []
  }

  /** The entries of the hosts of `pages`, in stream order; hosts without a url are left out. */
  function Entries(pages: seq<SearchPage>, hostAddress: string, withVersion: bool,
                   dig: string -> DigResult, fetch: string -> VersionResponse): seq<Entry>
  {
    if |pages| == 0 then []
    else Entries(pages[..|pages| - 1], hostAddress, withVersion, dig, fetch)
         + PageEntry(pages[|pages| - 1], hostAddress, withVersion, dig, fetch)
  }

  /**
   * At most one line per host the stream reports, and exactly one per host
   * when every host's url is known; the local host's url always is.
   */
  lemma {:induction false} EntriesPerHost(pages: seq<SearchPage>, hostAddress: string, withVersion: bool,
                                          dig: string -> DigResult, fetch: string -> VersionResponse)
    ensures |Entries(pages, hostAddress, withVersion, dig, fetch)| <= |HostRecords(pages)|
    ensures (forall i :: 0 <= i < |HostRecords(pages)| ==> EntryOf(HostRecords(pages)[i], hostAddress, withVersion, dig, fetch).Some?) ==>
              |Entries(pages, hostAddress, withVersion, dig, fetch)| == |HostRecords(pages)|
    ensures (forall i :: 0 <= i < |HostRecords(pages)| ==> HostRecords(pages)[i].None?) ==>
              |Entries(pages, hostAddress, withVersion, dig, fetch)| == |HostRecords(pages)|
  {
    if |pages| > 0 {
      var init := pages[..|pages| - 1];
      EntriesPerHost(init, hostAddress, withVersion, dig, fetch);
      var last := pages[|pages| - 1];
      if last.Page? && last.payload.Some? {
        assert HostRecords(pages) == HostRecords(init) + [last.payload.value.remoteHostId];
        assert forall i :: 0 <= i < |HostRecords(init)| ==> HostRecords(init)[i] == HostRecords(pages)[i];
        var e := EntryOf(last.payload.value.remoteHostId, hostAddress, withVersion, dig, fetch);
        assert PageEntry(last, hostAddress, withVersion, dig, fetch) == (if e.Some? then [e.value] else []);
        assert HostRecords(pages)[|HostRecords(pages)| - 1] == last.payload.value.remoteHostId;
      } else {
        assert HostRecords(pages) == HostRecords(init);
        assert PageEntry(last, hostAddress, withVersion, dig, fetch) == [];
      }
    }
  }

  /** What the listing loop has produced so far: the lines written and the transport errors logged. */
  datatype Listing = Listing(lines: seq<Line>, errorsLogged: nat)

  /** One item of the stream: an error is logged; a host with a known url gets the next number. */
  function ListStep(l: Listing, page: SearchPage, hostAddress: string, withVersion: bool,
                    dig: string -> DigResult, fetch: string -> VersionResponse): Listing
  {
    match page
    case SearchError(_) => l.(errorsLogged := l.errorsLogged + 1)
    case Page(None) => l
    case Page(Some(p)) =>
      match EntryOf(p.remoteHostId, hostAddress, withVersion, dig, fetch)
      case None => l
      case Some(e) => l.(lines := l.lines + [Line(|l.lines| + 1, e)])
  }

  /** The first `n` items of the stream, listed in order. */
  function ListAll(pages: seq<SearchPage>, n: nat, hostAddress: string, withVersion: bool,
                   dig: string -> DigResult, fetch: string -> VersionResponse): Listing
    requires n <= |pages|
  {
    if n == 0 then Listing([], 0)
    else ListStep(ListAll(pages, n - 1, hostAddress, withVersion, dig, fetch), pages[n - 1], hostAddress, withVersion, dig, fetch)
  }

  /** The entries of the first `n` items are those of the first `n - 1` and then the last item's. */
  lemma EntriesPrefixStep(pages: seq<SearchPage>, n: nat, hostAddress: string, withVersion: bool,
                          dig: string -> DigResult, fetch: string -> VersionResponse)
    requires 0 < n <= |pages|
    ensures Entries(pages[..n], hostAddress, withVersion, dig, fetch)
            == Entries(pages[..n - 1], hostAddress, withVersion, dig, fetch) + PageEntry(pages[n - 1], hostAddress, withVersion, dig, fetch)
  {
    assert pages[..n][..n - 1] == pages[..n - 1];
  }

  /** The errors among the first `n` items are those among the first `n - 1`, and the last item when it is one. */
  lemma ErrorPrefixStep(pages: seq<SearchPage>, n: nat)
    requires 0 < n <= |pages|
    ensures ErrorCount(pages[..n]) == ErrorCount(pages[..n - 1]) + (if pages[n - 1].SearchError? then 1 else 0)
  {
    assert pages[..n][..n - 1] == pages[..n - 1];
  }

  /** One step of the listing appends the item's entry, numbered after the lines already written. */
  lemma ListStepNumbers(l: Listing, page: SearchPage, hostAddress: string, withVersion: bool,
                        dig: string -> DigResult, fetch: string -> VersionResponse)
    ensures var r := ListStep(l, page, hostAddress, withVersion, dig, fetch);
            var added := PageEntry(page, hostAddress, withVersion, dig, fetch);
            && |r.lines| == |l.lines| + |added|
            && r.lines[..|l.lines|] == l.lines
            && (forall k :: 0 <= k < |added| ==> r.lines[|l.lines| + k] == Line(|l.lines| + k + 1, added[k]))
            && r.errorsLogged == l.errorsLogged + (if page.SearchError? then 1 else 0)
  {
  }

  /**
   * Listing numbers the entries of the hosts from 1 in stream order, and
   * logs one error per transport error.
   */
  lemma {:induction false} ListAllNumbers(pages: seq<SearchPage>, n: nat, hostAddress: string, withVersion: bool,
                                          dig: string -> DigResult, fetch: string -> VersionResponse)
    requires n <= |pages|
    ensures var l := ListAll(pages, n, hostAddress, withVersion, dig, fetch);
            var entries := Entries(pages[..n], hostAddress, withVersion, dig, fetch);
            && |l.lines| == |entries|
            && (forall k :: 0 <= k < |l.lines| ==> l.lines[k] == Line(k + 1, entries[k]))
            && l.errorsLogged == ErrorCount(pages[..n])
  {
    if n > 0 {
      ListAllNumbers(pages, n - 1, hostAddress, withVersion, dig, fetch);
      EntriesPrefixStep(pages, n, hostAddress, withVersion, dig, fetch);
      ErrorPrefixStep(pages, n);
      var before := ListAll(pages, n - 1, hostAddress, withVersion, dig, fetch);
      ListStepNumbers(before, pages[n - 1], hostAddress, withVersion, dig, fetch);
      var r := ListAll(pages, n, hostAddress, withVersion, dig, fetch);
      var earlier := Entries(pages[..n - 1], hostAddress, withVersion, dig, fetch);
      var added := PageEntry(pages[n - 1], hostAddress, withVersion, dig, fetch);
      var entries := earlier + added;
      forall k | 0 <= k < |r.lines|
        ensures r.lines[k] == Line(k + 1, entries[k])
      {
        if k < |earlier| {
          assert r.lines[k] == r.lines[..|before.lines|][k];
        } else {
          assert r.lines[|before.lines| + (k - |earlier|)] == Line(|before.lines| + (k - |earlier|) + 1, added[k - |earlier|]);
        }
      }
    }
  }

  /**
   * `ListHosts::run` after the header: the search pages are consumed to the
   * end; each host with a known url gets the next number; transport errors
   * are logged and skipped.
   */
  method Run(pages: seq<SearchPage>, hostAddress: string, withVersion: bool,
             dig: string -> DigResult, fetch: string -> VersionResponse)
    returns (lines: seq<Line>, errorsLogged: nat)
    ensures Listing(lines, errorsLogged) == ListAll(pages, |pages|, hostAddress, withVersion, dig, fetch)
  {
    lines, errorsLogged := [], 0;
    var count := 0;
    var i := 0;
    while i < |pages|
      invariant 0 <= i <= |pages|
      invariant count == |lines|
      invariant Listing(lines, errorsLogged) == ListAll(pages, i, hostAddress, withVersion, dig, fetch)
    {
      match pages[i] {
        case SearchError(_) =>
          errorsLogged := errorsLogged + 1;
        case Page(payload) =>
          if payload.Some? {
            var (did, url) := HostUrl(payload.value.remoteHostId, Prod, hostAddress, dig);
            if url.Some? {
              var version := GetHostVersion(withVersion, url.value, fetch);
              var shown := StripDomain(url.value);
              count := count + 1;
              lines := lines + [Line(count, Entry(shown, did, version))];
            }
          }
      }
      i := i + 1;
    }
  }

  /** What `Run` writes: the hosts' entries numbered from 1 in stream order, and one logged error per transport error. */
  lemma RunNumbersEntries(pages: seq<SearchPage>, hostAddress: string, withVersion: bool,
                          dig: string -> DigResult, fetch: string -> VersionResponse)
    ensures var l := ListAll(pages, |pages|, hostAddress, withVersion, dig, fetch);
            var entries := Entries(pages, hostAddress, withVersion, dig, fetch);
            && |l.lines| == |entries|
            && (forall k :: 0 <= k < |l.lines| ==> l.lines[k] == Line(k + 1, entries[k]))
            && l.errorsLogged == ErrorCount(pages)
  {
    ListAllNumbers(pages, |pages|, hostAddress, withVersion, dig, fetch);
    assert pages[..|pages|] == pages;
  }
}
