/**
 * The items a search stream delivers, and the rules the commands apply to
 * them: which page is taken to be the last one, which twins and which host
 * records the pages carry. A sequence of items stands for what the receiver
 * gets, in order; closing the stream stops its senders, and the items already
 * buffered are still received.
 */
module Search {
  import opened Wrappers

  /** The payload of one search response: the answering host (absent for the local host) and its twins' DIDs. */
  datatype SearchPayload = SearchPayload(remoteHostId: Option<string>, twins: seq<string>)

  /** One item received from the search stream: a transport error, or a page that may lack a payload. */
  datatype SearchPage = SearchError(message: string) | Page(payload: Option<SearchPayload>)

  /** A payload shorter than the page size is taken to be the last page, and the stream is closed. */
  predicate IsLastPage(page: SearchPage, pageSize: nat)
  {
    page.Page? && page.payload.Some? && |page.payload.value.twins| < pageSize
  }

  /**
   * How many items have been received when a delete command closes the
   * stream: up to and including the first short page, or all of them when
   * none is short. The items after it are those drained from the closed
   * stream.
   */
  function ReadUntilClose(pages: seq<SearchPage>, pageSize: nat): (n: nat)
    ensures n <= |pages|
    ensures n < |pages| ==> n > 0 && IsLastPage(pages[n - 1], pageSize)
    ensures forall j :: 0 <= j < n - 1 ==> !IsLastPage(pages[j], pageSize)
  {
    if |pages| == 0 then 0
    else if IsLastPage(pages[0], pageSize) then 1
    else 1 + ReadUntilClose(pages[1..], pageSize)
  }

  /** The twin DIDs one item carries: those of its payload, none for an error or an empty page. */
  function TwinsOf(page: SearchPage): seq<string>
  {
    if page.Page? && page.payload.Some? then page.payload.value.twins else []
  }

  /** The twin DIDs carried by the payloads of `pages`, in page order. */
  function PageTwins(pages: seq<SearchPage>): seq<string>
  {
    if |pages| == 0 then [] else PageTwins(pages[..|pages| - 1]) + TwinsOf(pages[|pages| - 1])
  }

  /** One more page read adds that page's twins. */
  lemma PageTwinsStep(pages: seq<SearchPage>, n: nat)
    requires n < |pages|
    ensures PageTwins(pages[..n + 1]) == PageTwins(pages[..n]) + TwinsOf(pages[n])
  {
    var prefix := pages[..n + 1];
    assert prefix[..n] == pages[..n] && prefix[n] == pages[n];
  }

  /** The twins of two runs of items received one after the other are those of the first, then those of the second. */
  lemma {:induction false} PageTwinsAppend(a: seq<SearchPage>, b: seq<SearchPage>)
    ensures PageTwins(a + b) == PageTwins(a) + PageTwins(b)
  {
    if |b| > 0 {
      var b' := b[..|b| - 1];
      assert (a + b)[..|a + b| - 1] == a + b';
      PageTwinsAppend(a, b');
    } else {
      assert a + b == a;
    }
  }

  /**
   * The host records a coordinator's stream task forwards, one per page with
   * a payload; errors and pages without a payload forward nothing.
   */
  function HostRecords(pages: seq<SearchPage>): (r: seq<Option<string>>)
    ensures |r| <= |pages|
  {
    if |pages| == 0 then []
    else
      var last := pages[|pages| - 1];
      HostRecords(pages[..|pages| - 1]) + (if last.Page? && last.payload.Some? then [last.payload.value.remoteHostId] else [])
  }

  /** The number of transport errors among `pages`. */
  function ErrorCount(pages: seq<SearchPage>): (n: nat)
    ensures n <= |pages|
  {
    if |pages| == 0 then 0
    else ErrorCount(pages[..|pages| - 1]) + (if pages[|pages| - 1].SearchError? then 1 else 0)
  }

  /**
   * Every host record forwarded is the host of some payload received, and
   * the records and the errors together never outnumber the items.
   */
  lemma {:induction false} HostRecordsSpec(pages: seq<SearchPage>)
    ensures |HostRecords(pages)| + ErrorCount(pages) <= |pages|
    ensures forall h :: h in HostRecords(pages) ==>
              exists j :: 0 <= j < |pages| && pages[j].Page? && pages[j].payload.Some? && pages[j].payload.value.remoteHostId == h
  {
    if |pages| > 0 {
      var init := pages[..|pages| - 1];
      HostRecordsSpec(init);
      forall h | h in HostRecords(pages)
        ensures exists j :: 0 <= j < |pages| && pages[j].Page? && pages[j].payload.Some? && pages[j].payload.value.remoteHostId == h
      {
        if h in HostRecords(init) {
          var j :| 0 <= j < |init| && init[j].Page? && init[j].payload.Some? && init[j].payload.value.remoteHostId == h;
          assert pages[j] == init[j];
        } else {
          assert pages[|pages| - 1].Page?;
        }
      }
    }
  }

  /** No error is counted exactly when no item is an error, and every item exactly when all of them are. */
  lemma {:induction false} ErrorCountSpec(pages: seq<SearchPage>)
    ensures ErrorCount(pages) == 0 <==> forall j :: 0 <= j < |pages| ==> !pages[j].SearchError?
    ensures ErrorCount(pages) == |pages| <==> forall j :: 0 <= j < |pages| ==> pages[j].SearchError?
  {
    if |pages| > 0 {
      var init := pages[..|pages| - 1];
      ErrorCountSpec(init);
      assert forall j :: 0 <= j < |init| ==> init[j] == pages[j];
    }
  }

  /** One more item read forwards that item's host record, when it is a page with a payload. */
  lemma HostRecordsStep(pages: seq<SearchPage>, n: nat)
    requires n < |pages|
    ensures HostRecords(pages[..n + 1]) == HostRecords(pages[..n])
              + (if pages[n].Page? && pages[n].payload.Some? then [pages[n].payload.value.remoteHostId] else [])
  {
    assert pages[..n + 1][..n] == pages[..n];
  }

  /** A page of exactly the page size does not close the stream; only a shorter one does. */
  lemma {:induction false} FullPagesKeepOpen(pages: seq<SearchPage>, pageSize: nat, k: nat)
    requires k < |pages| - 1
    requires forall j :: 0 <= j <= k ==> pages[j].Page? && pages[j].payload.Some? && |pages[j].payload.value.twins| == pageSize
    ensures ReadUntilClose(pages, pageSize) > k + 1
  {
    if k > 0 {
      FullPagesKeepOpen(pages[1..], pageSize, k - 1);
    }
  }

  /** The stream is closed exactly at the first short page. */
  lemma {:induction false} ClosesAtFirstShortPage(pages: seq<SearchPage>, pageSize: nat, i: nat)
    requires i < |pages| && IsLastPage(pages[i], pageSize)
    requires forall j :: 0 <= j < i ==> !IsLastPage(pages[j], pageSize)
    ensures ReadUntilClose(pages, pageSize) == i + 1
  {
    if i > 0 {
      ClosesAtFirstShortPage(pages[1..], pageSize, i - 1);
    }
  }

  /** Without a short page the stream is never closed by the command. */
  lemma {:induction false} NoShortPageNoClose(pages: seq<SearchPage>, pageSize: nat)
    requires forall j :: 0 <= j < |pages| ==> !IsLastPage(pages[j], pageSize)
    ensures ReadUntilClose(pages, pageSize) == |pages|
  {
    if |pages| > 0 {
      NoShortPageNoClose(pages[1..], pageSize);
    }
  }
}
