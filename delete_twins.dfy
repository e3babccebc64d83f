/**
 * Deleting the twins of a model found by a local search: each page's twins
 * are deleted as the page arrives, a summary is printed, and the model twin
 * itself is deleted last when asked for.
 */
module DeleteTwins {
  import opened Wrappers
  import opened Search
  import opened DeleteLog

  /** One item of the stream: a transport error is written out, a page's twins are deleted in order. */
  function PageStep(t: Tally, page: SearchPage, verbose: bool, delete: string -> DeleteResult): Tally
  {
    match page
    case SearchError(m) => t.(out := t.out + [SearchErrorLine(m)])
    case Page(None) => t
    case Page(Some(p)) => DeleteAll(t, DeleteTwinsRule, p.twins, |p.twins|, verbose, delete)
  }

  /** The first `n` items of the stream, handled in order. */
  function Stream(t: Tally, pages: seq<SearchPage>, n: nat, verbose: bool, delete: string -> DeleteResult): Tally
    requires n <= |pages|
  {
    if n == 0 then t else PageStep(Stream(t, pages, n - 1, verbose, delete), pages[n - 1], verbose, delete)
  }

  /** After the stream: the summary, the model twin's own deletion when asked for, and the closing line. */
  function Finish(t: Tally, model: string, deleteModel: bool, delete: string -> DeleteResult): Tally
  {
    var summarized := t.(out := t.out + [Newline, FoundAndDeleted(t.found, t.deleted, model)]);
    var last := if deleteModel then DeleteStep(summarized, DeleteTwinsRule, model, true, delete(model)) else summarized;
    last.(out := last.out + [Newline, Done])
  }

  /** One item of the stream counts the page's twins as found and its successful deletions as deleted. */
  lemma PageStepCounters(t: Tally, page: SearchPage, verbose: bool, delete: string -> DeleteResult)
    ensures var r := PageStep(t, page, verbose, delete);
            && r.found == t.found + |TwinsOf(page)|
            && r.deleted == t.deleted + Deletions(TwinsOf(page), delete)
  {
    if page.Page? && page.payload.Some? {
      var twins := page.payload.value.twins;
      DeleteAllCounts(t, DeleteTwinsRule, twins, |twins|, verbose, delete);
      assert twins[..|twins|] == twins;
    }
  }

  /** One item of the stream writes one success mark per deletion made and one failure mark per deletion refused. */
  lemma PageStepMarks(t: Tally, page: SearchPage, verbose: bool, delete: string -> DeleteResult)
    ensures var r := PageStep(t, page, verbose, delete);
            && Successes(r.out) == Successes(t.out) + (r.deleted - t.deleted)
            && Failures(r.out) == Failures(t.out) + (r.found - t.found) - (r.deleted - t.deleted)
  {
    match page {
      case SearchError(m) =>
        CountsAppend(t.out, [SearchErrorLine(m)]);
        CountsOfOne(SearchErrorLine(m));
      case Page(None) =>
      case Page(Some(p)) =>
        MarksAgreeWithCount(t, DeleteTwinsRule, p.twins, |p.twins|, verbose, delete);
    }
  }

  /** Handling the stream counts every twin of the pages as found, and each successful deletion as deleted. */
  lemma {:induction false} StreamCounters(t: Tally, pages: seq<SearchPage>, n: nat, verbose: bool, delete: string -> DeleteResult)
    requires n <= |pages|
    ensures var r := Stream(t, pages, n, verbose, delete);
            && r.found == t.found + |PageTwins(pages[..n])|
            && r.deleted == t.deleted + Deletions(PageTwins(pages[..n]), delete)
  {
    if n > 0 {
      StreamCounters(t, pages, n - 1, verbose, delete);
      PageTwinsStep(pages, n - 1);
      DeletionsAppend(PageTwins(pages[..n - 1]), TwinsOf(pages[n - 1]), delete);
      PageStepCounters(Stream(t, pages, n - 1, verbose, delete), pages[n - 1], verbose, delete);
    }
  }

  /**
   * The success marks written while handling the stream are exactly the
   * deletions counted, and the failure marks exactly the other twins found.
   */
  lemma {:induction false} StreamMarks(t: Tally, pages: seq<SearchPage>, n: nat, verbose: bool, delete: string -> DeleteResult)
    requires n <= |pages|
    ensures var r := Stream(t, pages, n, verbose, delete);
            && Successes(r.out) == Successes(t.out) + (r.deleted - t.deleted)
            && Failures(r.out) == Failures(t.out) + (r.found - t.found) - (r.deleted - t.deleted)
  {
    if n > 0 {
      StreamMarks(t, pages, n - 1, verbose, delete);
      PageStepMarks(Stream(t, pages, n - 1, verbose, delete), pages[n - 1], verbose, delete);
    }
  }

  /**
   * The whole stream, from a fresh start: every twin of the items received is
   * counted as found, those drained after the stream was closed included, the
   * successful deletions as deleted, and the marks written before the summary
   * agree with both counts.
   */
  lemma SummaryAgrees(pages: seq<SearchPage>, pageSize: nat, verbose: bool, delete: string -> DeleteResult)
    ensures var r := Stream(Tally(0, 0, []), pages, |pages|, verbose, delete);
            var c := ReadUntilClose(pages, pageSize);
            && r.found == |PageTwins(pages)|
            && r.found == |PageTwins(pages[..c])| + |PageTwins(pages[c..])|
            && r.deleted == Deletions(PageTwins(pages), delete)
            && Successes(r.out) == r.deleted
            && Failures(r.out) == r.found - r.deleted
  {
    StreamCounters(Tally(0, 0, []), pages, |pages|, verbose, delete);
    StreamMarks(Tally(0, 0, []), pages, |pages|, verbose, delete);
    var c := ReadUntilClose(pages, pageSize);
    assert pages[..|pages|] == pages;
    assert pages[..c] + pages[c..] == pages;
    PageTwinsAppend(pages[..c], pages[c..]);
  }

  class DeleteTwinsCommand {
    var twinsFound: nat
    var twinsDeleted: nat
    const stdout: Console

    /** `DeleteTwins::new`. */
    constructor (stdout: Console)
      ensures twinsFound == 0 && twinsDeleted == 0 && this.stdout == stdout
    {
      twinsFound, twinsDeleted, this.stdout := 0, 0, stdout;
    }

    /** The counters and what has been written. */
    function Snapshot(): Tally
      reads this, stdout
    {
      Tally(twinsFound, twinsDeleted, stdout.out)
    }

    /**
     * `delete_twin`: logs one deletion (verbose when the option or the caller
     * asks for it), counts it as found, and as deleted when it succeeded; a
     * failed deletion does not stop the command.
     */
    method DeleteTwin(did: string, verboseOption: bool, forceVerbose: bool, delete: string -> DeleteResult)
      modifies this, stdout
      ensures Snapshot() == DeleteStep(old(Snapshot()), DeleteTwinsRule, did, verboseOption || forceVerbose, delete(did))
    {
      var verbose := verboseOption || forceVerbose;
      var result := delete(did);
      stdout.Write(LogDeletion(did, Breaks(DeleteTwinsRule, twinsFound), verbose, result));
      twinsFound := twinsFound + 1;
      if result.Deleted? {
        twinsDeleted := twinsDeleted + 1;
      }
    }

    /** Deletes the twins of one page in order. */
    method DeletePage(twins: seq<string>, verbose: bool, delete: string -> DeleteResult)
      modifies this, stdout
      ensures Snapshot() == DeleteAll(old(Snapshot()), DeleteTwinsRule, twins, |twins|, verbose, delete)
    {
      var j := 0;
      while j < |twins|
        invariant 0 <= j <= |twins|
        invariant Snapshot() == DeleteAll(old(Snapshot()), DeleteTwinsRule, twins, j, verbose, delete)
      {
        DeleteTwin(twins[j], verbose, false, delete);
        j := j + 1;
      }
    }

    /** Handles one item of the stream: logs a transport error, or deletes the page's twins. */
    method DeleteFromPage(page: SearchPage, verbose: bool, delete: string -> DeleteResult)
      modifies this, stdout
      ensures Snapshot() == PageStep(old(Snapshot()), page, verbose, delete)
    {
      match page {
        case SearchError(m) =>
          stdout.Write([SearchErrorLine(m)]);
        case Page(payload) =>
          if payload.Some? {
            DeletePage(payload.value.twins, verbose, delete);
          }
      }
    }

    /**
     * The stream loop: every item received is handled in order. A page
     * shorter than the page size closes the stream, and the items already
     * buffered behind it are still received and handled; `closed` tells
     * whether the command closed the stream, which it first does at the item
     * `ReadUntilClose` counts to.
     */
    method DeleteStream(pages: seq<SearchPage>, pageSize: nat, verbose: bool, delete: string -> DeleteResult)
      returns (closed: bool)
      modifies this, stdout
      ensures Snapshot() == Stream(old(Snapshot()), pages, |pages|, verbose, delete)
      ensures closed <==> exists j :: 0 <= j < |pages| && IsLastPage(pages[j], pageSize)
      ensures closed ==> 0 < ReadUntilClose(pages, pageSize) && IsLastPage(pages[ReadUntilClose(pages, pageSize) - 1], pageSize)
      ensures !closed ==> ReadUntilClose(pages, pageSize) == |pages|
    {
      var i := 0;
      closed := false;
      while i < |pages|
        invariant 0 <= i <= |pages|
        invariant !closed ==> forall j :: 0 <= j < i ==> !IsLastPage(pages[j], pageSize)
        invariant closed ==> 0 < ReadUntilClose(pages, pageSize) <= i && IsLastPage(pages[ReadUntilClose(pages, pageSize) - 1], pageSize)
        invariant Snapshot() == Stream(old(Snapshot()), pages, i, verbose, delete)
      {
        if IsLastPage(pages[i], pageSize) {
          if !closed {
            ClosesAtFirstShortPage(pages, pageSize, i);
          }
          closed := true;
        }
        DeleteFromPage(pages[i], verbose, delete);
        i := i + 1;
      }
      if !closed {
        NoShortPageNoClose(pages, pageSize);
      }
    }

    /**
     * `DeleteTwins::run` after the search starts: the stream is read, the
     * summary counts what was found and deleted, the model twin is deleted
     * afterwards, verbosely, when asked for, and the command completes even
     * when deletions fail.
     */
    method Run(pages: seq<SearchPage>, pageSize: nat, model: string, verbose: bool, deleteModel: bool,
               delete: string -> DeleteResult)
      modifies this, stdout
      ensures Snapshot() == Finish(Stream(old(Snapshot()), pages, |pages|, verbose, delete), model, deleteModel, delete)
    {
      var _ := DeleteStream(pages, pageSize, verbose, delete);
      stdout.Write([Newline, FoundAndDeleted(twinsFound, twinsDeleted, model)]);
      if deleteModel {
        DeleteTwin(model, verbose, true, delete);
      }
      stdout.Write([Newline, Done]);
    }
  }
}
