/**
 * Deleting the twins of a model in two passes: the whole search stream is
 * read first and the twin DIDs collected, then the twins are deleted one by
 * one through the shared helper, then the model twin itself when asked for.
 */
module DeleteByModel {
  import opened Wrappers
  import opened Search
  import opened DeleteLog
  import DeleteTwins

  /** What the collection pass has gathered: the twin DIDs so far, and what it has written. */
  datatype Collected = Collected(dids: seq<string>, out: seq<Output>)

  /** One item of the stream: a transport error is written out, a page's twins are kept. */
  function CollectStep(c: Collected, page: SearchPage): Collected
  {
    match page
    case SearchError(m) => c.(out := c.out + [SearchErrorLine(m)])
    case Page(None) => c
    case Page(Some(p)) => c.(dids := c.dids + p.twins)
  }

  /** The first `n` items of the stream, collected in order. */
  function Collect(c: Collected, pages: seq<SearchPage>, n: nat): Collected
    requires n <= |pages|
  {
    if n == 0 then c else CollectStep(Collect(c, pages, n - 1), pages[n - 1])
  }

  /** The lines written once the twins are collected; a failed deletion of the model ends the command early. */
  function FinishByModel(t: Tally, model: string, deleteModel: bool, delete: string -> DeleteResult): seq<Output>
  {
    var summarized := t.out + [Newline, DeletedForModel(t.deleted, model)];
    if !deleteModel then summarized + [Newline, Done]
    else
      var logged := summarized + LogDeletion(model, Breaks(HelperRule, 0), true, delete(model));
      if delete(model).Deleted? then logged + [Newline, Done] else logged
  }

  /** What the command hands back: an error only when the model twin was asked for and could not be deleted. */
  function Status(model: string, deleteModel: bool, delete: string -> DeleteResult): (r: Result<(), string>)
    ensures r.Err? <==> deleteModel && delete(model).DeleteFailed?
    ensures r.Err? ==> r.error == delete(model).error
  {
    if deleteModel && delete(model).DeleteFailed? then Err(delete(model).error) else Ok(())
  }

  /**
   * The collection pass keeps the twins of the pages read, in page order,
   * and writes one line per transport error and nothing else.
   */
  lemma {:induction false} CollectGathersTwins(c: Collected, pages: seq<SearchPage>, n: nat)
    requires n <= |pages|
    ensures var r := Collect(c, pages, n);
            && r.dids == c.dids + PageTwins(pages[..n])
            && |r.out| == |c.out| + ErrorCount(pages[..n])
            && r.out[..|c.out|] == c.out
            && forall k :: |c.out| <= k < |r.out| ==> r.out[k].SearchErrorLine?
  {
    if n > 0 {
      CollectGathersTwins(c, pages, n - 1);
      PageTwinsStep(pages, n - 1);
      var prefix := pages[..n];
      assert prefix[..n - 1] == pages[..n - 1] && prefix[n - 1] == pages[n - 1];
    }
  }

  /**
   * The deletion pass, started from the line announcing the count: the
   * index passed to the helper is the position in the collected list, the
   * count printed after it is the number of successful deletions, and the
   * marks agree with it.
   */
  lemma DeletionPassCounts(out: seq<Output>, dids: seq<string>, verbose: bool, delete: string -> DeleteResult)
    ensures var r := DeleteAll(Tally(0, 0, out), HelperRule, dids, |dids|, verbose, delete);
            && r.found == |dids|
            && r.deleted == Deletions(dids, delete)
            && |out| <= |r.out| && r.out[..|out|] == out
            && Successes(r.out) == Successes(out) + r.deleted
            && Failures(r.out) == Failures(out) + |dids| - r.deleted
  {
    DeleteAllCounts(Tally(0, 0, out), HelperRule, dids, |dids|, verbose, delete);
    MarksAgreeWithCount(Tally(0, 0, out), HelperRule, dids, |dids|, verbose, delete);
    assert dids[..|dids|] == dids;
  }

  /**
   * Collecting first and deleting afterwards removes the same twins, in the
   * same order, as deleting each page as it arrives: both passes count the
   * same twins found and the same twins deleted.
   */
  lemma SameTwinsAsStreaming(pages: seq<SearchPage>, out: seq<Output>, verbose: bool, delete: string -> DeleteResult)
    ensures var n := |pages|;
            var c := Collect(Collected([], out), pages, n);
            var byModel := DeleteAll(Tally(0, 0, c.out), HelperRule, c.dids, |c.dids|, verbose, delete);
            var streamed := DeleteTwins.Stream(Tally(0, 0, out), pages, n, verbose, delete);
            byModel.found == streamed.found && byModel.deleted == streamed.deleted
  {
    var n := |pages|;
    CollectGathersTwins(Collected([], out), pages, n);
    var c := Collect(Collected([], out), pages, n);
    assert c.dids == PageTwins(pages[..n]);
    DeletionPassCounts(c.out, c.dids, verbose, delete);
    DeleteTwins.StreamCounters(Tally(0, 0, out), pages, n, verbose, delete);
  }

  class DeleteTwinsByModelCommand {
    const stdout: Console

    /** `DeleteTwinsByModel::new`: the command keeps no counters of its own. */
    constructor (stdout: Console)
      ensures this.stdout == stdout
    {
      this.stdout := stdout;
    }

    /**
     * The collection loop: every item received is taken in order; errors are
     * written out and the twins of each payload appended to the list. A page
     * shorter than the page size closes the stream, and the items already
     * buffered behind it are still received and collected; `closed` tells
     * whether the command closed the stream, which it first does at the item
     * `ReadUntilClose` counts to.
     */
    method CollectTwins(pages: seq<SearchPage>, pageSize: nat) returns (dids: seq<string>, closed: bool)
      modifies stdout
      ensures Collected(dids, stdout.out) == Collect(Collected([], old(stdout.out)), pages, |pages|)
      ensures closed <==> exists j :: 0 <= j < |pages| && IsLastPage(pages[j], pageSize)
      ensures closed ==> 0 < ReadUntilClose(pages, pageSize) && IsLastPage(pages[ReadUntilClose(pages, pageSize) - 1], pageSize)
      ensures !closed ==> ReadUntilClose(pages, pageSize) == |pages|
    {
      dids := [];
      var i := 0;
      closed := false;
      while i < |pages|
        invariant 0 <= i <= |pages|
        invariant !closed ==> forall j :: 0 <= j < i ==> !IsLastPage(pages[j], pageSize)
        invariant closed ==> 0 < ReadUntilClose(pages, pageSize) <= i && IsLastPage(pages[ReadUntilClose(pages, pageSize) - 1], pageSize)
        invariant Collected(dids, stdout.out) == Collect(Collected([], old(stdout.out)), pages, i)
      {
        match pages[i] {
          case SearchError(m) =>
            stdout.Write([SearchErrorLine(m)]);
          case Page(payload) =>
            if payload.Some? {
              if |payload.value.twins| < pageSize {
                if !closed {
                  ClosesAtFirstShortPage(pages, pageSize, i);
                }
                closed := true;
              }
              dids := dids + payload.value.twins;
            }
        }
        i := i + 1;
      }
      if !closed {
        NoShortPageNoClose(pages, pageSize);
      }
    }

    /**
     * The deletion loop: each collected twin is deleted through the helper
     * with its position in the list as the previous index; a failed deletion
     * is only counted out.
     */
    method DeleteCollected(dids: seq<string>, verbose: bool, delete: string -> DeleteResult) returns (twinsDeleted: nat)
      modifies stdout
      ensures Tally(|dids|, twinsDeleted, stdout.out) == DeleteAll(Tally(0, 0, old(stdout.out)), HelperRule, dids, |dids|, verbose, delete)
    {
      twinsDeleted := 0;
      var j := 0;
      while j < |dids|
        invariant 0 <= j <= |dids|
        invariant Tally(j, twinsDeleted, stdout.out) == DeleteAll(Tally(0, 0, old(stdout.out)), HelperRule, dids, j, verbose, delete)
      {
        var result := stdout.DeleteAndLogTwin(dids[j], j, verbose, delete);
        if result.Deleted? {
          twinsDeleted := twinsDeleted + 1;
        }
        j := j + 1;
      }
    }

    /**
     * `DeleteTwinsByModel::run` after the search starts: collect, announce
     * the count, delete, report the deletions, then delete the model twin
     * verbosely when asked for; a failure there is returned and the closing
     * line is not written.
     */
    method Run(pages: seq<SearchPage>, pageSize: nat, model: string, verbose: bool, deleteModel: bool,
               delete: string -> DeleteResult) returns (status: Result<(), string>)
      modifies stdout
      ensures status == Status(model, deleteModel, delete)
      ensures var c := Collect(Collected([], old(stdout.out)), pages, |pages|);
              var t := DeleteAll(Tally(0, 0, c.out + [FoundForModel(|c.dids|, model)]), HelperRule, c.dids, |c.dids|, verbose, delete);
              stdout.out == FinishByModel(t, model, deleteModel, delete)
    {
      var dids, _ := CollectTwins(pages, pageSize);
      stdout.Write([FoundForModel(|dids|, model)]);
      var twinsDeleted := DeleteCollected(dids, verbose, delete);
      stdout.Write([Newline, DeletedForModel(twinsDeleted, model)]);
      if deleteModel {
        var result := stdout.DeleteAndLogTwin(model, 0, true, delete);
        if result.DeleteFailed? {
          return Err(result.error);
        }
      }
      stdout.Write([Newline, Done]);
      status := Ok(());
    }
  }
}
