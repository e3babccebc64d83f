/**
 * Deleting every twin of the local host: the full listing is fetched, each
 * twin is deleted through the shared helper, and the command completes
 * whether or not the listing could be fetched.
 */
module DeleteAllTwins {
  import opened Wrappers
  import opened DeleteLog

  /** What the command writes, and how its counters stand, once the listing has been handled. */
  function AfterListing(t: Tally, listing: Result<seq<string>, string>, verbose: bool, delete: string -> DeleteResult): Tally
  {
    match listing
    case Ok(dids) =>
      var r := DeleteAll(t.(out := t.out + [FoundTwins(|dids|)]), HelperRule, dids, |dids|, verbose, delete);
      r.(out := r.out + [Newline, DeletedTwins(r.deleted)])
    case Err(e) => t.(out := t.out + [ListingErrorLine(e)])
  }

  /** The announcement of the count adds no mark and no line break. */
  lemma HeaderCounts(out: seq<Output>, count: nat)
    ensures Successes(out + [FoundTwins(count)]) == Successes(out)
    ensures Failures(out + [FoundTwins(count)]) == Failures(out)
    ensures Newlines(out + [FoundTwins(count)]) == Newlines(out)
  {
    CountsAppend(out, [FoundTwins(count)]);
    CountsOfOne(FoundTwins(count));
  }

  /** The report of the deletions adds one line break and no mark. */
  lemma ReportCounts(out: seq<Output>, deleted: nat)
    ensures Successes(out + [Newline, DeletedTwins(deleted)]) == Successes(out)
    ensures Failures(out + [Newline, DeletedTwins(deleted)]) == Failures(out)
    ensures Newlines(out + [Newline, DeletedTwins(deleted)]) == Newlines(out) + 1
  {
    assert out + [Newline, DeletedTwins(deleted)] == (out + [Newline]) + [DeletedTwins(deleted)];
    CountsAppend(out, [Newline]);
    CountsOfOne(Newline);
    CountsAppend(out + [Newline], [DeletedTwins(deleted)]);
    CountsOfOne(DeletedTwins(deleted));
  }

  /**
   * From fresh counters, a listing of `dids` is counted in full and the
   * deletions reported are exactly the successful ones.
   */
  lemma ListingCounters(out: seq<Output>, dids: seq<string>, verbose: bool, delete: string -> DeleteResult)
    ensures var r := AfterListing(Tally(0, 0, out), Ok(dids), verbose, delete);
            && r.found == |dids|
            && r.deleted == Deletions(dids, delete)
            && r.out[|r.out| - 1] == DeletedTwins(Deletions(dids, delete))
  {
    DeleteAllCounts(Tally(0, 0, out + [FoundTwins(|dids|)]), HelperRule, dids, |dids|, verbose, delete);
    assert dids[..|dids|] == dids;
  }

  /** The marks written for a listing agree with the deletions reported. */
  lemma ListingMarks(out: seq<Output>, dids: seq<string>, verbose: bool, delete: string -> DeleteResult)
    ensures var r := AfterListing(Tally(0, 0, out), Ok(dids), verbose, delete);
            && Successes(r.out) == Successes(out) + r.deleted
            && Failures(r.out) == Failures(out) + r.found - r.deleted
  {
    var start := Tally(0, 0, out + [FoundTwins(|dids|)]);
    HeaderCounts(out, |dids|);
    MarksAgreeWithCount(start, HelperRule, dids, |dids|, verbose, delete);
    var r := DeleteAll(start, HelperRule, dids, |dids|, verbose, delete);
    ReportCounts(r.out, r.deleted);
  }

  /**
   * In quiet mode the marks are broken into lines of 64: a listing of `n`
   * twins writes (n - 1) / 64 line breaks among its marks, and one more
   * before the report.
   */
  lemma QuietLines(out: seq<Output>, dids: seq<string>, delete: string -> DeleteResult)
    requires |dids| > 0
    ensures Newlines(AfterListing(Tally(0, 0, out), Ok(dids), false, delete).out) == Newlines(out) + (|dids| - 1) / 64 + 1
  {
    var start := Tally(0, 0, out + [FoundTwins(|dids|)]);
    HeaderCounts(out, |dids|);
    QuietBreaks(start, HelperRule, dids, |dids|, delete);
    BreaksFromZero(|dids|);
    var r := DeleteAll(start, HelperRule, dids, |dids|, false, delete);
    ReportCounts(r.out, r.deleted);
  }

  class DeleteAllTwinsCommand {
    var twinsFound: nat
    var twinsDeleted: nat
    const stdout: Console

    /** `DeleteAllTwins::new`. */
    constructor (stdout: Console)
      ensures twinsFound == 0 && twinsDeleted == 0 && this.stdout == stdout
    {
      twinsFound, twinsDeleted, this.stdout := 0, 0, stdout;
    }

    /** The counters and what has been written. */
    function Snapshot(): Tally
      reads this, stdout
    {
      Tally(twinsFound, twinsDeleted, stdout.out)
    }

    /**
     * One iteration of the deletion loop: the twin is deleted through the
     * helper with the number of twins found so far as the previous index,
     * counted as found, and as deleted when that succeeded.
     */
    method DeleteOne(did: string, verbose: bool, delete: string -> DeleteResult)
      modifies this, stdout
      ensures Snapshot() == DeleteStep(old(Snapshot()), HelperRule, did, verbose, delete(did))
    {
      var result := stdout.DeleteAndLogTwin(did, twinsFound, verbose, delete);
      twinsFound := twinsFound + 1;
      if result.Deleted? {
        twinsDeleted := twinsDeleted + 1;
      }
    }

    /** The deletion loop over the listed twins, in order; a failed deletion does not stop it. */
    method DeleteListed(dids: seq<string>, verbose: bool, delete: string -> DeleteResult)
      modifies this, stdout
      ensures Snapshot() == DeleteAll(old(Snapshot()), HelperRule, dids, |dids|, verbose, delete)
    {
      var j := 0;
      while j < |dids|
        invariant 0 <= j <= |dids|
        invariant Snapshot() == DeleteAll(old(Snapshot()), HelperRule, dids, j, verbose, delete)
      {
        DeleteOne(dids[j], verbose, delete);
        j := j + 1;
      }
    }

    /**
     * `DeleteAllTwins::run` after the listing call: an error is written out
     * in place of the deletions, and the closing line follows either way.
     */
    method Run(listing: Result<seq<string>, string>, verbose: bool, delete: string -> DeleteResult)
      modifies this, stdout
      ensures var r := AfterListing(old(Snapshot()), listing, verbose, delete);
              Snapshot() == r.(out := r.out + [Newline, Done])
    {
      match listing {
        case Ok(dids) =>
          stdout.Write([FoundTwins(|dids|)]);
          DeleteListed(dids, verbose, delete);
          stdout.Write([Newline, DeletedTwins(twinsDeleted)]);
        case Err(e) =>
          stdout.Write([ListingErrorLine(e)]);
      }
      stdout.Write([Newline, Done]);
    }
  }
}
