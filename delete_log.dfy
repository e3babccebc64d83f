/**
 * What the delete commands write while they delete twins, and how they
 * count. A deletion is logged as a prompt and a full line in verbose mode,
 * or as a single mark (`.` for success, `E` for failure) in quiet mode, where
 * the marks are broken into lines of 64.
 *
 * A command's counters and what it has written so far form a `Tally`; one
 * deletion moves the tally by `DeleteStep`, and the command classes are
 * proved to move their fields exactly as these functions do.
 */
module DeleteLog {

  /** The outcome of one `delete_twin` call. */
  datatype DeleteResult = Deleted | DeleteFailed(error: string)

  /** The pieces of output the delete commands write, in order. */
  datatype Output =
    | Prompt(did: string)                                   // "Deleting twin {did}... "
    | Newline
    | OkLine                                                // "OK" and a newline
    | ErrorLine(error: string)                              // the error and a newline
    | Dot                                                   // "."
    | ErrorMark                                             // "E"
    | SearchErrorLine(message: string)
    | FoundAndDeleted(found: nat, deleted: nat, model: string)
    | FoundForModel(count: nat, model: string)
    | DeletedForModel(deleted: nat, model: string)
    | FoundTwins(count: nat)
    | DeletedTwins(deleted: nat)
    | ListingErrorLine(error: string)
    | Done

  /**
   * The two line-breaking rules: the shared helper breaks before a deletion
   * whose previous count is a non-zero multiple of 64; the delete-twins
   * command's own deletion breaks whenever its count is a multiple of 64,
   * zero included.
   */
  datatype BreakRule = HelperRule | DeleteTwinsRule

  /** Whether a quiet deletion made when `index` twins have gone before starts a new line. */
  predicate Breaks(rule: BreakRule, index: nat)
  {
    match rule
    case HelperRule => index != 0 && index % 64 == 0
    case DeleteTwinsRule => index % 64 == 0
  }

  /** The mark that closes the log of a deletion. */
  function Mark(verbose: bool, result: DeleteResult): Output
  {
    match result
    case Deleted => if verbose then OkLine else Dot
    case DeleteFailed(e) => if verbose then ErrorLine(e) else ErrorMark
  }

  /**
   * The log of one deletion, given whether it starts a new line in quiet
   * mode: a prompt when verbose, then the break when quiet, then the mark.
   */
  function LogDeletion(did: string, breakLine: bool, verbose: bool, result: DeleteResult): seq<Output>
  {
    if verbose then [Prompt(did), Mark(verbose, result)]
    else if breakLine then [Newline, Mark(verbose, result)]
    else [Mark(verbose, result)]
  }

  /**
   * The log of a deletion ends with its mark; it opens with the prompt
   * exactly when verbose, and with a line break exactly when quiet at a break.
   */
  lemma LogShape(did: string, breakLine: bool, verbose: bool, result: DeleteResult)
    ensures var out := LogDeletion(did, breakLine, verbose, result);
            && 1 <= |out| <= 2 && out[|out| - 1] == Mark(verbose, result)
            && (verbose <==> out[0] == Prompt(did))
            && (out[0] == Newline <==> !verbose && breakLine)
  {
  }

  /** A delete command's counters and everything it has written so far. */
  datatype Tally = Tally(found: nat, deleted: nat, out: seq<Output>)

  /**
   * One deletion: the log (broken by `rule` at the count of twins gone
   * before), one more twin found, and one more deleted when it succeeded.
   */
  function DeleteStep(t: Tally, rule: BreakRule, did: string, verbose: bool, result: DeleteResult): Tally
  {
    Tally(t.found + 1, t.deleted + (if result.Deleted? then 1 else 0),
          t.out + LogDeletion(did, Breaks(rule, t.found), verbose, result))
  }

  /** Deleting the first `n` of `dids` in turn, each with the outcome `delete` gives it. */
  function DeleteAll(t: Tally, rule: BreakRule, dids: seq<string>, n: nat, verbose: bool, delete: string -> DeleteResult): Tally
    requires n <= |dids|
  {
    if n == 0 then t
    else DeleteStep(DeleteAll(t, rule, dids, n - 1, verbose, delete), rule, dids[n - 1], verbose, delete(dids[n - 1]))
  }

  /** How many of `dids` are deleted successfully. */
  function Deletions(dids: seq<string>, delete: string -> DeleteResult): (n: nat)
    ensures n <= |dids|
  {
    if |dids| == 0 then 0
    else Deletions(dids[..|dids| - 1], delete) + (if delete(dids[|dids| - 1]).Deleted? then 1 else 0)
  }

  /** Deleting a concatenation deletes each part. */
  lemma {:induction false} DeletionsAppend(a: seq<string>, b: seq<string>, delete: string -> DeleteResult)
    ensures Deletions(a + b, delete) == Deletions(a, delete) + Deletions(b, delete)
  {
    if |b| > 0 {
      var b' := b[..|b| - 1];
      assert (a + b)[..|a + b| - 1] == a + b';
      DeletionsAppend(a, b', delete);
    } else {
      assert a + b == a;
    }
  }

  /** The number of success marks (`OK` lines or dots) in `out`. */
  function Successes(out: seq<Output>): nat
  {
    if |out| == 0 then 0 else (if out[0].OkLine? || out[0].Dot? then 1 else 0) + Successes(out[1..])
  }

  /** The number of failure marks (error lines or `E`) in `out`. */
  function Failures(out: seq<Output>): nat
  {
    if |out| == 0 then 0 else (if out[0].ErrorLine? || out[0].ErrorMark? then 1 else 0) + Failures(out[1..])
  }

  /** The number of line breaks in `out`. */
  function Newlines(out: seq<Output>): nat
  {
    if |out| == 0 then 0 else (if out[0].Newline? then 1 else 0) + Newlines(out[1..])
  }

  /** The counts add up over a concatenation. */
  lemma {:induction false} CountsAppend(a: seq<Output>, b: seq<Output>)
    ensures Successes(a + b) == Successes(a) + Successes(b)
    ensures Failures(a + b) == Failures(a) + Failures(b)
    ensures Newlines(a + b) == Newlines(a) + Newlines(b)
  {
    if |a| > 0 {
      assert (a + b)[0] == a[0] && (a + b)[1..] == a[1..] + b;
      CountsAppend(a[1..], b);
    } else {
      assert a + b == b;
    }
  }

  /** The counts of a single piece of output. */
  lemma CountsOfOne(o: Output)
    ensures Successes([o]) == (if o.OkLine? || o.Dot? then 1 else 0)
    ensures Failures([o]) == (if o.ErrorLine? || o.ErrorMark? then 1 else 0)
    ensures Newlines([o]) == (if o.Newline? then 1 else 0)
  {
    assert [o][..0] == [];
  }

  /** One deletion writes exactly one mark, and a line break only as its rule says. */
  lemma OneMark(did: string, breakLine: bool, verbose: bool, result: DeleteResult)
    ensures var out := LogDeletion(did, breakLine, verbose, result);
            Successes(out) == (if result.Deleted? then 1 else 0) &&
            Failures(out) == (if result.Deleted? then 0 else 1) &&
            Newlines(out) == (if !verbose && breakLine then 1 else 0)
  {
    var out := LogDeletion(did, breakLine, verbose, result);
    var m := Mark(verbose, result);
    CountsOfOne(m);
    if |out| == 2 {
      assert out == [out[0]] + [m];
      CountsOfOne(out[0]);
      CountsAppend([out[0]], [m]);
    } else {
      assert out == [m];
    }
  }

  /**
   * One deletion writes one success mark when it succeeds and one failure
   * mark when it fails.
   */
  lemma StepMarks(t: Tally, rule: BreakRule, did: string, verbose: bool, result: DeleteResult)
    ensures var r := DeleteStep(t, rule, did, verbose, result);
            && Successes(r.out) == Successes(t.out) + (if result.Deleted? then 1 else 0)
            && Failures(r.out) == Failures(t.out) + (if result.Deleted? then 0 else 1)
  {
    CountsAppend(t.out, LogDeletion(did, Breaks(rule, t.found), verbose, result));
    OneMark(did, Breaks(rule, t.found), verbose, result);
  }

  /** One deletion breaks the line only when quiet and its rule breaks at the count of twins gone before. */
  lemma StepNewlines(t: Tally, index: nat, rule: BreakRule, did: string, verbose: bool, result: DeleteResult)
    requires t.found == index
    ensures Newlines(DeleteStep(t, rule, did, verbose, result).out) == Newlines(t.out) + (if !verbose && Breaks(rule, index) then 1 else 0)
  {
    CountsAppend(t.out, LogDeletion(did, Breaks(rule, t.found), verbose, result));
    OneMark(did, Breaks(rule, t.found), verbose, result);
  }

  /** Deleting `n` twins counts `n` more found. */
  lemma {:induction false} DeleteAllFound(t: Tally, rule: BreakRule, dids: seq<string>, n: nat, verbose: bool, delete: string -> DeleteResult)
    requires n <= |dids|
    ensures DeleteAll(t, rule, dids, n, verbose, delete).found == t.found + n
  {
    if n > 0 {
      DeleteAllFound(t, rule, dids, n - 1, verbose, delete);
    }
  }

  /**
   * Deleting `n` twins counts `n` more found and one more deleted per
   * success, and only appends to what was written before.
   */
  lemma {:induction false} DeleteAllCounts(t: Tally, rule: BreakRule, dids: seq<string>, n: nat, verbose: bool, delete: string -> DeleteResult)
    requires n <= |dids|
    ensures var r := DeleteAll(t, rule, dids, n, verbose, delete);
            && r.found == t.found + n
            && r.deleted == t.deleted + Deletions(dids[..n], delete)
            && |t.out| <= |r.out| && r.out[..|t.out|] == t.out
  {
    DeleteAllFound(t, rule, dids, n, verbose, delete);
    if n > 0 {
      DeleteAllCounts(t, rule, dids, n - 1, verbose, delete);
      var prefix := dids[..n];
      assert prefix[..n - 1] == dids[..n - 1] && prefix[n - 1] == dids[n - 1];
      var before := DeleteAll(t, rule, dids, n - 1, verbose, delete);
      var step := LogDeletion(dids[n - 1], Breaks(rule, before.found), verbose, delete(dids[n - 1]));
      assert (before.out + step)[..|t.out|] == before.out[..|t.out|];
    }
  }

  /**
   * The log of a run shows one success mark per deleted twin and one failure
   * mark per twin that could not be deleted, so the marks agree with the
   * deleted count the summary prints.
   */
  lemma {:induction false} MarksAgreeWithCount(t: Tally, rule: BreakRule, dids: seq<string>, n: nat, verbose: bool, delete: string -> DeleteResult)
    requires n <= |dids|
    ensures var r := DeleteAll(t, rule, dids, n, verbose, delete);
            && Successes(r.out) == Successes(t.out) + (r.deleted - t.deleted)
            && Failures(r.out) == Failures(t.out) + (r.found - t.found) - (r.deleted - t.deleted)
  {
    if n > 0 {
      MarksAgreeWithCount(t, rule, dids, n - 1, verbose, delete);
      var before := DeleteAll(t, rule, dids, n - 1, verbose, delete);
      StepMarks(before, rule, dids[n - 1], verbose, delete(dids[n - 1]));
    }
  }

  /** How many of the `n` indices `start`, `start + 1`, ... the rule breaks at. */
  function BreaksBetween(rule: BreakRule, start: nat, n: nat): nat
  {
    if n == 0 then 0 else BreaksBetween(rule, start, n - 1) + (if Breaks(rule, start + n - 1) then 1 else 0)
  }

  /** In quiet mode the `n`-th deletion of a run breaks the line exactly when its rule breaks at the count before it. */
  lemma QuietStep(t: Tally, rule: BreakRule, dids: seq<string>, n: nat, delete: string -> DeleteResult)
    requires 0 < n <= |dids|
    ensures Newlines(DeleteAll(t, rule, dids, n, false, delete).out)
              == Newlines(DeleteAll(t, rule, dids, n - 1, false, delete).out) + (if Breaks(rule, t.found + n - 1) then 1 else 0)
  {
    DeleteAllFound(t, rule, dids, n - 1, false, delete);
    var before := DeleteAll(t, rule, dids, n - 1, false, delete);
    StepNewlines(before, t.found + n - 1, rule, dids[n - 1], false, delete(dids[n - 1]));
  }

  /** In quiet mode a run writes one line break per index its rule breaks at, and no other. */
  lemma {:induction false} QuietBreaks(t: Tally, rule: BreakRule, dids: seq<string>, n: nat, delete: string -> DeleteResult)
    requires n <= |dids|
    ensures Newlines(DeleteAll(t, rule, dids, n, false, delete).out) == Newlines(t.out) + BreaksBetween(rule, t.found, n)
  {
    if n > 0 {
      QuietBreaks(t, rule, dids, n - 1, delete);
      QuietStep(t, rule, dids, n, delete);
    }
  }

  /**
   * Counted from zero, the helper's quiet marks come in lines of 64 with a
   * break before the 65th, 129th, ... mark; the delete-twins command's own
   * rule adds one more break, before the very first mark.
   */
  lemma {:induction false} BreaksFromZero(n: nat)
    ensures BreaksBetween(HelperRule, 0, n) == if n == 0 then 0 else (n - 1) / 64
    ensures BreaksBetween(DeleteTwinsRule, 0, n) == (n + 63) / 64
  {
    if n > 0 {
      BreaksFromZero(n - 1);
      if n - 1 == 0 {
      } else if (n - 1) % 64 == 0 {
        assert (n - 1) / 64 == (n - 2) / 64 + 1;
        assert (n + 63) / 64 == (n + 62) / 64 + 1;
      } else {
        assert (n - 1) / 64 == (n - 2) / 64;
        assert (n + 63) / 64 == (n + 62) / 64;
      }
    }
  }

  /** What a delete command writes to: the terminal, as the sequence of pieces written so far. */
  class Console {
    var out: seq<Output>

    constructor ()
      ensures out == []
    {
      out := [];
    }

    /** Writes pieces of output. */
    method Write(pieces: seq<Output>)
      modifies this
      ensures out == old(out) + pieces
    {
      out := out + pieces;
    }

    /**
     * `delete_and_log_twin`: logs the deletion of `did` under the helper's
     * line-breaking rule at `prevIndex`, and hands the outcome back.
     */
    method DeleteAndLogTwin(did: string, prevIndex: nat, verbose: bool, delete: string -> DeleteResult) returns (result: DeleteResult)
      modifies this
      ensures result == delete(did)
      ensures out == old(out) + LogDeletion(did, Breaks(HelperRule, prevIndex), verbose, result)
    {
      result := delete(did);
      out := out + LogDeletion(did, Breaks(HelperRule, prevIndex), verbose, result);
    }
  }
}
