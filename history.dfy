/**
 * The execution history page (src/pages/History.tsx): how a duration is
 * written, which executions the search box and the status selector keep,
 * and how many executions succeeded.
 */
module History {
  import opened Wrappers
  import opened PipelineTypes
  import opened Decimal
  import Seqs
  import Text

  // ---------------------------------------------------------------------
  // Durations

  /** `formatDuration`: under a minute `"<s>s"`, otherwise `"<m>m <r>s"` with whole minutes and the seconds left over. */
  function FormatDuration(seconds: int): (r: string)
    ensures |r| >= 2 && r[|r| - 1] == 's'
    ensures seconds < 60 ==> r == IntToString(seconds) + "s"
    ensures seconds >= 60 ==>
      exists m: nat, rest: nat :: m >= 1 && rest < 60 && m * 60 + rest == seconds &&
        r == NatToString(m) + "m " + NatToString(rest) + "s"
  {
    if seconds < 60 then IntToString(seconds) + "s"
    else
      // Math.floor(seconds / 60) and seconds % 60 agree with Dafny's / and % for seconds >= 60
      var minutes := seconds / 60;
      var remaining := seconds % 60;
      NatToString(minutes) + "m " + NatToString(remaining) + "s"
  }

  /** Position of the first `c` in `s`, or `|s|` when there is none. */
  function FirstIndex(s: string, c: char): (k: nat)
    ensures k <= |s|
    ensures forall j :: 0 <= j < k ==> s[j] != c
    ensures k < |s| ==> s[k] == c
  {
    if s == [] then 0 else if s[0] == c then 0 else 1 + FirstIndex(s[1..], c)
  }

  /** Reads a string written by `FormatDuration` back into seconds. */
  function ParseDuration(t: string): Option<int>
  {
    if |t| == 0 || t[|t| - 1] != 's' then None
    else
      var body := t[..|t| - 1];
      var k := FirstIndex(body, 'm');
      if k == |body| then ParseInt(body)
      else if k + 1 < |body| && body[k + 1] == ' ' then
        match (ParseNat(body[..k]), ParseNat(body[k + 2..]))
        case (Some(m), Some(rest)) => Some(m * 60 + rest)
        case _ => None
      else None
  }

  lemma {:induction false} FirstIndexOfJoin(x: string, c: char, y: string)
    requires forall j :: 0 <= j < |x| ==> x[j] != c
    ensures FirstIndex(x + [c] + y, c) == |x|
  {
    if x != [] {
      assert (x + [c] + y)[1..] == x[1..] + [c] + y;
      FirstIndexOfJoin(x[1..], c, y);
    }
  }

  /** The written duration reads back as the number of seconds it was written from. */
  lemma DurationRoundTrip(seconds: int)
    ensures ParseDuration(FormatDuration(seconds)) == Some(seconds)
  {
    var t := FormatDuration(seconds);
    var body := t[..|t| - 1];
    if seconds < 60 {
      var digits := IntToString(seconds);
      assert body == digits;
      assert FirstIndex(body, 'm') == |body|;
      IntRoundTrip(seconds);
    } else {
      var m, rest := seconds / 60, seconds % 60;
      var ms, rs := NatToString(m), NatToString(rest);
      assert body == ms + ['m'] + ([' '] + rs);
      FirstIndexOfJoin(ms, 'm', [' '] + rs);
      assert body[..|ms|] == ms;
      assert body[|ms| + 2..] == rs;
      NatRoundTrip(m);
      NatRoundTrip(rest);
    }
  }

  /** Different durations are written differently. */
  lemma FormatDurationInjective(a: int, b: int)
    ensures FormatDuration(a) == FormatDuration(b) ==> a == b
  {
    DurationRoundTrip(a);
    DurationRoundTrip(b);
  }

  /** The minutes form is used exactly from one minute on. */
  lemma MinutesFormFromOneMinute(seconds: int)
    ensures 'm' in FormatDuration(seconds) <==> seconds >= 60
  {
  }

  /**
   * The duration cell as the page writes it, `{execution.duration && formatDuration(...)}`:
   * React shows nothing for a missing duration, but shows the number 0 itself for a zero duration.
   */
  function DurationCellAsWritten(duration: Option<int>): string
  {
    match duration
    case None => ""
    case Some(d) => if d == 0 then IntToString(0) else FormatDuration(d)
  }

  /** A zero-second execution shows `0` instead of `0s`. */
  lemma ZeroDurationShownBare()
    ensures DurationCellAsWritten(Some(0)) == "0"
    ensures DurationCellAsWritten(Some(0)) != FormatDuration(0)
  {
  }

  /** The duration cell with every present duration, zero included, formatted. */
  function DurationCell(duration: Option<int>): (r: string)
    ensures duration.None? <==> r == ""
    ensures duration.Some? ==> ParseDuration(r) == Some(duration.value)
  {
    match duration
    case None => ""
    case Some(d) => DurationRoundTrip(d); FormatDuration(d)
  }

  // ---------------------------------------------------------------------
  // Query

  /** The search box matches the lower-cased pipeline name. */
  predicate NameMatches(e: Execution, query: string)
  {
    Text.SearchMatches(e.pipelineName, query)
  }

  /** The status selector is `'all'` or names the execution's status. */
  predicate ExecutionStatusMatches(e: Execution, statusFilter: string)
  {
    StatusSelected(e.status, statusFilter)
  }

  predicate MatchesExecution(e: Execution, query: string, statusFilter: string)
  {
    NameMatches(e, query) && ExecutionStatusMatches(e, statusFilter)
  }

  function ByName(query: string): Execution -> bool { e => NameMatches(e, query) }
  function ByExecutionStatus(statusFilter: string): Execution -> bool { e => ExecutionStatusMatches(e, statusFilter) }

  /** `filteredExecutions`: the executions that pass both conditions, in list order. */
  function FilteredExecutions(es: seq<Execution>, query: string, statusFilter: string): (r: seq<Execution>)
    ensures forall e :: e in r <==> e in es && MatchesExecution(e, query, statusFilter)
    ensures Seqs.SubsequenceOf(r, es)
  {
    Seqs.Filter(es, e => MatchesExecution(e, query, statusFilter))
  }

  /** Each execution appears in the view as often as in the list when it matches, and not at all otherwise. */
  lemma FilteredExecutionsCount(es: seq<Execution>, query: string, statusFilter: string, e: Execution)
    ensures multiset(FilteredExecutions(es, query, statusFilter))[e] ==
            if MatchesExecution(e, query, statusFilter) then multiset(es)[e] else 0
  {
    Seqs.FilterMultiset(es, e => MatchesExecution(e, query, statusFilter), e);
  }

  /** The page's initial search (empty) together with the `'all'` status shows every execution. */
  lemma NoExecutionFilterShowsAll(es: seq<Execution>)
    ensures FilteredExecutions(es, "", All) == es
  {
    forall e | e in es ensures MatchesExecution(e, "", All) {
      Text.EmptyQueryMatches(e.pipelineName);
    }
    Seqs.FilterKeepsAll(es, e => MatchesExecution(e, "", All));
  }

  /** Selecting a status by its name keeps exactly the executions in that status. */
  lemma ExecutionStatusFilterSelects(e: Execution, s: PipelineStatus)
    ensures ExecutionStatusMatches(e, StatusName(s)) <==> e.status == s
    ensures MatchesExecution(e, "", StatusName(s)) <==> e.status == s
  {
    Text.EmptyQueryMatches(e.pipelineName);
  }

  /** The search and the status condition may be applied one after the other, in either order. */
  lemma ExecutionFilterOrderIrrelevant(es: seq<Execution>, query: string, statusFilter: string)
    ensures Seqs.Filter(Seqs.Filter(es, ByName(query)), ByExecutionStatus(statusFilter)) == FilteredExecutions(es, query, statusFilter)
    ensures Seqs.Filter(Seqs.Filter(es, ByExecutionStatus(statusFilter)), ByName(query)) == FilteredExecutions(es, query, statusFilter)
  {
  }

  // ---------------------------------------------------------------------
  // Success count

  predicate Succeeded(e: Execution) { e.status == Success }

  /** The count `calculateSuccessRate` divides: how many executions have status `success`. */
  function SuccessCount(es: seq<Execution>): (n: nat)
    ensures n <= |es|
  {
    |Seqs.Filter(es, Succeeded)|
  }

  /** The successes and the other executions together make up the whole list. */
  lemma SuccessCountComplement(es: seq<Execution>)
    ensures SuccessCount(es) + |Seqs.Filter(es, e => !Succeeded(e))| == |es|
  {
    Seqs.FilterPartition(es, Succeeded, e => !Succeeded(e));
  }

  /** The count of a concatenation is the sum of the counts. */
  lemma SuccessCountAppend(a: seq<Execution>, b: seq<Execution>)
    ensures SuccessCount(a + b) == SuccessCount(a) + SuccessCount(b)
  {
    Seqs.FilterAppend(a, b, Succeeded);
  }

  /** The count equals the length exactly when every execution succeeded, and is 0 exactly when none did. */
  lemma SuccessCountExtremes(es: seq<Execution>)
    ensures SuccessCount(es) == |es| <==> forall e :: e in es ==> Succeeded(e)
    ensures SuccessCount(es) == 0 <==> forall e :: e in es ==> !Succeeded(e)
  {
    Seqs.FilterKeepsAll(es, Succeeded);
    var s := Seqs.Filter(es, Succeeded);
    if SuccessCount(es) == |es| {
      assert |s| == |es|;
      // a subsequence of full length is the sequence itself
      Seqs.SubsequenceFull(s, es);
    }
    if SuccessCount(es) != 0 {
      assert s[0] in s;
    }
  }
}
