/** The client-side page of the job table: the first five records unless
    "show all" is on, and which of the two toggle buttons is rendered. */
module Pagination {
  import opened JobRecords

  const PageSize: nat := 5

  /** `showAllJobs ? jobs : jobs.slice(0, 5)`. */
  function JobsToShow(jobs: seq<Job>, showAll: bool): (r: seq<Job>)
    ensures r <= jobs
    ensures |r| == if showAll || |jobs| <= PageSize then |jobs| else PageSize
  {
    if showAll then jobs
    else jobs[..if |jobs| < PageSize then |jobs| else PageSize]
  }

  /** The table and its buttons are rendered only once loading is over and
      there is at least one record. */
  predicate TableShown(jobs: seq<Job>, loading: bool) {
    !loading && |jobs| > 0
  }

  predicate ViewMoreShown(jobs: seq<Job>, showAll: bool, loading: bool) {
    TableShown(jobs, loading) && |jobs| > PageSize && !showAll
  }

  predicate ViewLessShown(jobs: seq<Job>, showAll: bool, loading: bool) {
    TableShown(jobs, loading) && showAll
  }

  /** While the table is rendered, "View More" is offered exactly when some
      record is hidden, the two buttons are never offered together, and with
      "show all" on every record is shown. */
  lemma ViewMoreExactlyWhenHidden(jobs: seq<Job>, showAll: bool, loading: bool)
    requires TableShown(jobs, loading)
    ensures ViewMoreShown(jobs, showAll, loading) <==> JobsToShow(jobs, showAll) != jobs
    ensures !(ViewMoreShown(jobs, showAll, loading) && ViewLessShown(jobs, showAll, loading))
    ensures ViewLessShown(jobs, showAll, loading) ==> JobsToShow(jobs, showAll) == jobs
  {
  }

  /** At most five records and "show all" off: all records are shown and
      neither button appears. */
  lemma SmallListHasNoToggle(jobs: seq<Job>, loading: bool)
    requires |jobs| <= PageSize
    ensures JobsToShow(jobs, false) == jobs
    ensures !ViewMoreShown(jobs, false, loading) && !ViewLessShown(jobs, false, loading)
  {
  }

  /** "View Less" does not depend on the length: with "show all" still on
      after the list shrinks to five or fewer records (after a delete, say),
      every record is shown and "View Less" stays visible. */
  lemma ViewLessOnShortList(jobs: seq<Job>)
    requires 0 < |jobs| <= PageSize
    ensures JobsToShow(jobs, true) == jobs
    ensures ViewLessShown(jobs, true, false) && !ViewMoreShown(jobs, true, false)
  {
  }

  /** Six loaded records: five rows and "View More"; after the toggle all six
      rows and "View Less". */
  lemma SixRecords(jobs: seq<Job>)
    requires |jobs| == 6
    ensures |JobsToShow(jobs, false)| == 5 && JobsToShow(jobs, false) == jobs[..5]
    ensures ViewMoreShown(jobs, false, false) && !ViewLessShown(jobs, false, false)
    ensures JobsToShow(jobs, true) == jobs
    ensures ViewLessShown(jobs, true, false) && !ViewMoreShown(jobs, true, false)
  {
  }
}
