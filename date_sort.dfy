/** The order the dashboard shows fetched records in: by application date,
    latest first, with a missing date read as the epoch. The comparator
    returns 0 on equal dates and JavaScript's `Array.prototype.sort` is
    stable, so records with equal dates keep the order the server sent. */
module DateSort {
  import opened JsValues
  import opened JobRecords

  /** The comparator's key: `new Date(date_applied)`, or `new Date(0)` when
      the date is missing, so an undated record ties with 1970-01-01. */
  function DateKey(j: Job): int {
    match j.dateApplied
    case None => 0
    case Some(day) => day
  }

  /** Latest first: no record is dated after one that comes before it. */
  ghost predicate SortedDesc(s: seq<Job>) {
    forall i, k :: 0 <= i < k < |s| ==> DateKey(s[i]) >= DateKey(s[k])
  }

  lemma SortedTail(s: seq<Job>)
    requires SortedDesc(s) && s != []
    ensures SortedDesc(s[1..])
  {
  }

  /** Places `x` after every record dated on or after it and before the first
      record dated strictly before it: the step of a stable insertion sort
      that takes the next record of the input. */
  function InsertLast(r: seq<Job>, x: Job): (t: seq<Job>)
    ensures |t| == |r| + 1
  {
    if r == [] then [x]
    else if DateKey(r[0]) < DateKey(x) then [x] + r
    else [r[0]] + InsertLast(r[1..], x)
  }

  /** Insertion adds exactly `x`. */
  lemma {:induction false} InsertLastPermutes(r: seq<Job>, x: Job)
    ensures multiset(InsertLast(r, x)) == multiset(r) + multiset{x}
  {
    if r != [] && DateKey(r[0]) >= DateKey(x) {
      InsertLastPermutes(r[1..], x);
      assert r == [r[0]] + r[1..];
    }
  }

  /** Insertion keeps a latest-first list latest first. */
  lemma {:induction false} InsertLastSorted(r: seq<Job>, x: Job)
    requires SortedDesc(r)
    ensures SortedDesc(InsertLast(r, x))
  {
    if r != [] && DateKey(r[0]) >= DateKey(x) {
      SortedTail(r);
      InsertLastSorted(r[1..], x);
      InsertLastPermutes(r[1..], x);
      var rest := InsertLast(r[1..], x);
      forall k | 0 <= k < |rest|
        ensures DateKey(r[0]) >= DateKey(rest[k])
      {
        assert rest[k] in multiset(rest);
        assert rest[k] in multiset(r[1..]) || rest[k] == x;
        if rest[k] != x {
          assert rest[k] in r[1..];
          var m :| 0 <= m < |r[1..]| && r[1..][m] == rest[k];
          assert r[1..][m] == r[m + 1];
        }
      }
      assert InsertLast(r, x) == [r[0]] + rest;
    }
  }

  /** The sorted copy `[...jobsData].sort(...)`, specified as the stable
      insertion sort that inserts the records in input order. */
  function SortByDate(s: seq<Job>): (r: seq<Job>)
    ensures |r| == |s|
    ensures multiset(r) == multiset(s)
  {
    if s == [] then []
    else
      assert s == s[..|s| - 1] + [s[|s| - 1]];
      InsertLastPermutes(SortByDate(s[..|s| - 1]), s[|s| - 1]);
      InsertLast(SortByDate(s[..|s| - 1]), s[|s| - 1])
  }

  /** The result is latest first. */
  lemma {:induction false} SortByDateSorted(s: seq<Job>)
    ensures SortedDesc(SortByDate(s))
  {
    if s != [] {
      SortByDateSorted(s[..|s| - 1]);
      InsertLastSorted(SortByDate(s[..|s| - 1]), s[|s| - 1]);
    }
  }

  /** The records of `s` dated `day` (undated ones under day 0), in their order in `s`. */
  function DatedOn(s: seq<Job>, day: int): seq<Job> {
    if s == [] then []
    else (if DateKey(s[0]) == day then [s[0]] else []) + DatedOn(s[1..], day)
  }

  lemma {:induction false} DatedOnAppend(a: seq<Job>, b: seq<Job>, day: int)
    ensures DatedOn(a + b, day) == DatedOn(a, day) + DatedOn(b, day)
  {
    if a != [] {
      assert (a + b)[0] == a[0];
      assert (a + b)[1..] == a[1..] + b;
      DatedOnAppend(a[1..], b, day);
    } else {
      assert a + b == b;
    }
  }

  /** No record of a latest-first list that starts before `day` is dated `day`. */
  lemma DatedOnBelow(r: seq<Job>, day: int)
    requires SortedDesc(r) && r != [] && DateKey(r[0]) < day
    ensures DatedOn(r, day) == []
  {
  }

  lemma {:induction false} DatedOnInsertLast(r: seq<Job>, x: Job, day: int)
    requires SortedDesc(r)
    ensures DatedOn(InsertLast(r, x), day) == DatedOn(r, day) + DatedOn([x], day)
  {
    var t := InsertLast(r, x);
    if r == [] {
      assert t == [x];
      assert DatedOn(r, day) == [];
    } else if DateKey(r[0]) < DateKey(x) {
      assert t == [x] + r;
      DatedOnAppend([x], r, day);
      if DateKey(x) == day {
        DatedOnBelow(r, day);
      } else {
        assert DatedOn([x], day) == [];
      }
    } else {
      var tail := r[1..];
      var t' := InsertLast(tail, x);
      assert t == [r[0]] + t';
      SortedTail(r);
      DatedOnInsertLast(tail, x, day);
      DatedOnAppend([r[0]], t', day);
      assert r == [r[0]] + tail;
      DatedOnAppend([r[0]], tail, day);
    }
  }

  /** Stability: for every date, the records of that date (undated ones
      together with those dated 1970-01-01) appear in the sorted list in the
      order the server sent them. */
  lemma {:induction false} SortByDateStable(s: seq<Job>, day: int)
    ensures DatedOn(SortByDate(s), day) == DatedOn(s, day)
  {
    if s != [] {
      var n := |s|;
      SortByDateStable(s[..n - 1], day);
      SortByDateSorted(s[..n - 1]);
      DatedOnInsertLast(SortByDate(s[..n - 1]), s[n - 1], day);
      DatedOnAppend(s[..n - 1], [s[n - 1]], day);
      assert s[..n - 1] + [s[n - 1]] == s;
    }
  }

  lemma {:induction false} InsertLastAtEnd(r: seq<Job>, x: Job)
    requires forall k :: 0 <= k < |r| ==> DateKey(r[k]) >= DateKey(x)
    ensures InsertLast(r, x) == r + [x]
  {
    if r != [] {
      InsertLastAtEnd(r[1..], x);
      assert [r[0]] + (r[1..] + [x]) == r + [x];
    }
  }

  /** A list the server already sends in order comes back unchanged. */
  lemma {:induction false} SortByDateOfSorted(s: seq<Job>)
    requires SortedDesc(s)
    ensures SortByDate(s) == s
  {
    if s != [] {
      var n := |s|;
      var init := s[..n - 1];
      assert SortedDesc(init) by {
        forall i, k | 0 <= i < k < |init| ensures DateKey(init[i]) >= DateKey(init[k]) {
          assert init[i] == s[i] && init[k] == s[k];
        }
      }
      SortByDateOfSorted(init);
      forall k | 0 <= k < |init| ensures DateKey(init[k]) >= DateKey(s[n - 1]) {
        assert init[k] == s[k];
      }
      InsertLastAtEnd(init, s[n - 1]);
      assert init + [s[n - 1]] == s;
    }
  }

  /** Inserting at position `j`: where the inner loop of the in-place sort
      stops shifting. */
  lemma {:induction false} InsertLastAt(r: seq<Job>, x: Job, j: nat)
    requires j <= |r|
    requires forall k :: 0 <= k < j ==> DateKey(r[k]) >= DateKey(x)
    requires forall k :: j <= k < |r| ==> DateKey(r[k]) < DateKey(x)
    ensures InsertLast(r, x) == r[..j] + [x] + r[j..]
  {
    if j > 0 {
      var tail := r[1..];
      forall k | 0 <= k < j - 1 ensures DateKey(tail[k]) >= DateKey(x) {
        assert tail[k] == r[k + 1];
      }
      forall k | j - 1 <= k < |tail| ensures DateKey(tail[k]) < DateKey(x) {
        assert tail[k] == r[k + 1];
      }
      InsertLastAt(tail, x, j - 1);
      assert InsertLast(r, x) == [r[0]] + InsertLast(tail, x);
      assert r[..j] == [r[0]] + tail[..j - 1];
      assert r[j..] == tail[j - 1..];
    } else if r != [] {
      assert DateKey(r[0]) < DateKey(x);
    }
  }

  /** Where the inner loop stops in a latest-first list, `x` is inserted. */
  lemma InsertLastWhereShiftStops(r: seq<Job>, x: Job, j: nat)
    requires SortedDesc(r) && j <= |r|
    requires j > 0 ==> DateKey(r[j - 1]) >= DateKey(x)
    requires forall k :: j <= k < |r| ==> DateKey(r[k]) < DateKey(x)
    ensures InsertLast(r, x) == r[..j] + [x] + r[j..]
  {
    forall k | 0 <= k < j ensures DateKey(r[k]) >= DateKey(x) {
      assert DateKey(r[k]) >= DateKey(r[j - 1]);
    }
    InsertLastAt(r, x, j);
  }

  /** One pass of the in-place insertion sort: the record at `a[i]` is moved
      left past every record of `a[..i]` dated strictly before it, and its
      final position is returned. */
  method InsertAt(a: array<Job>, i: nat) returns (j: nat)
    requires i < a.Length
    modifies a
    ensures j <= i
    ensures j > 0 ==> DateKey(old(a[j - 1])) >= DateKey(old(a[i]))
    ensures forall k :: j <= k < i ==> DateKey(old(a[k])) < DateKey(old(a[i]))
    ensures a[..i + 1] == old(a[..i])[..j] + [old(a[i])] + old(a[..i])[j..]
    ensures forall k :: i < k < a.Length ==> a[k] == old(a[k])
  {
    var x := a[i];
    j := i;
    while j > 0 && DateKey(a[j - 1]) < DateKey(x)
      invariant 0 <= j <= i
      invariant forall k :: 0 <= k < j ==> a[k] == old(a[k])
      invariant forall k :: j < k <= i ==> a[k] == old(a[k - 1])
      invariant forall k :: i < k < a.Length ==> a[k] == old(a[k])
      invariant forall k :: j <= k < i ==> DateKey(old(a[k])) < DateKey(x)
    {
      a[j] := a[j - 1];
      j := j - 1;
    }
    a[j] := x;
    ghost var done := old(a[..i]);
    ghost var want := done[..j] + [x] + done[j..];
    forall k | 0 <= k <= i ensures a[k] == want[k] {
      if k < j {
        assert want[k] == done[k];
      } else if k > j {
        assert want[k] == done[k - 1];
      }
    }
    assert a[..i + 1] == want;
  }

  /** One outer step of the in-place sort: inserting the next input record
      where the inner pass stops extends the sorted prefix by that record. */
  lemma SortByDateStep(s: seq<Job>, i: nat, j: nat)
    requires i < |s| && j <= i
    requires j > 0 ==> DateKey(SortByDate(s[..i])[j - 1]) >= DateKey(s[i])
    requires forall k :: j <= k < i ==> DateKey(SortByDate(s[..i])[k]) < DateKey(s[i])
    ensures SortByDate(s[..i + 1]) == SortByDate(s[..i])[..j] + [s[i]] + SortByDate(s[..i])[j..]
  {
    assert s[..i + 1][..i] == s[..i];
    SortByDateSorted(s[..i]);
    InsertLastWhereShiftStops(SortByDate(s[..i]), s[i], j);
  }

  /** One outer pass of the in-place sort: with `a[..i]` the sorted prefix
      of `s` and the rest of `a` still `s`'s records, the prefix grows by one. */
  method InsertNext(a: array<Job>, s: seq<Job>, i: nat)
    requires i < a.Length == |s|
    requires a[..i] == SortByDate(s[..i])
    requires forall k :: i <= k < a.Length ==> a[k] == s[k]
    modifies a
    ensures a[..i + 1] == SortByDate(s[..i + 1])
    ensures forall k :: i < k < a.Length ==> a[k] == s[k]
  {
    ghost var prefix := a[..i];
    var j := InsertAt(a, i);
    SortByDateStep(s, i, j);
    assert a[..i + 1] == prefix[..j] + [s[i]] + prefix[j..];
  }

  /** `[...jobsData].sort(...)`: copies the fetched list into an array and
      insertion-sorts it in place, latest date first. */
  method SortedCopy(jobsData: seq<Job>) returns (sorted: seq<Job>)
    ensures sorted == SortByDate(jobsData)
  {
    var a := new Job[|jobsData|](k requires 0 <= k < |jobsData| => jobsData[k]);
    var i := 0;
    while i < a.Length
      invariant 0 <= i <= a.Length == |jobsData|
      invariant a[..i] == SortByDate(jobsData[..i])
      invariant forall k :: i <= k < a.Length ==> a[k] == jobsData[k]
    {
      InsertNext(a, jobsData, i);
      i := i + 1;
    }
    assert jobsData[..a.Length] == jobsData;
    sorted := a[..];
  }
}
