/** The transforms the dashboard applies to its local list after a request
    succeeds: prepend the created record, drop the deleted id, replace the
    updated id. Identifiers are compared with `===`, so as integers. */
module JobList {
  import opened JsValues
  import opened JobRecords
  import opened DateSort

  /** No two records share an identifier, as the server's primary key promises. */
  ghost predicate UniqueIds(jobs: seq<Job>) {
    forall i, k :: 0 <= i < k < |jobs| ==> jobs[i].id != jobs[k].id
  }

  /** How many records carry `id`. */
  function CountId(jobs: seq<Job>, id: JobId): nat {
    if jobs == [] then 0 else (if jobs[0].id == id then 1 else 0) + CountId(jobs[1..], id)
  }

  /** `jobs.filter((job) => job.id !== id)`. */
  function RemoveById(jobs: seq<Job>, id: JobId): (r: seq<Job>)
    ensures forall k :: 0 <= k < |r| ==> r[k].id != id
    ensures |r| == |jobs| - CountId(jobs, id)
  {
    if jobs == [] then []
    else if jobs[0].id != id then [jobs[0]] + RemoveById(jobs[1..], id)
    else RemoveById(jobs[1..], id)
  }

  /** A delete keeps exactly the records whose id differs. */
  lemma {:induction false} RemoveByIdMembers(jobs: seq<Job>, id: JobId)
    ensures forall j :: j in RemoveById(jobs, id) <==> j in jobs && j.id != id
  {
    if jobs != [] {
      RemoveByIdMembers(jobs[1..], id);
      assert jobs == [jobs[0]] + jobs[1..];
    }
  }

  /** Filtering works piece by piece, so the kept records stay in their
      relative order. */
  lemma {:induction false} RemoveByIdAppend(a: seq<Job>, b: seq<Job>, id: JobId)
    ensures RemoveById(a + b, id) == RemoveById(a, id) + RemoveById(b, id)
  {
    if a == [] {
      assert a + b == b;
    } else {
      assert (a + b)[0] == a[0];
      assert (a + b)[1..] == a[1..] + b;
      RemoveByIdAppend(a[1..], b, id);
    }
  }

  /** Deleting an id no record carries leaves the list as it was. */
  lemma {:induction false} RemoveByIdAbsent(jobs: seq<Job>, id: JobId)
    requires forall k :: 0 <= k < |jobs| ==> jobs[k].id != id
    ensures RemoveById(jobs, id) == jobs
  {
    if jobs != [] {
      RemoveByIdAbsent(jobs[1..], id);
      assert jobs == [jobs[0]] + jobs[1..];
    }
  }

  /** With unique identifiers a delete removes at most one record. */
  lemma {:induction false} CountIdUnique(jobs: seq<Job>, id: JobId)
    requires UniqueIds(jobs)
    ensures CountId(jobs, id) <= 1
  {
    if jobs != [] {
      assert UniqueIds(jobs[1..]) by {
        forall i, k | 0 <= i < k < |jobs| - 1 ensures jobs[1..][i].id != jobs[1..][k].id {
          assert jobs[1..][i] == jobs[i + 1] && jobs[1..][k] == jobs[k + 1];
        }
      }
      CountIdUnique(jobs[1..], id);
      if jobs[0].id == id {
        forall k | 0 <= k < |jobs| - 1 ensures jobs[1..][k].id != id {
          assert jobs[1..][k] == jobs[k + 1];
        }
        CountIdNone(jobs[1..], id);
      }
    }
  }

  lemma {:induction false} CountIdNone(jobs: seq<Job>, id: JobId)
    requires forall k :: 0 <= k < |jobs| ==> jobs[k].id != id
    ensures CountId(jobs, id) == 0
  {
    if jobs != [] {
      CountIdNone(jobs[1..], id);
    }
  }

  /** A delete keeps the identifiers unique. */
  lemma {:induction false} RemoveByIdKeepsUnique(jobs: seq<Job>, id: JobId)
    requires UniqueIds(jobs)
    ensures UniqueIds(RemoveById(jobs, id))
  {
    if jobs != [] {
      var tail := jobs[1..];
      assert UniqueIds(tail) by {
        forall i, k | 0 <= i < k < |tail| ensures tail[i].id != tail[k].id {
          assert tail[i] == jobs[i + 1] && tail[k] == jobs[k + 1];
        }
      }
      RemoveByIdKeepsUnique(tail, id);
      RemoveByIdMembers(tail, id);
      var rest := RemoveById(tail, id);
      if jobs[0].id != id {
        forall k | 0 <= k < |rest| ensures jobs[0].id != rest[k].id {
          assert rest[k] in tail;
          var m :| 0 <= m < |tail| && tail[m] == rest[k];
          assert tail[m] == jobs[m + 1];
        }
        var r := [jobs[0]] + rest;
        forall i, k | 0 <= i < k < |r| ensures r[i].id != r[k].id {
          if i > 0 {
            assert r[i] == rest[i - 1] && r[k] == rest[k - 1];
          } else {
            assert r[k] == rest[k - 1];
          }
        }
      }
    }
  }

  /** A record dated no earlier than every record of a latest-first list can
      go in front of it. */
  lemma SortedCons(x: Job, s: seq<Job>)
    requires SortedDesc(s)
    requires forall k :: 0 <= k < |s| ==> DateKey(x) >= DateKey(s[k])
    ensures SortedDesc([x] + s)
  {
  }

  /** A delete keeps a latest-first list latest first. */
  lemma {:induction false} RemoveByIdKeepsSorted(jobs: seq<Job>, id: JobId)
    requires SortedDesc(jobs)
    ensures SortedDesc(RemoveById(jobs, id))
  {
    if jobs != [] {
      var tail := jobs[1..];
      SortedTail(jobs);
      RemoveByIdKeepsSorted(tail, id);
      RemoveByIdMembers(tail, id);
      var rest := RemoveById(tail, id);
      if jobs[0].id != id {
        forall k | 0 <= k < |rest| ensures DateKey(jobs[0]) >= DateKey(rest[k]) {
          assert rest[k] in tail;
          var m :| 0 <= m < |tail| && tail[m] == rest[k];
          assert tail[m] == jobs[m + 1];
        }
        SortedCons(jobs[0], rest);
        assert RemoveById(jobs, id) == [jobs[0]] + rest;
      } else {
        assert RemoveById(jobs, id) == rest;
      }
    }
  }

  /** `jobs.map((job) => (job.id === id ? updatedJob : job))`. */
  function ReplaceById(jobs: seq<Job>, id: JobId, updated: Job): (r: seq<Job>)
    ensures |r| == |jobs|
    ensures forall k :: 0 <= k < |r| ==> r[k] == if jobs[k].id == id then updated else jobs[k]
  {
    if jobs == [] then []
    else [if jobs[0].id == id then updated else jobs[0]] + ReplaceById(jobs[1..], id, updated)
  }

  /** Updating an id no record carries leaves the list as it was. */
  lemma ReplaceByIdAbsent(jobs: seq<Job>, id: JobId, updated: Job)
    requires forall k :: 0 <= k < |jobs| ==> jobs[k].id != id
    ensures ReplaceById(jobs, id, updated) == jobs
  {
  }

  /** With unique identifiers, an update changes exactly the one record that
      carries `id`, and, as the server keeps the identifier, the identifiers
      stay unique. */
  lemma ReplaceByIdSingle(jobs: seq<Job>, p: nat, updated: Job)
    requires UniqueIds(jobs) && p < |jobs|
    ensures ReplaceById(jobs, jobs[p].id, updated)[p] == updated
    ensures forall k :: 0 <= k < |jobs| && k != p ==> ReplaceById(jobs, jobs[p].id, updated)[k] == jobs[k]
    ensures updated.id == jobs[p].id ==> UniqueIds(ReplaceById(jobs, jobs[p].id, updated))
  {
  }

  /** Prepending never re-sorts: the new record comes first whatever its
      date, so the list stays latest first exactly when the new record is
      dated no earlier than the old first record. */
  lemma PrependSorted(jobs: seq<Job>, newJob: Job)
    requires SortedDesc(jobs)
    ensures SortedDesc([newJob] + jobs) <==> jobs == [] || DateKey(newJob) >= DateKey(jobs[0])
  {
    var r := [newJob] + jobs;
    assert r[0] == newJob && r[1..] == jobs;
  }

  /** The table shows a row in edit mode when its id equals `editingJobId`. */
  predicate InEditMode(jobs: seq<Job>, editing: Option<JobId>, k: nat)
    requires k < |jobs|
  {
    editing == Some(jobs[k].id)
  }

  /** A single `editingJobId` puts every row it matches into edit mode, and
      so, with unique identifiers, at most one row. */
  lemma AtMostOneInEditMode(jobs: seq<Job>, editing: Option<JobId>, k1: nat, k2: nat)
    requires UniqueIds(jobs) && k1 < |jobs| && k2 < |jobs|
    requires InEditMode(jobs, editing, k1) && InEditMode(jobs, editing, k2)
    ensures k1 == k2
  {
  }
}
