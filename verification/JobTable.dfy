/** The job table with the guard each statement carries. A job's id is its row number. */
module JobTable {
  import opened GoText

  datatype Status = Queued | Running | Cancelling | Completed | Failed | Cancelled | Deleting

  datatype Row = Row(status: Status, created: int)

  predicate Has(rows: seq<Row>, id: nat, status: Status) {
    id < |rows| && rows[id].status == status
  }

  function WithStatus(rows: seq<Row>, id: nat, status: Status): seq<Row>
    requires id < |rows|
  {
    rows[id := rows[id].(status := status)]
  }

  /** How many rows have one of the given statuses. */
  function Tally(rows: seq<Row>, counted: set<Status>): nat {
    if rows == [] then 0
    else Tally(rows[..|rows| - 1], counted) + (if rows[|rows| - 1].status in counted then 1 else 0)
  }

  ghost predicate IsNextQueued(rows: seq<Row>, next: Option<nat>) {
    match next
    case None => forall j: nat :: !Has(rows, j, Queued)
    case Some(id) => Has(rows, id, Queued) && forall j: nat :: Has(rows, j, Queued) ==>
        rows[id].created <= rows[j].created
  }

  class Table {
    var rows: seq<Row>

    constructor ()
      ensures rows == []
    {
      rows := [];
    }

    method CreateJob(created: int) returns (id: nat)
      modifies this
      ensures rows == old(rows) + [Row(Queued, created)] && id == |old(rows)|
    {
      id := |rows|;
      rows := rows + [Row(Queued, created)];
    }

    method UpdateJobStatus(id: nat, status: Status) returns (found: bool)
      modifies this
      ensures found == (id < |old(rows)|)
      ensures rows == if found then WithStatus(old(rows), id, status) else old(rows)
    {
      found := id < |rows|;
      if found {
        rows := rows[id := Row(status, rows[id].created)];
      }
    }

    /** Claims a job only while it is still queued. */
    method UpdateJobStarted(id: nat) returns (claimed: bool)
      modifies this
      ensures claimed == Has(old(rows), id, Queued)
      ensures rows == if claimed then WithStatus(old(rows), id, Running) else old(rows)
    {
      claimed := id < |rows| && rows[id].status == Queued;
      if claimed {
        rows := rows[id := Row(Running, rows[id].created)];
      }
    }

    method Count(counted: set<Status>) returns (n: nat)
      ensures n == Tally(rows, counted)
    {
      n := 0;
      for i := 0 to |rows|
        invariant n == Tally(rows[..i], counted)
      {
        assert rows[..i + 1][..i] == rows[..i];
        if rows[i].status in counted {
          n := n + 1;
        }
      }
      assert rows[..|rows|] == rows;
    }

    method CountActiveJobs() returns (n: nat)
      ensures n == Tally(rows, {Queued, Running})
    {
      n := Count({Queued, Running});
    }

    method CountRunningJobs() returns (n: nat)
      ensures n == Tally(rows, {Running})
    {
      n := Count({Running});
    }

    method NextQueuedJob() returns (next: Option<nat>)
      ensures IsNextQueued(rows, next)
    {
      next := None;
      for i := 0 to |rows|
        invariant match next
                  case None => forall j: nat :: j < i ==> !Has(rows, j, Queued)
                  case Some(id) => Has(rows, id, Queued) && forall j: nat :: j < i && Has(rows, j, Queued) ==>
                      rows[id].created <= rows[j].created
      {
        if rows[i].status == Queued && (next.None? || rows[i].created < rows[next.value].created) {
          next := Some(i);
        }
      }
    }
  }

  lemma {:induction false} TallyAfterUpdate(rows: seq<Row>, id: nat, status: Status, counted: set<Status>)
    requires id < |rows|
    ensures Tally(WithStatus(rows, id, status), counted)
         == Tally(rows, counted) - (if rows[id].status in counted then 1 else 0) + (if status in counted then 1 else 0)
  {
    var last := |rows| - 1;
    if id == last {
      assert WithStatus(rows, id, status)[..last] == rows[..last];
    } else {
      TallyAfterUpdate(rows[..last], id, status, counted);
      assert WithStatus(rows, id, status)[..last] == WithStatus(rows[..last], id, status);
    }
  }

  lemma TallyAfterInsert(rows: seq<Row>, row: Row, counted: set<Status>)
    ensures Tally(rows + [row], counted) == Tally(rows, counted) + (if row.status in counted then 1 else 0)
  {
    assert (rows + [row])[..|rows|] == rows;
  }

  lemma {:induction false} TallyMonotone(rows: seq<Row>, fewer: set<Status>, more: set<Status>)
    requires fewer <= more
    ensures Tally(rows, fewer) <= Tally(rows, more)
  {
    if rows != [] {
      TallyMonotone(rows[..|rows| - 1], fewer, more);
    }
  }

  /** A positive tally has a witness. */
  lemma {:induction false} TallyWitness(rows: seq<Row>, counted: set<Status>) returns (id: nat)
    requires Tally(rows, counted) > 0
    ensures id < |rows| && rows[id].status in counted
  {
    id := |rows| - 1;
    if rows[id].status !in counted {
      id := TallyWitness(rows[..id], counted);
    }
  }

  lemma {:induction false} NothingToTally(rows: seq<Row>, counted: set<Status>)
    requires forall i :: 0 <= i < |rows| ==> rows[i].status !in counted
    ensures Tally(rows, counted) == 0
  {
    if rows != [] {
      NothingToTally(rows[..|rows| - 1], counted);
    }
  }
}
