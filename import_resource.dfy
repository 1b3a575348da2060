/**
 * The persistent work queue of `Zendesk::ImportResource`: claiming batches of
 * `new` records, turning a bulk job's results into per-record outcomes, the
 * job-polling loop and the per-worker claim/submit/save loop.
 *
 * The records of one resource type are a `Store`: a sequence of rows in the
 * order of the model's default scope (ascending fd_id). Claims and saves are
 * atomic steps; the bulk-import calls and job polls are given as data.
 */
module ImportResource {
  import opened Wrappers
  import ZendeskClient

  datatype Status = New | Queued | Synced | Failed | JobFailed

  /** One row of the resources table: primary key, source id, payload, status, destination id and error. */
  datatype Row<C> = Row(id: nat, fdId: int, columns: C, status: Status, zdId: Option<int>, zdError: Option<string>)

  // ----- the table -----

  /**
   * The default scope orders by fd_id. The order need not be strict: fd_id is
   * unique only per record type, and one table (the users) holds two types.
   * Rows sharing an fd_id stand in the database's own order.
   */
  ghost predicate Ordered<C>(rows: seq<Row<C>>) {
    forall i, j | 0 <= i < j < |rows| :: rows[i].fdId <= rows[j].fdId
  }

  ghost predicate DistinctIds<C>(rows: seq<Row<C>>) {
    forall i, j | 0 <= i < j < |rows| :: rows[i].id != rows[j].id
  }

  /** The same records (id, fd_id and columns) in the same places; only status columns may differ. */
  ghost predicate SameRecords<C>(a: seq<Row<C>>, b: seq<Row<C>>) {
    |a| == |b| && forall k | 0 <= k < |a| :: a[k].id == b[k].id && a[k].fdId == b[k].fdId && a[k].columns == b[k].columns
  }

  function Ids<C>(batch: seq<Row<C>>): set<nat> {
    set k | 0 <= k < |batch| :: batch[k].id
  }

  function CountNew<C>(rows: seq<Row<C>>): nat {
    if rows == [] then 0 else (if rows[0].status == New then 1 else 0) + CountNew(rows[1..])
  }

  // ----- next_batch -----

  /** `where(status: 'new').limit(batch_size)`: the first `limit` new rows, in table order. */
  function SelectNew<C>(rows: seq<Row<C>>, limit: nat): seq<Row<C>>
    decreases |rows|
  {
    if limit == 0 || rows == [] then []
    else if rows[0].status == New then [rows[0]] + SelectNew(rows[1..], limit - 1)
    else SelectNew(rows[1..], limit)
  }

  /** `update_all(status: s)` on the rows whose id is in `ids`. */
  function WithStatus<C>(rows: seq<Row<C>>, ids: set<nat>, s: Status): (r: seq<Row<C>>)
    ensures |r| == |rows|
    ensures forall k | 0 <= k < |rows| :: r[k] == if rows[k].id in ids then rows[k].(status := s) else rows[k]
  {
    seq(|rows|, k requires 0 <= k < |rows| => if rows[k].id in ids then rows[k].(status := s) else rows[k])
  }

  /** A claim returns at most `limit` rows, all `new` rows of the table, and `limit` of them unless fewer exist. */
  lemma {:induction false} SelectNewBasics<C>(rows: seq<Row<C>>, limit: nat)
    ensures var b := SelectNew(rows, limit);
      && |b| <= limit
      && (forall k | 0 <= k < |b| :: b[k] in rows && b[k].status == New)
      && |b| == (if CountNew(rows) < limit then CountNew(rows) else limit)
    decreases |rows|
  {
    if limit > 0 && rows != [] {
      var b := SelectNew(rows, limit);
      if rows[0].status == New {
        SelectNewBasics(rows[1..], limit - 1);
        forall k | 0 <= k < |b| ensures b[k] in rows && b[k].status == New {
          if k > 0 { assert b[k] == SelectNew(rows[1..], limit - 1)[k - 1]; }
        }
      } else {
        SelectNewBasics(rows[1..], limit);
        forall k | 0 <= k < |b| ensures b[k] in rows {
          assert b[k] in rows[1..];
        }
      }
    }
  }

  /** A claim that returns fewer than `limit` rows returns every `new` row. */
  lemma {:induction false} SelectNewComplete<C>(rows: seq<Row<C>>, limit: nat)
    ensures var b := SelectNew(rows, limit);
      |b| < limit ==> forall x | x in rows && x.status == New :: x in b
    decreases |rows|
  {
    if limit > 0 && rows != [] {
      var b := SelectNew(rows, limit);
      if rows[0].status == New {
        SelectNewComplete(rows[1..], limit - 1);
        forall x | x in rows && x.status == New && |b| < limit ensures x in b {
          if x != rows[0] { assert x in rows[1..]; }
        }
      } else {
        SelectNewComplete(rows[1..], limit);
        forall x | x in rows && x.status == New && |b| < limit ensures x in b {
          assert x in rows[1..];
        }
      }
    }
  }

  lemma OrderedTail<C>(rows: seq<Row<C>>)
    requires Ordered(rows) && rows != []
    ensures Ordered(rows[1..])
    ensures forall x | x in rows[1..] :: rows[0].fdId <= x.fdId
  {
    var tail := rows[1..];
    forall i, j | 0 <= i < j < |tail| ensures tail[i].fdId <= tail[j].fdId {
      assert tail[i] == rows[i + 1] && tail[j] == rows[j + 1];
    }
    forall x | x in tail ensures rows[0].fdId <= x.fdId {
      var m :| 0 <= m < |tail| && tail[m] == x;
      assert rows[m + 1] == x;
    }
  }

  /** On an ordered table a claim is in (non-strictly) ascending fd_id order. */
  lemma {:induction false} SelectNewOrdered<C>(rows: seq<Row<C>>, limit: nat)
    requires Ordered(rows)
    ensures Ordered(SelectNew(rows, limit))
    decreases |rows|
  {
    if limit > 0 && rows != [] {
      OrderedTail(rows);
      if rows[0].status == New {
        var b := SelectNew(rows, limit);
        var b' := SelectNew(rows[1..], limit - 1);
        SelectNewOrdered(rows[1..], limit - 1);
        SelectNewBasics(rows[1..], limit - 1);
        assert b == [rows[0]] + b';
        forall i, j | 0 <= i < j < |b| ensures b[i].fdId <= b[j].fdId {
          assert b[j] == b'[j - 1] && b'[j - 1] in rows[1..];
          if i > 0 { assert b[i] == b'[i - 1]; }
        }
      } else {
        SelectNewOrdered(rows[1..], limit);
      }
    }
  }

  /** On an ordered table no `new` row a claim leaves behind has a lower fd_id than one it takes. */
  lemma {:induction false} SelectNewLowest<C>(rows: seq<Row<C>>, limit: nat)
    requires Ordered(rows)
    ensures var b := SelectNew(rows, limit);
      forall x | x in rows && x.status == New && x !in b :: forall k | 0 <= k < |b| :: b[k].fdId <= x.fdId
    decreases |rows|
  {
    if limit > 0 && rows != [] {
      var b := SelectNew(rows, limit);
      OrderedTail(rows);
      if rows[0].status == New {
        var b' := SelectNew(rows[1..], limit - 1);
        SelectNewLowest(rows[1..], limit - 1);
        assert b == [rows[0]] + b';
        forall x | x in rows && x.status == New && x !in b
          ensures forall k | 0 <= k < |b| :: b[k].fdId <= x.fdId
        {
          assert x != rows[0];
          assert x in rows[1..] && x !in b';
          forall k | 0 <= k < |b| ensures b[k].fdId <= x.fdId {
            if k > 0 { assert b[k] == b'[k - 1]; }
          }
        }
      } else {
        SelectNewLowest(rows[1..], limit);
        assert b == SelectNew(rows[1..], limit);
        forall x | x in rows && x.status == New && x !in b
          ensures forall k | 0 <= k < |b| :: b[k].fdId <= x.fdId
        {
          assert x != rows[0];
          assert x in rows[1..];
        }
      }
    }
  }

  /** On an ordered table a claim is in fd_id order and takes the lowest fd_ids first. */
  lemma SelectNewLowestFirst<C>(rows: seq<Row<C>>, limit: nat)
    requires Ordered(rows)
    ensures var b := SelectNew(rows, limit);
      && Ordered(b)
      && (forall x | x in rows && x.status == New && x !in b :: forall k | 0 <= k < |b| :: b[k].fdId <= x.fdId)
  {
    SelectNewOrdered(rows, limit);
    SelectNewLowest(rows, limit);
  }

  /**
   * `next_batch`'s selection: at most `limit` `new` rows, `limit` of them
   * unless fewer exist (then all of them), lowest fd_ids first and ascending.
   */
  lemma SelectNewSpec<C>(rows: seq<Row<C>>, limit: nat)
    ensures var b := SelectNew(rows, limit);
      && |b| <= limit
      && (forall k | 0 <= k < |b| :: b[k] in rows && b[k].status == New)
      && |b| == (if CountNew(rows) < limit then CountNew(rows) else limit)
      && (|b| < limit ==> forall x | x in rows && x.status == New :: x in b)
      && (Ordered(rows) ==> Ordered(b))
      && (Ordered(rows) ==> forall x | x in rows && x.status == New && x !in b ::
                               forall k | 0 <= k < |b| :: b[k].fdId <= x.fdId)
  {
    SelectNewBasics(rows, limit);
    SelectNewComplete(rows, limit);
    if Ordered(rows) {
      SelectNewLowestFirst(rows, limit);
    }
  }

  /** After a claim exactly the claimed rows are `queued`; nothing else in the table changes. */
  lemma ClaimQueuesExactlyTheBatch<C>(rows: seq<Row<C>>, limit: nat)
    requires DistinctIds(rows)
    ensures var b := SelectNew(rows, limit); var after := WithStatus(rows, Ids(b), Queued);
      && SameRecords(rows, after)
      && (forall k | 0 <= k < |rows| :: rows[k] in b ==> after[k] == rows[k].(status := Queued))
      && (forall k | 0 <= k < |rows| :: rows[k] !in b ==> after[k] == rows[k])
  {
    var b := SelectNew(rows, limit);
    SelectNewSpec(rows, limit);
    forall k | 0 <= k < |rows| ensures rows[k] in b <==> rows[k].id in Ids(b) {
      if rows[k].id in Ids(b) {
        var j :| 0 <= j < |b| && b[j].id == rows[k].id;
        var m :| 0 <= m < |rows| && rows[m] == b[j];
        assert m == k;
      }
      if rows[k] in b {
        var j :| 0 <= j < |b| && b[j] == rows[k];
        assert rows[k].id == b[j].id;
      }
    }
  }

  /** Serialised claims never overlap: what one claim took is no longer `new` for the next. */
  lemma SuccessiveClaimsDisjoint<C>(rows: seq<Row<C>>, n: nat, m: nat)
    ensures var b1 := SelectNew(rows, n);
      var b2 := SelectNew(WithStatus(rows, Ids(b1), Queued), m);
      Ids(b1) !! Ids(b2)
  {
    var b1 := SelectNew(rows, n);
    var after := WithStatus(rows, Ids(b1), Queued);
    var b2 := SelectNew(after, m);
    SelectNewSpec(after, m);
    forall i | i in Ids(b2) ensures i !in Ids(b1) {
      var j :| 0 <= j < |b2| && b2[j].id == i;
      var k :| 0 <= k < |after| && after[k] == b2[j];
      assert after[k].status == New;
    }
  }

  /** A claim with a positive limit comes back empty exactly when no `new` row is left. */
  lemma EmptyClaimMeansDrained<C>(rows: seq<Row<C>>, limit: nat)
    requires limit > 0
    ensures SelectNew(rows, limit) == [] <==> forall k | 0 <= k < |rows| :: rows[k].status != New
  {
    SelectNewSpec(rows, limit);
    if SelectNew(rows, limit) == [] {
      forall k | 0 <= k < |rows| ensures rows[k].status != New {
        assert rows[k] in rows;
      }
    } else {
      var b := SelectNew(rows, limit);
      assert b[0] in rows;
    }
  }

  // ----- save_progress -----

  /**
   * One row of an `upsert_all`. Progress: the three columns save_progress
   * writes. PreMatched: the status and destination id the users service writes.
   */
  datatype Write = Progress(id: nat, status: Status, zdId: Option<int>, zdError: Option<string>)
                 | PreMatched(id: nat, zdId: Option<int>)

  function ApplyWrite<C>(row: Row<C>, w: Write): Row<C> {
    if w.id != row.id then row
    else match w
      case Progress(_, s, z, e) => row.(status := s, zdId := z, zdError := e)
      case PreMatched(_, z) => row.(status := Synced, zdId := z)
  }

  /** A row after the writes of one upsert, applied in order (a later write for the same id wins). */
  function RowAfter<C>(row: Row<C>, ws: seq<Write>): Row<C>
    decreases |ws|
  {
    if ws == [] then row else RowAfter(ApplyWrite(row, ws[0]), ws[1..])
  }

  /** `upsert_all(ws)` by primary key. */
  function Upsert<C>(rows: seq<Row<C>>, ws: seq<Write>): (r: seq<Row<C>>)
    ensures |r| == |rows|
  {
    seq(|rows|, k requires 0 <= k < |rows| => RowAfter(rows[k], ws))
  }

  /** Writes never change a row's id, fd_id or columns. */
  lemma {:induction false} RowAfterKeeps<C>(row: Row<C>, ws: seq<Write>)
    ensures var r := RowAfter(row, ws); r.id == row.id && r.fdId == row.fdId && r.columns == row.columns
    decreases |ws|
  {
    if ws != [] {
      RowAfterKeeps(ApplyWrite(row, ws[0]), ws[1..]);
    }
  }

  lemma UpsertSameRecords<C>(rows: seq<Row<C>>, ws: seq<Write>)
    ensures SameRecords(rows, Upsert(rows, ws))
  {
    forall k | 0 <= k < |rows| ensures RowAfter(rows[k], ws).id == rows[k].id
      && RowAfter(rows[k], ws).fdId == rows[k].fdId && RowAfter(rows[k], ws).columns == rows[k].columns
    {
      RowAfterKeeps(rows[k], ws);
    }
  }

  /** The last write of `ws` for `id`, if any. */
  function LastFor(ws: seq<Write>, id: nat): Option<Write>
    decreases |ws|
  {
    if ws == [] then None
    else if LastFor(ws[1..], id).Some? then LastFor(ws[1..], id)
    else if ws[0].id == id then Some(ws[0])
    else None
  }

  lemma {:induction false} LastForTargets(ws: seq<Write>, id: nat)
    ensures LastFor(ws, id).Some? ==> LastFor(ws, id).value in ws && LastFor(ws, id).value.id == id
    ensures LastFor(ws, id).None? ==> forall i | 0 <= i < |ws| :: ws[i].id != id
    decreases |ws|
  {
    if ws != [] {
      LastForTargets(ws[1..], id);
      if LastFor(ws, id).None? {
        forall i | 0 <= i < |ws| ensures ws[i].id != id {
          if i > 0 { assert ws[i] == ws[1..][i - 1]; }
        }
      }
    }
  }

  predicate AllProgress(ws: seq<Write>) {
    forall i | 0 <= i < |ws| :: ws[i].Progress?
  }

  predicate AllPreMatched(ws: seq<Write>) {
    forall i | 0 <= i < |ws| :: ws[i].PreMatched?
  }

  /** The writes of one upsert_all call all have the same columns. */
  predicate Uniform(ws: seq<Write>) {
    AllProgress(ws) || AllPreMatched(ws)
  }

  /** When all writes set the same columns, a row ends as its last write for its id made it, or untouched. */
  lemma {:induction false} RowAfterIsLastWrite<C>(row: Row<C>, ws: seq<Write>)
    requires Uniform(ws)
    ensures RowAfter(row, ws) == match LastFor(ws, row.id) case None => row case Some(w) => ApplyWrite(row, w)
    decreases |ws|
  {
    if ws != [] {
      var r1 := ApplyWrite(row, ws[0]);
      assert Uniform(ws[1..]) by {
        forall i | 0 <= i < |ws[1..]| ensures ws[1..][i] == ws[i + 1] { }
      }
      RowAfterIsLastWrite(r1, ws[1..]);
      LastForTargets(ws[1..], row.id);
      if LastFor(ws[1..], row.id).Some? {
        ApplyProgressOverwrites(row, ws[0], LastFor(ws[1..], row.id).value);
      }
    }
  }

  /** A write for a row's id overwrites what an earlier write of the same kind set. */
  lemma ApplyProgressOverwrites<C>(row: Row<C>, a: Write, b: Write)
    requires b.id == row.id && (b.Progress? || (a.PreMatched? && b.PreMatched?))
    ensures ApplyWrite(ApplyWrite(row, a), b) == ApplyWrite(row, b)
  {
  }

  /** Upserting the same writes a second time changes nothing. */
  lemma UpsertIdempotent<C>(rows: seq<Row<C>>, ws: seq<Write>)
    requires Uniform(ws)
    ensures Upsert(Upsert(rows, ws), ws) == Upsert(rows, ws)
  {
    var once := Upsert(rows, ws);
    forall k | 0 <= k < |rows| ensures RowAfter(once[k], ws) == once[k] {
      RowAfterIsLastWrite(rows[k], ws);
      RowAfterIsLastWrite(once[k], ws);
      RowAfterKeeps(rows[k], ws);
    }
  }

  lemma {:induction false} RowAfterConcat<C>(row: Row<C>, a: seq<Write>, b: seq<Write>)
    ensures RowAfter(RowAfter(row, a), b) == RowAfter(row, a + b)
    decreases |a|
  {
    if a != [] {
      RowAfterConcat(ApplyWrite(row, a[0]), a[1..], b);
      assert (a + b)[0] == a[0] && (a + b)[1..] == a[1..] + b;
    } else {
      assert a + b == b;
    }
  }

  /** Two upsert_all calls one after the other write what one call with both lists writes. */
  lemma UpsertConcat<C>(rows: seq<Row<C>>, a: seq<Write>, b: seq<Write>)
    ensures Upsert(Upsert(rows, a), b) == Upsert(rows, a + b)
  {
    forall k | 0 <= k < |rows| ensures Upsert(Upsert(rows, a), b)[k] == Upsert(rows, a + b)[k] {
      RowAfterConcat(rows[k], a, b);
    }
  }

  /** Ruby's `array[i]`: negative indexes count from the end; outside the array it is nil. */
  function RubyIndex(i: int, n: nat): (r: Option<nat>)
    ensures r.Some? ==> r.value < n
    ensures r.Some? <==> -(n as int) <= i < n
    ensures 0 <= i < n ==> r == Some(i)
  {
    if 0 <= i < n then Some(i) else if -(n as int) <= i < 0 then Some(n + i) else None
  }

  /** The position a result refers to: `result['index'] || position`. */
  function Target(results: seq<ZendeskClient.JobResult>, i: nat, n: nat): Option<nat>
    requires i < |results|
  {
    RubyIndex(results[i].index.GetOr(i), n)
  }

  /** The text stored for a rejected record: "error: details" (nil details read as empty). */
  function ErrorText(r: ZendeskClient.JobResult): string
    requires r.error.Some?
  {
    r.error.value + ": " + r.details.GetOr("")
  }

  /** One result's outcome: `failed` with the error text when it has an error, otherwise `synced` with its id. */
  function Outcome(r: ZendeskClient.JobResult, id: nat): (w: Write)
    ensures w.Progress? && w.id == id
    ensures r.error.Some? ==> w.status == Failed && w.zdId.None? && w.zdError == Some(ErrorText(r))
    ensures r.error.None? ==> w.status == Synced && w.zdId == r.id && w.zdError.None?
  {
    if r.error.Some? then Progress(id, Failed, None, Some(ErrorText(r)))
    else Progress(id, Synced, r.id, None)
  }

  predicate AllResolve(results: seq<ZendeskClient.JobResult>, n: nat) {
    forall i | 0 <= i < |results| :: Target(results, i, n).Some?
  }

  /** `results.map.with_index { ... }`; None when some result points outside the batch (NoMethodError on nil). */
  function ProgressWrites<C>(batch: seq<Row<C>>, results: seq<ZendeskClient.JobResult>): Option<seq<Write>> {
    if AllResolve(results, |batch|) then
      Some(seq(|results|, i requires 0 <= i < |results| => Outcome(results[i], batch[Target(results, i, |batch|).value].id)))
    else None
  }

  /**
   * `save_progress`: the table afterwards, or None when it raises before
   * writing: the job has no results list, a result points outside the batch,
   * or the results list is empty (ActiveRecord's `upsert_all` rejects an
   * empty list).
   */
  function Save<C>(rows: seq<Row<C>>, batch: seq<Row<C>>, job: Option<ZendeskClient.Job>): Option<seq<Row<C>>> {
    if job.None? then Some(WithStatus(rows, Ids(batch), JobFailed))
    else if job.value.results.None? || job.value.results.value == [] then None
    else
      var ws := ProgressWrites(batch, job.value.results.value);
      if ws.None? then None else Some(Upsert(rows, ws.value))
  }

  lemma ProgressWritesFacts<C>(batch: seq<Row<C>>, results: seq<ZendeskClient.JobResult>)
    ensures var ws := ProgressWrites(batch, results); ws.Some? ==> AllProgress(ws.value)
    ensures var ws := ProgressWrites(batch, results);
      ws.Some? ==> forall i | 0 <= i < |ws.value| :: ws.value[i].id in Ids(batch) && ws.value[i].status != New
  {
  }

  /** Without a job every claimed record becomes `job-failed`; none becomes `synced` or `failed`. */
  lemma NoJobMarksBatchJobFailed<C>(rows: seq<Row<C>>, batch: seq<Row<C>>)
    ensures var r := Save(rows, batch, None);
      && r.Some? && SameRecords(rows, r.value)
      && (forall k | 0 <= k < |rows| :: rows[k].id in Ids(batch) ==> r.value[k] == rows[k].(status := JobFailed))
      && (forall k | 0 <= k < |rows| :: rows[k].id !in Ids(batch) ==> r.value[k] == rows[k])
  {
  }

  /**
   * save_progress writes only the status columns of the batch's records, and
   * never makes a record `new`.
   */
  lemma SaveTouchesOnlyBatch<C>(rows: seq<Row<C>>, batch: seq<Row<C>>, job: Option<ZendeskClient.Job>)
    requires Save(rows, batch, job).Some?
    ensures var r := Save(rows, batch, job).value;
      && SameRecords(rows, r)
      && (forall k | 0 <= k < |rows| :: rows[k].id !in Ids(batch) ==> r[k] == rows[k])
      && (forall k | 0 <= k < |rows| :: rows[k].status != New ==> r[k].status != New)
  {
    if job.Some? {
      var ws := ProgressWrites(batch, job.value.results.value).value;
      ProgressWritesFacts(batch, job.value.results.value);
      var r := Upsert(rows, ws);
      UpsertSameRecords(rows, ws);
      forall k | 0 <= k < |rows| ensures (rows[k].id !in Ids(batch) ==> r[k] == rows[k])
        && (rows[k].status != New ==> r[k].status != New)
      {
        RowAfterIsLastWrite(rows[k], ws);
        LastForTargets(ws, rows[k].id);
      }
    }
  }

  /** Saving the same job for the same batch twice leaves the table as after the first save. */
  lemma SaveIdempotent<C>(rows: seq<Row<C>>, batch: seq<Row<C>>, job: Option<ZendeskClient.Job>)
    requires Save(rows, batch, job).Some?
    ensures Save(Save(rows, batch, job).value, batch, job) == Save(rows, batch, job)
  {
    var r1 := Save(rows, batch, job).value;
    if job.None? {
      assert WithStatus(r1, Ids(batch), JobFailed) == r1;
    } else {
      var ws := ProgressWrites(batch, job.value.results.value).value;
      ProgressWritesFacts(batch, job.value.results.value);
      UpsertIdempotent(rows, ws);
    }
  }

  /**
   * Result correlation: the record result `i` refers to (by its index, else by
   * its position) ends `failed` with "error: details" or `synced` with the
   * result's id, unless a later result refers to the same record; a record
   * of the table no result refers to keeps its row.
   */
  lemma SavedOutcome<C>(rows: seq<Row<C>>, batch: seq<Row<C>>, job: ZendeskClient.Job, k: nat, i: nat)
    requires Save(rows, batch, Some(job)).Some? && k < |rows|
    requires job.results.Some? && i < |job.results.value|
    requires var t := Target(job.results.value, i, |batch|);
      t.Some? && rows[k].id == batch[t.value].id
      && forall i' | i < i' < |job.results.value| :: Target(job.results.value, i', |batch|).Some?
           ==> batch[Target(job.results.value, i', |batch|).value].id != rows[k].id
    ensures var r := Save(rows, batch, Some(job)).value;
      var res := job.results.value[i];
      r[k] == rows[k].(status := if res.error.Some? then Failed else Synced,
                       zdId := if res.error.Some? then None else res.id,
                       zdError := if res.error.Some? then Some(ErrorText(res)) else None)
  {
    var results := job.results.value;
    var ws := ProgressWrites(batch, results).value;
    ProgressWritesFacts(batch, results);
    RowAfterIsLastWrite(rows[k], ws);
    LastIsLatest(ws, rows[k].id, i);
  }

  /** The last write for `id` is the one at `i` when no later write targets `id`. */
  lemma {:induction false} LastIsLatest(ws: seq<Write>, id: nat, i: nat)
    requires i < |ws| && ws[i].id == id
    requires forall i' | i < i' < |ws| :: ws[i'].id != id
    ensures LastFor(ws, id) == Some(ws[i])
    decreases |ws|
  {
    if i > 0 {
      LastIsLatest(ws[1..], id, i - 1);
    } else {
      LastForTargets(ws[1..], id);
      forall j | 0 <= j < |ws[1..]| ensures ws[1..][j].id != id {
        assert ws[1..][j] == ws[j + 1];
      }
    }
  }

  /** A record of the batch that no result refers to is left as it was (still `queued` after its claim). */
  lemma UnreportedRecordUntouched<C>(rows: seq<Row<C>>, batch: seq<Row<C>>, job: ZendeskClient.Job, k: nat)
    requires Save(rows, batch, Some(job)).Some? && k < |rows| && job.results.Some?
    requires forall i | 0 <= i < |job.results.value| ::
      Target(job.results.value, i, |batch|).Some? ==> batch[Target(job.results.value, i, |batch|).value].id != rows[k].id
    ensures Save(rows, batch, Some(job)).value[k] == rows[k]
  {
    var results := job.results.value;
    var ws := ProgressWrites(batch, results).value;
    ProgressWritesFacts(batch, results);
    forall i | 0 <= i < |ws| ensures ws[i].id != rows[k].id {
      assert ws[i] == Outcome(results[i], batch[Target(results, i, |batch|).value].id);
    }
    RowAfterIsLastWrite(rows[k], ws);
    LastForTargets(ws, rows[k].id);
  }

  /**
   * A batch of three claimed records and a job whose results use an explicit
   * index, no index (position) and a negative index (from the end): the
   * first record is synced, the second failed with "error: details" (nil
   * details read as empty), the third synced.
   */
  lemma ResultsByIndexPositionAndFromEnd()
    ensures var rows := [Row(1, 10, 0, Queued, None, None), Row(2, 20, 0, Queued, None, None), Row(3, 30, 0, Queued, None, None)];
      var results := [ZendeskClient.JobResult(Some(0), Some(501), None, None),
                      ZendeskClient.JobResult(None, None, Some("bad payload"), None),
                      ZendeskClient.JobResult(Some(-1), Some(503), None, None)];
      var job := ZendeskClient.Job(7, ZendeskClient.Completed, 3, 3, Some(results));
      Save(rows, rows, Some(job)) == Some([Row(1, 10, 0, Synced, Some(501), None),
                                          Row(2, 20, 0, Failed, None, Some("bad payload: ")),
                                          Row(3, 30, 0, Synced, Some(503), None)])
  {
    var rows := [Row(1, 10, 0, Queued, None, None), Row(2, 20, 0, Queued, None, None), Row(3, 30, 0, Queued, None, None)];
    var results := [ZendeskClient.JobResult(Some(0), Some(501), None, None),
                    ZendeskClient.JobResult(None, None, Some("bad payload"), None),
                    ZendeskClient.JobResult(Some(-1), Some(503), None, None)];
    var ws := [Progress(1, Synced, Some(501), None), Progress(2, Failed, None, Some("bad payload: ")),
               Progress(3, Synced, Some(503), None)];
    assert Target(results, 0, 3) == Some(0) && Target(results, 1, 3) == Some(1) && Target(results, 2, 3) == Some(2);
    assert ErrorText(results[1]) == "bad payload: ";
    assert results != [];
    var pw := ProgressWrites(rows, results).value;
    assert pw[0] == ws[0] && pw[1] == ws[1] && pw[2] == ws[2];
    assert pw == ws;
    var after := Upsert(rows, ws);
    assert after[0] == RowAfter(rows[0], ws);
    assert after[1] == RowAfter(rows[1], ws);
    assert after[2] == RowAfter(rows[2], ws);
    assert after == [Row(1, 10, 0, Synced, Some(501), None), Row(2, 20, 0, Failed, None, Some("bad payload: ")),
                     Row(3, 30, 0, Synced, Some(503), None)];
    var job := ZendeskClient.Job(7, ZendeskClient.Completed, 3, 3, Some(results));
    assert Save(rows, rows, Some(job)) == Some(after);
  }

  /** A result index past the end of the batch makes save_progress raise; nothing is written. */
  lemma IndexOutsideBatchRaises()
    ensures var rows := [Row(1, 10, 0, Queued, None, None)];
      var job := ZendeskClient.Job(7, ZendeskClient.Completed, 1, 1, Some([ZendeskClient.JobResult(Some(1), Some(501), None, None)]));
      Save(rows, rows, Some(job)).None?
  {
    var results := [ZendeskClient.JobResult(Some(1), Some(501), None, None)];
    assert Target(results, 0, 1).None?;
  }

  /**
   * Two claims of size two over three new records: the first takes the two
   * lowest fd_ids, the second the remaining one, the third comes back empty.
   */
  lemma ClaimsInFdIdOrder()
    ensures var rows := [Row(1, 10, 0, New, None, None), Row(2, 20, 0, New, None, None), Row(3, 30, 0, New, None, None)];
      var b1 := SelectNew(rows, 2);
      var rows1 := WithStatus(rows, Ids(b1), Queued);
      var b2 := SelectNew(rows1, 2);
      var rows2 := WithStatus(rows1, Ids(b2), Queued);
      && b1 == [rows[0], rows[1]]
      && b2 == [rows[2]]
      && SelectNew(rows2, 2) == []
  {
    var rows := [Row(1, 10, 0, New, None, None), Row(2, 20, 0, New, None, None), Row(3, 30, 0, New, None, None)];
    var b1 := SelectNew(rows, 2);
    assert b1 == [rows[0], rows[1]] by {
      assert rows[1..][1..] == [rows[2]];
    }
    assert Ids(b1) == {1, 2} by {
      assert b1[0].id == 1 && b1[1].id == 2;
    }
    var rows1 := WithStatus(rows, Ids(b1), Queued);
    assert rows1 == [rows[0].(status := Queued), rows[1].(status := Queued), rows[2]];
    var b2 := SelectNew(rows1, 2);
    assert b2 == [rows[2]] by {
      assert rows1[1..][1..] == [rows[2]];
      assert SelectNew(rows1, 2) == SelectNew(rows1[1..], 2) == SelectNew(rows1[1..][1..], 2);
      assert [rows[2]][1..] == [];
    }
    assert Ids(b2) == {3} by {
      assert b2[0].id == 3;
    }
    var rows2 := WithStatus(rows1, Ids(b2), Queued);
    assert rows2 == [rows[0].(status := Queued), rows[1].(status := Queued), rows[2].(status := Queued)];
    assert rows2[1..][1..] == [rows[2].(status := Queued)];
    assert [rows[2].(status := Queued)][1..] == [];
    assert SelectNew(rows2, 2) == SelectNew(rows2[1..], 2) == SelectNew(rows2[1..][1..], 2) == SelectNew([], 2);
  }

  // ----- build_data -----

  /**
   * `build_data`: one converted payload per claimed record, in claim order.
   * None when the converter raises for some record.
   */
  function BuildData<C, P>(batch: seq<Row<C>>, convert: C -> Option<P>): (r: Option<seq<P>>)
    ensures r.Some? ==> |r.value| == |batch| && forall k | 0 <= k < |batch| :: Some(r.value[k]) == convert(batch[k].columns)
    ensures r.None? ==> exists k | 0 <= k < |batch| :: convert(batch[k].columns).None?
  {
    if forall k | 0 <= k < |batch| :: convert(batch[k].columns).Some? then
      Some(seq(|batch|, k requires 0 <= k < |batch| => convert(batch[k].columns).value))
    else None
  }

  /**
   * Payload position k is record k of the claim, so a result without an index
   * (matched by position) goes to the record whose payload sits at that place.
   */
  lemma PositionalResultMatchesPayload<C, P>(batch: seq<Row<C>>, convert: C -> Option<P>,
                                             results: seq<ZendeskClient.JobResult>, i: nat)
    requires BuildData(batch, convert).Some? && ProgressWrites(batch, results).Some?
    requires i < |results| && results[i].index.None? && i < |batch|
    ensures |BuildData(batch, convert).value| == |batch|
    ensures ProgressWrites(batch, results).value[i].id == batch[i].id
    ensures Some(BuildData(batch, convert).value[i]) == convert(batch[i].columns)
  {
  }

  // ----- wait_for_completion! -----

  /**
   * `ImportResource#wait_for_completion!`: re-polls while queued or working and
   * returns the last job polled. A final status other than completed is only
   * logged, not raised. `settled` is false when the polls ran out.
   */
  method WaitForCompletion(job: ZendeskClient.Job, polls: seq<ZendeskClient.Job>)
    returns (last: ZendeskClient.Job, polled: nat, settled: bool)
    ensures ZendeskClient.Settled(last, polled, settled) == ZendeskClient.Settle(job, polls)
  {
    last := job;
    polled := 0;
    while last.status.Pending()
      invariant polled <= |polls|
      invariant ZendeskClient.Settle(job, polls)
             == ZendeskClient.Settle(last, polls[polled..]).(polls := ZendeskClient.Settle(last, polls[polled..]).polls + polled)
      decreases |polls| - polled
    {
      if polled == |polls| {
        return last, polled, false;
      }
      assert polls[polled..][1..] == polls[polled + 1..];
      last := polls[polled];
      polled := polled + 1;
    }
    settled := true;
  }

  // ----- the worker -----

  /**
   * What the destination does with one submitted batch: the job returned by
   * the bulk import (None: the call raised), and the answers to the job polls.
   */
  datatype BatchReply = BatchReply(job: Option<ZendeskClient.Job>, polls: seq<ZendeskClient.Job>)

  /**
   * Drained: an empty claim ended the loop. Crashed: build_data or
   * save_progress raised and the exception left the worker. Halted: the
   * replies or polls ran out.
   */
  datatype WorkerEnd = Drained | Crashed | Halted

  class Store<C> {
    var rows: seq<Row<C>>

    ghost predicate Valid()
      reads this
    {
      Ordered(rows) && DistinctIds(rows)
    }

    constructor (initial: seq<Row<C>>)
      requires Ordered(initial) && DistinctIds(initial)
      ensures Valid() && rows == initial
    {
      rows := initial;
    }

    /** `next_batch`: select up to `batchSize` new rows and mark them queued, as one atomic step. */
    method NextBatch(batchSize: nat) returns (batch: seq<Row<C>>)
      requires Valid()
      modifies this
      ensures Valid() && SameRecords(old(rows), rows)
      ensures batch == SelectNew(old(rows), batchSize)
      ensures rows == WithStatus(old(rows), Ids(batch), Queued)
    {
      batch := SelectNew(rows, batchSize);
      rows := WithStatus(rows, Ids(batch), Queued);
    }

    /** `save_progress`; `ok` is false when it raised, and then nothing was written. */
    method SaveProgress(batch: seq<Row<C>>, job: Option<ZendeskClient.Job>) returns (ok: bool)
      requires Valid()
      modifies this
      ensures Valid() && SameRecords(old(rows), rows)
      ensures ok <==> Save(old(rows), batch, job).Some?
      ensures rows == if ok then Save(old(rows), batch, job).value else old(rows)
    {
      var next := Save(rows, batch, job);
      if next.None? {
        return false;
      }
      SaveTouchesOnlyBatch(rows, batch, job);
      rows := next.value;
      ok := true;
    }

    /** One `upsert_all`. */
    method UpsertAll(ws: seq<Write>)
      requires Valid()
      modifies this
      ensures Valid() && SameRecords(old(rows), rows)
      ensures rows == Upsert(old(rows), ws)
    {
      UpsertSameRecords(rows, ws);
      rows := Upsert(rows, ws);
    }

    /**
     * One round of `import_resources`: claim a batch, build its data, submit
     * it, wait for the job and save progress. `claims`, `submitted` and
     * `saved` grow by what the round did; `stop` says why the worker leaves
     * after it, if it does (an empty claim is `Drained`).
     */
    method Round<P>(ghost start: seq<Row<C>>, batchSize: nat, convert: C -> Option<P>, replies: seq<BatchReply>,
                    claims: seq<seq<Row<C>>>, submitted: seq<seq<P>>, saved: seq<Option<ZendeskClient.Job>>)
      returns (claims': seq<seq<Row<C>>>, submitted': seq<seq<P>>, saved': seq<Option<ZendeskClient.Job>>, stop: Option<WorkerEnd>)
      requires Valid() && Worker(start, rows, batchSize, convert, replies, claims, submitted, saved)
      requires |saved| == |claims| == |submitted|
      modifies this
      ensures Valid() && Worker(start, rows, batchSize, convert, replies, claims', submitted', saved')
      ensures stop.None? ==> |saved'| == |claims'| == |submitted'| == |saved| + 1
      ensures stop == Some(Drained) ==> |saved'| == |claims'| && (batchSize > 0 ==> forall k | 0 <= k < |rows| :: rows[k].status != New)
    {
      claims', submitted', saved' := claims, submitted, saved;
      ghost var before := rows;
      var batch := NextBatch(batchSize);
      if batch == [] {
        if batchSize > 0 {
          EmptyClaimMeansDrained(before, batchSize);
        }
        assert rows == before by {
          assert Ids(batch) == {};
        }
        return claims', submitted', saved', Some(Drained);
      }
      ClaimStep(start, before, batchSize, claims);
      ClaimOutcomesStep(start, before, batchSize, claims, saved);
      claims' := claims + [batch];
      assert claims'[..|submitted|] == claims;
      var data := BuildData(batch, convert);
      if data.None? {
        return claims', submitted', saved', Some(Crashed);
      }
      BuiltSnoc(claims, submitted, convert, batch, data.value);
      submitted' := submitted + [data.value];
      assert claims'[..|submitted'|] == claims';
      var i := |saved|;
      if i == |replies| {
        return claims', submitted', saved', Some(Halted);
      }
      var job := replies[i].job;
      if job.Some? {
        var last, polled, settled := WaitForCompletion(job.value, replies[i].polls);
        if !settled {
          return claims', submitted', saved', Some(Halted);
        }
        job := Some(last);
      }
      ghost var claimed := rows;
      var ok := SaveProgress(batch, job);
      if !ok {
        return claims', submitted', saved', Some(Crashed);
      }
      SaveStep(start, claimed, batchSize, claims', job);
      SaveOutcomesStep(start, claimed, batchSize, claims', saved, job);
      ReplyJobsSnoc(replies, i);
      saved' := saved + [job];
      stop := None;
    }

    /**
     * `import_resources`, one worker: claim, convert, submit, wait, save, until
     * a claim comes back empty. `claims` are the batches claimed, `submitted`
     * the payloads built for them (all but the last claim when the converter
     * raised), and `saved` the jobs handed to save_progress, one per saved
     * claim: the one its reply settled on, or none when the bulk import
     * raised.
     *
     * Records that were not `new` at the start are never touched; a record
     * still `new`, or in no claim, has never been touched; claims are pairwise disjoint and
     * hold only records that were `new`; each claimed record ends up
     * non-`new`; each record of a saved claim ends as saving that claim's job
     * makes of the queued record, and one of a claim without a job ends
     * `job-failed`; a claim left unsaved stays `queued`; and when the loop
     * ends by itself every claim was saved, no `new` record is left and every
     * record that was `new` lies in some claim.
     */
    method ImportResources<P>(batchSize: nat, convert: C -> Option<P>, replies: seq<BatchReply>)
      returns (end: WorkerEnd, claims: seq<seq<Row<C>>>, submitted: seq<seq<P>>, saved: seq<Option<ZendeskClient.Job>>)
      requires Valid()
      modifies this
      ensures Valid() && Worker(old(rows), rows, batchSize, convert, replies, claims, submitted, saved)
      ensures JoblessClaimsJobFailed(old(rows), rows, claims, saved)
      ensures end == Drained ==> |saved| == |claims|
      ensures end == Drained && batchSize > 0 ==> forall k | 0 <= k < |rows| :: rows[k].status != New
      ensures end == Drained && batchSize > 0 ==>
        forall k | 0 <= k < |rows| && old(rows)[k].status == New :: !Unclaimed(rows[k].id, claims)
    {
      claims, submitted, saved := [], [], [];
      assert replies[..0] == [];
      var i := 0;
      while true
        invariant 0 <= i <= |replies|
        invariant Valid() && Worker(old(rows), rows, batchSize, convert, replies, claims, submitted, saved)
        invariant |saved| == |claims| == |submitted| == i
        decreases |replies| - i
      {
        var stop;
        claims, submitted, saved, stop := Round(old(rows), batchSize, convert, replies, claims, submitted, saved);
        if stop.Some? {
          end := stop.value;
          break;
        }
        i := i + 1;
      }
      NoJobClaimsJobFailed(old(rows), rows, claims, saved, batchSize);
      if end == Drained && batchSize > 0 {
        DrainedClaimsEveryNew(old(rows), rows, claims, batchSize);
      }
    }
  }

  /**
   * The state of a worker against the table at its start: the bookkeeping of
   * `Progressed`; each submitted payload is its claim's built data; the saved
   * jobs are the settled jobs of the first replies, in order; and the claimed
   * records end as `Outcomes` says. At most the last claim is unsaved.
   */
  ghost predicate Worker<C, P>(start: seq<Row<C>>, rows: seq<Row<C>>, batchSize: nat, convert: C -> Option<P>,
                               replies: seq<BatchReply>, claims: seq<seq<Row<C>>>, submitted: seq<seq<P>>,
                               saved: seq<Option<ZendeskClient.Job>>) {
    && Progressed(start, rows, claims, batchSize)
    && |submitted| <= |claims| <= |submitted| + 1 && Built(claims[..|submitted|], submitted, convert)
    && |saved| <= |replies| && |saved| <= |claims| <= |saved| + 1
    && AllAnswered(replies[..|saved|]) && saved == ReplyJobs(replies[..|saved|])
    && Outcomes(start, rows, claims, saved)
  }

  /** The reply's job settled: it raised (no job) or its polls reached a status other than queued or working. */
  predicate Answered(reply: BatchReply) {
    reply.job.Some? ==> ZendeskClient.Settle(reply.job.value, reply.polls).settled
  }

  /** The job save_progress receives for a batch: none when the bulk import raised, else the last job polled. */
  function ReplyJob(reply: BatchReply): Option<ZendeskClient.Job> {
    if reply.job.None? then None else Some(ZendeskClient.Settle(reply.job.value, reply.polls).job)
  }

  /** `submitted[a]` is the data built for claim `a`. */
  ghost predicate Built<C, P>(claims: seq<seq<Row<C>>>, submitted: seq<seq<P>>, convert: C -> Option<P>) {
    |submitted| == |claims| && forall a | 0 <= a < |claims| :: Some(submitted[a]) == BuildData(claims[a], convert)
  }

  lemma BuiltSnoc<C, P>(claims: seq<seq<Row<C>>>, submitted: seq<seq<P>>, convert: C -> Option<P>, batch: seq<Row<C>>, data: seq<P>)
    requires Built(claims, submitted, convert) && BuildData(batch, convert) == Some(data)
    ensures Built(claims + [batch], submitted + [data], convert)
  {
    var claims', submitted' := claims + [batch], submitted + [data];
    forall a | 0 <= a < |claims'| ensures Some(submitted'[a]) == BuildData(claims'[a], convert) {
      if a < |claims| { assert claims'[a] == claims[a] && submitted'[a] == submitted[a]; }
    }
  }

  predicate AllAnswered(replies: seq<BatchReply>) {
    forall a | 0 <= a < |replies| :: Answered(replies[a])
  }

  /** The jobs save_progress receives for a run of replies, in order. */
  function ReplyJobs(replies: seq<BatchReply>): (r: seq<Option<ZendeskClient.Job>>)
    ensures |r| == |replies| && forall a | 0 <= a < |replies| :: r[a] == ReplyJob(replies[a])
  {
    seq(|replies|, a requires 0 <= a < |replies| => ReplyJob(replies[a]))
  }

  lemma ReplyJobsSnoc(replies: seq<BatchReply>, i: nat)
    requires i < |replies| && AllAnswered(replies[..i]) && Answered(replies[i])
    ensures AllAnswered(replies[..i + 1])
    ensures ReplyJobs(replies[..i + 1]) == ReplyJobs(replies[..i]) + [ReplyJob(replies[i])]
  {
    assert replies[..i + 1] == replies[..i] + [replies[i]];
  }

  /**
   * How claimed records end, against the table at the start: a record of a
   * saved claim is what saving that claim's job makes of the record as
   * claimed (`queued`); a record of a claim not yet saved is still `queued`.
   */
  ghost predicate Outcomes<C>(start: seq<Row<C>>, rows: seq<Row<C>>, claims: seq<seq<Row<C>>>, saved: seq<Option<ZendeskClient.Job>>) {
    && |saved| <= |claims| && |start| == |rows|
    && (forall a, k | 0 <= a < |saved| && 0 <= k < |rows| && rows[k].id in Ids(claims[a]) ::
          Save([start[k].(status := Queued)], claims[a], saved[a]) == Some([rows[k]]))
    && (forall a, k | |saved| <= a < |claims| && 0 <= k < |rows| && rows[k].id in Ids(claims[a]) ::
          rows[k] == start[k].(status := Queued))
  }

  /** save_progress acts on each row by itself: a row ends as saving the batch makes of that row alone. */
  lemma SaveRowwise<C>(rows: seq<Row<C>>, batch: seq<Row<C>>, job: Option<ZendeskClient.Job>, k: nat)
    requires Save(rows, batch, job).Some? && k < |rows|
    ensures Save([rows[k]], batch, job) == Some([Save(rows, batch, job).value[k]])
  {
    if job.None? {
      assert WithStatus([rows[k]], Ids(batch), JobFailed) == [WithStatus(rows, Ids(batch), JobFailed)[k]];
    } else {
      var ws := ProgressWrites(batch, job.value.results.value).value;
      assert Upsert([rows[k]], ws) == [Upsert(rows, ws)[k]];
    }
  }

  /** Saving a queued record with no job marks it `job-failed`. */
  lemma OutcomeWithoutJob<C>(start: seq<Row<C>>, rows: seq<Row<C>>, claims: seq<seq<Row<C>>>,
                             saved: seq<Option<ZendeskClient.Job>>, batchSize: nat, a: nat, k: nat)
    requires Progressed(start, rows, claims, batchSize) && Outcomes(start, rows, claims, saved)
    requires a < |saved| && saved[a].None? && k < |rows| && rows[k].id in Ids(claims[a])
    ensures rows[k] == start[k].(status := JobFailed)
  {
    var x := start[k].(status := Queued);
    assert Save([x], claims[a], saved[a]) == Some([rows[k]]);
    assert x.id == rows[k].id;
    assert WithStatus([x], Ids(claims[a]), JobFailed)[0] == x.(status := JobFailed);
  }

  /** Every record of a saved claim without a job (its bulk import raised) is its start row marked `job-failed`. */
  ghost predicate JoblessClaimsJobFailed<C>(start: seq<Row<C>>, rows: seq<Row<C>>, claims: seq<seq<Row<C>>>,
                                            saved: seq<Option<ZendeskClient.Job>>)
    requires |saved| <= |claims| && |start| == |rows|
  {
    forall a, k | 0 <= a < |saved| && saved[a].None? && 0 <= k < |rows| && rows[k].id in Ids(claims[a]) ::
      rows[k] == start[k].(status := JobFailed)
  }

  lemma NoJobClaimsJobFailed<C>(start: seq<Row<C>>, rows: seq<Row<C>>, claims: seq<seq<Row<C>>>,
                                saved: seq<Option<ZendeskClient.Job>>, batchSize: nat)
    requires Progressed(start, rows, claims, batchSize) && Outcomes(start, rows, claims, saved)
    ensures JoblessClaimsJobFailed(start, rows, claims, saved)
  {
    forall a, k | 0 <= a < |saved| && saved[a].None? && 0 <= k < |rows| && rows[k].id in Ids(claims[a])
      ensures rows[k] == start[k].(status := JobFailed)
    {
      OutcomeWithoutJob(start, rows, claims, saved, batchSize, a, k);
    }
  }

  /** A claim keeps the outcome bookkeeping: earlier claims are untouched and the new one is queued. */
  lemma ClaimOutcomesStep<C>(start: seq<Row<C>>, rows: seq<Row<C>>, batchSize: nat, claims: seq<seq<Row<C>>>,
                             saved: seq<Option<ZendeskClient.Job>>)
    requires Progressed(start, rows, claims, batchSize) && DistinctIds(rows)
    requires Outcomes(start, rows, claims, saved) && |saved| == |claims|
    ensures var b := SelectNew(rows, batchSize);
      Outcomes(start, WithStatus(rows, Ids(b), Queued), claims + [b], saved)
  {
    var b := SelectNew(rows, batchSize);
    var after := WithStatus(rows, Ids(b), Queued);
    var claims' := claims + [b];
    ClaimedBatchFacts(start, rows, batchSize, claims);
    forall a, k | 0 <= a < |saved| && 0 <= k < |after| && after[k].id in Ids(claims'[a])
      ensures Save([start[k].(status := Queued)], claims'[a], saved[a]) == Some([after[k]])
    {
      assert claims'[a] == claims[a];
      assert rows[k].id !in Ids(b);
    }
    forall a, k | |saved| <= a < |claims'| && 0 <= k < |after| && after[k].id in Ids(claims'[a])
      ensures after[k] == start[k].(status := Queued)
    {
      assert claims'[a] == b;
    }
  }

  /** Saving the last claim keeps the outcome bookkeeping, with its job added to the saved ones. */
  lemma SaveOutcomesStep<C>(start: seq<Row<C>>, rows: seq<Row<C>>, batchSize: nat, claims: seq<seq<Row<C>>>,
                            saved: seq<Option<ZendeskClient.Job>>, job: Option<ZendeskClient.Job>)
    requires Progressed(start, rows, claims, batchSize) && DistinctIds(rows)
    requires Outcomes(start, rows, claims, saved) && |saved| + 1 == |claims|
    requires Save(rows, claims[|claims| - 1], job).Some?
    ensures Outcomes(start, Save(rows, claims[|claims| - 1], job).value, claims, saved + [job])
  {
    var batch := claims[|claims| - 1];
    var r := Save(rows, batch, job).value;
    var saved' := saved + [job];
    SaveTouchesOnlyBatch(rows, batch, job);
    forall a, k | 0 <= a < |saved'| && 0 <= k < |r| && r[k].id in Ids(claims[a])
      ensures Save([start[k].(status := Queued)], claims[a], saved'[a]) == Some([r[k]])
    {
      assert r[k].id == rows[k].id;
      if a < |saved| {
        assert saved'[a] == saved[a];
        assert Ids(claims[a]) !! Ids(batch);
      } else {
        assert rows[k] == start[k].(status := Queued);
        SaveRowwise(rows, batch, job, k);
      }
    }
  }

  /**
   * The worker's bookkeeping against the table at its start: the same records;
   * records that were not `new` untouched; records still `new` untouched;
   * records in no claim untouched; claims pairwise disjoint, non-empty, at
   * most `batchSize` long and made of records that were `new`; and no claimed
   * record `new` any more.
   */
  ghost predicate Progressed<C>(start: seq<Row<C>>, rows: seq<Row<C>>, claims: seq<seq<Row<C>>>, batchSize: nat) {
    Untouched(start, rows, claims) && ClaimsFromStart(start, claims, batchSize) && ClaimedNotNew(rows, claims)
  }

  /** The same records; those that were not `new`, those still `new` and those in no claim as at the start. */
  ghost predicate Untouched<C>(start: seq<Row<C>>, rows: seq<Row<C>>, claims: seq<seq<Row<C>>>) {
    && SameRecords(start, rows)
    && (forall k | 0 <= k < |rows| :: start[k].status != New ==> rows[k] == start[k])
    && (forall k | 0 <= k < |rows| :: rows[k].status == New ==> rows[k] == start[k])
    && (forall k | 0 <= k < |rows| :: Unclaimed(rows[k].id, claims) ==> rows[k] == start[k])
  }

  /** Claims pairwise disjoint, non-empty, at most `batchSize` long and made of records `new` at the start. */
  ghost predicate ClaimsFromStart<C>(start: seq<Row<C>>, claims: seq<seq<Row<C>>>, batchSize: nat) {
    && (forall a, b | 0 <= a < b < |claims| :: Ids(claims[a]) !! Ids(claims[b]))
    && (forall a | 0 <= a < |claims| :: 0 < |claims[a]| <= batchSize)
    && (forall a, j | 0 <= a < |claims| && 0 <= j < |claims[a]| :: claims[a][j] in start && claims[a][j].status == New)
  }

  ghost predicate ClaimedNotNew<C>(rows: seq<Row<C>>, claims: seq<seq<Row<C>>>) {
    forall a, k | 0 <= a < |claims| && 0 <= k < |rows| :: rows[k].id in Ids(claims[a]) ==> rows[k].status != New
  }

  /** No claim holds the record with primary key `id`. */
  predicate Unclaimed<C>(id: nat, claims: seq<seq<Row<C>>>) {
    forall a | 0 <= a < |claims| :: id !in Ids(claims[a])
  }

  /** A record in no claim of a longer run is in no claim of the run before it, nor in its last claim. */
  lemma UnclaimedSnoc<C>(id: nat, claims: seq<seq<Row<C>>>, b: seq<Row<C>>)
    requires Unclaimed(id, claims + [b])
    ensures Unclaimed(id, claims) && id !in Ids(b)
  {
    var claims' := claims + [b];
    assert claims'[|claims|] == b;
    forall a | 0 <= a < |claims| ensures id !in Ids(claims[a]) {
      assert claims'[a] == claims[a];
    }
  }

  /**
   * When the worker has drained the table, every record that was `new` at the
   * start lies in some claim.
   */
  lemma DrainedClaimsEveryNew<C>(start: seq<Row<C>>, rows: seq<Row<C>>, claims: seq<seq<Row<C>>>, batchSize: nat)
    requires Progressed(start, rows, claims, batchSize)
    requires forall k | 0 <= k < |rows| :: rows[k].status != New
    ensures forall k | 0 <= k < |start| && start[k].status == New :: !Unclaimed(start[k].id, claims)
  {
    forall k | 0 <= k < |start| && start[k].status == New ensures !Unclaimed(start[k].id, claims) {
      assert start[k].id == rows[k].id && rows[k].status != New;
    }
  }

  lemma DistinctIdsTransfer<C>(a: seq<Row<C>>, b: seq<Row<C>>)
    requires SameRecords(a, b) && DistinctIds(b)
    ensures DistinctIds(a)
  {
    forall i, j | 0 <= i < j < |a| ensures a[i].id != a[j].id {
      assert a[i].id == b[i].id && a[j].id == b[j].id;
    }
  }

  lemma SameRecordsTrans<C>(a: seq<Row<C>>, b: seq<Row<C>>, c: seq<Row<C>>)
    requires SameRecords(a, b) && SameRecords(b, c)
    ensures SameRecords(a, c)
  {
  }

  /** What the bookkeeping says about a fresh claim: its rows are New records of the start, claimed by nobody before. */
  lemma ClaimedBatchFacts<C>(start: seq<Row<C>>, rows: seq<Row<C>>, batchSize: nat, claims: seq<seq<Row<C>>>)
    requires Progressed(start, rows, claims, batchSize) && DistinctIds(rows)
    ensures var b := SelectNew(rows, batchSize);
      && 0 <= |b| <= batchSize
      && (forall j | 0 <= j < |b| :: b[j] in start && b[j].status == New)
      && (forall a | 0 <= a < |claims| :: Ids(claims[a]) !! Ids(b))
      && (forall k | 0 <= k < |rows| && rows[k].id in Ids(b) :: rows[k].status == New)
  {
    var b := SelectNew(rows, batchSize);
    SelectNewBasics(rows, batchSize);
    forall j | 0 <= j < |b| ensures b[j] in start && b[j].status == New {
      var k :| 0 <= k < |rows| && rows[k] == b[j];
      assert start[k] == b[j];
    }
    forall a | 0 <= a < |claims| ensures Ids(claims[a]) !! Ids(b) {
      forall x | x in Ids(b) ensures x !in Ids(claims[a]) {
        var j :| 0 <= j < |b| && b[j].id == x;
        var k :| 0 <= k < |rows| && rows[k] == b[j];
      }
    }
    forall k | 0 <= k < |rows| && rows[k].id in Ids(b) ensures rows[k].status == New {
      var j :| 0 <= j < |b| && b[j].id == rows[k].id;
      var m :| 0 <= m < |rows| && rows[m] == b[j];
      assert m == k;
    }
  }

  /** Queuing a claimed batch keeps the record-side bookkeeping. */
  lemma ClaimRowsStep<C>(start: seq<Row<C>>, rows: seq<Row<C>>, b: seq<Row<C>>)
    requires SameRecords(start, rows)
    requires forall k | 0 <= k < |rows| :: start[k].status != New ==> rows[k] == start[k]
    requires forall k | 0 <= k < |rows| :: rows[k].status == New ==> rows[k] == start[k]
    requires forall k | 0 <= k < |rows| && rows[k].id in Ids(b) :: rows[k].status == New
    ensures var after := WithStatus(rows, Ids(b), Queued);
      && SameRecords(start, after)
      && (forall k | 0 <= k < |after| :: start[k].status != New ==> after[k] == start[k])
      && (forall k | 0 <= k < |after| :: after[k].status == New ==> after[k] == start[k])
  {
    var after := WithStatus(rows, Ids(b), Queued);
    SameRecordsTrans(start, rows, after);
    forall k | 0 <= k < |after| && start[k].status != New ensures after[k] == start[k] {
      assert rows[k] == start[k];
    }
    forall k | 0 <= k < |after| && after[k].status == New ensures after[k] == start[k] {
      assert rows[k].id !in Ids(b);
    }
  }

  /** A non-empty claim keeps the bookkeeping, with the batch added to the claims. */
  lemma ClaimStep<C>(start: seq<Row<C>>, rows: seq<Row<C>>, batchSize: nat, claims: seq<seq<Row<C>>>)
    requires Progressed(start, rows, claims, batchSize) && DistinctIds(rows)
    requires SelectNew(rows, batchSize) != []
    ensures var b := SelectNew(rows, batchSize);
      Progressed(start, WithStatus(rows, Ids(b), Queued), claims + [b], batchSize)
  {
    var b := SelectNew(rows, batchSize);
    var after := WithStatus(rows, Ids(b), Queued);
    var claims' := claims + [b];
    ClaimedBatchFacts(start, rows, batchSize, claims);
    ClaimRowsStep(start, rows, b);
    forall a, c | 0 <= a < c < |claims'| ensures Ids(claims'[a]) !! Ids(claims'[c]) {
      assert claims'[a] == claims[a];
      if c < |claims| { assert claims'[c] == claims[c]; }
    }
    forall a | 0 <= a < |claims'| ensures 0 < |claims'[a]| <= batchSize {
      if a < |claims| { assert claims'[a] == claims[a]; }
    }
    forall a, j | 0 <= a < |claims'| && 0 <= j < |claims'[a]| ensures claims'[a][j] in start && claims'[a][j].status == New {
      if a < |claims| { assert claims'[a] == claims[a]; }
    }
    forall a, k | 0 <= a < |claims'| && 0 <= k < |after| && after[k].id in Ids(claims'[a]) ensures after[k].status != New {
      if a < |claims| { assert claims'[a] == claims[a]; }
    }
    forall k | 0 <= k < |after| && Unclaimed(after[k].id, claims') ensures after[k] == start[k] {
      UnclaimedSnoc(after[k].id, claims, b);
      assert rows[k].id == after[k].id;
    }
  }

  /** A save of the last claimed batch keeps the bookkeeping. */
  lemma SaveStep<C>(start: seq<Row<C>>, rows: seq<Row<C>>, batchSize: nat, claims: seq<seq<Row<C>>>, job: Option<ZendeskClient.Job>)
    requires Progressed(start, rows, claims, batchSize) && DistinctIds(rows) && claims != []
    requires Save(rows, claims[|claims| - 1], job).Some?
    ensures Progressed(start, Save(rows, claims[|claims| - 1], job).value, claims, batchSize)
  {
    SaveUntouchedStep(start, rows, batchSize, claims, job);
    SaveClaimedStep(rows, claims, job);
  }

  /** A save of the last claimed batch touches only that batch's records, all of them `new` at the start. */
  lemma SaveUntouchedStep<C>(start: seq<Row<C>>, rows: seq<Row<C>>, batchSize: nat, claims: seq<seq<Row<C>>>, job: Option<ZendeskClient.Job>)
    requires Progressed(start, rows, claims, batchSize) && DistinctIds(rows) && claims != []
    requires Save(rows, claims[|claims| - 1], job).Some?
    ensures Untouched(start, Save(rows, claims[|claims| - 1], job).value, claims)
  {
    var batch := claims[|claims| - 1];
    var r := Save(rows, batch, job).value;
    SaveTouchesOnlyBatch(rows, batch, job);
    DistinctIdsTransfer(start, rows);
    SameRecordsTrans(start, rows, r);
    forall k | 0 <= k < |rows| && rows[k].id in Ids(batch) ensures start[k].status == New {
      var j :| 0 <= j < |batch| && batch[j].id == rows[k].id;
      var m :| 0 <= m < |start| && start[m] == batch[j];
      assert start[m].id == start[k].id;
    }
    forall k | 0 <= k < |r| && start[k].status != New ensures r[k] == start[k] {
      assert rows[k] == start[k];
    }
    forall k | 0 <= k < |r| && r[k].status == New ensures r[k] == start[k] {
      assert rows[k].status == New;
      assert rows[k].id !in Ids(batch);
    }
    forall k | 0 <= k < |r| && Unclaimed(r[k].id, claims) ensures r[k] == start[k] {
      assert rows[k].id == r[k].id;
      assert rows[k].id !in Ids(batch);
    }
  }

  /** A save turns no record `new`, so claimed records stay non-`new`. */
  lemma SaveClaimedStep<C>(rows: seq<Row<C>>, claims: seq<seq<Row<C>>>, job: Option<ZendeskClient.Job>)
    requires ClaimedNotNew(rows, claims) && claims != []
    requires Save(rows, claims[|claims| - 1], job).Some?
    ensures ClaimedNotNew(Save(rows, claims[|claims| - 1], job).value, claims)
  {
    var r := Save(rows, claims[|claims| - 1], job).value;
    SaveTouchesOnlyBatch(rows, claims[|claims| - 1], job);
    forall a, k | 0 <= a < |claims| && 0 <= k < |r| && r[k].id in Ids(claims[a]) ensures r[k].status != New {
      assert rows[k].id == r[k].id;
    }
  }
}
