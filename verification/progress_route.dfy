/** Marking a content item done or not done
    (src/app/api/learning-paths/progress/route.ts): the flag is written first,
    then the path's items are counted again and the path's progress set to the
    rounded percentage of completed items. The database is a list of content
    rows and a map from path id to the stored counters. */
module ProgressRoute {
  import opened Wrappers
  import opened Types
  import opened JsMath

  datatype ContentRow = ContentRow(id: string, pathId: string, completed: bool)

  datatype PathStats = PathStats(progress: nat, completedContent: nat)

  datatype Db = Db(rows: seq<ContentRow>, paths: map<string, PathStats>)

  /** The parsed body; `isCompleted` is None when the field is undefined. */
  datatype Body = Malformed | Body(learningPathId: Option<string>, contentId: Option<string>, isCompleted: Option<bool>)

  /** Which database call throws: none, the flag write, or one of the two
      calls after it (reading the path's items, storing the counters). */
  datatype DbFault = NoFault | FlagWriteThrows | RecountThrows

  datatype Response =
    | Failure(status: nat, message: string)
    | Updated(db: Db, path: Option<PathStats>)
    | WroteThenFailed(db: Db, status: nat, message: string)

  /** `totalContent > 0 ? Math.round(completed / total * 100) : 0`. */
  function Percent(completed: nat, total: nat): (p: nat)
    requires completed <= total
    ensures total == 0 ==> p == 0
    ensures total > 0 ==> (p as real) - 0.5 <= (100 * completed) as real / total as real < (p as real) + 0.5
    ensures p <= 100
    ensures total > 0 && completed == total ==> p == 100
    ensures completed == 0 ==> p == 0
  {
    if total > 0 then
      RoundRatioMonotone(100 * completed, 100 * total, total);
      RoundRatioMonotone(0, 100 * completed, total);
      RoundRatioExact(100, total);
      RoundRatioExact(0, total);
      RoundRatioNearest(100 * completed, total);
      RoundRatio(100 * completed, total)
    else 0
  }

  /** More completed items never lower the percentage. */
  lemma PercentMonotone(c1: nat, c2: nat, total: nat)
    requires c1 <= c2 <= total
    ensures Percent(c1, total) <= Percent(c2, total)
  {
    if total > 0 {
      RoundRatioMonotone(100 * c1, 100 * c2, total);
    }
  }

  function InPath(rows: seq<ContentRow>, pathId: string): (r: seq<ContentRow>)
    ensures |r| <= |rows|
    ensures forall x :: x in r <==> x in rows && x.pathId == pathId
  {
    if |rows| == 0 then []
    else (if rows[0].pathId == pathId then [rows[0]] else []) + InPath(rows[1..], pathId)
  }

  function CountCompleted(rows: seq<ContentRow>): (n: nat)
    ensures n <= |rows|
    ensures n == 0 <==> forall i :: 0 <= i < |rows| ==> !rows[i].completed
    ensures n == |rows| <==> forall i :: 0 <= i < |rows| ==> rows[i].completed
  {
    if |rows| == 0 then 0
    else (if rows[0].completed then 1 else 0) + CountCompleted(rows[1..])
  }

  /** `updateContentItemCompletion`: every row with that id gets the flag. */
  function SetCompleted(rows: seq<ContentRow>, contentId: string, flag: bool): (r: seq<ContentRow>)
    ensures |r| == |rows|
    ensures forall i :: 0 <= i < |r| ==> r[i].id == rows[i].id && r[i].pathId == rows[i].pathId
    ensures forall i :: 0 <= i < |r| ==> r[i].completed == (if rows[i].id == contentId then flag else rows[i].completed)
  {
    seq(|rows|, i requires 0 <= i < |rows| =>
      if rows[i].id == contentId then rows[i].(completed := flag) else rows[i])
  }

  /** The counters the recount writes for a path. */
  function Recount(rows: seq<ContentRow>, pathId: string): (s: PathStats)
    ensures s.completedContent <= |InPath(rows, pathId)|
    ensures s.progress <= 100
  {
    var items := InPath(rows, pathId);
    var done := CountCompleted(items);
    PathStats(Percent(done, |items|), done)
  }

  /** `updateLearningPathProgress`: only an existing path row is changed. */
  function StoreStats(paths: map<string, PathStats>, pathId: string, s: PathStats): (r: map<string, PathStats>)
    ensures r.Keys == paths.Keys
    ensures pathId in paths ==> r[pathId] == s
    ensures forall k :: k in paths && k != pathId ==> r[k] == paths[k]
  {
    if pathId in paths then paths[pathId := s] else paths
  }

  predicate ValidBody(b: Body) {
    b.Body? && Truthy(b.learningPathId) && Truthy(b.contentId) && b.isCompleted.Some?
  }

  /** `POST`; `signedIn` is whether the session resolves to a user. A throw
      inside the `try` is answered 500; a throw after the flag write leaves
      the flag written and the path's counters as they were. */
  function Handle(signedIn: bool, db: Db, body: Body, fault: DbFault): (r: Response)
    ensures !signedIn ==> r == Failure(401, "User not authenticated.")
    ensures signedIn && body.Malformed? ==> r == Failure(500, "Failed to update progress.")
    ensures signedIn && body.Body? && !ValidBody(body) ==> r == Failure(400, "Missing required fields.")
    ensures signedIn && ValidBody(body) && fault.FlagWriteThrows? ==> r == Failure(500, "Failed to update progress.")
    ensures signedIn && ValidBody(body) && fault.RecountThrows? ==>
              && r.WroteThenFailed? && r.status == 500 && r.message == "Failed to update progress."
              && r.db.rows == SetCompleted(db.rows, body.contentId.value, body.isCompleted.value)
              && r.db.paths == db.paths
    ensures r.Updated? <==> signedIn && ValidBody(body) && fault.NoFault?
    ensures r.Updated? ==>
              var pid := body.learningPathId.value;
              var rows := SetCompleted(db.rows, body.contentId.value, body.isCompleted.value);
              && r.db.rows == rows
              && r.db.paths == StoreStats(db.paths, pid, Recount(rows, pid))
              && (r.path.Some? <==> pid in db.paths)
              && (r.path.Some? ==> r.path.value == Recount(rows, pid))
  {
    if !signedIn then Failure(401, "User not authenticated.")
    else if body.Malformed? then Failure(500, "Failed to update progress.")
    else if !ValidBody(body) then Failure(400, "Missing required fields.")
    else
      var pid := body.learningPathId.value;
      var rows := SetCompleted(db.rows, body.contentId.value, body.isCompleted.value);
      match fault
      case FlagWriteThrows => Failure(500, "Failed to update progress.")
      case RecountThrows => WroteThenFailed(db.(rows := rows), 500, "Failed to update progress.")
      case NoFault =>
        var paths := StoreStats(db.paths, pid, Recount(rows, pid));
        Updated(Db(rows, paths), if pid in paths then Some(paths[pid]) else None)
  }

  /** `POST` as written: the final read, `db.getLearningPathById`, is not a
      function of the database module, so every request that reaches it has
      already written the flag and the counters and then throws; the catch
      answers 500. `Handle` above is the intended behaviour, reading the
      stored counters back. */
  function HandleAsWritten(signedIn: bool, db: Db, body: Body, fault: DbFault): (r: Response)
    ensures !r.Updated?
    ensures !(signedIn && ValidBody(body) && fault.NoFault?) ==> r == Handle(signedIn, db, body, fault)
    ensures signedIn && ValidBody(body) && fault.NoFault? ==>
              var pid := body.learningPathId.value;
              var rows := SetCompleted(db.rows, body.contentId.value, body.isCompleted.value);
              && r.WroteThenFailed? && r.status == 500 && r.message == "Failed to update progress."
              && r.db.rows == rows
              && r.db.paths == StoreStats(db.paths, pid, Recount(rows, pid))
  {
    match Handle(signedIn, db, body, fault)
    case Updated(written, _) => WroteThenFailed(written, 500, "Failed to update progress.")
    case other => other
  }

  /** As written, no request succeeds: a valid one is answered 500 although
      its writes went through, exactly those the intended handler makes. */
  lemma ValidRequestFailsAfterWriting(db: Db, body: Body)
    requires ValidBody(body)
    ensures Handle(true, db, body, NoFault).Updated?
    ensures var r := HandleAsWritten(true, db, body, NoFault);
            r.WroteThenFailed? && r.status == 500 && r.db == Handle(true, db, body, NoFault).db
  {
  }

  /** A rejected request writes nothing: the response carries no database. */
  lemma RejectedWritesNothing(signedIn: bool, db: Db, body: Body, fault: DbFault)
    requires !signedIn || !ValidBody(body) || fault.FlagWriteThrows?
    ensures Handle(signedIn, db, body, fault).Failure?
  {
  }

  /** Sending the same request twice leaves the same state as sending it once. */
  lemma HandleIdempotent(db: Db, body: Body)
    requires ValidBody(body)
    ensures var once := Handle(true, db, body, NoFault).db;
            Handle(true, once, body, NoFault) == Handle(true, db, body, NoFault)
  {
    var c := body.contentId.value;
    var f := body.isCompleted.value;
    var rows := SetCompleted(db.rows, c, f);
    assert SetCompleted(rows, c, f) == rows;
  }

  /** A request that failed after its flag write left the counters stale;
      sending it again repairs them, ending where a first successful attempt
      would have. */
  lemma RetryRepairsCounters(db: Db, body: Body)
    requires ValidBody(body)
    ensures var failed := Handle(true, db, body, RecountThrows).db;
            Handle(true, failed, body, NoFault) == Handle(true, db, body, NoFault)
  {
    var c := body.contentId.value;
    var f := body.isCompleted.value;
    var rows := SetCompleted(db.rows, c, f);
    assert SetCompleted(rows, c, f) == rows;
  }

  lemma {:induction false} InPathUnchanged(rows: seq<ContentRow>, pathId: string, contentId: string, flag: bool)
    requires forall i :: 0 <= i < |rows| && rows[i].id == contentId ==> rows[i].pathId != pathId
    ensures InPath(SetCompleted(rows, contentId, flag), pathId) == InPath(rows, pathId)
  {
    if |rows| > 0 {
      var r := SetCompleted(rows, contentId, flag);
      assert r[1..] == SetCompleted(rows[1..], contentId, flag);
      InPathUnchanged(rows[1..], pathId, contentId, flag);
    }
  }

  /** Marking an item that belongs to another path does not move this path's
      counters. */
  lemma OtherPathUnchanged(rows: seq<ContentRow>, pathId: string, contentId: string, flag: bool)
    requires forall i :: 0 <= i < |rows| && rows[i].id == contentId ==> rows[i].pathId != pathId
    ensures Recount(SetCompleted(rows, contentId, flag), pathId) == Recount(rows, pathId)
  {
    InPathUnchanged(rows, pathId, contentId, flag);
  }

  /** The recount sees the new flag: once an item of the path is marked done,
      the path has at least one completed item. */
  lemma RecountSeesNewFlag(rows: seq<ContentRow>, pathId: string, contentId: string)
    requires exists i :: 0 <= i < |rows| && rows[i].id == contentId && rows[i].pathId == pathId
    ensures Recount(SetCompleted(rows, contentId, true), pathId).completedContent >= 1
  {
    var r := SetCompleted(rows, contentId, true);
    var i :| 0 <= i < |rows| && rows[i].id == contentId && rows[i].pathId == pathId;
    assert r[i] in r && r[i].pathId == pathId;
    var items := InPath(r, pathId);
    assert r[i] in items;
    var j :| 0 <= j < |items| && items[j] == r[i];
    assert items[j].completed;
  }
}
