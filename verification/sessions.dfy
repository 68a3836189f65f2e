/** The parking log (`parking_log`): one row per vehicle visit, looked up by
    plate or by card uid and closed on exit. Rows are never deleted, so the
    auto-increment id of a row is its position plus one. */
module Sessions {
  import opened Basics
  import opened Plate

  datatype Status = In | Out | Denied

  /** A `parking_log` row. `entry` and `exit` are in whole seconds. */
  datatype Row = Row(
    id: nat,
    plate: string,
    uid: Option<string>,
    entry: int,
    exit: Option<int>,
    fee: Option<int>,
    image: Option<string>,
    status: Status)

  type Log = seq<Row>

  /** What an open session is looked up by: `plate=?` or `rfid_uid=?`. */
  datatype Key = ByPlate(plate: string) | ByUid(uid: string)

  /** `status='IN'` and the key column matches; a row without a uid (SQL
      NULL) never matches a uid. */
  predicate OpenFor(row: Row, key: Key) {
    && row.status == In
    && match key
       case ByPlate(p) => row.plate == p
       case ByUid(u) => row.uid == Some(u)
  }

  /** `SELECT ... WHERE <key> AND status='IN' ORDER BY id DESC LIMIT 1`, as a
      position in the log: the last open row for the key, if any. */
  function LatestOpen(log: Log, key: Key): (r: Option<nat>)
    ensures r.None? <==> forall j :: 0 <= j < |log| ==> !OpenFor(log[j], key)
    ensures r.Some? ==> r.value < |log| && OpenFor(log[r.value], key)
    ensures r.Some? ==> forall j :: r.value < j < |log| ==> !OpenFor(log[j], key)
    decreases |log|
  {
    if log == [] then None
    else if OpenFor(log[|log| - 1], key) then Some(|log| - 1)
    else LatestOpen(log[..|log| - 1], key)
  }

  /** Ids are 1, 2, 3, ... in log order. */
  predicate IdsSequential(log: Log) {
    forall i :: 0 <= i < |log| ==> log[i].id == i + 1
  }

  /** Exit time and fee are present exactly on closed rows, and fees are
      never negative. */
  predicate RowConsistent(row: Row) {
    && (row.exit.Some? <==> row.status == Out)
    && (row.fee.Some? <==> row.status == Out)
    && (row.fee.Some? ==> row.fee.value >= 0)
  }

  /** No card has two open sessions. */
  predicate OneOpenPerUid(log: Log) {
    forall i, j :: 0 <= i < j < |log| && log[i].status == In && log[j].status == In && log[i].uid.Some?
      ==> log[i].uid != log[j].uid
  }

  predicate WellFormed(log: Log) {
    && IdsSequential(log)
    && (forall i :: 0 <= i < |log| ==> RowConsistent(log[i]))
    && OneOpenPerUid(log)
  }

  /** Every row's plate is in canonical form: the plate a lane stores is
      either a read the recogniser normalised or the fallback `UNKNOWN`,
      which is canonical too. */
  ghost predicate PlatesCanonical(log: Log) {
    forall i :: 0 <= i < |log| ==> IsCanonical(log[i].plate)
  }

  /** `INSERT INTO parking_log (...)`: a new open-or-denied row with the next
      id and no exit time or fee. */
  function Insert(log: Log, plate: string, uid: Option<string>, entry: int, image: Option<string>, status: Status): (r: Log)
    requires status != Out
    ensures |r| == |log| + 1 && r[..|log|] == log
    ensures r[|log|] == Row(|log| + 1, plate, uid, entry, None, None, image, status)
  {
    log + [Row(|log| + 1, plate, uid, entry, None, None, image, status)]
  }

  /** `after` is `before` with row `i`, an open one, closed at `exitTime`
      with `fee`, and every other row as it was. */
  predicate Closes(before: Log, after: Log, i: nat, exitTime: int, fee: int) {
    && i < |before| == |after|
    && before[i].status == In
    && after[i] == before[i].(exit := Some(exitTime), fee := Some(fee), status := Out)
    && forall j :: 0 <= j < |before| && j != i ==> after[j] == before[j]
  }

  /** `UPDATE parking_log SET exit_time=?, fee=?, status='OUT' WHERE id=?`. */
  function Close(log: Log, i: nat, exitTime: int, fee: int): (r: Log)
    requires i < |log| && log[i].status == In
    ensures Closes(log, r, i, exitTime, fee)
  {
    log[i := log[i].(exit := Some(exitTime), fee := Some(fee), status := Out)]
  }

  /** How one request may change the log: rows are only added at the end, as open or
      denied rows without exit or fee, and an existing row changes only by
      an open row being closed; closed and denied rows never change. */
  predicate Evolves(before: Log, after: Log) {
    && |before| <= |after|
    && (forall i :: 0 <= i < |before| ==>
          || after[i] == before[i]
          || (&& before[i].status == In
              && after[i] == before[i].(exit := after[i].exit, fee := after[i].fee, status := Out)))
    && (forall i :: |before| <= i < |after| ==>
          after[i].status != Out && after[i].exit.None? && after[i].fee.None?)
  }

  /** With sequential ids, the last open row for a key is the one with the
      highest id, which is what `ORDER BY id DESC LIMIT 1` selects. */
  lemma LatestOpenHasHighestId(log: Log, key: Key)
    requires IdsSequential(log)
    requires LatestOpen(log, key).Some?
    ensures forall j :: 0 <= j < |log| && OpenFor(log[j], key) ==> log[j].id <= log[LatestOpen(log, key).value].id
  {
  }

  /** Closing keeps the log well formed when the fee is not negative. */
  lemma CloseWellFormed(log: Log, i: nat, exitTime: int, fee: int)
    requires WellFormed(log) && i < |log| && log[i].status == In && fee >= 0
    ensures WellFormed(Close(log, i, exitTime, fee)) && Evolves(log, Close(log, i, exitTime, fee))
  {
  }

  /** Inserting keeps the log well formed as long as a new open row does not
      reuse the uid of an open row. */
  lemma InsertWellFormed(log: Log, plate: string, uid: Option<string>, entry: int, image: Option<string>, status: Status)
    requires WellFormed(log) && status != Out
    requires status == In && uid.Some? ==> LatestOpen(log, ByUid(uid.value)).None?
    ensures WellFormed(Insert(log, plate, uid, entry, image, status))
    ensures Evolves(log, Insert(log, plate, uid, entry, image, status))
  {
    var r := Insert(log, plate, uid, entry, image, status);
    forall i, j | 0 <= i < j < |r| && r[i].status == In && r[j].status == In && r[i].uid.Some?
      ensures r[i].uid != r[j].uid
    {
      if j == |log| {
        assert r[i] == log[i];
        if uid.Some? {
          assert !OpenFor(log[i], ByUid(uid.value));
        }
      }
    }
  }
}
