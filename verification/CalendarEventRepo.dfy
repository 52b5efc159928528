/**
  The store of calendar rows of internal/storage/calendar_event_repo.go: one row per
  (user, event UID, instance second), kept across restarts.
*/
module CalendarEventRepo {
  import opened Wrappers

  datatype Key = Key(user: int, uid: string, instanceTs: int)

  datatype Snapshot = Snapshot(summary: string, start: int, end: int, location: string,
                               sequence: int, lastModified: int)

  datatype Row = Row(snap: Snapshot, reminderSent: bool, notifiedNew: bool, seenAt: int)

  type Rows = map<Key, Row>

  datatype Change = Change(created: bool, changed: bool, prev: Option<Row>)

  const SECONDS_PER_DAY := 86400
  const SEEN_AT_TTL := 90 * SECONDS_PER_DAY

  function Find(rows: Rows, key: Key): Option<Row> {
    if key in rows then Some(rows[key]) else None
  }

  predicate Differs(prev: Snapshot, s: Snapshot) {
    || prev.summary != s.summary || prev.start != s.start || prev.end != s.end
    || prev.location != s.location || prev.sequence < s.sequence
    || (s.lastModified > 0 && prev.lastModified < s.lastModified)
  }

  function ChangeOf(rows: Rows, key: Key, s: Snapshot): Change {
    match Find(rows, key)
    case None => Change(true, false, None)
    case Some(prev) => Change(false, Differs(prev.snap, s), Some(prev))
  }

  /** The row that the upsert leaves: the new snapshot, with flags only ever raised. */
  function UpsertedRow(rows: Rows, key: Key, s: Snapshot, notifiedNew: bool, now: int): Row {
    match Find(rows, key)
    case None => Row(s, false, notifiedNew, now)
    case Some(prev) => Row(s, prev.reminderSent, prev.notifiedNew || notifiedNew, now)
  }

  function Upserted(rows: Rows, key: Key, s: Snapshot, notifiedNew: bool, now: int): Rows {
    rows[key := UpsertedRow(rows, key, s, notifiedNew, now)]
  }

  function ReminderMarked(rows: Rows, key: Key, now: int): Rows {
    if key in rows then rows[key := rows[key].(reminderSent := true, seenAt := now)] else rows
  }

  function NewMarked(rows: Rows, key: Key, now: int): Rows {
    if key in rows then rows[key := rows[key].(notifiedNew := true, seenAt := now)] else rows
  }

  function WithoutStale(rows: Rows, user: int, cutoff: int): Rows {
    map k | k in rows && !(k.user == user && rows[k].snap.start < cutoff) :: rows[k]
  }

  function WithoutUser(rows: Rows, user: int): Rows {
    map k | k in rows && k.user != user :: rows[k]
  }

  /** What the TTL index on `seen_at` leaves at time `now`. */
  function WithoutUnseen(rows: Rows, now: int): Rows {
    map k | k in rows && !(rows[k].seenAt + SEEN_AT_TTL < now) :: rows[k]
  }

  /** A collection whose writes may fail; a failed write changes nothing. */
  class EventRepo {
    var rows: Rows

    method UpsertState(key: Key, s: Snapshot, notifiedNew: bool, now: int, ok: bool) returns (change: Option<Change>)
      modifies this
      ensures change == if ok then Some(ChangeOf(old(rows), key, s)) else None
      ensures rows == if ok then Upserted(old(rows), key, s, notifiedNew, now) else old(rows)
      ensures ok ==> change.Some? && (change.value.created <==> key !in old(rows))
                     && change.value.prev == (if key in old(rows) then Some(old(rows)[key]) else None)
      ensures ok ==>
                (change.value.changed <==>
                   && key in old(rows)
                   && var was := old(rows)[key].snap;
                      || was.summary != s.summary || was.start != s.start || was.end != s.end
                      || was.location != s.location || was.sequence < s.sequence
                      || (s.lastModified > 0 && was.lastModified < s.lastModified))
      ensures ok ==> key in rows && rows[key].snap == s && rows[key].seenAt == now
                     && (rows[key].reminderSent <==> key in old(rows) && old(rows)[key].reminderSent)
                     && (rows[key].notifiedNew <==> notifiedNew || (key in old(rows) && old(rows)[key].notifiedNew))
      ensures forall k :: k != key ==> (k in rows <==> k in old(rows)) && (k in rows ==> rows[k] == old(rows)[k])
    {
      if !ok {
        return None;
      }
      if key !in rows {
        rows := rows[key := Row(s, false, notifiedNew, now)];
        return Some(Change(true, false, None));
      }
      var prev := rows[key];
      var row := prev.(snap := s, seenAt := now);
      if notifiedNew {
        row := row.(notifiedNew := true);
      }
      rows := rows[key := row];
      return Some(Change(false, Differs(prev.snap, s), Some(prev)));
    }

    method MarkReminderSent(key: Key, now: int, ok: bool)
      modifies this
      ensures rows == if ok then ReminderMarked(old(rows), key, now) else old(rows)
      ensures rows == if ok && key in old(rows)
                      then old(rows)[key := old(rows)[key].(reminderSent := true, seenAt := now)] else old(rows)
    {
      if ok && key in rows {
        rows := rows[key := rows[key].(reminderSent := true, seenAt := now)];
      }
    }

    method MarkNotifiedNew(key: Key, now: int, ok: bool)
      modifies this
      ensures rows == if ok then NewMarked(old(rows), key, now) else old(rows)
      ensures rows == if ok && key in old(rows)
                      then old(rows)[key := old(rows)[key].(notifiedNew := true, seenAt := now)] else old(rows)
    {
      if ok && key in rows {
        rows := rows[key := rows[key].(notifiedNew := true, seenAt := now)];
      }
    }

    method DeleteStaleByUser(user: int, keepStartAfter: int, ok: bool)
      modifies this
      ensures rows == if ok then WithoutStale(old(rows), user, keepStartAfter) else old(rows)
      ensures ok ==> forall k :: k in rows <==>
                k in old(rows) && (k.user != user || old(rows)[k].snap.start >= keepStartAfter)
    {
      if ok {
        rows := map k | k in rows && !(k.user == user && rows[k].snap.start < keepStartAfter) :: rows[k];
      }
    }

    method DeleteAllByUser(user: int, ok: bool)
      modifies this
      ensures rows == if ok then WithoutUser(old(rows), user) else old(rows)
      ensures ok ==> forall k :: k in rows <==> k in old(rows) && k.user != user
    {
      if ok {
        rows := map k | k in rows && k.user != user :: rows[k];
      }
    }
  }
}
