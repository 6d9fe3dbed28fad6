/** The pending_actions table: rows in insertion order, `id` its primary key. */
module PendingActions {
  import opened Wrappers
  import opened Clock

  datatype Status = Pending | Confirmed | Cancelled | Expired | Executed | Failed

  datatype PendingAction = PendingAction(
    id: string, userID: string, sessionID: string, userInput: string, toolName: string, argsJSON: string,
    prompt: string, status: Status, errorMsg: string, createdAt: Instant, expiresAt: Option<Instant>)

  type Table = seq<PendingAction>

  function Find(rows: Table, id: string): Option<PendingAction> {
    if rows == [] then None
    else if rows[0].id == id then Some(rows[0])
    else Find(rows[1..], id)
  }

  function SetStatus(rows: Table, id: string, status: Status, errorMsg: string): Table {
    seq(|rows|, i requires 0 <= i < |rows| =>
      if rows[i].id == id then rows[i].(status := status, errorMsg := errorMsg) else rows[i])
  }

  /** The WHERE clause of the "latest pending" query. */
  predicate IsLive(row: PendingAction, sessionID: string, userID: string, now: Instant) {
    && row.sessionID == sessionID && row.userID == userID && row.status == Pending
    && (row.expiresAt.None? || row.expiresAt.value > now)
  }

  /** ORDER BY created_at DESC LIMIT 1 over the live rows. */
  function Latest(rows: Table, sessionID: string, userID: string, now: Instant): Option<PendingAction> {
    if rows == [] then None
    else
      var last := rows[|rows| - 1];
      var best := Latest(rows[..|rows| - 1], sessionID, userID, now);
      if IsLive(last, sessionID, userID, now) && (best.None? || last.createdAt >= best.value.createdAt)
      then Some(last) else best
  }

  ghost predicate UniqueIDs(rows: Table) {
    forall i, j :: 0 <= i < j < |rows| ==> rows[i].id != rows[j].id
  }

  lemma {:induction false} FindAfterAppend(rows: Table, action: PendingAction, x: string)
    ensures Find(rows + [action], x)
         == if Find(rows, x).Some? then Find(rows, x) else if action.id == x then Some(action) else None
  {
    if rows == [] {
      assert rows + [action] == [action] && [action][1..] == [];
    } else {
      assert (rows + [action])[1..] == rows[1..] + [action];
      FindAfterAppend(rows[1..], action, x);
    }
  }

  lemma {:induction false} FindGives(rows: Table, id: string)
    ensures Find(rows, id).Some? ==> Find(rows, id).value in rows && Find(rows, id).value.id == id
    ensures Find(rows, id).None? ==> forall i :: 0 <= i < |rows| ==> rows[i].id != id
  {
    if rows != [] && rows[0].id != id {
      FindGives(rows[1..], id);
    }
  }

  lemma {:induction false} FindUnique(rows: Table, i: nat)
    requires UniqueIDs(rows) && i < |rows|
    ensures Find(rows, rows[i].id) == Some(rows[i])
  {
    if i == 0 {
    } else {
      assert rows[1..][i - 1] == rows[i];
      FindUnique(rows[1..], i - 1);
    }
  }

  /** The latest pending action is a live row, no older than any other; there is none only if nothing is live. */
  lemma {:induction false} LatestIsNewestLive(rows: Table, sessionID: string, userID: string, now: Instant)
    ensures Latest(rows, sessionID, userID, now).Some? ==>
      var r := Latest(rows, sessionID, userID, now).value;
      && r in rows && IsLive(r, sessionID, userID, now)
      && forall k :: 0 <= k < |rows| && IsLive(rows[k], sessionID, userID, now) ==> rows[k].createdAt <= r.createdAt
    ensures Latest(rows, sessionID, userID, now).None? ==>
      forall k :: 0 <= k < |rows| ==> !IsLive(rows[k], sessionID, userID, now)
  {
    if rows == [] {
    } else {
      var front := rows[..|rows| - 1];
      LatestIsNewestLive(front, sessionID, userID, now);
      assert forall k :: 0 <= k < |front| ==> rows[k] == front[k];
      assert rows == front + [rows[|rows| - 1]];
    }
  }

  /** What the query asks of a row, and so of the one it returns: pending, of that session and user, with time left. */
  lemma {:induction false} LatestIsPending(rows: Table, sessionID: string, userID: string, now: Instant)
    ensures var latest := Latest(rows, sessionID, userID, now);
      && (latest.Some? ==>
            && latest.value in rows && latest.value.status == Pending
            && latest.value.sessionID == sessionID && latest.value.userID == userID
            && (latest.value.expiresAt.Some? ==> now < latest.value.expiresAt.value))
      && (latest.None? <==> !exists k :: 0 <= k < |rows| && rows[k].status == Pending
                                         && rows[k].sessionID == sessionID && rows[k].userID == userID
                                         && (rows[k].expiresAt.Some? ==> now < rows[k].expiresAt.value))
  {
    LatestIsNewestLive(rows, sessionID, userID, now);
    if k :| 0 <= k < |rows| && IsLive(rows[k], sessionID, userID, now) {
      assert rows[k].status == Pending;
    }
  }

  /** The store: every row change the confirm protocol makes goes through these four methods. */
  class MemoryManager {
    var rows: Table

    constructor ()
      ensures rows == []
    {
      rows := [];
    }

    /** Inserts a row; a clash with an existing primary key, or a store that is down, changes nothing. */
    method CreatePendingAction(action: PendingAction, accepted: bool) returns (ok: bool)
      modifies this
      ensures ok <==> accepted && Find(old(rows), action.id).None?
      ensures rows == if ok then old(rows) + [action] else old(rows)
    {
      var existing := GetPendingAction(action.id);
      ok := accepted && existing.None?;
      if ok {
        rows := rows + [action];
      }
    }

    method GetPendingAction(id: string) returns (row: Option<PendingAction>)
      ensures row == Find(rows, id)
    {
      for i := 0 to |rows|
        invariant Find(rows, id) == Find(rows[i..], id)
      {
        if rows[i].id == id {
          return Some(rows[i]);
        }
        assert rows[i..][1..] == rows[i + 1..];
      }
      return None;
    }

    method GetLatestPendingAction(sessionID: string, userID: string, now: Instant) returns (row: Option<PendingAction>)
      ensures row == Latest(rows, sessionID, userID, now)
    {
      row := None;
      for i := 0 to |rows|
        invariant row == Latest(rows[..i], sessionID, userID, now)
      {
        assert rows[..i + 1][..i] == rows[..i];
        if IsLive(rows[i], sessionID, userID, now) && (row.None? || rows[i].createdAt >= row.value.createdAt) {
          row := Some(rows[i]);
        }
      }
      assert rows[..|rows|] == rows;
    }

    method UpdatePendingActionStatus(id: string, status: Status, errorMsg: string, accepted: bool)
      modifies this
      ensures rows == if accepted then SetStatus(old(rows), id, status, errorMsg) else old(rows)
    {
      if accepted {
        for i := 0 to |rows|
          invariant |rows| == |old(rows)|
          invariant forall k :: 0 <= k < |rows| ==>
            rows[k] == if k < i then SetStatus(old(rows), id, status, errorMsg)[k] else old(rows)[k]
        {
          if rows[i].id == id {
            rows := rows[i := rows[i].(status := status, errorMsg := errorMsg)];
          }
        }
      }
    }
  }
}
