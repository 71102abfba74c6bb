/**
 * `GET` and `PUT /api/progress/:mode` (backend/src/routes/progress.ts): a
 * member's cursor in a feed, stored per (user, mode) and clamped to the
 * feed's last position when it is written.
 */
module ProgressRoutes {
  import opened Wrappers
  import opened Json
  import opened Types
  import opened FeedGenerator
  import opened Database

  /** `Math.max(0, feed.length - 1)`: the last position of a feed, 0 for an empty one. */
  function MaxCursor(feedLength: nat): nat {
    if feedLength == 0 then 0 else feedLength - 1
  }

  /** `Math.min(cursor, Math.max(0, feed.length - 1))`. */
  function BoundedCursor(cursor: real, feedLength: nat): (r: real)
    ensures r <= MaxCursor(feedLength) as real
    ensures cursor <= MaxCursor(feedLength) as real ==> r == cursor
    ensures cursor > MaxCursor(feedLength) as real ==> r == MaxCursor(feedLength) as real
    ensures cursor >= 0.0 ==> 0.0 <= r && (feedLength == 0 || r < feedLength as real)
  {
    var m := MaxCursor(feedLength) as real;
    if cursor < m then cursor else m
  }

  /** Clamping a clamped cursor changes nothing. */
  lemma BoundedCursorIdempotent(cursor: real, feedLength: nat)
    ensures BoundedCursor(BoundedCursor(cursor, feedLength), feedLength) == BoundedCursor(cursor, feedLength)
  {
  }

  /** `typeof cursor !== 'number' || cursor < 0` rejects; a non-negative number is accepted. */
  function CursorOf(v: Option<Json>): (r: Option<real>)
    ensures r.Some? <==> v.Some? && v.value.JNumber? && v.value.n >= 0.0
    ensures r.Some? ==> v == Some(JNumber(r.value))
  {
    match v
    case Some(JNumber(n)) => if n >= 0.0 then Some(n) else None
    case _ => None
  }

  datatype ProgressView = ProgressView(cursor: real, updatedAt: int)

  /** `GET /:mode`: the stored row, or cursor 0 stamped now when there is none. */
  function GetProgress(db: Store, userId: string, modeParam: string, now: int): (r: Response<ProgressView>)
    reads db
    ensures r.Ok? <==> ParseMode(modeParam).Some?
    ensures !r.Ok? ==> r.BadRequest?
    ensures r.Ok? ==>
      var key := ProgressKey(userId, ParseMode(modeParam).value);
      && (key in db.progress ==> r.value == ProgressView(db.progress[key].cursor, db.progress[key].updatedAt))
      && (key !in db.progress ==> r.value == ProgressView(0.0, now))
    ensures r.Ok? && db.Valid() ==> r.value.cursor >= 0.0
  {
    var mode := ParseMode(modeParam);
    if mode.None? then BadRequest("Invalid mode. Must be \"archive\" or \"recent\"")
    else
      var key := ProgressKey(userId, mode.value);
      if key in db.progress then Ok(ProgressView(db.progress[key].cursor, db.progress[key].updatedAt))
      else Ok(ProgressView(0.0, now))
  }

  /**
   * `PUT /:mode`, for a caller who passed `requireAuth` and
   * `requireWorkspace`. A missing workspace row makes `workspace!.seed`
   * throw, and so does a failed load inside `getFeed`: both are a 500.
   */
  method UpdateProgress(db: Store, userId: string, modeParam: string, cursor: Option<Json>, now: int)
    returns (r: Response<ProgressView>)
    requires db.Valid() && db.feeds.Valid() && db.IsMember(userId)
    modifies db, db.feeds
    ensures db.Valid() && db.feeds.Valid()
    ensures db.users == old(db.users) && db.workspaces == old(db.workspaces) && db.swipes == old(db.swipes)
    ensures db.matches == old(db.matches) && db.reflections == old(db.reflections)
    ensures r.BadRequest? <==> ParseMode(modeParam).None? || CursorOf(cursor).None?
    ensures r.BadRequest? ==> unchanged(db) && unchanged(db.feeds)
    ensures !r.BadRequest? && db.WorkspaceOf(userId) !in db.workspaces ==>
      r.ServerError? && unchanged(db) && unchanged(db.feeds)
    ensures !r.BadRequest? && db.WorkspaceOf(userId) in db.workspaces ==>
      && db.feeds.LoadedFrom(old(db.feeds.isLoaded), old(db.feeds.archive), old(db.feeds.recent))
      && (r.Ok? <==> db.feeds.isLoaded)
    ensures r.ServerError? ==> db.progress == old(db.progress)
    ensures r.Ok? ==>
      var mode := ParseMode(modeParam).value;
      var feed := FeedOf(mode, db.workspaces[db.WorkspaceOf(userId)].seed, db.feeds.archive, db.feeds.recent);
      && r.value == ProgressView(BoundedCursor(CursorOf(cursor).value, |feed|), now)
      && 0.0 <= r.value.cursor <= MaxCursor(|feed|) as real
      && db.progress == old(db.progress)[ProgressKey(userId, mode) := Progress(r.value.cursor, now)]
    ensures r.Ok? ==> forall t :: GetProgress(db, userId, modeParam, t) == r
  {
    var mode := ParseMode(modeParam);
    if mode.None? {
      return BadRequest("Invalid mode. Must be \"archive\" or \"recent\"");
    }
    var c := CursorOf(cursor);
    if c.None? {
      return BadRequest("Cursor must be a non-negative number");
    }
    var workspaceId := db.users[userId].workspaceId.value;
    if workspaceId !in db.workspaces {
      return ServerError("Cannot read properties of undefined (reading 'seed')");
    }
    var feed := db.feeds.GetFeed(mode.value, db.workspaces[workspaceId].seed);
    if feed.None? {
      return ServerError("Failed to load fundraise data");
    }
    var boundedCursor := BoundedCursor(c.value, |feed.value|);
    WriteProgress(db, ProgressKey(userId, mode.value), boundedCursor, now);
    r := Ok(ProgressView(boundedCursor, now));
  }

  /** The UPDATE of the caller's progress row for the mode, or the INSERT of a new one. */
  method WriteProgress(db: Store, key: ProgressKey, cursor: real, now: int)
    requires db.Valid() && cursor >= 0.0
    modifies db
    ensures db.Valid()
    ensures db.progress == old(db.progress)[key := Progress(cursor, now)]
    ensures db.users == old(db.users) && db.workspaces == old(db.workspaces) && db.swipes == old(db.swipes)
    ensures db.matches == old(db.matches) && db.reflections == old(db.reflections)
  {
    if key in db.progress {
      db.progress := db.progress[key := Progress(cursor, now)];
    } else {
      db.progress := db.progress[key := Progress(cursor, now)];
    }
  }
}
