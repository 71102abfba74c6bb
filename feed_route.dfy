/**
 * `GET /api/feed/:mode` (backend/src/routes/feed.ts): the workspace's feed
 * for a mode, its length, and the caller's cursor clamped into it.
 */
module FeedRoute {
  import opened Wrappers
  import opened Types
  import opened FeedGenerator
  import opened Database
  import opened ProgressRoutes

  datatype FeedResponse = FeedResponse(feed: seq<Fundraise>, totalCount: nat, userCursor: real)

  /** The stored cursor of (user, mode), 0 when there is no row (`progress?.cursor_index ?? 0`). */
  function StoredCursor(progress: map<ProgressKey, Progress>, key: ProgressKey): (c: real)
    ensures key in progress ==> c == progress[key].cursor
    ensures key !in progress ==> c == 0.0
    ensures CursorsNonNegative(progress) ==> c >= 0.0
  {
    if key in progress then progress[key].cursor else 0.0
  }

  /**
   * The handler, for a caller who passed `requireAuth` and
   * `requireWorkspace`. Only the feed datasets may change (by loading).
   */
  method GetFeedRoute(db: Store, userId: string, modeParam: string) returns (r: Response<FeedResponse>)
    requires db.Valid() && db.feeds.Valid() && db.IsMember(userId)
    modifies db.feeds
    ensures db.Valid() && db.feeds.Valid()
    ensures ParseMode(modeParam).None? ==> r.BadRequest? && unchanged(db.feeds)
    ensures ParseMode(modeParam).Some? && db.WorkspaceOf(userId) !in db.workspaces ==>
      r.NotFound? && unchanged(db.feeds)
    ensures ParseMode(modeParam).Some? && db.WorkspaceOf(userId) in db.workspaces ==>
      && db.feeds.LoadedFrom(old(db.feeds.isLoaded), old(db.feeds.archive), old(db.feeds.recent))
      && (r.Ok? <==> db.feeds.isLoaded)
      && (!r.Ok? ==> r.ServerError?)
    ensures r.Ok? ==>
      var mode := ParseMode(modeParam).value;
      var feed := FeedOf(mode, db.workspaces[db.WorkspaceOf(userId)].seed, db.feeds.archive, db.feeds.recent);
      var cursor := BoundedCursor(StoredCursor(db.progress, ProgressKey(userId, mode)), |feed|);
      && r.value == FeedResponse(feed, |feed|, cursor)
      && 0.0 <= cursor <= MaxCursor(|feed|) as real
  {
    var mode := ParseMode(modeParam);
    if mode.None? {
      return BadRequest("Invalid mode. Must be \"archive\" or \"recent\"");
    }
    var workspaceId := db.users[userId].workspaceId.value;
    if workspaceId !in db.workspaces {
      return NotFound("Workspace not found");
    }
    var feed := db.feeds.GetFeed(mode.value, db.workspaces[workspaceId].seed);
    if feed.None? {
      return ServerError("Failed to load fundraise data");
    }
    var userCursor := StoredCursor(db.progress, ProgressKey(userId, mode.value));
    r := Ok(FeedResponse(feed.value, |feed.value|, BoundedCursor(userCursor, |feed.value|)));
  }
}
