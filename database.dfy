/**
 * The backend's tables (users, workspaces, swipe_decisions, matches,
 * user_progress, reflections) as maps in one store, keyed by the natural
 * key the route handlers look rows up by, together with the loaded feed
 * datasets. Timestamps are integers (milliseconds); the ISO strings the
 * backend stores compare in the same order.
 */
module Database {
  import opened Wrappers
  import opened Json
  import opened Types
  import opened FeedGenerator

  /** The HTTP outcome of a handler: 200 with a body, or 400, 404 or 500 with an error message. */
  datatype Response<T> =
    | Ok(value: T)
    | BadRequest(error: string)
    | NotFound(error: string)
    | ServerError(error: string)

  datatype User = User(id: string, name: string, displayName: string, workspaceId: Option<string>, createdAt: int)

  datatype Workspace = Workspace(id: string, name: string, seed: string, inviteCode: string, createdAt: int)

  /** A `swipe_decisions` row and the (user, fundraise, mode) it is upserted under. */
  datatype SwipeKey = SwipeKey(userId: string, fundraiseId: string, mode: Mode)
  datatype Swipe = Swipe(id: string, userId: string, fundraiseId: string, mode: Mode, decision: Decision, createdAt: int)

  /** A `matches` row and the (workspace, fundraise, mode) it is created for. */
  datatype MatchKey = MatchKey(workspaceId: string, fundraiseId: string, mode: Mode)
  datatype MatchRecord = MatchRecord(id: string, workspaceId: string, fundraiseId: string, mode: Mode, createdAt: int)

  /** A `user_progress` row, under (user, mode). The cursor is any non-negative JSON number. */
  datatype ProgressKey = ProgressKey(userId: string, mode: Mode)
  datatype Progress = Progress(cursor: real, updatedAt: int)

  /** A `reflections` row, under its swipe id. `chips` is the JSON array as sent. */
  datatype Reflection = Reflection(id: string, swipeId: string, userId: string, chips: seq<Json>, note: Option<Json>, createdAt: int)

  /** The truthiness of `user.workspace_id`. */
  predicate InWorkspace(u: User) {
    u.workspaceId.Some? && u.workspaceId.value != ""
  }

  /** `SELECT id FROM users WHERE workspace_id = ?`. */
  function Members(users: map<string, User>, workspaceId: string): (r: set<string>)
    ensures forall u :: u in r <==> u in users && users[u].workspaceId == Some(workspaceId)
  {
    set u | u in users && users[u].workspaceId == Some(workspaceId)
  }

  /** Every swipe row sits under its own (user, fundraise, mode). */
  predicate SwipesKeyed(swipes: map<SwipeKey, Swipe>) {
    forall k :: k in swipes ==> SwipeKey(swipes[k].userId, swipes[k].fundraiseId, swipes[k].mode) == k
  }

  /** No two swipe rows share an id. */
  predicate SwipeIdsUnique(swipes: map<SwipeKey, Swipe>) {
    forall k, l :: k in swipes && l in swipes && k != l ==> swipes[k].id != swipes[l].id
  }

  /** Every match row sits under its own (workspace, fundraise, mode). */
  predicate MatchesKeyed(matches: map<MatchKey, MatchRecord>) {
    forall k :: k in matches ==> MatchKey(matches[k].workspaceId, matches[k].fundraiseId, matches[k].mode) == k
  }

  /** No two match rows share an id. */
  predicate MatchIdsUnique(matches: map<MatchKey, MatchRecord>) {
    forall k, l :: k in matches && l in matches && k != l ==> matches[k].id != matches[l].id
  }

  /** No two workspaces share an invite code. */
  predicate InviteCodesUnique(workspaces: map<string, Workspace>) {
    forall v, w :: v in workspaces && w in workspaces && v != w ==>
      workspaces[v].inviteCode != workspaces[w].inviteCode
  }

  /** Every stored cursor is non-negative, as the handler that writes it checks. */
  predicate CursorsNonNegative(progress: map<ProgressKey, Progress>) {
    forall k :: k in progress ==> progress[k].cursor >= 0.0
  }

  /** Every reflection sits under its own swipe, and no two share an id. */
  predicate ReflectionsKeyed(reflections: map<string, Reflection>) {
    && (forall s :: s in reflections ==> reflections[s].swipeId == s)
    && (forall s, t :: s in reflections && t in reflections && s != t ==> reflections[s].id != reflections[t].id)
  }

  class Store {
    var users: map<string, User>
    var workspaces: map<string, Workspace>
    var swipes: map<SwipeKey, Swipe>
    var matches: map<MatchKey, MatchRecord>
    var progress: map<ProgressKey, Progress>
    var reflections: map<string, Reflection>
    const feeds: FeedStore

    /**
     * Every row sits under its own key, row ids are unique where rows are
     * looked up by id, and invite codes are unique across workspaces. The
     * feed store keeps its own invariant, `feeds.Valid()`.
     */
    ghost predicate Valid()
      reads this
    {
      && (forall u :: u in users ==> users[u].id == u)
      && (forall w :: w in workspaces ==> workspaces[w].id == w)
      && InviteCodesUnique(workspaces)
      && SwipesKeyed(swipes) && SwipeIdsUnique(swipes)
      && MatchesKeyed(matches) && MatchIdsUnique(matches)
      && CursorsNonNegative(progress)
      && ReflectionsKeyed(reflections)
    }

    constructor(feeds: FeedStore, users: map<string, User>)
      requires forall u :: u in users ==> users[u].id == u
      ensures Valid()
      ensures this.feeds == feeds && this.users == users
      ensures workspaces == map[] && swipes == map[] && matches == map[]
      ensures progress == map[] && reflections == map[]
    {
      this.feeds := feeds;
      this.users := users;
      workspaces := map[];
      swipes := map[];
      matches := map[];
      progress := map[];
      reflections := map[];
    }

    /** The caller passed `requireAuth` and `requireWorkspace`. */
    predicate IsMember(userId: string)
      reads this
    {
      userId in users && InWorkspace(users[userId])
    }

    /** The caller's workspace id. */
    function WorkspaceOf(userId: string): string
      reads this
      requires IsMember(userId)
    {
      users[userId].workspaceId.value
    }
  }
}
