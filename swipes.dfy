/**
 * `POST /api/swipes/:mode` and `checkAndCreateMatch`
 * (backend/src/routes/swipes.ts): a swipe is an upsert under (user,
 * fundraise, mode); a like creates the workspace's match for that fundraise
 * and mode once every member, and at least two, like it in that mode.
 */
module Swipes {
  import opened Wrappers
  import opened Json
  import opened Types
  import opened Database

  // ---------------------------------------------------------------------------
  // Request validation

  /** `decision !== 'like' && decision !== 'pass'` rejects. */
  function DecisionOf(v: Option<Json>): (r: Option<Decision>)
    ensures r == Some(Like) <==> v == Some(JString("like"))
    ensures r == Some(Pass) <==> v == Some(JString("pass"))
  {
    if v == Some(JString("like")) then Some(Like)
    else if v == Some(JString("pass")) then Some(Pass)
    else None
  }

  // ---------------------------------------------------------------------------
  // The swipe upsert

  /** The `swipe_decisions` table after the UPDATE or INSERT for `key`. */
  function UpsertSwipe(swipes: map<SwipeKey, Swipe>, key: SwipeKey, decision: Decision, freshId: string, now: int)
    : (r: map<SwipeKey, Swipe>)
    ensures r.Keys == swipes.Keys + {key}
    ensures r[key].decision == decision && r[key].createdAt == now
    ensures r[key].id == (if key in swipes then swipes[key].id else freshId)
    ensures forall k :: k in swipes && k != key ==> r[k] == swipes[k]
    ensures SwipesKeyed(swipes) ==> SwipesKeyed(r)
    ensures SwipeIdsUnique(swipes) && (forall k :: k in swipes ==> swipes[k].id != freshId) ==> SwipeIdsUnique(r)
  {
    if key in swipes then swipes[key := swipes[key].(decision := decision, createdAt := now)]
    else swipes[key := Swipe(freshId, key.userId, key.fundraiseId, key.mode, decision, now)]
  }

  /** A re-swipe keeps the id of the first swipe, whatever id is offered the second time. */
  lemma ReswipeKeepsId(swipes: map<SwipeKey, Swipe>, key: SwipeKey, first: Decision, second: Decision,
                       id1: string, id2: string, t1: int, t2: int)
    ensures UpsertSwipe(UpsertSwipe(swipes, key, first, id1, t1), key, second, id2, t2)[key].id
         == UpsertSwipe(swipes, key, first, id1, t1)[key].id
    ensures UpsertSwipe(UpsertSwipe(swipes, key, first, id1, t1), key, second, id2, t2)
         == UpsertSwipe(swipes, key, second, UpsertSwipe(swipes, key, first, id1, t1)[key].id, t2)
  {
    var once := UpsertSwipe(swipes, key, first, id1, t1);
    var row := once[key];
    assert UpsertSwipe(once, key, second, id2, t2) == once[key := row.(decision := second, createdAt := t2)];
    if key in swipes {
      assert once == swipes[key := swipes[key].(decision := first, createdAt := t1)];
    } else {
      assert once == swipes[key := Swipe(id1, key.userId, key.fundraiseId, key.mode, first, t1)];
    }
  }

  // ---------------------------------------------------------------------------
  // checkAndCreateMatch

  /** The members of the workspace with a like on the fundraise in `mode`. */
  function Likers(users: map<string, User>, swipes: map<SwipeKey, Swipe>, workspaceId: string,
                  fundraiseId: string, mode: Mode): (r: set<string>)
    ensures r <= Members(users, workspaceId)
  {
    set u | u in Members(users, workspaceId) &&
            SwipeKey(u, fundraiseId, mode) in swipes &&
            swipes[SwipeKey(u, fundraiseId, mode)].decision == Like
  }

  /**
   * Both guards pass: at least two members, and as many like rows as
   * members. Like rows are keyed by user, so the row count is the number
   * of members who like.
   */
  predicate Qualifies(users: map<string, User>, swipes: map<SwipeKey, Swipe>, workspaceId: string,
                      fundraiseId: string, mode: Mode) {
    var members := Members(users, workspaceId);
    |members| >= 2 && |Likers(users, swipes, workspaceId, fundraiseId, mode)| >= |members|
  }

  /** A subset at least as large as its superset is the superset. */
  lemma SubsetAsLarge<T>(a: set<T>, b: set<T>)
    requires a <= b && |a| >= |b|
    ensures a == b
  {
    assert b == a + (b - a);
    assert a * (b - a) == {};
  }

  /** The match condition: at least two members, and every one of them likes in this same mode. */
  lemma QualifiesIffAllLike(users: map<string, User>, swipes: map<SwipeKey, Swipe>, workspaceId: string,
                            fundraiseId: string, mode: Mode)
    ensures Qualifies(users, swipes, workspaceId, fundraiseId, mode) <==>
      |Members(users, workspaceId)| >= 2 &&
      forall u :: u in Members(users, workspaceId) ==>
        SwipeKey(u, fundraiseId, mode) in swipes && swipes[SwipeKey(u, fundraiseId, mode)].decision == Like
  {
    var members := Members(users, workspaceId);
    var likers := Likers(users, swipes, workspaceId, fundraiseId, mode);
    if |likers| >= |members| {
      SubsetAsLarge(likers, members);
    }
    if forall u :: u in members ==>
         SwipeKey(u, fundraiseId, mode) in swipes && swipes[SwipeKey(u, fundraiseId, mode)].decision == Like {
      assert likers == members;
    }
  }

  /** The `matches` table after the call: an existing match is kept, a missing one inserted when it qualifies. */
  function MatchesAfter(matches: map<MatchKey, MatchRecord>, key: MatchKey, qualifies: bool, freshId: string, now: int)
    : (r: map<MatchKey, MatchRecord>)
    ensures r.Keys == (if qualifies then matches.Keys + {key} else matches.Keys)
    ensures forall k :: k in matches ==> r[k] == matches[k]
    ensures qualifies && key !in matches ==>
      r[key] == MatchRecord(freshId, key.workspaceId, key.fundraiseId, key.mode, now)
    ensures MatchesKeyed(matches) ==> MatchesKeyed(r)
    ensures MatchIdsUnique(matches) && (forall k :: k in matches ==> matches[k].id != freshId) ==> MatchIdsUnique(r)
  {
    if qualifies && key !in matches then
      matches[key := MatchRecord(freshId, key.workspaceId, key.fundraiseId, key.mode, now)]
    else matches
  }

  /** Match creation is idempotent: a second qualifying like inserts nothing. */
  lemma MatchesAfterIdempotent(matches: map<MatchKey, MatchRecord>, key: MatchKey, qualifies: bool,
                               id1: string, id2: string, t1: int, t2: int)
    ensures MatchesAfter(MatchesAfter(matches, key, qualifies, id1, t1), key, qualifies, id2, t2)
         == MatchesAfter(matches, key, qualifies, id1, t1)
  {
  }

  /** `checkAndCreateMatch`: the match for (workspace, fundraise, mode) when it qualifies, else `None`. */
  method CheckAndCreateMatch(db: Store, workspaceId: string, fundraiseId: string, mode: Mode,
                             matchId: string, now: int) returns (found: Option<MatchRecord>)
    requires db.Valid()
    requires forall k :: k in db.matches ==> db.matches[k].id != matchId
    modifies db
    ensures db.Valid()
    ensures db.matches == MatchesAfter(old(db.matches), MatchKey(workspaceId, fundraiseId, mode),
                                       Qualifies(db.users, db.swipes, workspaceId, fundraiseId, mode), matchId, now)
    ensures found.Some? <==> Qualifies(db.users, db.swipes, workspaceId, fundraiseId, mode)
    ensures found.Some? ==> found.value == db.matches[MatchKey(workspaceId, fundraiseId, mode)]
    ensures db.users == old(db.users) && db.workspaces == old(db.workspaces) && db.swipes == old(db.swipes)
    ensures db.progress == old(db.progress) && db.reflections == old(db.reflections)
  {
    var workspaceUsers := Members(db.users, workspaceId);
    if |workspaceUsers| < 2 {
      return None;
    }
    var likes := Likers(db.users, db.swipes, workspaceId, fundraiseId, mode);
    if |likes| < |workspaceUsers| {
      return None;
    }
    var key := MatchKey(workspaceId, fundraiseId, mode);
    if key in db.matches {
      return Some(db.matches[key]);
    }
    db.matches := db.matches[key := MatchRecord(matchId, workspaceId, fundraiseId, mode, now)];
    found := Some(db.matches[key]);
  }

  // ---------------------------------------------------------------------------
  // POST /:mode

  datatype SwipeResult = SwipeResult(id: string, decision: Decision, createdAt: int, matchCreated: bool)

  /** The three validations pass. */
  predicate ValidSwipeRequest(modeParam: string, fundraiseId: Option<Json>, decision: Option<Json>) {
    ParseMode(modeParam).Some? && RequiredString(fundraiseId).Some? && DecisionOf(decision).Some?
  }

  /**
   * The handler, for a caller who passed `requireAuth` and `requireWorkspace`.
   * `swipeId` and `matchId` are the fresh uuids it would draw.
   */
  method SaveSwipe(db: Store, userId: string, modeParam: string, fundraiseId: Option<Json>, decision: Option<Json>,
                   swipeId: string, matchId: string, now: int) returns (r: Response<SwipeResult>)
    requires db.Valid() && db.IsMember(userId)
    requires forall k :: k in db.swipes ==> db.swipes[k].id != swipeId
    requires forall k :: k in db.matches ==> db.matches[k].id != matchId
    modifies db
    ensures db.Valid()
    ensures r.Ok? <==> ValidSwipeRequest(modeParam, fundraiseId, decision)
    ensures !r.Ok? ==> r.BadRequest? && db.swipes == old(db.swipes) && db.matches == old(db.matches)
    ensures db.users == old(db.users) && db.workspaces == old(db.workspaces)
    ensures db.progress == old(db.progress) && db.reflections == old(db.reflections)
    ensures r.Ok? ==>
      var mode := ParseMode(modeParam).value;
      var f := RequiredString(fundraiseId).value;
      var d := DecisionOf(decision).value;
      var key := SwipeKey(userId, f, mode);
      var ws := db.WorkspaceOf(userId);
      var qualifies := d == Like && Qualifies(db.users, db.swipes, ws, f, mode);
      && db.swipes == UpsertSwipe(old(db.swipes), key, d, swipeId, now)
      && db.matches == MatchesAfter(old(db.matches), MatchKey(ws, f, mode), qualifies, matchId, now)
      && r.value == SwipeResult(db.swipes[key].id, d, now, qualifies)
  {
    var mode := ParseMode(modeParam);
    if mode.None? {
      return BadRequest("Invalid mode. Must be \"archive\" or \"recent\"");
    }
    var f := RequiredString(fundraiseId);
    if f.None? {
      return BadRequest("fundraiseId is required");
    }
    var d := DecisionOf(decision);
    if d.None? {
      return BadRequest("decision must be \"like\" or \"pass\"");
    }
    var ws := db.users[userId].workspaceId;
    var key := SwipeKey(userId, f.value, mode.value);
    var id := WriteSwipe(db, key, d.value, swipeId, now);
    var matchCreated := false;
    if d.value == Like && ws.Some? && ws.value != "" {
      var found := CheckAndCreateMatch(db, ws.value, f.value, mode.value, matchId, now);
      matchCreated := found.Some?;
    }
    r := Ok(SwipeResult(id, d.value, now, matchCreated));
  }

  /** The UPDATE of an existing swipe row, or the INSERT of a new one; `id` is the row's id. */
  method WriteSwipe(db: Store, key: SwipeKey, decision: Decision, swipeId: string, now: int) returns (id: string)
    requires db.Valid()
    requires forall k :: k in db.swipes ==> db.swipes[k].id != swipeId
    modifies db
    ensures db.Valid()
    ensures db.swipes == UpsertSwipe(old(db.swipes), key, decision, swipeId, now)
    ensures id == db.swipes[key].id
    ensures db.users == old(db.users) && db.workspaces == old(db.workspaces) && db.matches == old(db.matches)
    ensures db.progress == old(db.progress) && db.reflections == old(db.reflections)
  {
    ghost var after := UpsertSwipe(db.swipes, key, decision, swipeId, now);
    if key in db.swipes {
      id := db.swipes[key].id;
      db.swipes := db.swipes[key := db.swipes[key].(decision := decision, createdAt := now)];
    } else {
      id := swipeId;
      db.swipes := db.swipes[key := Swipe(swipeId, key.userId, key.fundraiseId, key.mode, decision, now)];
    }
    assert db.swipes == after;
  }

  /**
   * The two-member flow: the first like of a fundraise does not make a
   * match, the partner's like in the same mode does.
   */
  lemma TwoMemberFlow(users: map<string, User>, swipes: map<SwipeKey, Swipe>, workspaceId: string,
                      first: string, second: string, fundraiseId: string, mode: Mode,
                      id1: string, id2: string, t1: int, t2: int)
    requires Members(users, workspaceId) == {first, second} && first != second
    requires SwipeKey(second, fundraiseId, mode) !in swipes
    ensures var after1 := UpsertSwipe(swipes, SwipeKey(first, fundraiseId, mode), Like, id1, t1);
      && !Qualifies(users, after1, workspaceId, fundraiseId, mode)
      && Qualifies(users, UpsertSwipe(after1, SwipeKey(second, fundraiseId, mode), Like, id2, t2),
                   workspaceId, fundraiseId, mode)
  {
    var after1 := UpsertSwipe(swipes, SwipeKey(first, fundraiseId, mode), Like, id1, t1);
    var after2 := UpsertSwipe(after1, SwipeKey(second, fundraiseId, mode), Like, id2, t2);
    QualifiesIffAllLike(users, after1, workspaceId, fundraiseId, mode);
    QualifiesIffAllLike(users, after2, workspaceId, fundraiseId, mode);
    assert second in Members(users, workspaceId);
  }
}
