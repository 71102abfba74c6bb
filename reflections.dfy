/**
 * `POST /api/reflections` (backend/src/routes/reflections.ts): the chips and
 * note a member attaches to one of their own likes, one reflection per
 * swipe, replaced on a second save.
 */
module ReflectionsRoute {
  import opened Wrappers
  import opened Json
  import opened Types
  import opened Database
  import opened Query
  import opened MatchesRoutes

  /** `Array.isArray(chips)`. */
  function ChipsOf(v: Option<Json>): (r: Option<seq<Json>>)
    ensures r.Some? <==> v.Some? && v.value.JArray?
    ensures r.Some? ==> v == Some(JArray(r.value))
  {
    match v
    case Some(JArray(items)) => Some(items)
    case _ => None
  }

  /**
   * The value sql.js's `bindValue` stores for the parameter `note || null`:
   * `null` for a falsy note, a string, number or array as given, and `true` as
   * the number 1. `None` is the exception it throws for a plain object.
   */
  function BoundNote(note: Option<Json>): (r: Option<Option<Json>>)
    ensures r.None? <==> note.Some? && note.value.JObject?
    ensures r.Some? ==> r.value == (if note == Some(JBool(true)) then Some(JNumber(1.0)) else OrNull(note))
    ensures r.Some? ==> r.value == None || Truthy(r.value)
  {
    match OrNull(note)
    case Some(JObject(_)) => None
    case Some(JBool(_)) => Some(Some(JNumber(1.0)))
    case v => Some(v)
  }

  /**
   * The `reflections` table after the UPDATE or INSERT for `swipeId` with the
   * bound note `stored`: an existing reflection keeps its id and owner and
   * takes the new chips, note and time.
   */
  function UpsertReflection(reflections: map<string, Reflection>, swipeId: string, userId: string,
                            chips: seq<Json>, stored: Option<Json>, freshId: string, now: int)
    : (r: map<string, Reflection>)
    ensures r.Keys == reflections.Keys + {swipeId}
    ensures r[swipeId].id == (if swipeId in reflections then reflections[swipeId].id else freshId)
    ensures r[swipeId].chips == chips && r[swipeId].note == stored && r[swipeId].createdAt == now
    ensures swipeId !in reflections ==> r[swipeId].userId == userId
    ensures forall s :: s in reflections && s != swipeId ==> r[s] == reflections[s]
    ensures ReflectionsKeyed(reflections) && (forall s :: s in reflections ==> reflections[s].id != freshId) ==>
      ReflectionsKeyed(r)
  {
    if swipeId in reflections then
      reflections[swipeId := reflections[swipeId].(chips := chips, note := stored, createdAt := now)]
    else
      reflections[swipeId := Reflection(freshId, swipeId, userId, chips, stored, now)]
  }

  /**
   * What a save stores is what the match views show for that like: the
   * chips, and the note as bound — null, the note itself, or 1 for `true`.
   */
  lemma SavedReflectionShown(users: map<string, User>, reflections: map<string, Reflection>, like: Swipe,
                             userId: string, chips: seq<Json>, note: Option<Json>, freshId: string, now: int)
    requires like.userId in users && BoundNote(note).Some?
    ensures var v := ReflectionView(users, UpsertReflection(reflections, like.id, userId, chips, BoundNote(note).value, freshId, now), like);
      && v.chips == chips
      && v.note == (if note == Some(JBool(true)) then Some(JNumber(1.0)) else OrNull(note))
  {
  }

  /** The caller owns a swipe with that id (`WHERE id = ? AND user_id = ?`). */
  predicate OwnsSwipe(swipes: map<SwipeKey, Swipe>, swipeId: string, userId: string) {
    exists k :: k in swipes && swipes[k].id == swipeId && swipes[k].userId == userId
  }

  datatype SavedReflection = SavedReflection(id: string, swipeId: string, chips: seq<Json>, note: Option<Json>, createdAt: int)

  /**
   * The handler, for a caller who passed `requireAuth` and
   * `requireWorkspace`. `reflectionId` is the fresh uuid it would draw.
   */
  method SaveReflection(db: Store, userId: string, swipeId: Option<Json>, chips: Option<Json>, note: Option<Json>,
                        reflectionId: string, now: int) returns (r: Response<SavedReflection>)
    requires db.Valid() && db.IsMember(userId)
    requires forall s :: s in db.reflections ==> db.reflections[s].id != reflectionId
    modifies db
    ensures db.Valid()
    ensures db.users == old(db.users) && db.workspaces == old(db.workspaces) && db.swipes == old(db.swipes)
    ensures db.matches == old(db.matches) && db.progress == old(db.progress)
    ensures !r.Ok? ==> db.reflections == old(db.reflections)
    ensures RequiredString(swipeId).None? ==> r.BadRequest?
    ensures RequiredString(swipeId).Some? && ChipsOf(chips).None? ==> r.BadRequest?
    ensures RequiredString(swipeId).Some? && ChipsOf(chips).Some? ==>
      var id := RequiredString(swipeId).value;
      && (!OwnsSwipe(db.swipes, id, userId) ==> r.NotFound?)
      && forall k :: k in db.swipes && db.swipes[k].id == id && db.swipes[k].userId == userId ==>
           && (db.swipes[k].decision == Pass ==> r.BadRequest?)
           && (db.swipes[k].decision == Like && BoundNote(note).None? ==> r.ServerError?)
           && (db.swipes[k].decision == Like && BoundNote(note).Some? ==> r.Ok?)
    ensures r.Ok? ==>
      var id := RequiredString(swipeId).value;
      var c := ChipsOf(chips).value;
      && BoundNote(note).Some?
      && db.reflections == UpsertReflection(old(db.reflections), id, userId, c, BoundNote(note).value, reflectionId, now)
      && r.value == SavedReflection(db.reflections[id].id, id, c, OrNull(note), now)
  {
    var id := RequiredString(swipeId);
    if id.None? {
      return BadRequest("swipeId is required");
    }
    var c := ChipsOf(chips);
    if c.None? {
      return BadRequest("chips must be an array");
    }
    var key := SelectKey(db.swipes, (s: Swipe) => s.id == id.value && s.userId == userId);
    if key.None? {
      return NotFound("Swipe not found");
    }
    var swipe := db.swipes[key.value];
    if swipe.decision != Like {
      return BadRequest("Reflections are only allowed on Like swipes");
    }
    var bound := BoundNote(note);
    if bound.None? {
      return ServerError("Wrong API use : tried to bind a value of an unknown type");
    }
    var stored := WriteReflection(db, id.value, userId, c.value, bound.value, reflectionId, now);
    r := Ok(SavedReflection(stored, id.value, c.value, OrNull(note), now));
  }

  /** The UPDATE of the swipe's reflection row, or the INSERT of a new one, with the bound `note`; `rowId` is the row's id. */
  method WriteReflection(db: Store, swipeId: string, userId: string, chips: seq<Json>, note: Option<Json>,
                         reflectionId: string, now: int) returns (rowId: string)
    requires db.Valid()
    requires forall s :: s in db.reflections ==> db.reflections[s].id != reflectionId
    modifies db
    ensures db.Valid()
    ensures db.reflections == UpsertReflection(old(db.reflections), swipeId, userId, chips, note, reflectionId, now)
    ensures rowId == db.reflections[swipeId].id
    ensures db.users == old(db.users) && db.workspaces == old(db.workspaces) && db.swipes == old(db.swipes)
    ensures db.matches == old(db.matches) && db.progress == old(db.progress)
  {
    ghost var after := UpsertReflection(db.reflections, swipeId, userId, chips, note, reflectionId, now);
    if swipeId in db.reflections {
      rowId := db.reflections[swipeId].id;
      db.reflections := db.reflections[swipeId := db.reflections[swipeId].(chips := chips, note := note, createdAt := now)];
    } else {
      rowId := reflectionId;
      db.reflections := db.reflections[swipeId := Reflection(reflectionId, swipeId, userId, chips, note, now)];
    }
    assert db.reflections == after;
  }
}
