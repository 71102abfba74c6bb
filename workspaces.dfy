/**
 * `POST /api/workspaces`, `POST /api/workspaces/join` and
 * `GET /api/workspaces/current` (backend/src/routes/workspaces.ts): a user
 * with no workspace creates one under a fresh invite code, or joins one by
 * typing its code; every signed-in user can see their workspace and its
 * members.
 */
module WorkspacesRoutes {
  import opened Wrappers
  import opened Json
  import opened JsStrings
  import opened RandomSource
  import opened Database
  import opened Query
  import opened InviteCode
  import opened DeterministicShuffle

  /** The do/while loop gives up after this many colliding codes. */
  const MaxAttempts: nat := 10

  /** Some workspace already uses the code. */
  predicate CodeTaken(workspaces: map<string, Workspace>, code: string) {
    exists w :: w in workspaces && workspaces[w].inviteCode == code
  }

  /** One `Math.random` stream per attempt, each long enough for a code. */
  predicate CodeStreams(draws: seq<seq<real>>) {
    |draws| >= MaxAttempts &&
    forall k :: 0 <= k < |draws| ==> |draws[k]| >= CodeLength && IsRandomStream(draws[k])
  }

  /** The code drawn at attempt `k`. */
  function CodeAt(draws: seq<seq<real>>, k: nat): (code: string)
    requires CodeStreams(draws) && k < |draws|
    ensures |code| == CodeLength
    ensures forall i :: 0 <= i < |code| ==> code[i] in Chars
  {
    InviteCodeOf(draws[k])
  }

  /** The code of the first attempt, from `attempt` on, that no workspace uses. */
  function FirstFreeCode(workspaces: map<string, Workspace>, draws: seq<seq<real>>, attempt: nat): (r: Option<string>)
    requires CodeStreams(draws)
    ensures r.None? <==> forall k :: attempt <= k < MaxAttempts ==> CodeTaken(workspaces, CodeAt(draws, k))
    ensures r.Some? ==> !CodeTaken(workspaces, r.value) && |r.value| == CodeLength
    ensures r.Some? ==> forall k :: 0 <= k < |r.value| ==> r.value[k] in Chars
    decreases MaxAttempts - attempt
  {
    if attempt >= MaxAttempts then None
    else if !CodeTaken(workspaces, CodeAt(draws, attempt)) then Some(CodeAt(draws, attempt))
    else FirstFreeCode(workspaces, draws, attempt + 1)
  }

  /** The do/while loop: draw a code, stop at the first free one, give up after ten. */
  method GenerateUniqueCode(workspaces: map<string, Workspace>, draws: seq<seq<real>>) returns (code: Option<string>)
    requires CodeStreams(draws)
    ensures code == FirstFreeCode(workspaces, draws, 0)
  {
    var attempts := 0;
    while attempts < MaxAttempts
      invariant 0 <= attempts <= MaxAttempts
      invariant FirstFreeCode(workspaces, draws, attempts) == FirstFreeCode(workspaces, draws, 0)
      decreases MaxAttempts - attempts
    {
      var candidate := GenerateInviteCode(draws[attempts]);
      var existing := SelectKey(workspaces, (w: Workspace) => w.inviteCode == candidate);
      if existing.None? {
        return Some(candidate);
      }
      attempts := attempts + 1;
    }
    return None;
  }

  /** A workspace under a new id with an unused code keeps invite codes unique. */
  lemma InsertKeepsCodesUnique(workspaces: map<string, Workspace>, w: Workspace)
    requires InviteCodesUnique(workspaces)
    requires w.id !in workspaces && !CodeTaken(workspaces, w.inviteCode)
    ensures InviteCodesUnique(workspaces[w.id := w])
  {
  }

  /** `name.trim()` fails on a body name that is truthy but not a string. */
  predicate NameThrows(name: Option<Json>) {
    Truthy(name) && !name.value.JString?
  }

  /** `!name || name.trim().length === 0` rejects. */
  predicate NameMissing(name: Option<Json>) {
    !Truthy(name) || (name.value.JString? && Trim(name.value.s) == "")
  }

  /**
   * `POST /`, for a caller who passed `requireAuth`. `workspaceId` is the
   * fresh uuid, `codeDraws` the streams of the code attempts and
   * `seedDraws` the stream of the seed.
   */
  method CreateWorkspace(db: Store, userId: string, name: Option<Json>, codeDraws: seq<seq<real>>,
                         seedDraws: seq<real>, workspaceId: string, now: int) returns (r: Response<Workspace>)
    requires db.Valid() && userId in db.users
    requires workspaceId != "" && workspaceId !in db.workspaces
    requires CodeStreams(codeDraws) && |seedDraws| >= SeedLength && IsRandomStream(seedDraws)
    modifies db
    ensures db.Valid()
    ensures !r.Ok? ==> unchanged(db)
    ensures NameMissing(name) ==> r.BadRequest?
    ensures NameThrows(name) ==> r.ServerError?
    ensures !NameMissing(name) && !NameThrows(name) && InWorkspace(old(db.users[userId])) ==> r.BadRequest?
    ensures !NameMissing(name) && !NameThrows(name) && !InWorkspace(old(db.users[userId])) ==>
      (r.Ok? <==> FirstFreeCode(old(db.workspaces), codeDraws, 0).Some?) && (!r.Ok? ==> r.ServerError?)
    ensures r.Ok? ==>
      && r.value == Workspace(workspaceId, Trim(name.value.s), WorkspaceSeedOf(seedDraws),
                              FirstFreeCode(old(db.workspaces), codeDraws, 0).value, now)
      && !CodeTaken(old(db.workspaces), r.value.inviteCode)
      && db.workspaces == old(db.workspaces)[workspaceId := r.value]
      && db.users == old(db.users)[userId := old(db.users[userId]).(workspaceId := Some(workspaceId))]
      && db.IsMember(userId) && db.WorkspaceOf(userId) == workspaceId
    ensures db.swipes == old(db.swipes) && db.matches == old(db.matches)
    ensures db.progress == old(db.progress) && db.reflections == old(db.reflections)
  {
    if !Truthy(name) {
      return BadRequest("Workspace name is required");
    }
    if !name.value.JString? {
      return ServerError("name.trim is not a function");
    }
    var trimmed := Trim(name.value.s);
    if trimmed == "" {
      return BadRequest("Workspace name is required");
    }
    var user := db.users[userId];
    if InWorkspace(user) {
      return BadRequest("User is already in a workspace");
    }
    var inviteCode := GenerateUniqueCode(db.workspaces, codeDraws);
    if inviteCode.None? {
      return ServerError("Failed to generate unique invite code");
    }
    var seed := GenerateWorkspaceSeed(seedDraws);
    var workspace := Workspace(workspaceId, trimmed, seed, inviteCode.value, now);
    AddWorkspace(db, userId, workspace);
    r := Ok(workspace);
  }

  /** The two writes of `POST /`: the new workspace row and the creator's `workspace_id`. */
  method AddWorkspace(db: Store, userId: string, w: Workspace)
    requires db.Valid() && userId in db.users
    requires w.id != "" && w.id !in db.workspaces && !CodeTaken(db.workspaces, w.inviteCode)
    modifies db
    ensures db.Valid()
    ensures db.workspaces == old(db.workspaces)[w.id := w]
    ensures db.users == old(db.users)[userId := old(db.users[userId]).(workspaceId := Some(w.id))]
    ensures db.IsMember(userId) && db.WorkspaceOf(userId) == w.id
    ensures db.swipes == old(db.swipes) && db.matches == old(db.matches)
    ensures db.progress == old(db.progress) && db.reflections == old(db.reflections)
  {
    InsertKeepsCodesUnique(db.workspaces, w);
    var user := db.users[userId];
    db.workspaces := db.workspaces[w.id := w];
    db.users := db.users[userId := user.(workspaceId := Some(w.id))];
  }

  /**
   * `POST /join`, for a caller who passed `requireAuth`: the workspace whose
   * code is the normalised typed code becomes the caller's.
   */
  method JoinWorkspace(db: Store, userId: string, inviteCode: Option<Json>) returns (r: Response<Workspace>)
    requires db.Valid() && userId in db.users
    modifies db
    ensures db.Valid()
    ensures !r.Ok? ==> unchanged(db)
    ensures !Truthy(inviteCode) ==> r.BadRequest?
    ensures Truthy(inviteCode) && InWorkspace(old(db.users[userId])) ==> r.BadRequest?
    ensures Truthy(inviteCode) && !InWorkspace(old(db.users[userId])) && !inviteCode.value.JString? ==> r.ServerError?
    ensures Truthy(inviteCode) && !InWorkspace(old(db.users[userId])) && inviteCode.value.JString? ==>
      (r.Ok? <==> CodeTaken(db.workspaces, NormalizeInviteCode(inviteCode.value.s))) && (!r.Ok? ==> r.NotFound?)
    ensures r.Ok? ==>
      && r.value.id in db.workspaces && db.workspaces[r.value.id] == r.value
      && r.value.inviteCode == NormalizeInviteCode(inviteCode.value.s)
      && db.users == old(db.users)[userId := old(db.users[userId]).(workspaceId := Some(r.value.id))]
    ensures db.workspaces == old(db.workspaces)
    ensures db.swipes == old(db.swipes) && db.matches == old(db.matches)
    ensures db.progress == old(db.progress) && db.reflections == old(db.reflections)
  {
    if !Truthy(inviteCode) {
      return BadRequest("Invite code is required");
    }
    var user := db.users[userId];
    if InWorkspace(user) {
      return BadRequest("User is already in a workspace");
    }
    if !inviteCode.value.JString? {
      return ServerError("code.toUpperCase is not a function");
    }
    var normalizedCode := NormalizeInviteCode(inviteCode.value.s);
    var key := SelectKey(db.workspaces, (w: Workspace) => w.inviteCode == normalizedCode);
    if key.None? {
      return NotFound("Invalid invite code");
    }
    var workspace := db.workspaces[key.value];
    db.users := db.users[userId := user.(workspaceId := Some(workspace.id))];
    r := Ok(workspace);
  }

  /**
   * A generated code, typed back in lower case, finds its own workspace and
   * no other: codes are their own normal form and unique across workspaces.
   */
  lemma TypedCodeFindsWorkspace(workspaces: map<string, Workspace>, id: string, draws: seq<real>)
    requires forall w :: w in workspaces ==> workspaces[w].id == w
    requires InviteCodesUnique(workspaces)
    requires |draws| >= CodeLength && IsRandomStream(draws)
    requires id in workspaces && workspaces[id].inviteCode == InviteCodeOf(draws)
    ensures NormalizeInviteCode(ToLower(workspaces[id].inviteCode)) == workspaces[id].inviteCode
    ensures forall w :: w in workspaces && workspaces[w].inviteCode == NormalizeInviteCode(ToLower(workspaces[id].inviteCode)) ==>
      workspaces[w] == workspaces[id]
  {
    var code := workspaces[id].inviteCode;
    NormalizeIgnoresCase(code);
    GeneratedCodeIsNormal(draws);
  }

  /** A member as `SELECT id, name, display_name, created_at FROM users` lists them. */
  datatype Member = Member(id: string, name: string, displayName: string, createdAt: int)

  function MemberOf(u: User): Member {
    Member(u.id, u.name, u.displayName, u.createdAt)
  }

  datatype CurrentWorkspace = CurrentWorkspace(workspace: Option<Workspace>, members: set<Member>)

  /**
   * `GET /current`, for a caller who passed `requireAuth`: their workspace
   * and its members, or `null` and no members when they have none or it
   * no longer exists.
   */
  function GetCurrentWorkspace(db: Store, userId: string): (r: CurrentWorkspace)
    reads db
    requires userId in db.users
    ensures r.workspace.None? ==> r.members == {}
    ensures r.workspace.None? <==> !InWorkspace(db.users[userId]) || db.users[userId].workspaceId.value !in db.workspaces
    ensures r.workspace.Some? ==>
      && r.workspace.value == db.workspaces[db.users[userId].workspaceId.value]
      && (forall m :: m in r.members <==>
            exists u :: u in Members(db.users, r.workspace.value.id) && m == MemberOf(db.users[u]))
  {
    var user := db.users[userId];
    if !InWorkspace(user) || user.workspaceId.value !in db.workspaces then CurrentWorkspace(None, {})
    else
      var workspace := db.workspaces[user.workspaceId.value];
      CurrentWorkspace(Some(workspace), set u | u in Members(db.users, workspace.id) :: MemberOf(db.users[u]))
  }

  /** The caller is listed among the members of their own workspace. */
  lemma CallerIsMember(db: Store, userId: string)
    requires userId in db.users
    requires forall w :: w in db.workspaces ==> db.workspaces[w].id == w
    requires db.users[userId].id == userId
    requires GetCurrentWorkspace(db, userId).workspace.Some?
    ensures MemberOf(db.users[userId]) in GetCurrentWorkspace(db, userId).members
  {
    assert userId in Members(db.users, GetCurrentWorkspace(db, userId).workspace.value.id);
  }
}
