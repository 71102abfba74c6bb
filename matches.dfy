/**
 * `GET /api/matches` and `GET /api/matches/:id`
 * (backend/src/routes/matches.ts): a workspace's matches, newest first,
 * each with the fundraise it is for and the reflections of the members who
 * liked it.
 */
module MatchesRoutes {
  import opened Wrappers
  import opened Json
  import opened Types
  import opened FeedGenerator
  import opened Database
  import opened Query
  import opened Swipes

  // ---------------------------------------------------------------------------
  // getReflectionsForMatch

  datatype UserReflection = UserReflection(
    userId: string,
    userName: string,
    displayName: string,
    chips: seq<Json>,
    note: Option<Json>,
    likedAt: int)

  /** The rows the JOIN selects: likes of the fundraise in the mode by users now in the workspace. */
  function LikeRows(users: map<string, User>, swipes: map<SwipeKey, Swipe>, workspaceId: string,
                    fundraiseId: string, mode: Mode): (r: set<Swipe>)
    ensures forall s :: s in r <==>
      && s in swipes.Values && s.fundraiseId == fundraiseId && s.mode == mode && s.decision == Like
      && s.userId in Members(users, workspaceId)
  {
    set k | k in swipes && swipes[k].fundraiseId == fundraiseId && swipes[k].mode == mode &&
            swipes[k].decision == Like && swipes[k].userId in Members(users, workspaceId) :: swipes[k]
  }

  /** One element of `likes.map(...)`: the liker, and the chips and note of the reflection on the like. */
  function ReflectionView(users: map<string, User>, reflections: map<string, Reflection>, like: Swipe)
    : (v: UserReflection)
    requires like.userId in users
    ensures v.userId == like.userId && v.likedAt == like.createdAt
    ensures v.userName == users[like.userId].name && v.displayName == users[like.userId].displayName
    ensures like.id in reflections ==> v.chips == reflections[like.id].chips && v.note == OrNull(reflections[like.id].note)
    ensures like.id !in reflections ==> v.chips == [] && v.note == None
    ensures v.note == None || Truthy(v.note)
  {
    var reflection := if like.id in reflections then Some(reflections[like.id]) else None;
    UserReflection(
      like.userId, users[like.userId].name, users[like.userId].displayName,
      if reflection.Some? then reflection.value.chips else [],
      OrNull(if reflection.Some? then reflection.value.note else None),
      like.createdAt)
  }

  /** The views of all the like rows. */
  function ReflectionViews(users: map<string, User>, swipes: map<SwipeKey, Swipe>,
                           reflections: map<string, Reflection>, workspaceId: string,
                           fundraiseId: string, mode: Mode): set<UserReflection>
  {
    set s | s in LikeRows(users, swipes, workspaceId, fundraiseId, mode) && s.userId in users
      :: ReflectionView(users, reflections, s)
  }

  /** A list of reflections as the handler returns it: one per like row, the earliest like first. */
  ghost predicate ReflectionsFor(r: seq<UserReflection>, users: map<string, User>, swipes: map<SwipeKey, Swipe>,
                           reflections: map<string, Reflection>, workspaceId: string,
                           fundraiseId: string, mode: Mode) {
    && |r| == |LikeRows(users, swipes, workspaceId, fundraiseId, mode)|
    && (forall v :: v in r <==> v in ReflectionViews(users, swipes, reflections, workspaceId, fundraiseId, mode))
    && (forall i, j :: 0 <= i < j < |r| ==> r[i].likedAt <= r[j].likedAt)
  }

  /** `getReflectionsForMatch`: the like rows ordered by time, each turned into its view. */
  method GetReflectionsForMatch(db: Store, workspaceId: string, fundraiseId: string, mode: Mode)
    returns (r: seq<UserReflection>)
    ensures ReflectionsFor(r, db.users, db.swipes, db.reflections, workspaceId, fundraiseId, mode)
  {
    var rows := LikeRows(db.users, db.swipes, workspaceId, fundraiseId, mode);
    var likes := OrderBy(rows, (s: Swipe) => s.createdAt, false);
    r := [];
    for i := 0 to |likes|
      invariant |r| == i
      invariant forall k :: 0 <= k < i ==>
        likes[k].userId in db.users && r[k] == ReflectionView(db.users, db.reflections, likes[k])
    {
      assert likes[i] in rows;
      r := r + [ReflectionView(db.users, db.reflections, likes[i])];
    }
    var views := ReflectionViews(db.users, db.swipes, db.reflections, workspaceId, fundraiseId, mode);
    forall v | v in views ensures v in r {
      var s :| s in rows && s.userId in db.users && v == ReflectionView(db.users, db.reflections, s);
      var k :| 0 <= k < |likes| && likes[k] == s;
      assert r[k] == v;
    }
    forall i, j | 0 <= i < j < |r| ensures r[i].likedAt <= r[j].likedAt {
      assert Before((s: Swipe) => s.createdAt, false, likes[i], likes[j]);
    }
  }

  /** The user ids among the views are exactly the members who like the fundraise in the mode. */
  lemma ViewsAreLikers(users: map<string, User>, swipes: map<SwipeKey, Swipe>,
                       reflections: map<string, Reflection>, workspaceId: string,
                       fundraiseId: string, mode: Mode)
    requires SwipesKeyed(swipes)
    ensures (set v | v in ReflectionViews(users, swipes, reflections, workspaceId, fundraiseId, mode) :: v.userId)
         == Likers(users, swipes, workspaceId, fundraiseId, mode)
  {
    var views := ReflectionViews(users, swipes, reflections, workspaceId, fundraiseId, mode);
    var likers := Likers(users, swipes, workspaceId, fundraiseId, mode);
    forall u | u in likers ensures u in (set v | v in views :: v.userId) {
      var s := swipes[SwipeKey(u, fundraiseId, mode)];
      assert s in LikeRows(users, swipes, workspaceId, fundraiseId, mode);
      assert ReflectionView(users, reflections, s) in views;
    }
  }

  /** Once a match exists, its reflection list names every member of the workspace. */
  lemma MatchListsEveryMember(users: map<string, User>, swipes: map<SwipeKey, Swipe>,
                              reflections: map<string, Reflection>, workspaceId: string,
                              fundraiseId: string, mode: Mode)
    requires SwipesKeyed(swipes)
    requires Qualifies(users, swipes, workspaceId, fundraiseId, mode)
    ensures (set v | v in ReflectionViews(users, swipes, reflections, workspaceId, fundraiseId, mode) :: v.userId)
         == Members(users, workspaceId)
  {
    ViewsAreLikers(users, swipes, reflections, workspaceId, fundraiseId, mode);
    SubsetAsLarge(Likers(users, swipes, workspaceId, fundraiseId, mode), Members(users, workspaceId));
  }

  // ---------------------------------------------------------------------------
  // The fundraise lookup map

  /** `new Map()` filled by `set(f.id, f)` over `s` in order: a later record replaces an earlier one. */
  function IndexById(s: seq<Fundraise>): map<string, Fundraise>
    decreases |s|
  {
    if s == [] then map[]
    else IndexById(s[..|s| - 1])[s[|s| - 1].id := s[|s| - 1]]
  }

  /** The map holds an entry for every record's id, and each entry is a record with that id. */
  lemma {:induction false} IndexByIdEntries(s: seq<Fundraise>)
    ensures forall f :: f in s ==> f.id in IndexById(s)
    ensures forall id :: id in IndexById(s) ==> IndexById(s)[id] in s && IndexById(s)[id].id == id
    decreases |s|
  {
    if s != [] {
      var front := s[..|s| - 1];
      IndexByIdEntries(front);
      assert s == front + [s[|s| - 1]];
    }
  }

  /** An id present in the later part is looked up there; one only in the earlier part, there. */
  lemma {:induction false} IndexByIdLaterWins(s: seq<Fundraise>, t: seq<Fundraise>)
    ensures forall id :: id in IndexById(t) ==> id in IndexById(s + t) && IndexById(s + t)[id] == IndexById(t)[id]
    ensures forall id :: id in IndexById(s) && id !in IndexById(t) ==>
      id in IndexById(s + t) && IndexById(s + t)[id] == IndexById(s)[id]
    decreases |t|
  {
    if t == [] {
      assert s + t == s;
    } else {
      var t' := t[..|t| - 1];
      assert (s + t)[..|s + t| - 1] == s + t';
      IndexByIdLaterWins(s, t');
    }
  }

  /** With distinct ids, every record is its own id's entry. */
  lemma {:induction false} IndexByIdDistinct(s: seq<Fundraise>)
    requires forall i, j :: 0 <= i < j < |s| ==> s[i].id != s[j].id
    ensures forall i :: 0 <= i < |s| ==> s[i].id in IndexById(s) && IndexById(s)[s[i].id] == s[i]
    decreases |s|
  {
    if s != [] {
      var front := s[..|s| - 1];
      IndexByIdDistinct(front);
      forall i | 0 <= i < |s| ensures s[i].id in IndexById(s) && IndexById(s)[s[i].id] == s[i] {
        if i < |s| - 1 {
          assert front[i] == s[i];
        }
      }
    }
  }

  /** Indexing one more record overwrites its id's entry. */
  lemma IndexSnoc(s: seq<Fundraise>, x: Fundraise)
    ensures IndexById(s + [x]) == IndexById(s)[x.id := x]
  {
    assert (s + [x])[..|s|] == s;
  }

  /** One `forEach` that sets `fundraiseMap.set(f.id, f)` for each record of `xs`, after `done`. */
  method IndexInto(m0: map<string, Fundraise>, ghost done: seq<Fundraise>, xs: seq<Fundraise>) returns (m: map<string, Fundraise>)
    requires m0 == IndexById(done)
    ensures m == IndexById(done + xs)
  {
    m := m0;
    assert done + xs[..0] == done;
    for j := 0 to |xs|
      invariant m == IndexById(done + xs[..j])
    {
      assert done + xs[..j + 1] == (done + xs[..j]) + [xs[j]];
      IndexSnoc(done + xs[..j], xs[j]);
      m := m[xs[j].id := xs[j]];
    }
    assert done + xs[..|xs|] == done + xs;
  }

  /** The two `forEach` loops: archive first, then recent. */
  method BuildFundraiseMap(archive: seq<Fundraise>, recent: seq<Fundraise>) returns (m: map<string, Fundraise>)
    ensures m == IndexById(archive + recent)
  {
    m := IndexInto(map[], [], archive);
    assert [] + archive == archive;
    m := IndexInto(m, archive, recent);
  }

  /** `fundraiseMap.get(id)`. */
  function Lookup(m: map<string, Fundraise>, id: string): (r: Option<Fundraise>)
    ensures r.Some? <==> id in m
    ensures r.Some? ==> r.value == m[id]
  {
    if id in m then Some(m[id]) else None
  }

  // ---------------------------------------------------------------------------
  // GET /

  datatype MatchListItem = MatchListItem(
    id: string,
    fundraiseId: string,
    companyName: string,
    description: string,
    stage: string,
    amountRaised: string,
    mode: Mode,
    matchedAt: int,
    reflections: seq<UserReflection>)

  /** A list entry, with `'Unknown Company'` and `''` for a fundraise no longer in the feeds. */
  function ItemOf(m: MatchRecord, fundraise: Option<Fundraise>, reflections: seq<UserReflection>)
    : (item: MatchListItem)
    ensures item.id == m.id && item.fundraiseId == m.fundraiseId && item.mode == m.mode
    ensures item.matchedAt == m.createdAt && item.reflections == reflections
    ensures item.companyName != ""
    ensures fundraise.Some? && fundraise.value.companyName != "" ==> item.companyName == fundraise.value.companyName
    ensures fundraise.None? ==>
      item.companyName == "Unknown Company" && item.description == "" && item.stage == "" && item.amountRaised == ""
    ensures fundraise.Some? ==>
      && item.description == fundraise.value.description
      && item.stage == StageName(fundraise.value.stage)
      && item.amountRaised == fundraise.value.amountRaised
  {
    MatchListItem(
      m.id, m.fundraiseId,
      if fundraise.Some? && fundraise.value.companyName != "" then fundraise.value.companyName else "Unknown Company",
      if fundraise.Some? then fundraise.value.description else "",
      if fundraise.Some? then StageName(fundraise.value.stage) else "",
      if fundraise.Some? then fundraise.value.amountRaised else "",
      m.mode, m.createdAt, reflections)
  }

  /** `SELECT * FROM matches WHERE workspace_id = ?`. */
  function WorkspaceMatches(matches: map<MatchKey, MatchRecord>, workspaceId: string): (r: set<MatchRecord>)
    ensures forall m :: m in r <==> m in matches.Values && m.workspaceId == workspaceId
  {
    set k | k in matches && matches[k].workspaceId == workspaceId :: matches[k]
  }

  /** The lookup map of a workspace: its archive feed, then its recent feed. */
  function FundraiseMapOf(db: Store, seed: string): map<string, Fundraise>
    reads db, db.feeds
  {
    IndexById(FeedOf(Archive, seed, db.feeds.archive, db.feeds.recent) +
              FeedOf(Recent, seed, db.feeds.archive, db.feeds.recent))
  }

  /** The two `getFeed` calls, archive then recent; `None` when loading threw. */
  method GetBothFeeds(feeds: FeedStore, seed: string) returns (both: Option<(seq<Fundraise>, seq<Fundraise>)>)
    requires feeds.Valid()
    modifies feeds
    ensures feeds.Valid()
    ensures feeds.LoadedFrom(old(feeds.isLoaded), old(feeds.archive), old(feeds.recent))
    ensures both.Some? <==> feeds.isLoaded
    ensures both.Some? ==>
      both.value == (FeedOf(Archive, seed, feeds.archive, feeds.recent), FeedOf(Recent, seed, feeds.archive, feeds.recent))
  {
    var archiveFeed := feeds.GetFeed(Archive, seed);
    if archiveFeed.None? {
      return None;
    }
    var recentFeed := feeds.GetFeed(Recent, seed);
    both := Some((archiveFeed.value, recentFeed.value));
  }

  /** `matches.map(...)`: one list entry per match, in the order given. */
  method BuildItems(db: Store, workspaceId: string, matches: seq<MatchRecord>, fundraiseMap: map<string, Fundraise>)
    returns (items: seq<MatchListItem>)
    ensures |items| == |matches|
    ensures forall k :: 0 <= k < |matches| ==>
      && items[k] == ItemOf(matches[k], Lookup(fundraiseMap, matches[k].fundraiseId), items[k].reflections)
      && ReflectionsFor(items[k].reflections, db.users, db.swipes, db.reflections,
                        workspaceId, matches[k].fundraiseId, matches[k].mode)
  {
    items := [];
    for i := 0 to |matches|
      invariant |items| == i
      invariant forall k :: 0 <= k < i ==>
        && items[k] == ItemOf(matches[k], Lookup(fundraiseMap, matches[k].fundraiseId), items[k].reflections)
        && ReflectionsFor(items[k].reflections, db.users, db.swipes, db.reflections,
                          workspaceId, matches[k].fundraiseId, matches[k].mode)
    {
      var m := matches[i];
      var reflections := GetReflectionsForMatch(db, workspaceId, m.fundraiseId, m.mode);
      items := items + [ItemOf(m, Lookup(fundraiseMap, m.fundraiseId), reflections)];
    }
  }

  /**
   * `GET /`, for a caller who passed `requireAuth` and `requireWorkspace`.
   * `ordered` is the order the matches query returned.
   */
  method ListMatches(db: Store, userId: string) returns (r: Response<seq<MatchListItem>>, ghost ordered: seq<MatchRecord>)
    requires db.Valid() && db.feeds.Valid() && db.IsMember(userId)
    modifies db.feeds
    ensures db.Valid() && db.feeds.Valid()
    ensures db.WorkspaceOf(userId) !in db.workspaces ==> r.NotFound? && unchanged(db.feeds)
    ensures db.WorkspaceOf(userId) in db.workspaces ==>
      && db.feeds.LoadedFrom(old(db.feeds.isLoaded), old(db.feeds.archive), old(db.feeds.recent))
      && (r.Ok? <==> db.feeds.isLoaded)
      && (!r.Ok? ==> r.ServerError?)
    ensures r.Ok? ==>
      var ws := db.WorkspaceOf(userId);
      var fundraiseMap := FundraiseMapOf(db, db.workspaces[ws].seed);
      && |ordered| == |WorkspaceMatches(db.matches, ws)|
      && (forall m :: m in ordered <==> m in WorkspaceMatches(db.matches, ws))
      && Ordered(ordered, (m: MatchRecord) => m.createdAt, true)
      && |r.value| == |ordered|
      && forall i :: 0 <= i < |ordered| ==>
        && r.value[i] == ItemOf(ordered[i], Lookup(fundraiseMap, ordered[i].fundraiseId), r.value[i].reflections)
        && ReflectionsFor(r.value[i].reflections, db.users, db.swipes, db.reflections,
                          ws, ordered[i].fundraiseId, ordered[i].mode)
  {
    ordered := [];
    var workspaceId := db.users[userId].workspaceId.value;
    if workspaceId !in db.workspaces {
      return NotFound("Workspace not found"), ordered;
    }
    var matches := OrderBy(WorkspaceMatches(db.matches, workspaceId), (m: MatchRecord) => m.createdAt, true);
    ordered := matches;
    var both := GetBothFeeds(db.feeds, db.workspaces[workspaceId].seed);
    if both.None? {
      return ServerError("Failed to load fundraise data"), ordered;
    }
    var fundraiseMap := BuildFundraiseMap(both.value.0, both.value.1);
    var items := BuildItems(db, workspaceId, matches, fundraiseMap);
    r := Ok(items);
  }

  // ---------------------------------------------------------------------------
  // GET /:id

  /** `feed.find((f) => f.id === id)`: the first record with the id. */
  function FindById(s: seq<Fundraise>, id: string): (r: Option<Fundraise>)
    ensures r.None? <==> forall k :: 0 <= k < |s| ==> s[k].id != id
    ensures r.Some? ==> r.value in s && r.value.id == id
    ensures r.Some? ==> exists k :: 0 <= k < |s| && s[k] == r.value && forall j :: 0 <= j < k ==> s[j].id != id
    decreases |s|
  {
    if s == [] then None
    else if s[0].id == id then Some(s[0])
    else
      var r := FindById(s[1..], id);
      assert forall k :: 1 <= k < |s| ==> s[k] == s[1..][k - 1];
      if r.Some? then
        var k :| 0 <= k < |s[1..]| && s[1..][k] == r.value && forall j :: 0 <= j < k ==> s[1..][j].id != id;
        assert s[k + 1] == r.value;
        r
      else r
  }

  datatype MatchDetail = MatchDetail(item: MatchListItem, fundraise: Fundraise)

  /** `SELECT * FROM matches WHERE id = ? AND workspace_id = ?` finds a row. */
  predicate HasMatch(matches: map<MatchKey, MatchRecord>, matchId: string, workspaceId: string) {
    exists k :: k in matches && matches[k].id == matchId && matches[k].workspaceId == workspaceId
  }

  /**
   * `GET /:id`, for a caller who passed `requireAuth` and
   * `requireWorkspace`: the match of the caller's workspace with that id,
   * the record with its fundraise id in the feed of the match's mode, and
   * the reflections.
   */
  method GetMatchDetail(db: Store, userId: string, matchId: string) returns (r: Response<MatchDetail>)
    requires db.Valid() && db.feeds.Valid() && db.IsMember(userId)
    modifies db.feeds
    ensures db.Valid() && db.feeds.Valid()
    ensures !HasMatch(db.matches, matchId, db.WorkspaceOf(userId)) ==> r.NotFound? && unchanged(db.feeds)
    ensures db.WorkspaceOf(userId) !in db.workspaces ==> r.NotFound? && unchanged(db.feeds)
    ensures HasMatch(db.matches, matchId, db.WorkspaceOf(userId)) && db.WorkspaceOf(userId) in db.workspaces ==>
      && db.feeds.LoadedFrom(old(db.feeds.isLoaded), old(db.feeds.archive), old(db.feeds.recent))
      && (!db.feeds.isLoaded ==> r.ServerError?)
      && (db.feeds.isLoaded ==> r.Ok? || r.NotFound?)
    ensures r.NotFound? && db.feeds.isLoaded && db.WorkspaceOf(userId) in db.workspaces ==>
      var ws := db.WorkspaceOf(userId);
      forall k :: k in db.matches && db.matches[k].id == matchId && db.matches[k].workspaceId == ws ==>
        FindById(FeedOf(k.mode, db.workspaces[ws].seed, db.feeds.archive, db.feeds.recent), k.fundraiseId).None?
    ensures r.Ok? ==>
      var ws := db.WorkspaceOf(userId);
      var item := r.value.item;
      var key := MatchKey(ws, item.fundraiseId, item.mode);
      && key in db.matches && db.matches[key].id == matchId && item.id == matchId
      && item.matchedAt == db.matches[key].createdAt
      && FindById(FeedOf(item.mode, db.workspaces[ws].seed, db.feeds.archive, db.feeds.recent), item.fundraiseId)
         == Some(r.value.fundraise)
      && item.companyName == r.value.fundraise.companyName
      && item.description == r.value.fundraise.description
      && item.stage == StageName(r.value.fundraise.stage)
      && item.amountRaised == r.value.fundraise.amountRaised
      && ReflectionsFor(item.reflections, db.users, db.swipes, db.reflections, ws, item.fundraiseId, item.mode)
  {
    var workspaceId := db.users[userId].workspaceId.value;
    var key := SelectKey(db.matches, (m: MatchRecord) => m.id == matchId && m.workspaceId == workspaceId);
    if key.None? {
      return NotFound("Match not found");
    }
    var m := db.matches[key.value];
    if workspaceId !in db.workspaces {
      return NotFound("Workspace not found");
    }
    var feed := db.feeds.GetFeed(m.mode, db.workspaces[workspaceId].seed);
    if feed.None? {
      return ServerError("Failed to load fundraise data");
    }
    var fundraise := FindById(feed.value, m.fundraiseId);
    if fundraise.None? {
      return NotFound("Fundraise not found");
    }
    var reflections := GetReflectionsForMatch(db, workspaceId, m.fundraiseId, m.mode);
    var f := fundraise.value;
    var item := MatchListItem(m.id, m.fundraiseId, f.companyName, f.description, StageName(f.stage),
                              f.amountRaised, m.mode, m.createdAt, reflections);
    r := Ok(MatchDetail(item, f));
  }
}
