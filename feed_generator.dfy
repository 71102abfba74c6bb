/**
 * The backend feed generator (backend/src/services/feedGenerator.ts): two
 * in-memory datasets filled once from CSV files, the seeded archive feed and
 * the newest-first recent feed.
 *
 * The two data files are constructor parameters: `None` when the file does
 * not exist, `Some(text)` with its contents otherwise. Row ids and the clock
 * used by the import are oracles carried by the store.
 */
module FeedGenerator {
  import opened Wrappers
  import opened Seqs
  import opened Types
  import opened CsvImporter
  import opened Dedup
  import opened DeterministicShuffle

  // ---------------------------------------------------------------------------
  // getRecentFeed: a stable sort on announced_at, newest first

  /** `announced_at` never increases along the sequence. */
  predicate NewestFirst(s: seq<Fundraise>) {
    forall i, j :: 0 <= i < j < |s| ==> s[i].announcedAt >= s[j].announcedAt
  }

  /** Inserts `x` in front of the first record that is not newer than it. */
  function InsertByTime(x: Fundraise, s: seq<Fundraise>): (r: seq<Fundraise>)
    ensures |r| == |s| + 1
    ensures multiset(r) == multiset(s) + multiset{x}
    decreases |s|
  {
    if s == [] || s[0].announcedAt <= x.announcedAt then [x] + s
    else
      assert s == [s[0]] + s[1..];
      [s[0]] + InsertByTime(x, s[1..])
  }

  /**
   * `[...recent].sort((a, b) => b.announced_at - a.announced_at)`. JavaScript's
   * sort is stable, so records announced at the same time keep their order.
   */
  function SortNewestFirst(s: seq<Fundraise>): (r: seq<Fundraise>)
    ensures |r| == |s|
    ensures multiset(r) == multiset(s)
    decreases |s|
  {
    if s == [] then []
    else
      assert s == [s[0]] + s[1..];
      InsertByTime(s[0], SortNewestFirst(s[1..]))
  }

  lemma {:induction false} InsertNewestFirst(x: Fundraise, s: seq<Fundraise>)
    requires NewestFirst(s)
    ensures NewestFirst(InsertByTime(x, s))
    decreases |s|
  {
    if s != [] && s[0].announcedAt > x.announcedAt {
      InsertNewestFirst(x, s[1..]);
      var tail := InsertByTime(x, s[1..]);
      forall k | 0 <= k < |tail| ensures s[0].announcedAt >= tail[k].announcedAt {
        assert tail[k] in multiset(s[1..]) + multiset{x};
        if tail[k] != x {
          var m :| 0 <= m < |s[1..]| && s[1..][m] == tail[k];
          assert s[m + 1] == tail[k];
        }
      }
    }
  }

  /** The recent feed is newest first. */
  lemma {:induction false} SortNewestFirstOrdered(s: seq<Fundraise>)
    ensures NewestFirst(SortNewestFirst(s))
    decreases |s|
  {
    if s != [] {
      SortNewestFirstOrdered(s[1..]);
      InsertNewestFirst(s[0], SortNewestFirst(s[1..]));
    }
  }

  /** Selects the records announced at time `t`. */
  function AtTime(t: int): Fundraise -> bool {
    (f: Fundraise) => f.announcedAt == t
  }

  /** Inserting `x` puts it in front of every record with its own time. */
  lemma {:induction false} InsertAtTime(x: Fundraise, s: seq<Fundraise>, t: int)
    ensures Filter(InsertByTime(x, s), AtTime(t))
         == (if x.announcedAt == t then [x] + Filter(s, AtTime(t)) else Filter(s, AtTime(t)))
    decreases |s|
  {
    var r := InsertByTime(x, s);
    if s == [] || s[0].announcedAt <= x.announcedAt {
      assert r[0] == x && r[1..] == s;
    } else {
      assert r[0] == s[0] && r[1..] == InsertByTime(x, s[1..]);
      InsertAtTime(x, s[1..], t);
    }
  }

  /** Stability: the records of any one time appear in their dataset order. */
  lemma {:induction false} SortNewestFirstStable(s: seq<Fundraise>, t: int)
    ensures Filter(SortNewestFirst(s), AtTime(t)) == Filter(s, AtTime(t))
    decreases |s|
  {
    if s != [] {
      SortNewestFirstStable(s[1..], t);
      InsertAtTime(s[0], SortNewestFirst(s[1..]), t);
    }
  }

  // ---------------------------------------------------------------------------
  // getFeed

  /** The feed of one mode, given the two datasets. */
  function FeedOf(mode: Mode, workspaceSeed: string, archive: seq<Fundraise>, recent: seq<Fundraise>): seq<Fundraise> {
    match mode
    case Archive => Shuffled(archive, workspaceSeed)
    case Recent => SortNewestFirst(recent)
  }

  /** Each feed is a permutation of its own dataset; the recent one is newest first. */
  lemma FeedPermutes(mode: Mode, workspaceSeed: string, archive: seq<Fundraise>, recent: seq<Fundraise>)
    ensures mode == Archive ==> multiset(FeedOf(mode, workspaceSeed, archive, recent)) == multiset(archive)
    ensures mode == Recent ==> multiset(FeedOf(mode, workspaceSeed, archive, recent)) == multiset(recent)
    ensures mode == Recent ==> NewestFirst(FeedOf(mode, workspaceSeed, archive, recent))
  {
    if mode == Archive {
      ShuffledPermutes(archive, workspaceSeed);
    } else {
      SortNewestFirstOrdered(recent);
    }
  }

  /** The recent feed is the same for every workspace; the archive feed depends only on the seed. */
  lemma FeedSharedBySeed(workspaceSeed: string, otherSeed: string, archive: seq<Fundraise>, recent: seq<Fundraise>)
    ensures FeedOf(Recent, workspaceSeed, archive, recent) == FeedOf(Recent, otherSeed, archive, recent)
    ensures FeedOf(Archive, workspaceSeed, archive, recent) == DeterministicShuffle.Shuffled(archive, workspaceSeed)
  {
  }

  // ---------------------------------------------------------------------------
  // The module state

  /** The dataset a data file yields: empty when absent, `None` when the import throws. */
  function Dataset(file: Option<string>, ids: nat -> string, ctx: Context): (r: Option<seq<Fundraise>>)
    ensures r.Some? ==> UniqueKeys(r.value)
    ensures file.None? ==> r == Some([])
  {
    match file
    case None => Some([])
    case Some(text) =>
      match ImportFromCsv(text, ids, ctx)
      case None => None
      case Some(data) => KeepFirstUnique(data); Some(KeepFirst(data))
  }

  /** What a load attempt leaves behind. */
  datatype LoadOutcome = LoadOutcome(ok: bool, archive: seq<Fundraise>, recent: seq<Fundraise>)

  datatype DatasetStats = DatasetStats(archiveCount: nat, recentCount: nat)

  /** `archiveFundraises`, `recentFundraises` and `isLoaded`, with the files they are loaded from. */
  class FeedStore {
    var archive: seq<Fundraise>
    var recent: seq<Fundraise>
    var isLoaded: bool

    const yearlyFile: Option<string>
    const recentFile: Option<string>
    const archiveIds: nat -> string
    const recentIds: nat -> string
    const ctx: Context

    /** Both datasets hold unique keys; once loaded, they are the datasets of the files. */
    predicate Valid()
      reads this
    {
      && UniqueKeys(archive)
      && UniqueKeys(recent)
      && (isLoaded ==>
            Dataset(yearlyFile, archiveIds, ctx) == Some(archive) &&
            Dataset(recentFile, recentIds, ctx) == Some(recent))
    }

    constructor(yearlyFile: Option<string>, recentFile: Option<string>,
                archiveIds: nat -> string, recentIds: nat -> string, ctx: Context)
      ensures Valid()
      ensures archive == [] && recent == [] && !isLoaded
      ensures this.yearlyFile == yearlyFile && this.recentFile == recentFile
      ensures this.archiveIds == archiveIds && this.recentIds == recentIds && this.ctx == ctx
    {
      archive := [];
      recent := [];
      isLoaded := false;
      this.yearlyFile := yearlyFile;
      this.recentFile := recentFile;
      this.archiveIds := archiveIds;
      this.recentIds := recentIds;
      this.ctx := ctx;
    }

    /**
     * The work of an unguarded load, from datasets `archive0` and `recent0`:
     * the archive is replaced first, so a throwing recent import leaves the
     * new archive in place and the flag unset.
     */
    function LoadFrom(archive0: seq<Fundraise>, recent0: seq<Fundraise>): LoadOutcome {
      var a := Dataset(yearlyFile, archiveIds, ctx);
      var r := Dataset(recentFile, recentIds, ctx);
      if a.None? then LoadOutcome(false, archive0, recent0)
      else if r.None? then LoadOutcome(false, a.value, recent0)
      else LoadOutcome(true, a.value, r.value)
    }

    /**
     * What a call that may load leaves behind, given the state before it:
     * nothing changes when the data was loaded, an unguarded load otherwise.
     */
    predicate LoadedFrom(wasLoaded: bool, archive0: seq<Fundraise>, recent0: seq<Fundraise>)
      reads this
    {
      && (wasLoaded ==> isLoaded && archive == archive0 && recent == recent0)
      && (!wasLoaded ==> LoadOutcome(isLoaded, archive, recent) == LoadFrom(archive0, recent0))
    }

    /** Imports one data file and de-duplicates it. */
    method LoadFile(file: Option<string>, ids: nat -> string) returns (data: Option<seq<Fundraise>>)
      ensures data == Dataset(file, ids, ctx)
    {
      if file.None? {
        return Some([]);
      }
      var imported := ImportFromCsv(file.value, ids, ctx);
      if imported.None? {
        return None;
      }
      var unique := DeduplicateFundraises(imported.value);
      return Some(unique);
    }

    /**
     * `loadFundraiseData`: returns at once when already loaded; otherwise
     * loads both files and sets the flag. `ok` is false when an import threw.
     */
    method LoadFundraiseData() returns (ok: bool)
      requires Valid()
      modifies this
      ensures Valid()
      ensures old(isLoaded) ==> ok && isLoaded && archive == old(archive) && recent == old(recent)
      ensures !old(isLoaded) ==> LoadOutcome(ok, archive, recent) == LoadFrom(old(archive), old(recent))
      ensures isLoaded == ok
    {
      if isLoaded {
        return true;
      }
      var a := LoadFile(yearlyFile, archiveIds);
      if a.None? {
        return false;
      }
      archive := a.value;
      var r := LoadFile(recentFile, recentIds);
      if r.None? {
        return false;
      }
      recent := r.value;
      isLoaded := true;
      ok := true;
    }

    /** `getArchiveFeed`: the seeded shuffle of the archive dataset. */
    method GetArchiveFeed(workspaceSeed: string) returns (feed: seq<Fundraise>)
      ensures feed == Shuffled(archive, workspaceSeed)
      ensures multiset(feed) == multiset(archive)
    {
      feed := DeterministicShuffle.DeterministicShuffle(archive, workspaceSeed);
    }

    /** `getRecentFeed`: the recent dataset, newest first, the dataset itself untouched. */
    function GetRecentFeed(): (feed: seq<Fundraise>)
      reads this
      ensures multiset(feed) == multiset(recent)
      ensures NewestFirst(feed)
      ensures forall t :: Filter(feed, AtTime(t)) == Filter(recent, AtTime(t))
    {
      SortNewestFirstOrdered(recent);
      forall t ensures Filter(SortNewestFirst(recent), AtTime(t)) == Filter(recent, AtTime(t)) {
        SortNewestFirstStable(recent, t);
      }
      SortNewestFirst(recent)
    }

    /** `getFeed`: loads first when needed, then the feed of the mode; `None` when loading threw. */
    method GetFeed(mode: Mode, workspaceSeed: string) returns (feed: Option<seq<Fundraise>>)
      requires Valid()
      modifies this
      ensures Valid()
      ensures old(isLoaded) ==> isLoaded && archive == old(archive) && recent == old(recent)
      ensures !old(isLoaded) ==> LoadOutcome(isLoaded, archive, recent) == LoadFrom(old(archive), old(recent))
      ensures feed.Some? <==> isLoaded
      ensures isLoaded ==> feed.value == FeedOf(mode, workspaceSeed, archive, recent)
    {
      if !isLoaded {
        var ok := LoadFundraiseData();
        if !ok {
          return None;
        }
      }
      if mode == Archive {
        var archiveFeed := GetArchiveFeed(workspaceSeed);
        feed := Some(archiveFeed);
      } else {
        feed := Some(GetRecentFeed());
      }
    }

    /** `getAllFundraises`: both datasets, after loading. */
    method GetAllFundraises() returns (all: Option<(seq<Fundraise>, seq<Fundraise>)>)
      requires Valid()
      modifies this
      ensures Valid()
      ensures old(isLoaded) ==> isLoaded && archive == old(archive) && recent == old(recent)
      ensures !old(isLoaded) ==> LoadOutcome(isLoaded, archive, recent) == LoadFrom(old(archive), old(recent))
      ensures all.Some? <==> isLoaded
      ensures isLoaded ==> all.value == (archive, recent)
    {
      var ok := LoadFundraiseData();
      if !ok {
        return None;
      }
      all := Some((archive, recent));
    }

    /** `getDatasetStats`: the sizes of the two datasets, after loading. */
    method GetDatasetStats() returns (stats: Option<DatasetStats>)
      requires Valid()
      modifies this
      ensures Valid()
      ensures old(isLoaded) ==> isLoaded && archive == old(archive) && recent == old(recent)
      ensures !old(isLoaded) ==> LoadOutcome(isLoaded, archive, recent) == LoadFrom(old(archive), old(recent))
      ensures stats.Some? <==> isLoaded
      ensures isLoaded ==> stats.value == DatasetStats(|archive|, |recent|)
    {
      var ok := LoadFundraiseData();
      if !ok {
        return None;
      }
      stats := Some(DatasetStats(|archive|, |recent|));
    }
  }
}
