/**
 * The front-end fundraise service (front-end/src/services/fundraiseService.ts):
 * one canonical dataset held in module state, kept free of duplicate keys,
 * with time-window queries over it and the conversion to the card format.
 * Timestamps are integers in milliseconds; the current time is a parameter.
 */
module FundraiseService {
  import opened Wrappers
  import opened JsStrings
  import opened Seqs
  import opened Types
  import opened Dedup

  // ---------------------------------------------------------------------------
  // toUIFundraise

  const LogoColors: seq<string> := [
    "bg-blue-500", "bg-purple-500", "bg-green-500", "bg-orange-500",
    "bg-pink-500", "bg-indigo-500", "bg-teal-500", "bg-red-500"]

  /** The sum of a sequence of code units. */
  function UnitSum(units: seq<CodeUnit>): nat
    decreases |units|
  {
    if units == [] then 0 else UnitSum(units[..|units| - 1]) + units[|units| - 1]
  }

  /** `split('')` then the sum of `charCodeAt(0)`: the sum of the string's UTF-16 code units. */
  function CharCodeSum(s: string): nat {
    UnitSum(Utf16(s))
  }

  /** The palette slot of a company: the code-unit sum modulo the palette size. */
  function LogoIndex(companyName: string): (k: nat)
    ensures k < |LogoColors|
    ensures k == CharCodeSum(companyName) % 8
  {
    CharCodeSum(companyName) % |LogoColors|
  }

  /** A character outside the BMP counts as its two surrogates: U+1F680 sums 0xD83D + 0xDE80, slot 5. */
  lemma LogoIndexOfSurrogatePair()
    ensures Utf16("\U{1F680}") == [0xD83D, 0xDE80]
    ensures LogoIndex("\U{1F680}") == 5
  {
    var rocket := '\U{1F680}';
    assert "\U{1F680}" == [rocket];
    assert [rocket][..0] == [];
    assert Utf16Char(rocket) == [0xD83D, 0xDE80];
    var units: seq<CodeUnit> := [0xD83D, 0xDE80];
    assert units[..1][..0] == [];
    assert UnitSum(units) == 0xD83D + 0xDE80;
  }

  /** `s.split('.')[0]`: the text before the first full stop. */
  function FirstSentence(s: string): string {
    SplitOn(s, '.')[0]
  }

  /** The first sentence is the longest prefix without a full stop. */
  lemma {:induction false} FirstSentenceIsPrefix(s: string)
    ensures var r := FirstSentence(s);
      r <= s && '.' !in r && (r == s || s[|r|] == '.')
    decreases |s|
  {
    if s != [] {
      var front := s[..|s| - 1];
      var last := s[|s| - 1];
      var init := SplitOn(front, '.');
      FirstSentenceIsPrefix(front);
      var p := FirstSentence(front);
      assert p == init[0];
      if last != '.' {
        if |init| == 1 {
          CountOfPositive(front, '.');
          assert FirstSentence(s) == p + [last];
          assert p == front;
          assert s == front + [last];
        } else {
          assert FirstSentence(s) == p;
          CountOfPositive(front, '.');
          assert p != front;
        }
      }
    }
  }

  /** `description.split('.')[0] || description.slice(0, 80)`, as the code units of the JavaScript string. */
  function OneLiner(description: string): seq<CodeUnit> {
    var first := FirstSentence(description);
    if first != "" then Utf16(first)
    else
      var units := Utf16(description);
      units[..if |units| < 80 then |units| else 80]
  }

  /**
   * The one-liner is a prefix of the description's code units: the code
   * units of its first sentence, or, when that is empty, its first 80 code
   * units.
   */
  lemma OneLinerShape(description: string)
    ensures OneLiner(description) <= Utf16(description)
    ensures description != [] && description[0] != '.' ==>
      var first := FirstSentence(description);
      && OneLiner(description) == Utf16(first)
      && first <= description && '.' !in first && (first == description || description[|first|] == '.')
    ensures description == [] || description[0] == '.' ==>
      var units := Utf16(description);
      |OneLiner(description)| == (if |units| < 80 then |units| else 80)
  {
    FirstSentenceIsPrefix(description);
    var first := FirstSentence(description);
    Utf16Prefix(first, description);
    if description != [] {
      assert first == [] <==> description[0] == '.' by {
        assert first != [] ==> first[0] == description[0];
      }
    }
  }

  /** The legacy card format used by the UI components. */
  datatype UIFundraise = UIFundraise(
    id: string,
    companyName: string,
    description: string,
    oneLiner: seq<CodeUnit>,
    amount: string,
    round: string,
    date: int,
    tags: seq<string>,
    logoColor: string,
    location: string,
    investors: seq<string>,
    sourceUrl: string)

  /** `toUIFundraise`. */
  function ToUIFundraise(f: Fundraise): (u: UIFundraise)
    ensures u.logoColor in LogoColors
    ensures u.logoColor == LogoColors[CharCodeSum(f.companyName) % 8]
    ensures u.location == (if f.geography.Some? && f.geography.value != "" then f.geography.value else "Unknown")
    ensures u.investors == (if f.investors.Some? then f.investors.value else [])
    ensures u.oneLiner <= Utf16(f.description)
    ensures u.round == StageName(f.stage) && u.tags == [StageName(f.stage)]
    ensures u.id == f.id && u.companyName == f.companyName && u.description == f.description
    ensures u.amount == f.amountRaised && u.date == f.announcedAt && u.sourceUrl == f.sourceUrl
  {
    OneLinerShape(f.description);
    UIFundraise(
      f.id, f.companyName, f.description, OneLiner(f.description),
      f.amountRaised, StageName(f.stage), f.announcedAt, [StageName(f.stage)],
      LogoColors[LogoIndex(f.companyName)],
      if f.geography.Some? && f.geography.value != "" then f.geography.value else "Unknown",
      if f.investors.Some? then f.investors.value else [],
      f.sourceUrl)
  }

  // ---------------------------------------------------------------------------
  // Time windows

  const RecentHours: nat := 48
  /** `TIME_WINDOWS.RECENT_HOURS * 60 * 60 * 1000`. */
  const RecentWindowMs: nat := RecentHours * 60 * 60 * 1000

  /** Announced within `[from, to]`, both ends inclusive. */
  function Within(from: int, to: int): Fundraise -> bool {
    (f: Fundraise) => from <= f.announcedAt <= to
  }

  /** The earliest announcement time of a non-empty dataset (`Math.min(...dates)`). */
  function Earliest(s: seq<Fundraise>): (m: int)
    requires s != []
    ensures exists k :: 0 <= k < |s| && s[k].announcedAt == m
    ensures forall k :: 0 <= k < |s| ==> m <= s[k].announcedAt
    decreases |s|
  {
    if |s| == 1 then s[0].announcedAt
    else
      var m := Earliest(s[1..]);
      assert forall k :: 1 <= k < |s| ==> s[k] == s[1..][k - 1];
      if s[0].announcedAt <= m then s[0].announcedAt else m
  }

  /** The latest announcement time of a non-empty dataset (`Math.max(...dates)`). */
  function Latest(s: seq<Fundraise>): (m: int)
    requires s != []
    ensures exists k :: 0 <= k < |s| && s[k].announcedAt == m
    ensures forall k :: 0 <= k < |s| ==> s[k].announcedAt <= m
    decreases |s|
  {
    if |s| == 1 then s[0].announcedAt
    else
      var m := Latest(s[1..]);
      assert forall k :: 1 <= k < |s| ==> s[k] == s[1..][k - 1];
      if s[0].announcedAt >= m then s[0].announcedAt else m
  }

  datatype ServiceStats = ServiceStats(
    total: nat,
    archiveCount: nat,
    recentCount: nat,
    oldestDate: Option<int>,
    newestDate: Option<int>)

  // ---------------------------------------------------------------------------
  // The dataset

  /**
   * The module array `fundraises`. `received` is every record handed to the
   * service since the last initialisation or clear; the dataset is always its
   * keep-first de-duplication.
   */
  class FundraiseStore {
    var fundraises: seq<Fundraise>
    ghost var received: seq<Fundraise>

    ghost predicate Valid()
      reads this
    {
      fundraises == KeepFirst(received) && UniqueKeys(fundraises)
    }

    constructor()
      ensures Valid() && fundraises == [] && received == []
    {
      fundraises := [];
      received := [];
    }

    /** `initializeFundraises`: the dataset becomes the de-duplicated input, in input order. */
    method InitializeFundraises(data: seq<Fundraise>)
      modifies this
      ensures Valid()
      ensures fundraises == KeepFirst(data) && received == data
    {
      fundraises := DeduplicateFundraises(data);
      received := data;
      KeepFirstUnique(data);
    }

    /** `fundraises.some(...)`: a record with the same lower-cased name and time exists. */
    function IsDuplicate(f: Fundraise): (r: bool)
      reads this
      ensures r <==> KeyOf(f) in KeysOf(fundraises)
    {
      exists g :: g in fundraises && ToLower(g.companyName) == ToLower(f.companyName) && g.announcedAt == f.announcedAt
    }

    /** `addFundraise`: appends a record whose key is new and reports whether it did. */
    method AddFundraise(f: Fundraise) returns (added: bool)
      requires Valid()
      modifies this
      ensures Valid()
      ensures added <==> KeyOf(f) !in KeysOf(old(fundraises))
      ensures added ==> fundraises == old(fundraises) + [f]
      ensures !added ==> fundraises == old(fundraises)
      ensures received == old(received) + [f]
    {
      KeepFirstKeys(received);
      var newReceived := received + [f];
      assert newReceived[..|newReceived| - 1] == received;
      if IsDuplicate(f) {
        received := newReceived;
        return false;
      }
      KeepFirstUnique(newReceived);
      fundraises := fundraises + [f];
      received := newReceived;
      added := true;
    }

    /** `getArchiveFundraises`, with the calendar cutoff (twelve months back) as a parameter. */
    function GetArchiveFundraises(now: int, cutoff: int): (r: seq<Fundraise>)
      reads this
      ensures IsSubsequence(r, fundraises)
      ensures forall f :: f in r <==> f in fundraises && cutoff <= f.announcedAt <= now
    {
      Filter(fundraises, Within(cutoff, now))
    }

    /** `getRecentFundraises`: the records of the last 48 hours, both ends inclusive, in dataset order. */
    function GetRecentFundraises(now: int): (r: seq<Fundraise>)
      reads this
      ensures IsSubsequence(r, fundraises)
      ensures forall f :: f in r <==> f in fundraises && now - 172800000 <= f.announcedAt <= now
    {
      Filter(fundraises, Within(now - RecentWindowMs, now))
    }

    /** `getAllFundraises`: a copy of the dataset. */
    function GetAllFundraises(): (r: seq<Fundraise>)
      reads this
      ensures r == fundraises
    {
      fundraises[..]
    }

    /** `clearFundraises`. */
    method ClearFundraises()
      modifies this
      ensures Valid() && fundraises == [] && received == []
    {
      fundraises := [];
      received := [];
    }

    /** `getDatasetStats`: both windows are filters of the dataset, and the dates bound it. */
    function GetDatasetStats(now: int, archiveCutoff: int): (stats: ServiceStats)
      reads this
      ensures stats.total == |fundraises|
      ensures stats.archiveCount <= stats.total && stats.recentCount <= stats.total
      ensures stats.oldestDate.None? <==> fundraises == []
      ensures stats.newestDate.None? <==> fundraises == []
      ensures stats.oldestDate.Some? ==> forall f :: f in fundraises ==> stats.oldestDate.value <= f.announcedAt
      ensures stats.newestDate.Some? ==> forall f :: f in fundraises ==> f.announcedAt <= stats.newestDate.value
    {
      ServiceStats(
        |fundraises|,
        |GetArchiveFundraises(now, archiveCutoff)|,
        |GetRecentFundraises(now)|,
        if fundraises == [] then None else Some(Earliest(fundraises)),
        if fundraises == [] then None else Some(Latest(fundraises)))
    }
  }
}
