/**
 * De-duplication of fundraises by (lower-cased company name, announcement
 * time), keeping the first record of each key in input order. The backend
 * feed generator (backend/src/services/feedGenerator.ts) and the front-end
 * service (front-end/src/services/fundraiseService.ts) contain the same
 * `Map`-filling loop; both are modelled by `DeduplicateFundraises`.
 */
module Dedup {
  import opened JsStrings
  import opened Seqs
  import opened Types

  /** The key `${company_name.toLowerCase()}|${announced_at}`. */
  datatype Key = Key(name: string, announcedAt: int)

  function KeyOf(f: Fundraise): Key {
    Key(ToLower(f.companyName), f.announcedAt)
  }

  function KeysOf(s: seq<Fundraise>): set<Key> {
    set f | f in s :: KeyOf(f)
  }

  /** No two records share a key. */
  predicate UniqueKeys(s: seq<Fundraise>) {
    forall i, j :: 0 <= i < j < |s| ==> KeyOf(s[i]) != KeyOf(s[j])
  }

  /** `s[i]` is the first record of its key. */
  predicate IsFirstOfKey(s: seq<Fundraise>, i: int) {
    0 <= i < |s| && forall j :: 0 <= j < i ==> KeyOf(s[j]) != KeyOf(s[i])
  }

  /** The reference definition: a record is kept iff no earlier record has its key. */
  function KeepFirst(s: seq<Fundraise>): seq<Fundraise>
    decreases |s|
  {
    if s == [] then []
    else
      var prefix := s[..|s| - 1];
      var last := s[|s| - 1];
      if KeyOf(last) in KeysOf(prefix) then KeepFirst(prefix) else KeepFirst(prefix) + [last]
  }

  lemma KeysOfSnoc(s: seq<Fundraise>, x: Fundraise)
    ensures KeysOf(s + [x]) == KeysOf(s) + {KeyOf(x)}
  {
    assert forall f :: f in s + [x] <==> f in s || f == x;
  }

  /** Every key of the input survives, and no other key appears. */
  lemma {:induction false} KeepFirstKeys(s: seq<Fundraise>)
    ensures KeysOf(KeepFirst(s)) == KeysOf(s)
    decreases |s|
  {
    if s != [] {
      var prefix := s[..|s| - 1];
      var last := s[|s| - 1];
      assert s == prefix + [last];
      KeepFirstKeys(prefix);
      KeysOfSnoc(prefix, last);
      KeysOfSnoc(KeepFirst(prefix), last);
    }
  }

  /** After de-duplication no two records share a key. */
  lemma {:induction false} KeepFirstUnique(s: seq<Fundraise>)
    ensures UniqueKeys(KeepFirst(s))
    decreases |s|
  {
    if s != [] {
      var prefix := s[..|s| - 1];
      var last := s[|s| - 1];
      KeepFirstUnique(prefix);
      KeepFirstKeys(prefix);
      var r := KeepFirst(prefix);
      if KeyOf(last) !in KeysOf(prefix) {
        forall i | 0 <= i < |r| ensures KeyOf(r[i]) != KeyOf(last) {
          assert r[i] in r;
        }
      }
    }
  }

  /** The result is the input with some records deleted, in input order. */
  lemma {:induction false} KeepFirstSubsequence(s: seq<Fundraise>)
    ensures IsSubsequence(KeepFirst(s), s)
    decreases |s|
  {
    if s != [] {
      var prefix := s[..|s| - 1];
      var last := s[|s| - 1];
      assert s == prefix + [last];
      KeepFirstSubsequence(prefix);
      if KeyOf(last) in KeysOf(prefix) {
        SubsequenceSnocRight(KeepFirst(prefix), prefix, last);
      } else {
        SubsequenceSnocBoth(KeepFirst(prefix), prefix, last);
      }
    }
  }

  lemma {:induction false} KeepFirstElements(s: seq<Fundraise>)
    ensures forall x :: x in KeepFirst(s) ==> x in s
    ensures |KeepFirst(s)| <= |s|
    decreases |s|
  {
    if s != [] {
      KeepFirstElements(s[..|s| - 1]);
    }
  }

  /** Whether the last record is the first of its key. */
  lemma LastIsFirstOfKey(s: seq<Fundraise>)
    requires s != []
    ensures IsFirstOfKey(s, |s| - 1) <==> KeyOf(s[|s| - 1]) !in KeysOf(s[..|s| - 1])
  {
    var prefix := s[..|s| - 1];
    var n := |s| - 1;
    if KeyOf(s[n]) in KeysOf(prefix) {
      var f :| f in prefix && KeyOf(f) == KeyOf(s[n]);
      var j :| 0 <= j < n && prefix[j] == f;
      assert s[j] == f;
    } else {
      forall j | 0 <= j < n ensures KeyOf(s[j]) != KeyOf(s[n]) {
        assert s[j] in prefix;
      }
    }
  }

  /** Earlier records are first of their key in `s` exactly when they are in the prefix. */
  lemma PrefixFirstOfKey(s: seq<Fundraise>, i: int)
    requires s != [] && 0 <= i < |s| - 1
    ensures IsFirstOfKey(s, i) <==> IsFirstOfKey(s[..|s| - 1], i)
  {
  }

  /** Every record kept is the first record of its key, at some position. */
  lemma {:induction false} KeptIsFirstOfKey(s: seq<Fundraise>, x: Fundraise) returns (i: int)
    requires x in KeepFirst(s)
    ensures IsFirstOfKey(s, i) && s[i] == x
    decreases |s|
  {
    var prefix := s[..|s| - 1];
    var n := |s| - 1;
    LastIsFirstOfKey(s);
    if x in KeepFirst(prefix) {
      i := KeptIsFirstOfKey(prefix, x);
      PrefixFirstOfKey(s, i);
    } else {
      i := n;
    }
  }

  /** The first record of every key is kept. */
  lemma {:induction false} FirstOfKeyIsKept(s: seq<Fundraise>, i: int)
    requires IsFirstOfKey(s, i)
    ensures s[i] in KeepFirst(s)
    decreases |s|
  {
    var prefix := s[..|s| - 1];
    var n := |s| - 1;
    LastIsFirstOfKey(s);
    if i < n {
      PrefixFirstOfKey(s, i);
      FirstOfKeyIsKept(prefix, i);
    }
  }

  /** The records kept are exactly the first records of their keys. */
  lemma KeepFirstKeepsFirsts(s: seq<Fundraise>, x: Fundraise)
    ensures x in KeepFirst(s) <==> exists i :: IsFirstOfKey(s, i) && s[i] == x
  {
    if x in KeepFirst(s) {
      var i := KeptIsFirstOfKey(s, x);
    }
    if exists i :: IsFirstOfKey(s, i) && s[i] == x {
      var i :| IsFirstOfKey(s, i) && s[i] == x;
      FirstOfKeyIsKept(s, i);
    }
  }

  /** A sequence whose keys are already unique is left as it is. */
  lemma {:induction false} KeepFirstOfUnique(s: seq<Fundraise>)
    requires UniqueKeys(s)
    ensures KeepFirst(s) == s
    decreases |s|
  {
    if s != [] {
      var prefix := s[..|s| - 1];
      var last := s[|s| - 1];
      assert s == prefix + [last];
      KeepFirstOfUnique(prefix);
      assert KeyOf(last) !in KeysOf(prefix) by {
        forall f | f in prefix ensures KeyOf(f) != KeyOf(last) {
          var j :| 0 <= j < |prefix| && prefix[j] == f;
          assert s[j] == f;
        }
      }
    }
  }

  /** De-duplication is idempotent. */
  lemma KeepFirstIdempotent(s: seq<Fundraise>)
    ensures KeepFirst(KeepFirst(s)) == KeepFirst(s)
  {
    KeepFirstUnique(s);
    KeepFirstOfUnique(KeepFirst(s));
  }

  /**
   * `deduplicateFundraises`: fills `seen` (a JavaScript `Map`, which keeps
   * insertion order; `order` is that order) and returns its values.
   */
  method DeduplicateFundraises(data: seq<Fundraise>) returns (result: seq<Fundraise>)
    ensures result == KeepFirst(data)
  {
    var seen: map<Key, Fundraise> := map[];
    var order: seq<Key> := [];
    for i := 0 to |data|
      invariant seen.Keys == KeysOf(data[..i])
      invariant |order| == |KeepFirst(data[..i])|
      invariant forall k :: 0 <= k < |order| ==>
                  order[k] in seen && seen[order[k]] == KeepFirst(data[..i])[k]
    {
      var f := data[i];
      var key := KeyOf(f);
      assert data[..i + 1] == data[..i] + [f];
      assert data[..i + 1][..i] == data[..i];
      KeysOfSnoc(data[..i], f);
      if key !in seen {
        seen := seen[key := f];
        order := order + [key];
      }
    }
    assert data[..|data|] == data;
    result := seq(|order|, k requires 0 <= k < |order| && order[k] in seen => seen[order[k]]);
  }
}
