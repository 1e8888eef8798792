/** db/hunk.rs: hunk maps keyed by review and commit pair. */
module HunkDb {
  import opened Wrappers
  import opened Entities
  import opened Store

  /** The key `store_hunkmap_to_db` and `get_hunk_from_db` both build. */
  function HunkKey(review: Review): string
  {
    review.dbKey + "/" + review.baseHeadCommit + "/" + review.prHeadCommit
  }

  /** The store after a successful insert. */
  function Stored(entries: map<string, StoredValue>, hunkmap: HunkMap, review: Review): (m: map<string, StoredValue>)
    ensures HunkKey(review) in m && m[HunkKey(review)] == HunkEntry(hunkmap)
    ensures forall k :: k != HunkKey(review) ==> (k in m <==> k in entries)
    ensures forall k :: k in entries && k != HunkKey(review) ==> m[k] == entries[k]
  {
    entries[HunkKey(review) := HunkEntry(hunkmap)]
  }

  /** What a read finds: nothing when the key is absent or holds something
      that does not deserialise as a hunk map. */
  function Fetched(entries: map<string, StoredValue>, review: Review): (r: Option<HunkMap>)
    ensures r.Some? <==> HunkKey(review) in entries && entries[HunkKey(review)].HunkEntry?
    ensures r.Some? ==> entries[HunkKey(review)] == HunkEntry(r.value)
  {
    var key := HunkKey(review);
    if key in entries && entries[key].HunkEntry? then Some(entries[key].hunks) else None
  }

  /** `store_hunkmap_to_db`; a failed insert leaves the store as it was. */
  method StoreHunkmap(db: KvStore, hunkmap: HunkMap, review: Review, insertFails: bool)
    modifies db
    ensures db.entries == if insertFails then old(db.entries) else Stored(old(db.entries), hunkmap, review)
  {
    var key := review.dbKey + "/" + review.baseHeadCommit + "/" + review.prHeadCommit;
    if insertFails {
      return;
    }
    db.entries := db.entries[key := HunkEntry(hunkmap)];
  }

  /** `get_hunk_from_db`; a failed read gives None. */
  method GetHunk(db: KvStore, review: Review, readFails: bool) returns (r: Option<HunkMap>)
    ensures r == if readFails then None else Fetched(db.entries, review)
  {
    var key := review.dbKey + "/" + review.baseHeadCommit + "/" + review.prHeadCommit;
    if readFails || key !in db.entries {
      return None;
    }
    match db.entries[key]
    case HunkEntry(h) => r := Some(h);
    case _ => r := None;
  }

  predicate NoSlash(s: string)
  {
    forall i :: 0 <= i < |s| ==> s[i] != '/'
  }

  /** Index of the first slash of `s`, or `|s|` when there is none. */
  function FirstSlash(s: string): nat
  {
    if |s| == 0 || s[0] == '/' then 0 else 1 + FirstSlash(s[1..])
  }

  lemma {:induction false} FirstSlashAfter(b: string, h: string)
    requires NoSlash(b)
    ensures FirstSlash(b + "/" + h) == |b|
  {
    if |b| > 0 {
      assert (b + "/" + h)[1..] == b[1..] + "/" + h;
      FirstSlashAfter(b[1..], h);
    }
  }

  /** `b1 + "/" + h1 == b2 + "/" + h2` pins down both halves when neither
      first half contains a slash. */
  lemma SplitAtSlash(b1: string, h1: string, b2: string, h2: string)
    requires NoSlash(b1) && NoSlash(b2)
    requires b1 + "/" + h1 == b2 + "/" + h2
    ensures b1 == b2 && h1 == h2
  {
    var s := b1 + "/" + h1;
    FirstSlashAfter(b1, h1);
    FirstSlashAfter(b2, h2);
    assert b1 == s[..|b1|] == b2;
    assert h1 == s[|b1| + 1..] == h2;
  }

  /** For one review key, distinct commit pairs give distinct store keys
      (commit hashes contain no slash). */
  lemma HunkKeyInjective(r1: Review, r2: Review)
    requires r1.dbKey == r2.dbKey
    requires NoSlash(r1.baseHeadCommit) && NoSlash(r2.baseHeadCommit)
    ensures HunkKey(r1) == HunkKey(r2) <==>
            r1.baseHeadCommit == r2.baseHeadCommit && r1.prHeadCommit == r2.prHeadCommit
  {
    var p := r1.dbKey + "/";
    var t1 := r1.baseHeadCommit + "/" + r1.prHeadCommit;
    var t2 := r2.baseHeadCommit + "/" + r2.prHeadCommit;
    assert HunkKey(r1) == p + t1;
    assert HunkKey(r2) == p + t2;
    if HunkKey(r1) == HunkKey(r2) {
      assert t1 == (p + t1)[|p|..] == (p + t2)[|p|..] == t2;
      SplitAtSlash(r1.baseHeadCommit, r1.prHeadCommit, r2.baseHeadCommit, r2.prHeadCommit);
    }
  }

  /** Store then get for the same review returns what was stored. */
  lemma StoreThenFetch(entries: map<string, StoredValue>, hunkmap: HunkMap, review: Review)
    ensures Fetched(Stored(entries, hunkmap, review), review) == Some(hunkmap)
  {
  }

  /** Without the slash-free condition two different commit pairs can share
      a key: base "a/b" with head "c" and base "a" with head "b/c" both
      give "<key>/a/b/c", so storing the second overwrites the first. */
  lemma SlashedCommitsCollide(entries: map<string, StoredValue>, hunkmap: HunkMap, dbKey: string, provider: string)
    ensures var older := Review(dbKey, "a/b", "c", provider);
            var newer := Review(dbKey, "a", "b/c", provider);
            HunkKey(older) == HunkKey(newer) && Fetched(Stored(entries, hunkmap, newer), older) == Some(hunkmap)
  {
    assert "a/b" + "/" + "c" == "a" + "/" + "b/c";
    assert HunkKey(Review(dbKey, "a/b", "c", provider)) == dbKey + "/" + ("a/b" + "/" + "c");
    assert HunkKey(Review(dbKey, "a", "b/c", provider)) == dbKey + "/" + ("a" + "/" + "b/c");
  }

  /** Storing a new commit pair of a pull request leaves the entry of the
      old pair as it was; storing the same pair again overwrites it. */
  lemma NewCommitPairKeepsOld(entries: map<string, StoredValue>, hunkmap: HunkMap, review: Review, earlier: Review)
    requires review.dbKey == earlier.dbKey
    requires NoSlash(review.baseHeadCommit) && NoSlash(earlier.baseHeadCommit)
    ensures (review.baseHeadCommit, review.prHeadCommit) != (earlier.baseHeadCommit, earlier.prHeadCommit) ==>
              Fetched(Stored(entries, hunkmap, review), earlier) == Fetched(entries, earlier)
    ensures (review.baseHeadCommit, review.prHeadCommit) == (earlier.baseHeadCommit, earlier.prHeadCommit) ==>
              Fetched(Stored(entries, hunkmap, review), earlier) == Some(hunkmap)
  {
    HunkKeyInjective(review, earlier);
  }
}
