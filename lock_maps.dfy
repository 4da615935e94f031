/** Line-lock tables as values: per document a map from line index to the
    owning user id, and the "release everything this user holds" rule that
    both the client table and the server's cleanup table apply. */
module LockMaps {
  import opened Common

  type LineLocks = map<int, string>
  type DocLocks = map<string, LineLocks>

  /** The lines of one document without those owned by `userId`. */
  function WithoutOwner(m: LineLocks, userId: string): LineLocks {
    map k | k in m && m[k] != userId :: m[k]
  }

  /** Every document's lines without those owned by `userId`. */
  function ReleaseAll(locks: DocLocks, userId: string): DocLocks {
    map d | d in locks :: WithoutOwner(locks[d], userId)
  }

  /** After releasing, `userId` owns nothing, every document is still
      there, and every other owner keeps every line. */
  lemma ReleaseAllFacts(locks: DocLocks, userId: string)
    ensures ReleaseAll(locks, userId).Keys == locks.Keys
    ensures forall d, k :: d in locks && k in ReleaseAll(locks, userId)[d] ==> ReleaseAll(locks, userId)[d][k] != userId
    ensures forall d, k :: d in locks && k in locks[d] && locks[d][k] != userId ==>
      k in ReleaseAll(locks, userId)[d] && ReleaseAll(locks, userId)[d][k] == locks[d][k]
    ensures forall d, k :: d in locks && k in ReleaseAll(locks, userId)[d] ==> k in locks[d]
  {
  }

  /** Releasing twice is the same as releasing once. */
  lemma ReleaseAllIdempotent(locks: DocLocks, userId: string)
    ensures ReleaseAll(ReleaseAll(locks, userId), userId) == ReleaseAll(locks, userId)
  {
    var once := ReleaseAll(locks, userId);
    forall d | d in once
      ensures WithoutOwner(once[d], userId) == once[d]
    {
      MapsAgree(WithoutOwner(once[d], userId), once[d]);
    }
    MapsAgree(ReleaseAll(once, userId), once);
  }

  /** The removeIf loop over one document's lines. */
  method RemoveOwnedBy(m: LineLocks, userId: string) returns (r: LineLocks)
    ensures r == WithoutOwner(m, userId)
  {
    r := m;
    var pending := m.Keys;
    while pending != {}
      invariant pending <= m.Keys
      invariant forall k :: k in r ==> k in m && r[k] == m[k]
      invariant forall k :: k in m ==> (k in r <==> k in pending || m[k] != userId)
      decreases pending
    {
      var k := Pick(pending);
      if r[k] == userId {
        r := r - {k};
      }
      pending := pending - {k};
    }
    forall k
      ensures k in r <==> k in WithoutOwner(m, userId)
      ensures k in r ==> r[k] == WithoutOwner(m, userId)[k]
    {
      assert k !in pending;
    }
    SetsAgree(r.Keys, WithoutOwner(m, userId).Keys);
    MapsAgree(r, WithoutOwner(m, userId));
  }

  /** The loop over every document's lines. */
  method RemoveAllOwnedBy(locks: DocLocks, userId: string) returns (r: DocLocks)
    ensures r == ReleaseAll(locks, userId)
  {
    r := locks;
    var pending := locks.Keys;
    while pending != {}
      invariant pending <= locks.Keys && r.Keys == locks.Keys
      invariant forall d :: d in locks ==>
        r[d] == if d in pending then locks[d] else WithoutOwner(locks[d], userId)
      decreases pending
    {
      var d := Pick(pending);
      var kept := RemoveOwnedBy(r[d], userId);
      r := r[d := kept];
      pending := pending - {d};
    }
    forall d | d in r
      ensures r[d] == ReleaseAll(locks, userId)[d]
    {
      assert d !in pending;
    }
    MapsAgree(r, ReleaseAll(locks, userId));
  }
}
