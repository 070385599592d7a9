/** One published head hash pins the whole history before it. */
module AuditHistory {
  import opened Common
  import opened AuditEntry
  import opened AuditChain

  // ---------------------------------------------------------------- for any digest

  /** Two entries with different content and one digest. */
  predicate Collide(d: Digest, a: AuditEntry, b: AuditEntry) {
    !SameContent(a, b) && d(a) == d(b)
  }

  /** Some entry of one log collides with some entry of the other. */
  predicate Collision(d: Digest, a: seq<AuditEntry>, b: seq<AuditEntry>) {
    exists i, j :: 0 <= i < |a| && 0 <= j < |b| && Collide(d, a[i], b[j])
  }

  /** The same content and the same hash, entry for entry. */
  predicate SameLog(a: seq<AuditEntry>, b: seq<AuditEntry>) {
    |a| == |b| && forall i :: 0 <= i < |a| ==> SameContent(a[i], b[i]) && a[i].hash == b[i].hash
  }

  lemma SameContentSameLinks(a: AuditEntry, b: AuditEntry)
    requires SameContent(a, b)
    ensures a.seqNo == b.seqNo && a.prevHash == b.prevHash
  {
  }

  /** Histories that agree on the hash of one entry agree on everything up to it. */
  lemma {:induction false} SameUpTo(d: Digest, a: seq<AuditEntry>, b: seq<AuditEntry>, n: nat)
    requires Intact(d, a) && Intact(d, b) && n <= |a| && n <= |b|
    requires n > 0 ==> a[n - 1].hash == b[n - 1].hash
    ensures Collision(d, a, b) || SameLog(a[..n], b[..n])
  {
    if n > 0 {
      var x, y := a[n - 1], b[n - 1];
      assert LinkOk(d, a, n - 1) && LinkOk(d, b, n - 1);
      if SameContent(x, y) {
        SameContentSameLinks(x, y);
        SameUpTo(d, a, b, n - 1);
        assert a[..n] == a[..n - 1] + [x] && b[..n] == b[..n - 1] + [y];
      } else {
        assert Collide(d, a[n - 1], b[n - 1]);
      }
    }
  }

  /**
   * The head hash is the fingerprint of the whole history: two intact logs with the same head
   * hash are the same log, or else exhibit two different entries with the same hash.
   */
  lemma HeadHashPinsHistory(d: Digest, a: seq<AuditEntry>, b: seq<AuditEntry>)
    requires Intact(d, a) && Intact(d, b)
    requires a != [] && b != [] && a[|a| - 1].hash == b[|b| - 1].hash
    ensures SameLog(a, b) || Collision(d, a, b)
  {
    var m, n := |a| - 1, |b| - 1;
    assert LinkOk(d, a, m) && LinkOk(d, b, n);
    if SameContent(a[m], b[n]) {
      SameContentSameLinks(a[m], b[n]);
      SameUpTo(d, a, b, |a|);
      assert a[..|a|] == a && b[..|b|] == b;
    } else {
      assert Collide(d, a[m], b[n]);
    }
  }

  // ---------------------------------------------------------------- for the hash of the text

  /** The text hash, SHA-256 in lower-case hex in production; nothing else about it is used. */
  type Hash = string -> string

  function EntryHash(h: Hash, e: AuditEntry): string {
    if Encodable(e) then h(Preimage(e)) else h("")
  }

  /** `d` is what the text of an entry hashes to. */
  ghost predicate Hashes(d: Digest, h: Hash) {
    forall e :: d(e) == EntryHash(h, e)
  }

  lemma HashIsNotHashed(h: Hash, e: AuditEntry, hash: string)
    ensures EntryHash(h, e.(hash := hash)) == EntryHash(h, e)
  {
    if Encodable(e) {
      PreimageIdentifies(e, e.(hash := hash));
    }
  }

  lemma TextHashIsDigest(d: Digest, h: Hash)
    requires Hashes(d, h) && forall x :: IsChainHash(h(x))
    ensures IsDigest(d)
  {
    forall e
      ensures IsChainHash(d(e))
    {
      assert d(e) == EntryHash(h, e);
    }
    forall e: AuditEntry, hash: string
      ensures d(e.(hash := hash)) == d(e)
    {
      HashIsNotHashed(h, e, hash);
    }
  }

  /** Two different texts with one hash. */
  predicate TextsCollide(h: Hash, a: AuditEntry, b: AuditEntry) {
    Encodable(a) && Encodable(b) && Preimage(a) != Preimage(b) && h(Preimage(a)) == h(Preimage(b))
  }

  /** The texts of two entries of the logs: a collision one can point at. */
  predicate TextCollision(h: Hash, a: seq<AuditEntry>, b: seq<AuditEntry>) {
    exists i, j :: 0 <= i < |a| && 0 <= j < |b| && TextsCollide(h, a[i], b[j])
  }

  /** Different entries with one hash are two different texts with one hash. */
  lemma CollisionOfTexts(d: Digest, h: Hash, a: AuditEntry, b: AuditEntry)
    requires Hashes(d, h) && Encodable(a) && Encodable(b) && Collide(d, a, b)
    ensures TextsCollide(h, a, b)
  {
    PreimageIdentifies(a, b);
    assert d(a) == EntryHash(h, a) && d(b) == EntryHash(h, b);
  }

  lemma CollisionIsOfTexts(d: Digest, h: Hash, a: seq<AuditEntry>, b: seq<AuditEntry>)
    requires Hashes(d, h) && AllEncodable(a) && AllEncodable(b) && Collision(d, a, b)
    ensures TextCollision(h, a, b)
  {
    var i, j :| 0 <= i < |a| && 0 <= j < |b| && Collide(d, a[i], b[j]);
    CollisionOfTexts(d, h, a[i], b[j]);
  }

  function Head(log: seq<AuditEntry>): Option<string> {
    if log == [] then None else Some(log[|log| - 1].hash)
  }

  /** Committed rows after a run are intact and JSON throughout. */
  lemma Recorded(d: Digest, h: Hash, actions: seq<Action>)
    requires Hashes(d, h) && forall x :: IsChainHash(h(x))
    requires forall i :: 0 <= i < |actions| ==> ValidAction(actions[i])
    ensures Intact(d, Run(d, actions).rows) && AllEncodable(Run(d, actions).rows)
  {
    TextHashIsDigest(d, h);
    EveryRunStaysIntact(d, actions);
  }

  /** Two runs of the append protocol that end with the same head recorded the same history. */
  lemma RunsWithOneHeadAgree(d: Digest, h: Hash, first: seq<Action>, second: seq<Action>)
    requires Hashes(d, h) && forall x :: IsChainHash(h(x))
    requires forall i :: 0 <= i < |first| ==> ValidAction(first[i])
    requires forall i :: 0 <= i < |second| ==> ValidAction(second[i])
    requires Head(Run(d, first).rows) == Head(Run(d, second).rows)
    ensures SameLog(Run(d, first).rows, Run(d, second).rows) || TextCollision(h, Run(d, first).rows, Run(d, second).rows)
  {
    Recorded(d, h, first);
    Recorded(d, h, second);
    OneHeadOneLog(d, h, Run(d, first).rows, Run(d, second).rows);
  }

  lemma OneHeadOneLog(d: Digest, h: Hash, a: seq<AuditEntry>, b: seq<AuditEntry>)
    requires Hashes(d, h) && Intact(d, a) && Intact(d, b) && AllEncodable(a) && AllEncodable(b)
    requires Head(a) == Head(b)
    ensures SameLog(a, b) || TextCollision(h, a, b)
  {
    if a != [] {
      HeadHashPinsHistory(d, a, b);
      if Collision(d, a, b) {
        CollisionIsOfTexts(d, h, a, b);
      }
    }
  }
}
