/** The audit log as a hash chain: appending under one lock, reading in pages, and verifying. */
module AuditChain {
  import opened Common
  import opened Json
  import opened AuditEntry

  /** What an entry's contents hash to. */
  type Digest = AuditEntry -> string

  const FIRST_SEQ := 1

  function GenesisHash(): string {
    seq(64, i => '0')
  }

  predicate IsChainHash(s: string) {
    |s| == 64 && forall i :: 0 <= i < |s| ==> '0' <= s[i] <= '9' || 'a' <= s[i] <= 'f'
  }

  /** Digests are chain hashes, and an entry's own hash is not part of what is hashed. */
  ghost predicate IsDigest(d: Digest) {
    && (forall e :: IsChainHash(d(e)))
    && (forall e: AuditEntry, hash :: d(e.(hash := hash)) == d(e))
  }

  // ---------------------------------------------------------------- what an intact log is

  /** Entry `i` has the next number, names the entry before it, and carries its own hash. */
  predicate LinkOk(d: Digest, log: seq<AuditEntry>, i: int)
    requires 0 <= i < |log|
  {
    && log[i].seqNo == i + 1
    && log[i].prevHash == (if i == 0 then GenesisHash() else log[i - 1].hash)
    && log[i].hash == d(log[i])
  }

  predicate Intact(d: Digest, log: seq<AuditEntry>) {
    forall i :: 0 <= i < |log| ==> LinkOk(d, log, i)
  }

  // ---------------------------------------------------------------- inspecting

  datatype BreachKind = WrongGenesis | Gap | BrokenLink | ForgedHash

  datatype Breach = Breach(seqNo: int, kind: BreachKind)

  /** Number, link, then hash: what is wrong with an entry, given the one before it. */
  function Inspect(d: Digest, entry: AuditEntry, previous: Option<AuditEntry>): Option<Breach>
  {
    var expectedSeq := if previous.Some? then previous.value.seqNo + 1 else FIRST_SEQ;
    var expectedPrev := if previous.Some? then previous.value.hash else GenesisHash();
    if entry.seqNo != expectedSeq then Some(Breach(expectedSeq, if previous.Some? then Gap else WrongGenesis))
    else if entry.prevHash != expectedPrev then Some(Breach(entry.seqNo, BrokenLink))
    else if d(entry) != entry.hash then Some(Breach(entry.seqNo, ForgedHash))
    else None
  }

  datatype Report = Report(
    intact: bool,
    checked: nat,
    firstSeq: Option<int>,
    lastSeq: Option<int>,
    headHash: Option<string>,
    breach: Option<Breach>)

  /** A table: one row per number, in order. */
  predicate Table(log: seq<AuditEntry>) {
    forall i, j :: 0 <= i < j < |log| ==> log[i].seqNo < log[j].seqNo
  }

  function Before(log: seq<AuditEntry>, i: int): Option<AuditEntry>
    requires 0 <= i <= |log|
  {
    if i == 0 then None else Some(log[i - 1])
  }

  predicate PassesAt(d: Digest, log: seq<AuditEntry>, i: nat)
    requires i < |log|
  {
    Inspect(d, log[i], Before(log, i)) == None
  }

  /** How many entries pass, counted from the front up to the first that does not. */
  function Passing(d: Digest, log: seq<AuditEntry>): nat {
    PassingFrom(d, log, 0)
  }

  function PassingFrom(d: Digest, log: seq<AuditEntry>, i: nat): (k: nat)
    requires i <= |log|
    ensures i <= k <= |log| && (k < |log| ==> !PassesAt(d, log, k))
    decreases |log| - i
  {
    if i == |log| || !PassesAt(d, log, i) then i else PassingFrom(d, log, i + 1)
  }

  /** Everything before that entry passes. */
  lemma {:induction false} PassingPasses(d: Digest, log: seq<AuditEntry>, i: nat, j: nat)
    requires i <= |log| && i <= j < PassingFrom(d, log, i)
    ensures PassesAt(d, log, j)
    decreases |log| - i
  {
    if i < j {
      PassingPasses(d, log, i + 1, j);
    }
  }

  /** The report a single pass over the whole table gives. */
  function WholeReport(d: Digest, log: seq<AuditEntry>): Report {
    ReportAt(d, log, Passing(d, log))
  }

  function ReportAt(d: Digest, log: seq<AuditEntry>, k: nat): Report
    requires k <= |log|
  {
    Report(k == |log|, k,
           if k > 0 then Some(log[0].seqNo) else None,
           if k > 0 then Some(log[k - 1].seqNo) else None,
           if k > 0 then Some(log[k - 1].hash) else None,
           if k < |log| then Inspect(d, log[k], Before(log, k)) else None)
  }

  // ---------------------------------------------------------------- the store

  /** Rows with a number above `after`, lowest first, at most `limit` of them. */
  function Page(log: seq<AuditEntry>, after: Option<int>, limit: nat): seq<AuditEntry> {
    PageFrom(log, 0, after, limit)
  }

  function PageFrom(log: seq<AuditEntry>, i: nat, after: Option<int>, limit: nat): seq<AuditEntry>
    requires i <= |log|
    decreases |log| - i
  {
    if i == |log| || limit == 0 then []
    else if after.Some? && log[i].seqNo <= after.value then PageFrom(log, i + 1, after, limit)
    else [log[i]] + PageFrom(log, i + 1, after, limit - 1)
  }

  /** The rows from the i-th on, at most `limit` of them. */
  function Slice<T>(log: seq<T>, i: nat, limit: nat): (s: seq<T>)
    requires i <= |log|
    ensures |s| == Min(limit, |log| - i) && forall j :: 0 <= j < |s| ==> s[j] == log[i + j]
    decreases |log| - i
  {
    if i == |log| || limit == 0 then [] else [log[i]] + Slice(log, i + 1, limit - 1)
  }

  lemma {:induction false} NoneSkipped(log: seq<AuditEntry>, i: nat, after: Option<int>, limit: nat)
    requires i <= |log|
    requires after.Some? ==> forall j :: i <= j < |log| ==> log[j].seqNo > after.value
    ensures PageFrom(log, i, after, limit) == Slice(log, i, limit)
    decreases |log| - i
  {
    if i < |log| && limit > 0 {
      NoneSkipped(log, i + 1, after, limit - 1);
    }
  }

  lemma {:induction false} Skipped(log: seq<AuditEntry>, i: nat, k: nat, after: int, limit: nat)
    requires i <= k <= |log| && forall j :: i <= j < k ==> log[j].seqNo <= after
    ensures PageFrom(log, i, Some(after), limit) == PageFrom(log, k, Some(after), limit)
    decreases k - i
  {
    if i < k {
      Skipped(log, i + 1, k, after, limit);
    }
  }

  /** Reading after the k-th entry of a table starts at the next one. */
  lemma PageAfterEntry(log: seq<AuditEntry>, k: nat, limit: nat)
    requires Table(log) && 0 < k <= |log|
    ensures Page(log, Some(log[k - 1].seqNo), limit) == Slice(log, k, limit)
  {
    Skipped(log, 0, k, log[k - 1].seqNo, limit);
    NoneSkipped(log, k, Some(log[k - 1].seqNo), limit);
  }

  // ---------------------------------------------------------------- sealing

  datatype Draft = Draft(
    action: string,
    resourceId: string,
    details: Value,
    actor: Option<(string, string)>,
    correlationId: Option<string>,
    occurredAt: Instant)

  datatype SealError = NotAChainHash | UnknownAction | NotEncodableDetails

  /** The catalogue of actions and what each is recorded about. */
  function ResourceType(action: string): Option<string> {
    if action == "user.registered" || action == "user.deleted" then Some("user")
    else if action == "auth.refresh_token_reuse_detected" then Some("refresh_token_family")
    else None
  }

  /** The entry a draft becomes at a given place in the log, hash included. */
  function Seal(d: Digest, draft: Draft, seqNo: int, prevHash: string): Result<AuditEntry, SealError>
    requires ValidInstant(draft.occurredAt) && WellFormedValue(draft.details)
  {
    if !IsChainHash(prevHash) && prevHash != GenesisHash() then Err(NotAChainHash)
    else if ResourceType(draft.action).None? then Err(UnknownAction)
    else if !IsJson(draft.details) then Err(NotEncodableDetails)
    else
      var placed := AuditEntry(seqNo, draft.occurredAt, draft.action, ResourceType(draft.action).value, draft.resourceId, draft.details,
                               if draft.actor.Some? then Some(draft.actor.value.0) else None,
                               if draft.actor.Some? then Some(draft.actor.value.1) else None,
                               draft.correlationId, prevHash, "");
      Ok(placed.(hash := d(placed)))
  }

  /** The next number and the tail's hash, or the first number and the genesis hash. */
  function SealAfter(d: Digest, tail: Option<AuditEntry>, draft: Draft): Result<AuditEntry, SealError>
    requires ValidInstant(draft.occurredAt) && WellFormedValue(draft.details)
  {
    Seal(d, draft,
         if tail.Some? then tail.value.seqNo + 1 else FIRST_SEQ,
         if tail.Some? then tail.value.hash else GenesisHash())
  }

  /** The entry says what the draft said, field by field. */
  predicate Says(e: AuditEntry, draft: Draft) {
    && e.occurredAt == draft.occurredAt && e.action == draft.action && e.resourceId == draft.resourceId
    && e.details == draft.details && e.correlationId == draft.correlationId
    && (draft.actor.None? ==> e.actorId == None && e.actorRole == None)
    && (draft.actor.Some? ==> e.actorId == Some(draft.actor.value.0) && e.actorRole == Some(draft.actor.value.1))
    && (draft.action == "user.registered" || draft.action == "user.deleted" ==> e.resourceType == "user")
    && (draft.action == "auth.refresh_token_reuse_detected" ==> e.resourceType == "refresh_token_family")
  }

  /** The catalogue knows the action, and the details are JSON. */
  predicate Acceptable(draft: Draft) {
    && draft.action in {"user.registered", "user.deleted", "auth.refresh_token_reuse_detected"}
    && IsJson(draft.details)
  }

  lemma SealedSaysTheDraft(d: Digest, draft: Draft, seqNo: int, prevHash: string)
    requires ValidInstant(draft.occurredAt) && WellFormedValue(draft.details)
    ensures var sealed := Seal(d, draft, seqNo, prevHash);
            && (sealed.Ok? <==> IsChainHash(prevHash) && Acceptable(draft))
            && (sealed.Ok? ==> Says(sealed.value, draft) && sealed.value.seqNo == seqNo && sealed.value.prevHash == prevHash)
            && (sealed == Err(NotAChainHash) <==> !IsChainHash(prevHash))
            && (sealed == Err(NotEncodableDetails) ==> !IsJson(draft.details))
            && (sealed == Err(UnknownAction) ==> ResourceType(draft.action).None?)
  {
  }

  predicate AllEncodable(log: seq<AuditEntry>) {
    forall i :: 0 <= i < |log| ==> Encodable(log[i])
  }

  lemma SealedIsEncodable(d: Digest, log: seq<AuditEntry>, draft: Draft)
    requires ValidInstant(draft.occurredAt) && WellFormedValue(draft.details) && AllEncodable(log)
    ensures var sealed := SealAfter(d, Before(log, |log|), draft);
            sealed.Ok? ==> AllEncodable(log + [sealed.value])
  {
  }

  lemma PrefixIntact(d: Digest, a: seq<AuditEntry>, b: seq<AuditEntry>)
    requires Intact(d, a + b)
    ensures Intact(d, a)
  {
    forall i | 0 <= i < |a|
      ensures LinkOk(d, a, i)
    {
      assert LinkOk(d, a + b, i);
      assert (a + b)[i] == a[i];
      if i > 0 {
        assert (a + b)[i - 1] == a[i - 1];
      }
    }
  }

  lemma TailIsChainHash(d: Digest, log: seq<AuditEntry>)
    requires Intact(d, log) && IsDigest(d)
    ensures log != [] ==> IsChainHash(log[|log| - 1].hash) && log[|log| - 1].seqNo == |log|
  {
    if log != [] {
      assert LinkOk(d, log, |log| - 1);
    }
  }

  /** An entry sealed onto the tail of an intact log leaves it intact. */
  lemma AppendKeepsIntact(d: Digest, log: seq<AuditEntry>, draft: Draft)
    requires Intact(d, log) && IsDigest(d)
    requires ValidInstant(draft.occurredAt) && WellFormedValue(draft.details)
    ensures var sealed := SealAfter(d, Before(log, |log|), draft);
            && (sealed.Ok? <==> Acceptable(draft))
            && (sealed.Ok? ==> sealed.value.seqNo == |log| + 1 && Says(sealed.value, draft) && Intact(d, log + [sealed.value]))
  {
    TailIsChainHash(d, log);
    var sealed := SealAfter(d, Before(log, |log|), draft);
    if sealed.Ok? {
      var e := sealed.value;
      var longer := log + [e];
      forall i | 0 <= i < |longer|
        ensures LinkOk(d, longer, i)
      {
        if i < |log| {
          assert LinkOk(d, log, i);
        }
      }
    }
  }

  // ---------------------------------------------------------------- what verification means

  /** A log is reported intact exactly when it is. */
  lemma IntactIffReported(d: Digest, log: seq<AuditEntry>)
    ensures WholeReport(d, log).intact <==> Intact(d, log)
  {
    var k := Passing(d, log);
    forall i | 0 <= i < k
      ensures PassesAt(d, log, i)
    {
      PassingPasses(d, log, 0, i);
    }
    if k == |log| {
      forall i | 0 <= i < |log|
        ensures LinkOk(d, log, i)
      {
        PassingIsLinked(d, log, k, i);
      }
    } else if Intact(d, log) {
      LinkedPasses(d, log, k);
    }
  }

  /** What the report of an intact log says: how long it is, and the head that pins it. */
  lemma IntactReport(d: Digest, log: seq<AuditEntry>)
    requires Intact(d, log)
    ensures WholeReport(d, log)
         == Report(true, |log|, if log == [] then None else Some(FIRST_SEQ), if log == [] then None else Some(|log|),
                   if log == [] then None else Some(log[|log| - 1].hash), None)
  {
    IntactIffReported(d, log);
    if log != [] {
      assert LinkOk(d, log, 0) && LinkOk(d, log, |log| - 1);
    }
  }

  lemma LinkedPasses(d: Digest, log: seq<AuditEntry>, k: nat)
    requires k < |log| && LinkOk(d, log, k) && (k > 0 ==> LinkOk(d, log, k - 1))
    ensures PassesAt(d, log, k)
  {
  }

  /** Entries that pass, and that only passing entries precede, are numbered from one and linked. */
  lemma {:induction false} PassingIsLinked(d: Digest, log: seq<AuditEntry>, k: nat, i: nat)
    requires i < k <= |log|
    requires forall j :: 0 <= j < k ==> PassesAt(d, log, j)
    ensures LinkOk(d, log, i)
    decreases i
  {
    assert PassesAt(d, log, i);
    if i > 0 {
      PassingIsLinked(d, log, k, i - 1);
    }
  }

  function Without(log: seq<AuditEntry>, k: nat): seq<AuditEntry>
    requires k < |log|
  {
    log[..k] + log[k + 1..]
  }

  lemma WithoutIsTable(log: seq<AuditEntry>, k: nat)
    requires Table(log) && k < |log|
    ensures Table(Without(log, k))
  {
    var left := Without(log, k);
    assert forall i :: 0 <= i < |left| ==> left[i] == if i < k then log[i] else log[i + 1];
  }

  lemma {:induction false} FirstBreach(d: Digest, log: seq<AuditEntry>, i: nat, k: nat)
    requires i <= k < |log| && !PassesAt(d, log, k)
    requires forall j :: i <= j < k ==> PassesAt(d, log, j)
    ensures PassingFrom(d, log, i) == k
    decreases k - i
  {
    if i < k {
      FirstBreach(d, log, i + 1, k);
    }
  }

  /** The entries before the removed one still pass. */
  lemma StillPasses(d: Digest, log: seq<AuditEntry>, k: nat, i: nat)
    requires Intact(d, log) && i < k < |log|
    ensures PassesAt(d, Without(log, k), i)
  {
    assert LinkOk(d, log, i);
    if i > 0 {
      assert LinkOk(d, log, i - 1);
    }
    LinkedPasses(d, log, i);
    assert Without(log, k)[i] == log[i];
    assert Before(Without(log, k), i) == Before(log, i);
  }

  /** The entry after it is out of place. */
  lemma NextIsOutOfPlace(d: Digest, log: seq<AuditEntry>, k: nat)
    requires Intact(d, log) && k < |log| - 1
    ensures Inspect(d, Without(log, k)[k], Before(Without(log, k), k)) == Some(Breach(k + 1, if k == 0 then WrongGenesis else Gap))
  {
    assert LinkOk(d, log, k + 1);
    assert Without(log, k)[k] == log[k + 1];
    if k > 0 {
      assert LinkOk(d, log, k - 1);
      assert Before(Without(log, k), k) == Some(log[k - 1]);
    }
  }

  /** Removing any entry but the last is reported, at the missing entry's own number. */
  lemma RemovalIsReported(d: Digest, log: seq<AuditEntry>, k: nat)
    requires Intact(d, log) && k < |log| - 1
    ensures Table(Without(log, k))
    ensures var r := WholeReport(d, Without(log, k));
            !r.intact && r.checked == k && r.breach == Some(Breach(k + 1, if k == 0 then WrongGenesis else Gap))
  {
    var left := Without(log, k);
    IntactIsTable(d, log);
    WithoutIsTable(log, k);
    forall i | 0 <= i < k
      ensures PassesAt(d, left, i)
    {
      StillPasses(d, log, k, i);
    }
    NextIsOutOfPlace(d, log, k);
    FirstBreach(d, left, 0, k);
  }

  lemma EditLeavesOthers(d: Digest, log: seq<AuditEntry>, k: nat, e: AuditEntry, i: nat)
    requires Intact(d, log) && k < |log| && i < |log| && i != k && i != k + 1
    ensures PassesAt(d, log[k := e], i)
  {
    assert LinkOk(d, log, i);
    if i > 0 {
      assert LinkOk(d, log, i - 1);
    }
    LinkedPasses(d, log, i);
    assert Before(log[k := e], i) == Before(log, i);
  }

  /** What the edited entry itself is found to be. */
  lemma EditedEntry(d: Digest, log: seq<AuditEntry>, k: nat, e: AuditEntry)
    requires Intact(d, log) && k < |log| && e.seqNo == k + 1
    ensures Inspect(d, log[k := e][k], Before(log[k := e], k))
         == if e.prevHash != log[k].prevHash then Some(Breach(k + 1, BrokenLink))
            else if d(e) != e.hash then Some(Breach(k + 1, ForgedHash)) else None
  {
    assert LinkOk(d, log, k);
    if k > 0 {
      assert LinkOk(d, log, k - 1);
    }
    assert Before(log[k := e], k) == Before(log, k);
  }

  /** And the entry after it. */
  lemma AfterEditedEntry(d: Digest, log: seq<AuditEntry>, k: nat, e: AuditEntry)
    requires Intact(d, log) && k + 1 < |log| && e.seqNo == k + 1
    ensures Inspect(d, log[k := e][k + 1], Before(log[k := e], k + 1))
         == if e.hash != log[k].hash then Some(Breach(k + 2, BrokenLink)) else None
  {
    assert LinkOk(d, log, k) && LinkOk(d, log, k + 1);
    assert Before(log[k := e], k + 1) == Some(e);
  }

  /**
   * Rewriting one entry in place is reported at its own number unless it is resealed with a digest
   * of its own, then at the next number unless the digest did not change, and else not at all.
   */
  lemma EditIsReported(d: Digest, log: seq<AuditEntry>, k: nat, e: AuditEntry)
    requires Intact(d, log) && k < |log| && e.seqNo == k + 1
    ensures var r := WholeReport(d, log[k := e]);
            r.breach == if e.prevHash != log[k].prevHash then Some(Breach(k + 1, BrokenLink))
                        else if d(e) != e.hash then Some(Breach(k + 1, ForgedHash))
                        else if k + 1 < |log| && e.hash != log[k].hash then Some(Breach(k + 2, BrokenLink))
                        else None
  {
    var edited := log[k := e];
    forall i | 0 <= i < |log| && i != k && i != k + 1
      ensures PassesAt(d, edited, i)
    {
      EditLeavesOthers(d, log, k, e, i);
    }
    EditedEntry(d, log, k, e);
    if e.prevHash != log[k].prevHash || d(e) != e.hash {
      FirstBreach(d, edited, 0, k);
    } else {
      assert PassesAt(d, edited, k);
      if k + 1 < |log| {
        AfterEditedEntry(d, log, k, e);
        if e.hash != log[k].hash {
          FirstBreach(d, edited, 0, k + 1);
        } else {
          assert PassesAt(d, edited, k + 1);
          AllPass(d, edited, 0);
        }
      } else {
        AllPass(d, edited, 0);
      }
    }
  }

  lemma {:induction false} AllPass(d: Digest, log: seq<AuditEntry>, i: nat)
    requires i <= |log| && forall j :: 0 <= j < |log| ==> PassesAt(d, log, j)
    ensures PassingFrom(d, log, i) == |log|
    decreases |log| - i
  {
    if i < |log| {
      AllPass(d, log, i + 1);
    }
  }

  // ---------------------------------------------------------------- every run of appends

  datatype LogState = LogState(rows: seq<AuditEntry>, pending: seq<AuditEntry>, holder: Option<nat>)

  datatype Action = Append(tx: nat, draft: Draft) | Commit(tx: nat) | Rollback(tx: nat)

  predicate ValidAction(a: Action) {
    a.Append? ==> ValidInstant(a.draft.occurredAt) && WellFormedValue(a.draft.details)
  }

  function Act(d: Digest, s: LogState, a: Action): LogState
    requires ValidAction(a)
  {
    match a
    case Append(tx, draft) =>
      if s.holder.Some? && s.holder.value != tx then s
      else
        var seen := s.rows + s.pending;
        var sealed := SealAfter(d, Before(seen, |seen|), draft);
        s.(holder := Some(tx), pending := s.pending + if sealed.Ok? then [sealed.value] else [])
    case Commit(tx) => if s.holder == Some(tx) then LogState(s.rows + s.pending, [], None) else s
    case Rollback(tx) => if s.holder == Some(tx) then LogState(s.rows, [], None) else s
  }

  predicate ValidActions(actions: seq<Action>) {
    forall i :: 0 <= i < |actions| ==> ValidAction(actions[i])
  }

  function RunFrom(d: Digest, s: LogState, actions: seq<Action>): LogState
    requires ValidActions(actions)
  {
    if actions == [] then s else Act(d, RunFrom(d, s, actions[..|actions| - 1]), actions[|actions| - 1])
  }

  function Run(d: Digest, actions: seq<Action>): LogState
    requires ValidActions(actions)
  {
    RunFrom(d, LogState([], [], None), actions)
  }

  /** What is committed, and what would be if the open transaction committed, is intact. */
  predicate Sound(d: Digest, s: LogState) {
    && Intact(d, s.rows + s.pending)
    && AllEncodable(s.rows + s.pending)
    && (s.holder == None ==> s.pending == [])
  }

  lemma ActKeepsSound(d: Digest, s: LogState, a: Action)
    requires Sound(d, s) && (a.Append? ==> IsDigest(d)) && ValidAction(a)
    ensures Sound(d, Act(d, s, a))
  {
    var t := Act(d, s, a);
    match a
    case Append(tx, draft) =>
      var seen := s.rows + s.pending;
      AppendKeepsIntact(d, seen, draft);
      SealedIsEncodable(d, seen, draft);
      var sealed := SealAfter(d, Before(seen, |seen|), draft);
      if sealed.Ok? {
        assert s.rows + (s.pending + [sealed.value]) == seen + [sealed.value];
      } else {
        assert s.pending + [] == s.pending;
      }
    case Commit(tx) =>
      assert s.rows + s.pending + [] == s.rows + s.pending;
    case Rollback(tx) =>
      PrefixIntact(d, s.rows, s.pending);
      assert s.rows + [] == s.rows;
      assert forall i :: 0 <= i < |s.rows| ==> (s.rows + s.pending)[i] == s.rows[i];
  }

  lemma {:induction false} RunsStaySound(d: Digest, s: LogState, actions: seq<Action>)
    requires ValidActions(actions) && IsDigest(d) && Sound(d, s)
    ensures Sound(d, RunFrom(d, s, actions))
  {
    if actions != [] {
      var before := actions[..|actions| - 1];
      RunsStaySound(d, s, before);
      ActKeepsSound(d, RunFrom(d, s, before), actions[|actions| - 1]);
    }
  }

  lemma SoundIsIntact(d: Digest, s: LogState)
    requires Sound(d, s)
    ensures Intact(d, s.rows) && AllEncodable(s.rows) && Table(s.rows) && WholeReport(d, s.rows).intact
  {
    PrefixIntact(d, s.rows, s.pending);
    assert forall i :: 0 <= i < |s.rows| ==> (s.rows + s.pending)[i] == s.rows[i];
    IntactIsTable(d, s.rows);
    IntactIffReported(d, s.rows);
  }

  /** Whatever transactions append, commit and roll back, the committed log verifies. */
  lemma EveryRunStaysIntact(d: Digest, actions: seq<Action>)
    requires ValidActions(actions) && IsDigest(d)
    ensures var rows := Run(d, actions).rows;
            Intact(d, rows) && AllEncodable(rows) && Table(rows) && WholeReport(d, rows).intact
  {
    RunsStaySound(d, LogState([], [], None), actions);
    SoundIsIntact(d, Run(d, actions));
  }

  /** Committed rows are only ever added to, at the end, and stay a table whatever they hold. */
  lemma ActGrows(d: Digest, s: LogState, a: Action)
    requires ValidAction(a) && Table(s.rows + s.pending)
    ensures s.rows <= Act(d, s, a).rows && Table(Act(d, s, a).rows + Act(d, s, a).pending)
  {
    var t := Act(d, s, a);
    var seen := s.rows + s.pending;
    match a
    case Append(tx, draft) =>
      var sealed := SealAfter(d, Before(seen, |seen|), draft);
      if sealed.Ok? {
        assert s.rows + (s.pending + [sealed.value]) == seen + [sealed.value];
        TableMore(seen, sealed.value);
      } else {
        assert s.pending + [] == s.pending;
      }
    case Commit(tx) => assert seen + [] == seen;
    case Rollback(tx) =>
      assert s.rows + [] == s.rows;
      TableOfPrefix(s.rows, s.pending);
  }

  lemma TableMore(log: seq<AuditEntry>, e: AuditEntry)
    requires Table(log) && (log != [] ==> e.seqNo == log[|log| - 1].seqNo + 1)
    ensures Table(log + [e])
  {
  }

  lemma TableOfPrefix(a: seq<AuditEntry>, b: seq<AuditEntry>)
    requires Table(a + b)
    ensures Table(a)
  {
    assert forall i :: 0 <= i < |a| ==> (a + b)[i] == a[i];
  }

  predicate ValidWaits(waits: seq<seq<Action>>) {
    forall i :: 0 <= i < |waits| ==> ValidActions(waits[i])
  }

  /** What other transactions do while a walk waits for its pages, one list for each wait. */
  function Meanwhile(d: Digest, s: LogState, waits: seq<seq<Action>>): LogState
    requires ValidWaits(waits)
  {
    if waits == [] then s else RunFrom(d, Meanwhile(d, s, waits[..|waits| - 1]), waits[|waits| - 1])
  }

  lemma MeanwhileMore(d: Digest, s: LogState, waits: seq<seq<Action>>, k: nat)
    requires k < |waits| && ValidWaits(waits)
    ensures Meanwhile(d, s, waits[..k + 1]) == RunFrom(d, Meanwhile(d, s, waits[..k]), waits[k])
  {
    assert waits[..k + 1][..k] == waits[..k];
  }

  lemma {:induction false} MeanwhileStaysSound(d: Digest, s: LogState, waits: seq<seq<Action>>)
    requires ValidWaits(waits) && IsDigest(d) && Sound(d, s)
    ensures Sound(d, Meanwhile(d, s, waits))
  {
    if waits != [] {
      MeanwhileStaysSound(d, s, waits[..|waits| - 1]);
      RunsStaySound(d, Meanwhile(d, s, waits[..|waits| - 1]), waits[|waits| - 1]);
    }
  }

  /** Entries that pass go on passing when rows are added, and the walk is where it was. */
  lemma PassesStill(d: Digest, was: seq<AuditEntry>, now: seq<AuditEntry>, at: Cursor)
    requires was <= now && IsAt(was, at) && AllPassUpTo(d, was, at.checked)
    ensures IsAt(now, at) && AllPassUpTo(d, now, at.checked)
  {
    forall i | 0 <= i < at.checked
      ensures PassesAt(d, now, i)
    {
      assert PassesAt(d, was, i);
    }
  }

  predicate AllPassUpTo(d: Digest, log: seq<AuditEntry>, k: nat)
    requires k <= |log|
  {
    forall i :: 0 <= i < k ==> PassesAt(d, log, i)
  }

  lemma IntactIsTable(d: Digest, log: seq<AuditEntry>)
    requires Intact(d, log)
    ensures Table(log)
  {
    forall i | 0 <= i < |log|
      ensures log[i].seqNo == i + 1
    {
      assert LinkOk(d, log, i);
    }
  }

  // ---------------------------------------------------------------- the store in place

  class AuditLogStore {
    /** Committed rows, in order. */
    var rows: seq<AuditEntry>
    /** Rows of the transaction holding the lock, not committed yet. */
    var pending: seq<AuditEntry>
    var holder: Option<nat>

    constructor ()
      ensures State() == LogState([], [], None)
    {
      rows, pending, holder := [], [], None;
    }

    function State(): LogState
      reads this
    {
      LogState(rows, pending, holder)
    }

    /**
     * Appends inside transaction `tx`. The advisory lock is taken first and held to the end of
     * the transaction; a second transaction waits (`None`). The tail is read inside the
     * transaction, so it sees that transaction's own earlier appends.
     */
    method Append(d: Digest, tx: nat, draft: Draft) returns (r: Option<Result<AuditEntry, SealError>>)
      requires Sound(d, State()) && IsDigest(d) && ValidAction(Action.Append(tx, draft))
      modifies this
      ensures State() == Act(d, old(State()), Action.Append(tx, draft)) && Sound(d, State())
      ensures r == None <==> old(holder).Some? && old(holder).value != tx
      ensures r.Some? ==> (r.value.Ok? <==> Acceptable(draft))
      ensures r.Some? && r.value.Ok? ==>
                && pending == old(pending) + [r.value.value]
                && r.value.value.seqNo == |old(rows) + old(pending)| + 1 && Says(r.value.value, draft)
    {
      ActKeepsSound(d, State(), Action.Append(tx, draft));
      if holder.Some? && holder.value != tx {
        return None;
      }
      holder := Some(tx);
      var seen := rows + pending;
      var sealed := SealAfter(d, Before(seen, |seen|), draft);
      AppendKeepsIntact(d, seen, draft);
      if sealed.Ok? {
        pending := pending + [sealed.value];
      }
      return Some(sealed);
    }

    method Commit(d: Digest, tx: nat)
      requires Sound(d, State()) && holder == Some(tx)
      modifies this
      ensures State() == Act(d, old(State()), Action.Commit(tx)) && Sound(d, State())
    {
      ActKeepsSound(d, State(), Action.Commit(tx));
      rows, pending, holder := rows + pending, [], None;
    }

    /** The transaction's rows are dropped, and their numbers are free again. */
    method Rollback(d: Digest, tx: nat)
      requires Sound(d, State()) && holder == Some(tx)
      modifies this
      ensures State() == Act(d, old(State()), Action.Rollback(tx)) && Sound(d, State())
    {
      ActKeepsSound(d, State(), Action.Rollback(tx));
      pending, holder := [], None;
    }

    method Read(after: Option<int>, limit: nat) returns (page: seq<AuditEntry>)
      ensures page == Page(rows, after, limit)
    {
      page := [];
      var i := 0;
      ghost var whole := Page(rows, after, limit);
      while i < |rows| && |page| < limit
        invariant 0 <= i <= |rows| && |page| <= limit
        invariant whole == page + PageFrom(rows, i, after, limit - |page|)
      {
        if after.None? || rows[i].seqNo > after.value {
          page := page + [rows[i]];
        }
        i := i + 1;
      }
    }

    /** Other transactions have their turn. */
    method Wait(d: Digest, actions: seq<Action>)
      requires ValidActions(actions) && Table(rows + pending)
      modifies this
      ensures State() == RunFrom(d, old(State()), actions)
      ensures old(rows) <= rows && Table(rows + pending)
    {
      for i := 0 to |actions|
        invariant State() == RunFrom(d, old(State()), actions[..i])
        invariant old(rows) <= rows && Table(rows + pending)
      {
        assert actions[..i + 1][..i] == actions[..i];
        ActGrows(d, State(), actions[i]);
        var next := Act(d, State(), actions[i]);
        rows, pending, holder := next.rows, next.pending, next.holder;
      }
      assert actions[..|actions|] == actions;
    }

    /**
     * Walks the whole table page by page, holding one entry at a time, while other transactions
     * append, commit and roll back between its pages. The report is the one a single pass over the
     * table as it stood at the last page would give.
     */
    method Verify(d: Digest, pageSize: nat, waits: seq<seq<Action>>) returns (r: Report, ghost waited: nat)
      requires Table(rows + pending) && pageSize > 0 && ValidWaits(waits)
      modifies this
      ensures waited <= |waits| && State() == Meanwhile(d, old(State()), waits[..waited])
      ensures old(rows) <= rows && r == WholeReport(d, rows)
      ensures IsDigest(d) && Sound(d, old(State())) ==> r.intact
    {
      var at := Cursor(None, 0, None);
      var more, k := true, 0;
      r := ReportOf(at, None);
      while more
        invariant k <= |waits| && State() == Meanwhile(d, old(State()), waits[..k])
        invariant old(rows) <= rows && Table(rows + pending)
        invariant IsAt(rows, at) && AllPassUpTo(d, rows, at.checked)
        invariant !more ==> r == WholeReport(d, rows)
        decreases |waits| - k, more, |rows| - at.checked
      {
        if k < |waits| {
          ghost var was := rows;
          MeanwhileMore(d, old(State()), waits, k);
          Wait(d, waits[k]);
          k := k + 1;
          PassesStill(d, was, rows, at);
        }
        TableOfPrefix(rows, pending);
        r, at, more := NextPage(d, pageSize, at);
      }
      waited := k;
      Reported(d, old(State()), State(), waits[..k]);
    }

    /** Reads one page and inspects it: there is more to read after a full page with no breach in it. */
    method NextPage(d: Digest, pageSize: nat, start: Cursor) returns (r: Report, at: Cursor, more: bool)
      requires Table(rows) && pageSize > 0 && IsAt(rows, start) && AllPassUpTo(d, rows, start.checked)
      ensures IsAt(rows, at) && AllPassUpTo(d, rows, at.checked)
      ensures more ==> at.checked == start.checked + pageSize
      ensures !more ==> r == WholeReport(d, rows)
    {
      var page := Read(if start.previous.Some? then Some(start.previous.value.seqNo) else None, pageSize);
      PageAfter(rows, start, pageSize);
      var breach;
      at, breach := InspectPage(d, rows, page, start);
      more := breach.None? && |page| == pageSize;
      r := ReportOf(at, breach);
      if breach.Some? {
        FirstBreach(d, rows, 0, at.checked);
      } else if !more {
        AllPass(d, rows, 0);
      }
    }
  }

  lemma Reported(d: Digest, s: LogState, t: LogState, waits: seq<seq<Action>>)
    requires ValidWaits(waits) && t == Meanwhile(d, s, waits)
    ensures IsDigest(d) && Sound(d, s) ==> WholeReport(d, t.rows).intact
  {
    if IsDigest(d) && Sound(d, s) {
      MeanwhileStaysSound(d, s, waits);
      SoundIsIntact(d, t);
    }
  }

  /** How far the verifier has got: the entry before, how many passed, and the first number seen. */
  datatype Cursor = Cursor(previous: Option<AuditEntry>, checked: nat, firstSeq: Option<int>)

  predicate IsAt(log: seq<AuditEntry>, at: Cursor) {
    at.checked <= |log| && at == Cursor(Before(log, at.checked), at.checked, if at.checked > 0 then Some(log[0].seqNo) else None)
  }

  function ReportOf(at: Cursor, breach: Option<Breach>): Report {
    Report(breach.None?, at.checked, at.firstSeq,
           if at.previous.Some? then Some(at.previous.value.seqNo) else None,
           if at.previous.Some? then Some(at.previous.value.hash) else None, breach)
  }

  lemma PageAfter(log: seq<AuditEntry>, at: Cursor, limit: nat)
    requires Table(log) && IsAt(log, at)
    ensures Page(log, if at.previous.Some? then Some(at.previous.value.seqNo) else None, limit)
         == Slice(log, at.checked, limit)
  {
    if at.checked > 0 {
      PageAfterEntry(log, at.checked, limit);
    } else {
      NoneSkipped(log, 0, None, limit);
    }
  }

  /** Inspects one page, entry by entry, up to the first breach. */
  method InspectPage(d: Digest, ghost log: seq<AuditEntry>, page: seq<AuditEntry>, start: Cursor) returns (at: Cursor, breach: Option<Breach>)
    requires IsAt(log, start) && AllPassUpTo(d, log, start.checked)
    requires start.checked + |page| <= |log| && forall j :: 0 <= j < |page| ==> page[j] == log[start.checked + j]
    ensures IsAt(log, at) && AllPassUpTo(d, log, at.checked)
    ensures breach.None? ==> at.checked == start.checked + |page|
    ensures breach.Some? ==> at.checked < |log| && breach == Inspect(d, log[at.checked], Before(log, at.checked))
  {
    at := start;
    for i := 0 to |page|
      invariant IsAt(log, at) && at.checked == start.checked + i && AllPassUpTo(d, log, at.checked)
    {
      var entry := page[i];
      assert entry == log[at.checked];
      breach := Inspect(d, entry, at.previous);
      if breach.Some? {
        return;
      }
      assert PassesAt(d, log, at.checked);
      at := Cursor(Some(entry), at.checked + 1, if at.firstSeq.None? then Some(entry.seqNo) else at.firstSeq);
    }
    breach := None;
  }
}
