/** What the audit log says: over every run, exactly the accepted drafts of committed transactions, in order. */
module AuditDrafts {
  import opened Common
  import opened AuditEntry
  import opened AuditChain

  /** A notebook kept beside the log: what was drafted and committed, and what the open transaction has drafted. */
  datatype Notes = Notes(committed: seq<Draft>, open: seq<Draft>, holder: Option<nat>)

  function Noted(n: Notes, a: Action): Notes {
    match a
    case Append(tx, draft) =>
      if n.holder.Some? && n.holder.value != tx then n
      else Notes(n.committed, if Acceptable(draft) then n.open + [draft] else n.open, Some(tx))
    case Commit(tx) => if n.holder == Some(tx) then Notes(n.committed + n.open, [], None) else n
    case Rollback(tx) => if n.holder == Some(tx) then Notes(n.committed, [], None) else n
  }

  function Notebook(actions: seq<Action>): Notes {
    if actions == [] then Notes([], [], None) else Noted(Notebook(actions[..|actions| - 1]), actions[|actions| - 1])
  }

  /** Entry by entry, the log says what the drafts said. */
  predicate Tells(log: seq<AuditEntry>, drafts: seq<Draft>) {
    |log| == |drafts| && forall i :: 0 <= i < |log| ==> Says(log[i], drafts[i])
  }

  predicate Agrees(s: LogState, n: Notes) {
    Tells(s.rows, n.committed) && Tells(s.pending, n.open) && s.holder == n.holder
  }

  lemma TellsMore(a: seq<AuditEntry>, x: seq<Draft>, b: seq<AuditEntry>, y: seq<Draft>)
    requires Tells(a, x) && Tells(b, y)
    ensures Tells(a + b, x + y)
  {
  }

  lemma AppendAgrees(d: Digest, s: LogState, n: Notes, tx: nat, draft: Draft)
    requires IsDigest(d) && Sound(d, s) && Agrees(s, n) && ValidAction(Append(tx, draft))
    ensures Agrees(Act(d, s, Append(tx, draft)), Noted(n, Append(tx, draft)))
  {
    var seen := s.rows + s.pending;
    AppendKeepsIntact(d, seen, draft);
    var sealed := SealAfter(d, Before(seen, |seen|), draft);
    if sealed.Ok? {
      TellsMore(s.pending, n.open, [sealed.value], [draft]);
    } else {
      assert s.pending + [] == s.pending;
    }
  }

  lemma ActAgrees(d: Digest, s: LogState, n: Notes, a: Action)
    requires IsDigest(d) && Sound(d, s) && Agrees(s, n) && ValidAction(a)
    ensures Agrees(Act(d, s, a), Noted(n, a))
  {
    match a
    case Append(tx, draft) => AppendAgrees(d, s, n, tx, draft);
    case Commit(tx) => TellsMore(s.rows, n.committed, s.pending, n.open);
    case Rollback(tx) =>
  }

  lemma {:induction false} RunAgrees(d: Digest, actions: seq<Action>)
    requires ValidActions(actions) && IsDigest(d)
    ensures Agrees(Run(d, actions), Notebook(actions))
  {
    if actions != [] {
      var front := actions[..|actions| - 1];
      RunAgrees(d, front);
      RunsStaySound(d, LogState([], [], None), front);
      ActAgrees(d, Run(d, front), Notebook(front), actions[|actions| - 1]);
    }
  }

  /**
   * Whatever transactions append, commit and roll back: the committed log is numbered from one and
   * linked, and its entries are the accepted drafts of the committed transactions, one for one, in the
   * order they were made.
   */
  lemma LogTellsWhatWasDrafted(d: Digest, actions: seq<Action>)
    requires ValidActions(actions) && IsDigest(d)
    ensures Intact(d, Run(d, actions).rows) && Tells(Run(d, actions).rows, Notebook(actions).committed)
  {
    RunAgrees(d, actions);
    EveryRunStaysIntact(d, actions);
  }
}
