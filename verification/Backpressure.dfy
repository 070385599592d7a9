/** One connection's send side: over every run of sends, reviews, drains and ticks. */
module Backpressure {
  import opened Common

  type Time = int

  datatype Frame = Event(id: nat) | Lagged(dropped: nat, since: Time)

  datatype Options = Options(highWaterMark: nat, graceMs: int, size: Frame -> nat)

  /** What happened to the connection, in order. */
  datatype Entry = Wrote(frame: Frame) | WentLagging(at: Time) | Dropped | ClosedSlow(dropped: nat) | Closed

  datatype State = State(
    open: bool,
    buffered: nat,
    now: Time,
    laggingSince: Option<Time>,
    droppedWhileLagging: nat,
    droppedTotal: nat,
    history: seq<Entry>)

  datatype Outcome = Sent | WasDropped | WasClosed

  const INITIAL := State(true, 0, 0, None, 0, 0, [])

  function LowWaterMark(o: Options): nat {
    o.highWaterMark / 2
  }

  // ---------------------------------------------------------------- the policy, on values

  function Write(o: Options, s: State, frame: Frame): State {
    s.(buffered := s.buffered + o.size(frame), history := s.history + [Wrote(frame)])
  }

  function Recover(o: Options, s: State): State
    requires s.laggingSince.Some?
  {
    Write(o, s.(laggingSince := None, droppedWhileLagging := 0), Lagged(s.droppedWhileLagging, s.laggingSince.value))
  }

  function CloseSlow(s: State): State {
    s.(open := false, laggingSince := None, history := s.history + [ClosedSlow(s.droppedWhileLagging)])
  }

  predicate GraceSpent(o: Options, s: State) {
    s.laggingSince.Some? && s.now - s.laggingSince.value >= o.graceMs
  }

  function OneDrop(s: State): State {
    s.(droppedWhileLagging := s.droppedWhileLagging + 1, droppedTotal := s.droppedTotal + 1, history := s.history + [Dropped])
  }

  function StayLagging(o: Options, s: State): (State, Outcome) {
    var d := OneDrop(s);
    if GraceSpent(o, d) then (CloseSlow(d), WasClosed) else (d, WasDropped)
  }

  function Send(o: Options, s: State, frame: Frame): (State, Outcome) {
    if !s.open then (s, WasClosed)
    else if s.laggingSince.Some? then
      if s.buffered > LowWaterMark(o) then StayLagging(o, s) else (Write(o, Recover(o, s), frame), Sent)
    else if s.buffered > o.highWaterMark then
      StayLagging(o, s.(laggingSince := Some(s.now), droppedWhileLagging := 0, history := s.history + [WentLagging(s.now)]))
    else (Write(o, s, frame), Sent)
  }

  function Review(o: Options, s: State): State {
    if !s.open || s.laggingSince.None? then s
    else if GraceSpent(o, s) then CloseSlow(s)
    else if s.buffered <= LowWaterMark(o) then Recover(o, s)
    else s
  }

  /** Anything else that ends the connection: the gateway, the peer, a termination. */
  function Close(s: State): State {
    if s.open then s.(open := false, history := s.history + [Closed]) else s
  }

  datatype Action = DoSend(id: nat) | DoReview | DoClose | Drain(bytes: nat) | Tick(ms: nat)

  function Act(o: Options, s: State, a: Action): State {
    match a
    case DoSend(id) => Send(o, s, Event(id)).0
    case DoReview => Review(o, s)
    case DoClose => Close(s)
    case Drain(bytes) => s.(buffered := if bytes < s.buffered then s.buffered - bytes else 0)
    case Tick(ms) => s.(now := s.now + ms)
  }

  function Run(o: Options, actions: seq<Action>): State {
    if actions == [] then INITIAL else Act(o, Run(o, actions[..|actions| - 1]), actions[|actions| - 1])
  }

  // ---------------------------------------------------------------- what a history may look like

  predicate IsEnd(e: Entry) {
    e.Closed? || e.ClosedSlow?
  }

  predicate IsDropping(e: Entry) {
    e.Dropped? || e.WentLagging?
  }

  /** The entries before `i` are one whole episode with exactly `k` drops. */
  predicate EpisodeBefore(h: seq<Entry>, i: nat, k: nat) {
    && k >= 1 && k + 1 <= i <= |h| && h[i - k - 1].WentLagging?
    && forall j :: i - k <= j < i ==> h[j].Dropped?
  }

  /** What may stand at place `i`, given what stands before it. */
  predicate EntryOk(h: seq<Entry>, i: nat)
    requires i < |h|
  {
    && (i > 0 ==> !IsEnd(h[i - 1]))
    && match h[i]
       case Wrote(Event(_)) => i > 0 ==> !IsDropping(h[i - 1])
       case Wrote(Lagged(k, since)) => EpisodeBefore(h, i, k) && h[i - k - 1] == WentLagging(since)
       case WentLagging(_) => (i > 0 ==> !IsDropping(h[i - 1])) && i + 1 < |h| && h[i + 1].Dropped?
       case Dropped => i > 0 && IsDropping(h[i - 1])
       case ClosedSlow(k) => EpisodeBefore(h, i, k)
       case Closed => true
  }

  predicate HistoryOk(h: seq<Entry>) {
    forall i :: 0 <= i < |h| ==> EntryOk(h, i)
  }

  function Drops(h: seq<Entry>): nat {
    if h == [] then 0 else Drops(h[..|h| - 1]) + if h[|h| - 1].Dropped? then 1 else 0
  }

  /** Drops the peer has been told about, and drops it was closed on. */
  function Announced(h: seq<Entry>): nat {
    if h == [] then 0
    else
      Announced(h[..|h| - 1]) +
      match h[|h| - 1]
      case Wrote(Lagged(k, _)) => k
      case ClosedSlow(k) => k
      case _ => 0
  }

  /** The sender's fields say where in an episode the history stands. */
  predicate Agrees(s: State) {
    && (s.open ==> s.history == [] || !IsEnd(s.history[|s.history| - 1]))
    && (s.open && s.laggingSince.None? ==> s.history == [] || !IsDropping(s.history[|s.history| - 1]))
    && (s.open && s.laggingSince.Some? ==>
          && EpisodeBefore(s.history, |s.history|, s.droppedWhileLagging)
          && s.history[|s.history| - s.droppedWhileLagging - 1] == WentLagging(s.laggingSince.value))
  }

  predicate Accounts(s: State) {
    && s.droppedTotal == Drops(s.history)
    && s.droppedTotal == Announced(s.history) + if s.laggingSince.Some? then s.droppedWhileLagging else 0
  }

  predicate Inv(s: State) {
    HistoryOk(s.history) && Agrees(s) && Accounts(s)
  }

  // ---------------------------------------------------------------- every step keeps it

  lemma Appending(h: seq<Entry>, e: Entry)
    requires HistoryOk(h)
    requires EntryOk(h + [e], |h|)
    ensures HistoryOk(h + [e])
    ensures Drops(h + [e]) == Drops(h) + if e.Dropped? then 1 else 0
    ensures Announced(h + [e]) == Announced(h) + match e case Wrote(Lagged(k, _)) => k case ClosedSlow(k) => k case _ => 0
  {
    var n := h + [e];
    assert n[..|n| - 1] == h;
    forall i | 0 <= i < |h|
      ensures EntryOk(n, i)
    {
      assert EntryOk(h, i);
    }
  }

  /** Going behind and dropping the first frame are one step. */
  lemma AppendingTwo(h: seq<Entry>, at: Time)
    requires HistoryOk(h) && (h == [] || (!IsEnd(h[|h| - 1]) && !IsDropping(h[|h| - 1])))
    ensures var n := h + [WentLagging(at)] + [Dropped];
            HistoryOk(n) && Drops(n) == Drops(h) + 1 && Announced(n) == Announced(h) && EpisodeBefore(n, |n|, 1)
  {
    var m := h + [WentLagging(at)];
    var n := m + [Dropped];
    assert n[..|n| - 1] == m && m[..|m| - 1] == h;
    forall i | 0 <= i < |n|
      ensures EntryOk(n, i)
    {
      if i < |h| {
        assert EntryOk(h, i);
      }
    }
  }

  lemma WriteEventKeeps(o: Options, s: State, id: nat)
    requires Inv(s) && s.open && s.laggingSince.None?
    ensures Inv(Write(o, s, Event(id)))
  {
    Appending(s.history, Wrote(Event(id)));
  }

  lemma RecoverKeeps(o: Options, s: State)
    requires Inv(s) && s.open && s.laggingSince.Some?
    ensures Inv(Recover(o, s))
  {
    Appending(s.history, Wrote(Lagged(s.droppedWhileLagging, s.laggingSince.value)));
  }

  lemma CloseSlowKeeps(s: State)
    requires Inv(s) && s.open && s.laggingSince.Some?
    ensures Inv(CloseSlow(s))
  {
    Appending(s.history, ClosedSlow(s.droppedWhileLagging));
  }

  lemma EpisodeGrows(h: seq<Entry>, k: nat)
    requires EpisodeBefore(h, |h|, k)
    ensures EpisodeBefore(h + [Dropped], |h| + 1, k + 1) && (h + [Dropped])[|h| - k - 1] == h[|h| - k - 1]
  {
  }

  lemma OneDropKeeps(s: State)
    requires Inv(s) && s.open && s.laggingSince.Some?
    ensures Inv(OneDrop(s))
  {
    Appending(s.history, Dropped);
    EpisodeGrows(s.history, s.droppedWhileLagging);
  }

  lemma StayLaggingKeeps(o: Options, s: State)
    requires Inv(s) && s.open && s.laggingSince.Some?
    ensures Inv(StayLagging(o, s).0)
  {
    OneDropKeeps(s);
    if GraceSpent(o, OneDrop(s)) {
      CloseSlowKeeps(OneDrop(s));
    }
  }

  lemma FallBehindKeeps(o: Options, s: State)
    requires Inv(s) && s.open && s.laggingSince.None?
    ensures Inv(StayLagging(o, s.(laggingSince := Some(s.now), droppedWhileLagging := 0, history := s.history + [WentLagging(s.now)])).0)
  {
    AppendingTwo(s.history, s.now);
    var d := s.(laggingSince := Some(s.now), droppedWhileLagging := 1, droppedTotal := s.droppedTotal + 1,
                history := s.history + [WentLagging(s.now)] + [Dropped]);
    assert Inv(d);
    if GraceSpent(o, d) {
      CloseSlowKeeps(d);
    }
  }

  lemma SendKeeps(o: Options, s: State, id: nat)
    requires Inv(s)
    ensures Inv(Send(o, s, Event(id)).0)
  {
    if s.open {
      if s.laggingSince.Some? {
        if s.buffered > LowWaterMark(o) {
          StayLaggingKeeps(o, s);
        } else {
          RecoverKeeps(o, s);
          WriteEventKeeps(o, Recover(o, s), id);
        }
      } else if s.buffered > o.highWaterMark {
        FallBehindKeeps(o, s);
      } else {
        WriteEventKeeps(o, s, id);
      }
    }
  }

  lemma ReviewKeeps(o: Options, s: State)
    requires Inv(s)
    ensures Inv(Review(o, s))
  {
    if s.open && s.laggingSince.Some? {
      if GraceSpent(o, s) {
        CloseSlowKeeps(s);
      } else if s.buffered <= LowWaterMark(o) {
        RecoverKeeps(o, s);
      }
    }
  }

  lemma CloseKeeps(s: State)
    requires Inv(s)
    ensures Inv(Close(s))
  {
    if s.open {
      Appending(s.history, Closed);
    }
  }

  lemma ActKeeps(o: Options, s: State, a: Action)
    requires Inv(s)
    ensures Inv(Act(o, s, a))
  {
    match a
    case DoSend(id) => SendKeeps(o, s, id);
    case DoReview => ReviewKeeps(o, s);
    case DoClose => CloseKeeps(s);
    case Drain(_) =>
    case Tick(_) =>
  }

  lemma {:induction false} RunKeeps(o: Options, actions: seq<Action>)
    ensures Inv(Run(o, actions))
  {
    if actions != [] {
      RunKeeps(o, actions[..|actions| - 1]);
      ActKeeps(o, Run(o, actions[..|actions| - 1]), actions[|actions| - 1]);
    }
  }

  // ---------------------------------------------------------------- what every run keeps

  /** While an episode lasts nothing is written but the frame that ends it, and an end is the end. */
  predicate EpisodeOk(h: seq<Entry>, i: nat)
    requires i < |h|
  {
    && (i > 0 && IsDropping(h[i - 1]) ==> h[i].Dropped? || IsEnd(h[i]) || (h[i].Wrote? && h[i].frame.Lagged?))
    && (h[i].Wrote? && h[i].frame.Lagged? ==> EpisodeBefore(h, i, h[i].frame.dropped))
    && (h[i].ClosedSlow? ==> EpisodeBefore(h, i, h[i].dropped))
    && (IsEnd(h[i]) ==> i == |h| - 1)
  }

  lemma EntryMeans(h: seq<Entry>, i: nat)
    requires i < |h| && EntryOk(h, i) && (i + 1 < |h| ==> EntryOk(h, i + 1))
    ensures EpisodeOk(h, i)
  {
  }

  /**
   * Over every run, no event is written while lagging, and an episode ends in one lagged frame or
   * one close that carries its exact number of drops.
   */
  lemma EpisodesAreExact(o: Options, actions: seq<Action>)
    ensures var h := Run(o, actions).history; forall i :: 0 <= i < |h| ==> EpisodeOk(h, i)
  {
    RunKeeps(o, actions);
    var h := Run(o, actions).history;
    forall i | 0 <= i < |h|
      ensures EpisodeOk(h, i)
    {
      assert EntryOk(h, i);
      if i + 1 < |h| {
        assert EntryOk(h, i + 1);
      }
      EntryMeans(h, i);
    }
  }

  /** Conservation: every frame dropped is announced, closed on, or still waiting to be announced. */
  lemma DropsAreAccounted(o: Options, actions: seq<Action>)
    ensures var s := Run(o, actions);
            && s.droppedTotal == Drops(s.history)
            && s.droppedTotal == Announced(s.history) + if s.laggingSince.Some? then s.droppedWhileLagging else 0
  {
    RunKeeps(o, actions);
  }

  /** A step closes the connection as slow. */
  predicate ClosesAsSlow(o: Options, s: State, a: Action) {
    s.open && !Act(o, s, a).open && !a.DoClose?
  }

  /** A review that comes when the grace is spent, to a connection that has drained in the meantime. */
  predicate TooLate(o: Options, s: State, a: Action) {
    a.DoReview? && s.open && GraceSpent(o, s) && s.buffered <= LowWaterMark(o)
  }

  /**
   * Step by step: a slow close is a send or a review that finds the connection behind with its grace
   * spent, the send finding it over the mark, and it finds the buffer over the mark exactly when it
   * is not a review that comes too late.
   */
  lemma SlowCloseIff(o: Options, s: State, a: Action)
    ensures ClosesAsSlow(o, s, a) <==>
            || (s.open && a.DoReview? && GraceSpent(o, s))
            || (s.open && a.DoSend? && s.buffered > LowWaterMark(o) && GraceSpent(o, s))
            || (s.open && a.DoSend? && s.buffered > o.highWaterMark && s.laggingSince.None? && o.graceMs <= 0)
    ensures ClosesAsSlow(o, s, a) ==> (s.buffered > LowWaterMark(o) <==> !TooLate(o, s, a))
  {
  }

  /** A step writes the frame that tells the peer what it missed. */
  predicate Recovers(o: Options, s: State, a: Action) {
    var h, h' := s.history, Act(o, s, a).history;
    |h'| > |h| && h'[|h|].Wrote? && h'[|h|].frame.Lagged?
  }

  /**
   * Step by step: a connection that is behind recovers exactly when its buffer has drained to half the
   * high mark, by a send, or by a review that comes before the grace is spent; it is then no longer behind.
   */
  lemma RecoversIff(o: Options, s: State, a: Action)
    ensures Recovers(o, s, a) <==>
            s.open && s.laggingSince.Some? && 2 * s.buffered <= o.highWaterMark
            && (a.DoSend? || (a.DoReview? && s.now - s.laggingSince.value < o.graceMs))
    ensures Recovers(o, s, a) ==>
              var s' := Act(o, s, a);
              && s'.open && s'.laggingSince.None? && s'.droppedWhileLagging == 0
              && s'.history[|s.history|].frame == Lagged(s.droppedWhileLagging, s.laggingSince.value)
  {
  }

  /** What a send answers is what became of the frame and of the connection. */
  lemma OutcomeTells(o: Options, s: State, frame: Frame)
    ensures var (s', outcome) := Send(o, s, frame);
            && (outcome == Sent <==> s'.open && s'.droppedTotal == s.droppedTotal)
            && (outcome == Sent ==> s'.history != [] && s'.history[|s'.history| - 1] == Wrote(frame))
            && (outcome == WasDropped <==> s'.open && s'.droppedTotal == s.droppedTotal + 1)
            && (outcome == WasClosed <==> !s'.open)
  {
  }

  /** Over every run, a connection is closed exactly when its history ends in the close. */
  lemma {:induction false} ClosedIsRecorded(o: Options, actions: seq<Action>)
    ensures var s := Run(o, actions);
            s.open <==> s.history == [] || !IsEnd(s.history[|s.history| - 1])
  {
    RunKeeps(o, actions);
    if actions != [] {
      ClosedIsRecorded(o, actions[..|actions| - 1]);
    }
  }

  /** The connection is only ever closed as slow while its buffer is over the mark. */
  ghost predicate OnlyClosesOverTheMark(o: Options) {
    forall actions, a :: ClosesAsSlow(o, Run(o, actions), a) ==> Run(o, actions).buffered > LowWaterMark(o)
  }

  lemma RunThen(o: Options, actions: seq<Action>, a: Action)
    ensures Run(o, actions + [a]) == Act(o, Run(o, actions), a)
  {
    assert (actions + [a])[..|actions|] == actions;
  }

  /** Events that take any room fill the buffer up to any level a send is allowed at, and one past it. */
  lemma {:induction false} Filled(o: Options, id: nat, n: nat) returns (actions: seq<Action>)
    requires o.size(Event(id)) > 0 && n <= o.highWaterMark + 1
    ensures var s := Run(o, actions); s.open && s.laggingSince.None? && s.buffered >= n
  {
    if n == 0 {
      actions := [];
    } else {
      actions := Filled(o, id, n - 1);
      if Run(o, actions).buffered < n {
        RunThen(o, actions, DoSend(id));
        actions := actions + [DoSend(id)];
      }
    }
  }

  /** A connection that fell behind, drained, and is reviewed only when its grace is spent. */
  lemma DrainedAndClosed(o: Options, id: nat) returns (actions: seq<Action>)
    requires o.size(Event(id)) > 0 && o.graceMs > 0
    ensures var s := Run(o, actions); ClosesAsSlow(o, s, DoReview) && s.buffered == 0 && s.laggingSince.Some?
  {
    actions := Filled(o, id, o.highWaterMark + 1);
    RunThen(o, actions, DoSend(id));
    actions := actions + [DoSend(id)];
    var behind := Run(o, actions);
    assert behind.open && behind.laggingSince == Some(behind.now);
    RunThen(o, actions, Tick(o.graceMs));
    actions := actions + [Tick(o.graceMs)];
    RunThen(o, actions, Drain(behind.buffered));
    actions := actions + [Drain(behind.buffered)];
  }

  /** With no grace at all, an open connection is never behind. */
  lemma {:induction false} NoGraceNoLag(o: Options, actions: seq<Action>)
    requires o.graceMs <= 0
    ensures Run(o, actions).open ==> Run(o, actions).laggingSince.None?
  {
    if actions != [] {
      NoGraceNoLag(o, actions[..|actions| - 1]);
    }
  }

  /** Nor with events that take no room, which never fill the buffer. */
  lemma {:induction false} NoRoomNoLag(o: Options, actions: seq<Action>)
    requires forall id :: o.size(Event(id)) == 0
    ensures Run(o, actions).buffered == 0 && Run(o, actions).laggingSince.None?
  {
    if actions != [] {
      NoRoomNoLag(o, actions[..|actions| - 1]);
    }
  }

  /**
   * Closing only over the mark is kept exactly by options under which no connection is ever behind
   * and open: no grace at all, or events that take no room.
   */
  lemma ClosedOnlyOverTheMarkIff(o: Options)
    ensures OnlyClosesOverTheMark(o) <==> o.graceMs <= 0 || forall id :: o.size(Event(id)) == 0
  {
    if o.graceMs <= 0 {
      forall actions, a | ClosesAsSlow(o, Run(o, actions), a)
        ensures Run(o, actions).buffered > LowWaterMark(o)
      {
        NoGraceNoLag(o, actions);
      }
    } else if id: nat :| o.size(Event(id)) > 0 {
      var actions := DrainedAndClosed(o, id);
    } else {
      forall actions, a
        ensures !ClosesAsSlow(o, Run(o, actions), a)
      {
        NoRoomNoLag(o, actions);
      }
    }
  }

  /** What a send may leave in the buffer. */
  function Bound(o: Options, event: nat, lagged: nat): int {
    Max(o.highWaterMark + event, LowWaterMark(o) + lagged + event)
  }

  ghost predicate Sizes(o: Options, event: nat, lagged: nat) {
    && (forall id :: o.size(Event(id)) <= event)
    && (forall k, since :: o.size(Lagged(k, since)) <= lagged)
  }

  /** A slow reader holds a bounded buffer, however many frames it is sent. */
  lemma {:induction false} BufferIsBounded(o: Options, actions: seq<Action>, event: nat, lagged: nat)
    requires Sizes(o, event, lagged)
    ensures Run(o, actions).buffered <= Bound(o, event, lagged)
  {
    if actions != [] {
      BufferIsBounded(o, actions[..|actions| - 1], event, lagged);
      var s, a := Run(o, actions[..|actions| - 1]), actions[|actions| - 1];
      if a.DoSend? {
        SendBounded(o, s, a.id, event, lagged);
      }
    }
  }

  lemma SendBounded(o: Options, s: State, id: nat, event: nat, lagged: nat)
    requires Sizes(o, event, lagged)
    ensures var (n, outcome) := Send(o, s, Event(id));
            && (outcome == Sent ==> n.buffered <= Bound(o, event, lagged))
            && (outcome != Sent ==> n.buffered == s.buffered)
            && (outcome == Sent <==> s.open && s.buffered <= if s.laggingSince.Some? then LowWaterMark(o) else o.highWaterMark)
  {
    assert o.size(Event(id)) <= event;
    if s.laggingSince.Some? {
      assert o.size(Lagged(s.droppedWhileLagging, s.laggingSince.value)) <= lagged;
    }
  }

  // ---------------------------------------------------------------- the connection, in place

  class BackpressuredSocket {
    const options: Options
    const lowWaterMark: nat
    var open: bool
    var buffered: nat
    var now: Time
    var laggingSince: Option<Time>
    var droppedWhileLagging: nat
    var droppedTotal: nat
    ghost var history: seq<Entry>

    constructor (options: Options)
      ensures this.options == options && Valid() && Contents() == INITIAL
    {
      this.options := options;
      lowWaterMark := options.highWaterMark / 2;
      open, buffered, now, laggingSince, droppedWhileLagging, droppedTotal := true, 0, 0, None, 0, 0;
      history := [];
    }

    predicate Valid() {
      lowWaterMark == LowWaterMark(options)
    }

    ghost function Contents(): State
      reads this
    {
      State(open, buffered, now, laggingSince, droppedWhileLagging, droppedTotal, history)
    }

    method SendFrame(frame: Frame) returns (r: Outcome)
      requires Valid()
      modifies this
      ensures (Contents(), r) == Send(options, old(Contents()), frame)
    {
      if !open {
        return WasClosed;
      }
      if laggingSince.Some? {
        if buffered > lowWaterMark {
          r := DropFrame();
          return;
        }
        RecoverNow();
      } else if buffered > options.highWaterMark {
        laggingSince := Some(now);
        droppedWhileLagging := 0;
        history := history + [WentLagging(now)];
        r := DropFrame();
        return;
      }
      WriteFrame(frame);
      return Sent;
    }

    method ReviewNow()
      requires Valid()
      modifies this
      ensures Contents() == Review(options, old(Contents()))
    {
      if !open || laggingSince.None? {
        return;
      }
      if now - laggingSince.value >= options.graceMs {
        CloseAsSlow();
        return;
      }
      if buffered <= lowWaterMark {
        RecoverNow();
      }
    }

    method DropFrame() returns (r: Outcome)
      modifies this
      ensures (Contents(), r) == StayLagging(options, old(Contents()))
    {
      droppedWhileLagging := droppedWhileLagging + 1;
      droppedTotal := droppedTotal + 1;
      history := history + [Dropped];
      if laggingSince.Some? && now - laggingSince.value >= options.graceMs {
        CloseAsSlow();
        return WasClosed;
      }
      return WasDropped;
    }

    method RecoverNow()
      requires laggingSince.Some?
      modifies this
      ensures Contents() == Recover(options, old(Contents()))
    {
      var since, dropped := laggingSince.value, droppedWhileLagging;
      laggingSince := None;
      droppedWhileLagging := 0;
      WriteFrame(Lagged(dropped, since));
    }

    method CloseAsSlow()
      modifies this
      ensures Contents() == CloseSlow(old(Contents()))
    {
      open := false;
      history := history + [ClosedSlow(droppedWhileLagging)];
      laggingSince := None;
    }

    method WriteFrame(frame: Frame)
      modifies this
      ensures Contents() == Write(options, old(Contents()), frame)
    {
      buffered := buffered + options.size(frame);
      history := history + [Wrote(frame)];
    }
  }
}
