/** Refreshing the materialized view while rounds go on being recorded. */
module Refresh {
  import opened Ledger
  import opened Graph
  import opened Sums

  /** The refresher: spawned, with its query running on a snapshot of the log,
      or done and about to clear the flag. */
  datatype Worker = NoWorker | Spawned | Running(seen: nat) | Done

  datatype State = State(
    log: seq<CheckRow>,
    view: set<ViewRow>,
    flag: bool,
    worker: Worker,
    pending: bool,   // a round is in the log, its compare-and-swap still to come
    shown: nat)      // how much of the log the view shows

  datatype Step =
    | Record(rows: seq<CheckRow>)
    | CompareAndSwap
    | Snapshot
    | Commit(ok: bool)
    | ClearFlag
    | Reboot         // a new process: the view is refreshed before anything else

  predicate Enabled(s: State, st: Step) {
    match st
    case Record(_) => !s.pending
    case CompareAndSwap => s.pending
    case Snapshot => s.worker.Spawned?
    case Commit(_) => s.worker.Running? && s.worker.seen <= |s.log|
    case ClearFlag => s.worker.Done?
    case Reboot => true
  }

  function Apply(s: State, st: Step): State
    requires Enabled(s, st)
  {
    match st
    case Record(rows) => s.(log := s.log + rows, pending := true)
    case CompareAndSwap =>
      if !s.flag then s.(pending := false, flag := true, worker := Spawned) else s.(pending := false)
    case Snapshot => s.(worker := Running(|s.log|))
    case Commit(ok) =>
      if ok then s.(worker := Done, view := CumulativeScores(s.log[..s.worker.seen]), shown := s.worker.seen)
      else s.(worker := Done)
    case ClearFlag => s.(worker := NoWorker, flag := false)
    case Reboot => s.(worker := NoWorker, flag := false, pending := false, view := CumulativeScores(s.log), shown := |s.log|)
  }

  predicate Valid(s: State, steps: seq<Step>)
    decreases steps
  {
    steps == [] || (Enabled(s, steps[0]) && Valid(Apply(s, steps[0]), steps[1..]))
  }

  function Exec(s: State, steps: seq<Step>): State
    requires Valid(s, steps)
    decreases steps
  {
    if steps == [] then s else Exec(Apply(s, steps[0]), steps[1..])
  }

  /** The flag is up exactly while a refresher lives, and the view is the
      cumulative scores of some prefix of the log. */
  predicate Inv(s: State) {
    && (s.flag <==> !s.worker.NoWorker?)
    && s.shown <= |s.log|
    && s.view == CumulativeScores(s.log[..s.shown])
    && (s.worker.Running? ==> s.shown <= s.worker.seen <= |s.log|)
  }

  lemma StepKeepsInv(s: State, st: Step)
    requires Inv(s) && Enabled(s, st)
    ensures Inv(Apply(s, st))
    ensures s.shown <= Apply(s, st).shown && s.log <= Apply(s, st).log
    ensures st.Reboot? ==> Apply(s, st).shown == |s.log|
    ensures !st.Reboot? && st != Commit(true) ==> Apply(s, st).view == s.view && Apply(s, st).shown == s.shown
    ensures st.Record? ==> Apply(s, st).log == s.log + st.rows && Apply(s, st).pending
    ensures !st.Record? ==> Apply(s, st).log == s.log
  {
    match st
    case Record(rows) => assert (s.log + rows)[..s.shown] == s.log[..s.shown];
    case Reboot => assert s.log[..|s.log|] == s.log;
    case _ =>
  }

  /** Over every run the view shows a prefix of the log, and the prefix never
      shrinks. */
  lemma {:induction false} RunKeepsInv(s: State, steps: seq<Step>)
    requires Inv(s) && Valid(s, steps)
    ensures Inv(Exec(s, steps))
    ensures s.shown <= Exec(s, steps).shown && s.log <= Exec(s, steps).log
    decreases steps
  {
    if steps != [] {
      StepKeepsInv(s, steps[0]);
      RunKeepsInv(Apply(s, steps[0]), steps[1..]);
    }
  }

  predicate AtRest(s: State) { s.worker.NoWorker? && !s.pending }

  predicate ShowsAll(s: State) { s.shown == |s.log| }

  /** No further round, no failed refresh, no reboot. */
  predicate Quiet(steps: seq<Step>) {
    forall st | st in steps :: !st.Record? && !st.Reboot? && !(st.Commit? && !st.ok)
  }

  /** Behind for good: the round's refresh was refused by a refresher that had
      already taken its snapshot, or none is left. */
  predicate Stuck(s: State) {
    && !s.pending
    && s.shown < |s.log|
    && (s.worker.NoWorker? || s.worker.Done? || (s.worker.Running? && s.worker.seen < |s.log|))
  }

  ghost predicate WillShowAll(s: State) {
    forall steps | Valid(s, steps) && Quiet(steps) && AtRest(Exec(s, steps)) :: ShowsAll(Exec(s, steps))
  }

  lemma {:induction false} StuckStays(s: State, steps: seq<Step>)
    requires Inv(s) && Stuck(s) && Valid(s, steps) && Quiet(steps)
    ensures Stuck(Exec(s, steps))
    decreases steps
  {
    if steps != [] {
      StepKeepsInv(s, steps[0]);
      StuckStays(Apply(s, steps[0]), steps[1..]);
    }
  }

  lemma {:induction false} CoveredStays(s: State, steps: seq<Step>)
    requires Inv(s) && !s.pending && !Stuck(s) && Valid(s, steps) && Quiet(steps)
    ensures !Exec(s, steps).pending && !Stuck(Exec(s, steps)) && Inv(Exec(s, steps))
    decreases steps
  {
    if steps != [] {
      StepKeepsInv(s, steps[0]);
      CoveredStays(Apply(s, steps[0]), steps[1..]);
    }
  }

  lemma RestAfterClear(s: State)
    requires Enabled(s, ClearFlag) && !s.pending
    ensures Valid(s, [ClearFlag] + []) && AtRest(Exec(s, [ClearFlag] + []))
  {
    Cons(s, ClearFlag, []);
  }

  lemma RestAfterCommit(s: State)
    requires Enabled(s, Commit(true)) && !s.pending
    ensures var steps := [Commit(true)] + ([ClearFlag] + []); Valid(s, steps) && AtRest(Exec(s, steps))
  {
    RestAfterClear(Apply(s, Commit(true)));
    Cons(s, Commit(true), [ClearFlag] + []);
  }

  /** Whatever the refresher is at, it can finish quietly. */
  lemma ComesToRest(s: State) returns (steps: seq<Step>)
    requires Inv(s) && !s.pending
    ensures Valid(s, steps) && Quiet(steps) && AtRest(Exec(s, steps))
  {
    match s.worker
    case NoWorker =>
      steps := [];
    case Done =>
      RestAfterClear(s);
      steps := [ClearFlag] + [];
    case Running(_) =>
      RestAfterCommit(s);
      steps := [Commit(true)] + ([ClearFlag] + []);
    case Spawned =>
      RestAfterCommit(Apply(s, Snapshot));
      Cons(s, Snapshot, [Commit(true)] + ([ClearFlag] + []));
      steps := [Snapshot] + ([Commit(true)] + ([ClearFlag] + []));
  }

  ghost predicate CanRest(s: State) {
    exists steps :: Valid(s, steps) && Quiet(steps) && AtRest(Exec(s, steps))
  }

  /** Whether the view catches up by itself once rounds stop: it always can come
      to rest, and then shows everything exactly when the state is not stuck. */
  lemma CatchesUpIffNotStuck(s: State)
    requires Inv(s) && !s.pending
    ensures CanRest(s)
    ensures WillShowAll(s) <==> !Stuck(s)
  {
    var rest := ComesToRest(s);
    if Stuck(s) {
      StuckStays(s, rest);
    } else {
      forall steps | Valid(s, steps) && Quiet(steps) && AtRest(Exec(s, steps)) ensures ShowsAll(Exec(s, steps)) {
        CoveredStays(s, steps);
      }
    }
  }

  /** Which swaps see to it that the view catches up: those that start a
      refresher, or meet one that has yet to take its snapshot, or one whose
      snapshot has the round already. */
  lemma SwapCatchesUpIff(s: State)
    requires Inv(s) && s.pending && s.shown < |s.log|
    ensures WillShowAll(Apply(s, CompareAndSwap)) <==>
            s.worker.NoWorker? || s.worker.Spawned? || (s.worker.Running? && s.worker.seen == |s.log|)
  {
    StepKeepsInv(s, CompareAndSwap);
    CatchesUpIffNotStuck(Apply(s, CompareAndSwap));
  }

  /** A round recorded with rows comes to be shown, if no other follows and no
      refresh fails, exactly when no refresher was past its spawning. */
  lemma RecordedIsShownIff(s: State, rows: seq<CheckRow>)
    requires Inv(s) && !s.pending && rows != []
    ensures var s1 := Apply(s, Record(rows));
            && Enabled(s1, CompareAndSwap)
            && (WillShowAll(Apply(s1, CompareAndSwap)) <==> s.worker.NoWorker? || s.worker.Spawned?)
  {
    StepKeepsInv(s, Record(rows));
    SwapCatchesUpIff(Apply(s, Record(rows)));
  }

  /** A round can stay off the view after everything has come to rest: it was
      recorded while the refresh of the round before was running. */
  lemma LastRoundCanStayHidden(row: CheckRow) returns (s: State, steps: seq<Step>)
    ensures Inv(s) && AtRest(s) && ShowsAll(s) && Valid(s, steps)
    ensures AtRest(Exec(s, steps)) && !ShowsAll(Exec(s, steps))
  {
    s := State([], CumulativeScores([]), false, NoWorker, false, 0);
    var s1 := Apply(s, Record([row]));
    var s2 := Apply(s1, CompareAndSwap);
    var s3 := Apply(s2, Snapshot);
    var s4 := Apply(s3, Record([row]));
    var s5 := Apply(s4, CompareAndSwap);
    var s6 := Apply(s5, Commit(true));
    var s7 := Apply(s6, ClearFlag);
    Cons(s6, ClearFlag, []);
    Cons(s5, Commit(true), [ClearFlag] + []);
    Cons(s4, CompareAndSwap, [Commit(true)] + ([ClearFlag] + []));
    Cons(s3, Record([row]), [CompareAndSwap] + ([Commit(true)] + ([ClearFlag] + [])));
    var tail := [Record([row])] + ([CompareAndSwap] + ([Commit(true)] + ([ClearFlag] + [])));
    Cons(s2, Snapshot, tail);
    Cons(s1, CompareAndSwap, [Snapshot] + tail);
    Cons(s, Record([row]), [CompareAndSwap] + ([Snapshot] + tail));
    steps := [Record([row])] + ([CompareAndSwap] + ([Snapshot] + tail));
    assert s7.shown == 1 && |s7.log| == 2;
  }

  /** What a reader of the series sees at any moment of any run: the true series
      of the part of the log the view shows, under today's penalties. */
  lemma SeriesIsOfAPrefix(s: State, rows: seq<ViewRow>, result: seq<map<nat, int>>, last: nat,
                          gs: seq<Cell<(nat, nat)>>, slas: seq<SlaRow>)
    requires Inv(s) && (forall v :: v in rows <==> v in s.view)
    requires PenaltyGroups(gs, slas) && DrawnFrom(result, last, rows, gs)
    ensures IsGraph(result, last, s.log[..s.shown], slas)
    ensures ShowsAll(s) ==> IsGraph(result, last, s.log, slas)
  {
    FreshSeriesIsTrue(result, last, rows, gs, s.log[..s.shown], slas);
    if ShowsAll(s) { assert s.log[..s.shown] == s.log; }
  }

  lemma Cons(s: State, st: Step, rest: seq<Step>)
    requires Enabled(s, st) && Valid(Apply(s, st), rest)
    ensures Valid(s, [st] + rest) && Exec(s, [st] + rest) == Exec(Apply(s, st), rest)
  {
    assert ([st] + rest)[1..] == rest;
  }
}
