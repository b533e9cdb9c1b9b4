/** What the protocol promises about recorded rounds, and exactly when. */
module ProtocolSafety {
  import opened Wire
  import opened Protocol

  predicate NoRestart(steps: seq<Step>) { forall st | st in steps :: !st.Restart? }

  /** The recorded results answer the tasks sent, one for one. */
  predicate Exact(r: Record) { multiset(r.sent) == multiset(Tickets(r.results)) }

  /** Nothing of this or a later round is around when an incarnation starts. */
  predicate NoLeftover(s: State) { forall t | t in Stock(s) :: t.round < s.round }

  /** Nothing of the round under way was around when it began. */
  predicate CleanRound(s: State) { forall t | t in s.leftover :: t.round != s.round }

  ghost predicate Settled(s: State, r: Record) { forall t | t in Stock(s) :: t.round != r.round }

  /** Kept by every step but a restart, from a start without leftovers; base
      counts the records made before. */
  ghost predicate SafeInv(s: State, base: nat) {
    && Inv(s)
    && (forall t | t in Stock(s) :: t.round < s.round || (!s.phase.Idle? && t.round == s.round))
    && (InRound(s) ==> CleanRound(s))
    && base <= |s.records|
    && (forall i | base <= i < |s.records| :: Exact(s.records[i]) && Settled(s, s.records[i]))
  }

  // -------------------------------------------------------------- stock only
  // grows by what the engine sends

  lemma TakeStock(s: State)
    requires s.results != []
    ensures Stock(s.(results := s.results[1..])) <= Stock(s)
  {
    assert RawTickets(s.results) == RawTicket(s.results[0]) + RawTickets(s.results[1..]);
  }

  lemma PushStock(s: State, raw: Raw)
    requires RawTicket(raw) <= s.inFlight
    ensures Stock(s.(inFlight := s.inFlight - RawTicket(raw), results := s.results + [raw])) == Stock(s)
  {
    PushRaw(s.results, raw);
  }

  lemma RunnerStock(s: State, st: Step)
    requires Enabled(s, st) && (st.Pop? || st.Lose? || st.Push? || st.Noise?)
    ensures Stock(Apply(s, st)) <= Stock(s)
  {
    match st
    case Pop => HeadTask(s.tasks);
    case Lose(t) =>
    case Push(r) => PushStock(s, Good(r));
    case Noise => PushStock(s, Garbled);
  }

  lemma EngineStock(s: State, st: Step)
    requires Enabled(s, st) && !(st.Pop? || st.Lose? || st.Push? || st.Noise? || st.Enqueue?)
    ensures Stock(Apply(s, st)) <= Stock(s)
  {
    if st.Take? || st.TakeLost? { TakeStock(s); }
  }

  lemma StockStep(s: State, st: Step)
    requires Enabled(s, st) && !st.Enqueue?
    ensures Stock(Apply(s, st)) <= Stock(s)
  {
    if st.Pop? || st.Lose? || st.Push? || st.Noise? { RunnerStock(s, st); } else { EngineStock(s, st); }
  }

  /** Between two restarts the round number only grows, records are only made
      at a round's end, and a loss stays on the books for its round. */
  lemma StepMoves(s: State, st: Step)
    requires Enabled(s, st) && !st.Restart?
    ensures var s' := Apply(s, st);
            && (st.Finish? || s'.records == s.records)
            && (s'.round == s.round || (s'.round == s.round + 1 && s'.phase.Idle?))
            && (InRound(s) && s'.round == s.round ==> s.lost <= s'.lost && (InRound(s') || s'.phase.Halted?))
            && (s.phase.Halted? ==> s'.phase.Halted?)
  {
    if st.Pop? || st.Lose? || st.Push? || st.Noise? || st.Take? || st.TakeLost? { TakeMoves(s, st); }
  }

  lemma TakeMoves(s: State, st: Step)
    requires Enabled(s, st) && (st.Pop? || st.Lose? || st.Push? || st.Noise? || st.Take? || st.TakeLost?)
    ensures var s' := Apply(s, st);
            s'.records == s.records && s'.round == s.round && s'.phase == s.phase && s.lost <= s'.lost
  {
    match st
    case _ =>
  }

  lemma EnqueueStock(s: State, ok: bool)
    requires Enabled(s, Enqueue(ok))
    ensures Stock(Apply(s, Enqueue(ok))) <= Stock(s) + multiset{s.phase.todo[0]}
  {
  }

  lemma SameSize<T>(a: multiset<T>, b: multiset<T>)
    requires a <= b && |a| == |b|
    ensures a == b
  {
    assert b == a + (b - a);
  }

  /** When the counts meet in a clean round, every task sent is answered, and
      none of the round's tickets is anywhere else. */
  lemma FullCountIsExact(s: State)
    requires Inv(s) && InRound(s) && CleanRound(s) && |s.collected| == |s.sent|
    ensures multiset(s.sent) == multiset(Tickets(s.collected))
    ensures forall t | t in Stock(s) || t in s.lost :: t.round != s.round
  {
    var a, b := multiset(Tickets(s.collected)), multiset(s.sent);
    forall t ensures a[t] <= b[t] {
      if t.round == s.round {
        assert Held(s)[t] == b[t] + s.leftover[t];
      } else {
        assert t !in Tickets(s.collected);
      }
    }
    SameSize(a, b);
    forall t: Ticket | t.round == s.round ensures Stock(s)[t] == 0 && s.lost[t] == 0 {
      assert Held(s)[t] == b[t] + s.leftover[t];
    }
  }

  lemma FinishIsSafe(s: State, saved: bool, base: nat)
    requires SafeInv(s, base) && Enabled(s, Finish(saved))
    ensures SafeInv(Apply(s, Finish(saved)), base)
  {
    var s' := Apply(s, Finish(saved));
    StepKeepsInv(s, Finish(saved));
    FullCountIsExact(s);
    forall i | base <= i < |s'.records| ensures Exact(s'.records[i]) && Settled(s', s'.records[i]) {
      if i < |s.records| { assert s'.records[i] == s.records[i] && Settled(s, s.records[i]); }
    }
  }

  lemma SettledStays(s: State, s': State, base: nat)
    requires SafeInv(s, base) && s'.records == s.records
    requires forall t | t in Stock(s') :: t in Stock(s) || t.round == s.round
    ensures forall i | base <= i < |s'.records| :: Exact(s'.records[i]) && Settled(s', s'.records[i])
  {
    forall i | base <= i < |s'.records| ensures Exact(s'.records[i]) && Settled(s', s'.records[i]) {
      assert Settled(s, s.records[i]) && s.records[i] in s.records;
    }
  }

  lemma EnqueueIsSafe(s: State, ok: bool, base: nat)
    requires SafeInv(s, base) && Enabled(s, Enqueue(ok))
    ensures SafeInv(Apply(s, Enqueue(ok)), base)
  {
    var s' := Apply(s, Enqueue(ok));
    StepKeepsInv(s, Enqueue(ok));
    EnqueueStock(s, ok);
    forall t | t in Stock(s') ensures t in Stock(s) || t.round == s.round {
      if t !in Stock(s) { assert t in multiset{s.phase.todo[0]}; }
    }
    SettledStays(s, s', base);
  }

  lemma BeginIsClean(s: State, plan: seq<Ticket>, cleared: bool)
    requires Enabled(s, Begin(plan, cleared)) && NoLeftover(s)
    ensures CleanRound(Apply(s, Begin(plan, cleared)))
  {
    StockStep(s, Begin(plan, cleared));
    var s' := Apply(s, Begin(plan, cleared));
    assert s'.leftover == Stock(s.(tasks := s'.tasks)) == Stock(s');
  }

  lemma CleanStays(s: State, st: Step)
    requires Enabled(s, st) && !st.Restart? && !st.Begin? && InRound(Apply(s, st))
    ensures InRound(s) && Apply(s, st).leftover == s.leftover && Apply(s, st).round == s.round
  {
  }

  lemma OtherStepIsSafe(s: State, st: Step, base: nat)
    requires SafeInv(s, base) && Enabled(s, st) && !st.Restart? && !st.Finish? && !st.Enqueue?
    ensures SafeInv(Apply(s, st), base)
  {
    var s' := Apply(s, st);
    StepKeepsInv(s, st);
    StockStep(s, st);
    assert forall t | t in Stock(s') :: t in Stock(s);
    StepMoves(s, st);
    SettledStays(s, s', base);
    if InRound(s') {
      if st.Begin? { BeginIsClean(s, st.plan, st.cleared); } else { CleanStays(s, st); }
    }
    StaysBelow(s, st);
  }

  lemma StaysBelow(s: State, st: Step)
    requires Enabled(s, st) && !st.Restart?
    ensures var s' := Apply(s, st); s'.round > s.round || (s'.phase.Idle? ==> s.phase.Idle?)
  {
  }

  lemma StepIsSafe(s: State, st: Step, base: nat)
    requires SafeInv(s, base) && Enabled(s, st) && !st.Restart?
    ensures SafeInv(Apply(s, st), base)
  {
    match st
    case Finish(saved) => FinishIsSafe(s, saved, base);
    case Enqueue(ok) => EnqueueIsSafe(s, ok, base);
    case _ => OtherStepIsSafe(s, st, base);
  }

  lemma {:induction false} RunIsSafe(s: State, steps: seq<Step>, base: nat)
    requires SafeInv(s, base) && Valid(s, steps) && NoRestart(steps)
    ensures SafeInv(Exec(s, steps), base)
    decreases steps
  {
    if steps != [] {
      StepIsSafe(s, steps[0], base);
      RunIsSafe(Apply(s, steps[0]), steps[1..], base);
    }
  }

  /** Started without leftovers, an engine records only exact rounds, however
      slow or lossy the runners are, and leaves nothing of them behind. */
  lemma {:induction false} RecordedRoundsAreExact(s: State, steps: seq<Step>)
    requires Inv(s) && s.phase.Idle? && NoLeftover(s)
    requires Valid(s, steps) && NoRestart(steps)
    ensures var s' := Exec(s, steps);
            && |s.records| <= |s'.records|
            && forall i | |s.records| <= i < |s'.records| :: Whole(s'.records[i]) && Exact(s'.records[i]) && Settled(s', s'.records[i])
  {
    RunIsSafe(s, steps, |s.records|);
    var s' := Exec(s, steps);
    forall i | |s.records| <= i < |s'.records| ensures Whole(s'.records[i]) {
      assert s'.records[i] in s'.records;
    }
  }

  // ------------------------------------------------- one result per task sent

  lemma TwiceCounted<T>(ts: seq<T>, i: nat, j: nat)
    requires i < j < |ts| && ts[i] == ts[j]
    ensures multiset(ts)[ts[i]] >= 2
  {
    assert ts == ts[..i] + [ts[i]] + ts[i + 1..j] + [ts[j]] + ts[j + 1..];
  }

  /** With distinct tasks, as an enqueue loop sends them, an exact record holds
      exactly one result for each of them and none for anything else. */
  lemma ExactMeansOneEach(r: Record)
    requires Exact(r)
    requires forall i, j | 0 <= i < j < |r.sent| :: r.sent[i] != r.sent[j]
    ensures forall t | t in r.sent :: exists k: nat | k < |r.results| :: r.results[k].ticket == t
    ensures forall k | 0 <= k < |r.results| :: r.results[k].ticket in r.sent
    ensures forall j, k | 0 <= j < k < |r.results| :: r.results[j].ticket != r.results[k].ticket
  {
    var ts := Tickets(r.results);
    forall t | t in r.sent ensures exists k: nat | k < |r.results| :: r.results[k].ticket == t {
      assert t in multiset(ts);
      var k :| 0 <= k < |ts| && ts[k] == t;
      assert r.results[k].ticket == t;
    }
    forall k | 0 <= k < |r.results| ensures r.results[k].ticket in r.sent {
      assert ts[k] in multiset(r.sent);
    }
    forall j, k | 0 <= j < k < |r.results| ensures r.results[j].ticket != r.results[k].ticket {
      if ts[j] == ts[k] {
        TwiceCounted(ts, j, k);
        DistinctCountedOnce(r.sent, ts[j]);
      }
    }
  }

  lemma {:induction false} DistinctCountedOnce<T>(ts: seq<T>, t: T)
    requires forall i, j | 0 <= i < j < |ts| :: ts[i] != ts[j]
    ensures multiset(ts)[t] <= 1
  {
    if ts != [] {
      assert ts == [ts[0]] + ts[1..];
      DistinctCountedOnce(ts[1..], t);
      if t == ts[0] { assert t !in ts[1..]; }
    }
  }

  // ------------------------------------- a round can be recorded iff nothing
  // of it has been lost

  ghost predicate CanRecord(s: State) {
    exists steps :: Valid(s, steps) && NoRestart(steps) && Recorded(Exec(s, steps).records, s.round)
  }

  /** Round k is not recorded and cannot be any more. */
  ghost predicate Doomed(s: State, t: Ticket) {
    && !Recorded(s.records, t.round)
    && (s.round > t.round || (s.round == t.round && (s.phase.Halted? || (InRound(s) && t in s.lost))))
  }

  lemma StepStaysDoomed(s: State, st: Step, t: Ticket)
    requires SafeInv(s, |s.records|) && Doomed(s, t) && Enabled(s, st) && !st.Restart?
    ensures Doomed(Apply(s, st), t)
  {
    StepMoves(s, st);
    if st.Finish? { FinishStaysDoomed(s, st.saved, t); }
  }

  lemma FinishStaysDoomed(s: State, saved: bool, t: Ticket)
    requires SafeInv(s, |s.records|) && Doomed(s, t) && Enabled(s, Finish(saved))
    ensures Doomed(Apply(s, Finish(saved)), t)
  {
    var s' := Apply(s, Finish(saved));
    FullCountIsExact(s);
    forall r | r in s'.records ensures r.round != t.round {
      if r !in s.records { assert r == s'.records[|s.records|]; }
    }
  }

  lemma {:induction false} RunStaysDoomed(s: State, steps: seq<Step>, t: Ticket)
    requires SafeInv(s, |s.records|) && Doomed(s, t) && Valid(s, steps) && NoRestart(steps)
    ensures !Recorded(Exec(s, steps).records, t.round)
    decreases steps
  {
    if steps != [] {
      StepStaysDoomed(s, steps[0], t);
      StepIsSafe(s, steps[0], |s.records|);
      RunStaysDoomed(Apply(s, steps[0]), steps[1..], t);
    }
  }

  lemma Prefixed(s: State, st: Step, rest: seq<Step>)
    requires Enabled(s, st) && Valid(Apply(s, st), rest)
    ensures Valid(s, [st] + rest) && Exec(s, [st] + rest) == Exec(Apply(s, st), rest)
  {
    assert ([st] + rest)[0] == st && ([st] + rest)[1..] == rest;
  }

  lemma EmptyStock(s: State)
    requires s.tasks == [] && s.inFlight == multiset{} && s.results == []
    ensures Stock(s) == multiset{}
  {
  }

  function Left(s: State): nat { 3 * |s.tasks| + 2 * |s.inFlight| + |s.results| }

  lemma OneFewer<T>(m: multiset<T>, t: T)
    requires t in m
    ensures |m - multiset{t}| == |m| - 1
  {
  }

  lemma DrainStep(s: State, st: Step)
    requires Enabled(s, st) && s.phase.Collecting? && (st.Take? || st.Push? || st.Pop?)
    ensures var s' := Apply(s, st);
            && Left(s') < Left(s)
            && s'.phase == s.phase && s'.round == s.round && s'.sent == s.sent && s'.leftover == s.leftover
            && s'.lost == s.lost && s'.records == s.records
  {
    if st.Push? { OneFewer(s.inFlight, st.r.ticket); }
  }

  lemma NextDrainStep(s: State) returns (st: Step)
    requires Inv(s) && s.phase.Collecting? && |s.collected| < |s.sent|
    requires forall t | t in s.lost :: t.round != s.round
    ensures (st.Take? || st.Push? || st.Pop?) && Enabled(s, st)
  {
    if s.results != [] {
      st := Take;
    } else if s.inFlight != multiset{} {
      var t :| t in s.inFlight;
      st := Push(Result(t, true, 0, [], []));
    } else {
      if s.tasks == [] {
        SomethingLeft(s);
        EmptyStock(s);
      }
      st := Pop;
    }
  }

  lemma FinishRecords(s: State)
    requires Inv(s) && s.phase.Collecting? && |s.collected| == |s.sent| && s.sent != []
    ensures Enabled(s, Finish(true)) && Recorded(Apply(s, Finish(true)).records, s.round)
  {
    var s' := Apply(s, Finish(true));
    assert !Recorded(s.records, s.round);
    assert s'.records[|s.records|] in s'.records;
  }

  lemma Single(s: State, st: Step)
    requires Enabled(s, st)
    ensures Valid(s, [st]) && Exec(s, [st]) == Apply(s, st)
  {
    assert Valid(Apply(s, st), []);
    Prefixed(s, st, []);
    assert [st] + [] == [st];
  }

  /** The lists drain into the engine: one runner pops, pushes and the engine
      takes until the counts meet. */
  lemma {:induction false} Drain(s: State) returns (steps: seq<Step>)
    requires Inv(s) && s.phase.Collecting? && CleanRound(s) && s.sent != []
    requires forall t | t in s.lost :: t.round != s.round
    ensures Valid(s, steps) && NoRestart(steps) && Recorded(Exec(s, steps).records, s.round)
    decreases Left(s)
  {
    if |s.collected| == |s.sent| {
      FinishRecords(s);
      Single(s, Finish(true));
      steps := [Finish(true)];
    } else {
      var st := NextDrainStep(s);
      DrainStep(s, st);
      StepKeepsInv(s, st);
      var rest := Drain(Apply(s, st));
      Prefixed(s, st, rest);
      steps := [st] + rest;
    }
  }

  /** While results are missing and nothing was lost, a ticket of the round is
      on a list or with a runner. */
  lemma SomethingLeft(s: State)
    requires Inv(s) && InRound(s) && |s.collected| < |s.sent|
    requires forall t | t in s.lost :: t.round != s.round
    ensures exists t :: t in Stock(s)
  {
    var a, b := multiset(Tickets(s.collected)), multiset(s.sent);
    MoreSomewhere(a, b);
    var t :| a[t] < b[t];
    assert t in s.sent;
    assert Held(s)[t] == b[t] + s.leftover[t];
    assert t in Stock(s);
  }

  lemma SizeLe<T>(a: multiset<T>, b: multiset<T>)
    requires a <= b
    ensures |a| <= |b|
  {
    assert b == a + (b - a);
  }

  lemma MoreSomewhere<T>(a: multiset<T>, b: multiset<T>)
    requires |a| < |b|
    ensures exists t :: a[t] < b[t]
  {
    if b <= a { SizeLe(b, a); }
  }

  lemma {:induction false} SendAll(s: State) returns (steps: seq<Step>)
    requires Inv(s) && s.phase.Enqueueing? && CleanRound(s) && (s.sent != [] || s.phase.todo != [])
    requires forall t | t in s.lost :: t.round != s.round
    ensures Valid(s, steps) && NoRestart(steps) && Recorded(Exec(s, steps).records, s.round)
    decreases |s.phase.todo|
  {
    var st := if s.phase.todo == [] then Ready else Enqueue(true);
    StepKeepsInv(s, st);
    var rest;
    if s.phase.todo == [] {
      rest := Drain(Apply(s, st));
    } else {
      rest := SendAll(Apply(s, st));
    }
    Prefixed(s, st, rest);
    steps := [st] + rest;
  }

  /** One lost task is enough to keep its round out of the log for good, and
      nothing else is: while none is lost the round can still be recorded. */
  lemma RecordableIffNothingLost(s: State)
    requires SafeInv(s, |s.records|) && InRound(s)
    requires s.sent != [] || (s.phase.Enqueueing? && s.phase.todo != [])
    ensures CanRecord(s) <==> forall t | t in s.lost :: t.round != s.round
  {
    if forall t | t in s.lost :: t.round != s.round {
      var steps;
      if s.phase.Collecting? { steps := Drain(s); } else { steps := SendAll(s); }
    } else {
      var t :| t in s.lost && t.round == s.round;
      forall steps | Valid(s, steps) && NoRestart(steps)
        ensures !Recorded(Exec(s, steps).records, s.round)
      {
        RunStaysDoomed(s, steps, t);
      }
    }
  }
}
