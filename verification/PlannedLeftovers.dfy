/** Leftovers and restarts when it is settled what each round sends, as a
    configuration, the teams and the database do. */
module PlannedLeftovers {
  import opened Wire
  import opened Config
  import opened Protocol
  import opened ProtocolSafety
  import opened ProtocolLeftovers
  import opened PlannedRuns
  import E = Enqueue

  /** What each round sends, by its number. */
  type Plan = nat -> seq<Ticket>

  ghost predicate WellPlanned(plan: Plan) {
    forall n: nat :: OfRound(plan(n), n) && Distinct(plan(n))
  }

  ghost predicate Follows(s: State, steps: seq<Step>, plan: Plan)
    requires Valid(s, steps)
    decreases steps
  {
    steps == [] ||
    ((steps[0].Begin? ==> steps[0].plan == plan(s.round)) && Follows(Apply(s, steps[0]), steps[1..], plan))
  }

  ghost predicate Run(s: State, steps: seq<Step>, plan: Plan, restarts: bool) {
    Valid(s, steps) && Follows(s, steps, plan) && (restarts || NoRestart(steps))
  }

  ghost predicate Reaches(s: State, end: State, plan: Plan, restarts: bool) {
    exists steps :: Run(s, steps, plan, restarts) && Exec(s, steps) == end
  }

  /** Every run from s records only exact rounds. */
  ghost predicate Trusted(s: State, plan: Plan, restarts: bool) {
    forall end | Reaches(s, end, plan, restarts) :: OnlyExactSince(|s.records|, end)
  }

  /** A leftover that does no harm in a round of its number: the round sends
      nothing, or just that ticket. */
  predicate Harmless(t: Ticket, plan: Plan) { plan(t.round) == [] || plan(t.round) == [t] }

  // ------------------------------------------------------------- putting runs
  // together

  lemma Stay(s: State, plan: Plan, restarts: bool)
    ensures Reaches(s, s, plan, restarts)
  {
    assert Run(s, [], plan, restarts) && Exec(s, []) == s;
  }

  lemma FollowsOn(s: State, a: seq<Step>, b: seq<Step>, plan: Plan)
    requires a != [] && Enabled(s, a[0]) && (a[0].Begin? ==> a[0].plan == plan(s.round))
    requires Valid(Apply(s, a[0]), a[1..] + b) && Follows(Apply(s, a[0]), a[1..] + b, plan)
    ensures Valid(s, a + b) && Follows(s, a + b, plan)
  {
    HeadAndRest(a, b);
    var all := [a[0]] + (a[1..] + b);
    assert all[0] == a[0] && all[1..] == a[1..] + b;
  }

  lemma {:induction false} FollowsBoth(s: State, a: seq<Step>, b: seq<Step>, plan: Plan)
    requires Valid(s, a) && Follows(s, a, plan) && Valid(Exec(s, a), b) && Follows(Exec(s, a), b, plan)
    ensures Valid(s, a + b) && Follows(s, a + b, plan)
    decreases a
  {
    if a == [] {
      assert a + b == b;
    } else {
      Unfold(s, a);
      FollowsBoth(Apply(s, a[0]), a[1..], b, plan);
      FollowsOn(s, a, b, plan);
    }
  }

  lemma Onward(s: State, mid: State, end: State, plan: Plan, restarts: bool)
    requires Reaches(s, mid, plan, restarts) && Reaches(mid, end, plan, restarts)
    ensures Reaches(s, end, plan, restarts)
  {
    var a :| Run(s, a, plan, restarts) && Exec(s, a) == mid;
    var b :| Run(mid, b, plan, restarts) && Exec(mid, b) == end;
    Compose(s, a, b);
    FollowsBoth(s, a, b, plan);
    assert Run(s, a + b, plan, restarts);
  }

  lemma Go(s: State, st: Step, plan: Plan, restarts: bool)
    requires Enabled(s, st) && (st.Begin? ==> st.plan == plan(s.round)) && (restarts || !st.Restart?)
    ensures Reaches(s, Apply(s, st), plan, restarts)
  {
    Single(s, st);
    assert [st][1..] == [] && Follows(Apply(s, st), [], plan);
    assert Follows(s, [st], plan);
    if !restarts { assert NoRestart([st]); }
    assert Run(s, [st], plan, restarts);
  }

  lemma GoOn(s: State, mid: State, st: Step, plan: Plan, restarts: bool)
    requires Reaches(s, mid, plan, restarts)
    requires Enabled(mid, st) && (st.Begin? ==> st.plan == plan(mid.round)) && (restarts || !st.Restart?)
    ensures Reaches(s, Apply(mid, st), plan, restarts)
  {
    Go(mid, st, plan, restarts);
    Onward(s, mid, Apply(mid, st), plan, restarts);
  }

  lemma ReachKeepsInv(s: State, end: State, plan: Plan, restarts: bool)
    requires Inv(s) && Reaches(s, end, plan, restarts)
    ensures Inv(end)
  {
    var steps :| Run(s, steps, plan, restarts) && Exec(s, steps) == end;
    RunKeepsInv(s, steps);
  }

  lemma MoreAllowed(s: State, end: State, plan: Plan)
    requires Reaches(s, end, plan, false)
    ensures Reaches(s, end, plan, true)
  {
    var steps :| Run(s, steps, plan, false) && Exec(s, steps) == end;
    assert Run(s, steps, plan, true);
  }

  // -------------------------------------------------- a harmful leftover leads
  // to a wrong round

  lemma PushOne(s: State, t: Ticket, plan: Plan) returns (end: State)
    requires s.phase.Idle? && t in s.inFlight
    ensures Reaches(s, end, plan, false)
    ensures end.phase.Idle? && end.round == s.round && end.records == s.records && t in RawTickets(end.results)
  {
    var r := Result(t, true, 0, [], []);
    Go(s, Push(r), plan, false);
    PushRaw(s.results, Good(r));
    end := Apply(s, Push(r));
  }

  /** Runners turn a ticket they can reach into a result. */
  lemma {:induction false} BringIn(s: State, t: Ticket, plan: Plan) returns (end: State)
    requires s.phase.Idle? && t in Stock(s)
    ensures Reaches(s, end, plan, false)
    ensures end.phase.Idle? && end.round == s.round && end.records == s.records && t in RawTickets(end.results)
    decreases |s.tasks|
  {
    if t in RawTickets(s.results) {
      Stay(s, plan, false);
      end := s;
    } else if t in s.inFlight {
      end := PushOne(s, t, plan);
    } else {
      if t != s.tasks[0] { NotHeld(s.tasks, t); }
      Go(s, Pop, plan, false);
      end := BringIn(Apply(s, Pop), t, plan);
      Onward(s, Apply(s, Pop), end, plan, false);
    }
  }

  lemma {:induction false} SendRest(s: State, plan: Plan) returns (end: State)
    requires s.phase.Enqueueing?
    ensures Reaches(s, end, plan, false)
    ensures end == s.(phase := Collecting, sent := s.sent + s.phase.todo, tasks := s.tasks + s.phase.todo)
    decreases |s.phase.todo|
  {
    if s.phase.todo == [] {
      Go(s, Ready, plan, false);
      end := Apply(s, Ready);
      assert s.sent + [] == s.sent && s.tasks + [] == s.tasks;
    } else {
      var s1, todo := Apply(s, Enqueue(true)), s.phase.todo;
      Go(s, Enqueue(true), plan, false);
      end := SendRest(s1, plan);
      Onward(s, s1, end, plan, false);
      assert s1.sent + todo[1..] == s.sent + todo && s1.tasks + todo[1..] == s.tasks + todo;
    }
  }

  /** A round begins with the stale tasks cleared and sends all it has. */
  lemma SendPlan(s: State, plan: Plan) returns (end: State)
    requires s.phase.Idle? && WellPlanned(plan)
    ensures Reaches(s, end, plan, false)
    ensures end.phase.Collecting? && end.round == s.round && end.records == s.records && end.results == s.results
    ensures end.sent == plan(s.round) && end.tasks == plan(s.round) && end.collected == []
  {
    var st := Begin(plan(s.round), true);
    var s1 := Apply(s, st);
    Go(s, st, plan, false);
    end := SendRest(s1, plan);
    Onward(s, s1, end, plan, false);
    assert [] + plan(s.round) == plan(s.round);
  }

  /** A round can pass without a record and without a result taken. */
  lemma PassRound(s: State, plan: Plan) returns (end: State)
    requires s.phase.Idle? && WellPlanned(plan)
    ensures Reaches(s, end, plan, false)
    ensures end.phase.Idle? && end.round == s.round + 1 && end.records == s.records && end.results == s.results
  {
    var s1 := SendPlan(s, plan);
    var st := if s1.sent == [] then Finish(false) else Timeout;
    GoOn(s, s1, st, plan, false);
    end := Apply(s1, st);
  }

  lemma {:induction false} PassRounds(s: State, n: nat, plan: Plan) returns (end: State)
    requires s.phase.Idle? && WellPlanned(plan) && s.round <= n
    ensures Reaches(s, end, plan, false)
    ensures end.phase.Idle? && end.round == n && end.records == s.records && end.results == s.results
    decreases n - s.round
  {
    if s.round == n {
      Stay(s, plan, false);
      end := s;
    } else {
      var s1 := PassRound(s, plan);
      end := PassRounds(s1, n, plan);
      Onward(s, s1, end, plan, false);
    }
  }

  ghost predicate SameRound(s: State, end: State) {
    end.phase == s.phase && end.round == s.round && end.records == s.records && end.sent == s.sent
  }

  /** Results can be lost on their way to the engine. */
  lemma {:induction false} LoseResults(s: State, j: nat, plan: Plan) returns (end: State)
    requires s.phase.Collecting? && |s.collected| < |s.sent| && j <= |s.results|
    ensures Reaches(s, end, plan, false) && SameRound(s, end)
    ensures end.results == s.results[j..] && end.tasks == s.tasks && end.collected == s.collected
    decreases j
  {
    if j == 0 {
      Stay(s, plan, false);
      end := s;
    } else {
      var s1 := Apply(s, TakeLost);
      Go(s, TakeLost, plan, false);
      end := LoseResults(s1, j - 1, plan);
      Onward(s, s1, end, plan, false);
    }
  }

  lemma AnswerOne(s: State, plan: Plan) returns (end: State)
    requires s.phase.Collecting? && s.results == [] && s.tasks != [] && |s.collected| < |s.sent|
    requires s.tasks[0].round == s.round
    ensures Reaches(s, end, plan, false) && SameRound(s, end)
    ensures end.results == [] && end.tasks == s.tasks[1..]
    ensures |end.collected| == |s.collected| + 1 && Tickets(end.collected) == Tickets(s.collected) + [s.tasks[0]]
  {
    var r := Result(s.tasks[0], true, 0, [], []);
    var s1 := Apply(s, Pop);
    Go(s, Pop, plan, false);
    var s2 := Apply(s1, Push(r));
    GoOn(s, s1, Push(r), plan, false);
    assert s2.results == [Good(r)];
    GoOn(s, s2, Take, plan, false);
    end := Apply(s2, Take);
    TicketsAppend(s.collected, r);
  }

  /** One runner answers the first m tasks. */
  lemma {:induction false} Answer(s: State, m: nat, plan: Plan) returns (end: State)
    requires s.phase.Collecting? && s.results == [] && m <= |s.tasks| && |s.collected| + m <= |s.sent|
    requires OfRound(s.tasks, s.round)
    ensures Reaches(s, end, plan, false) && SameRound(s, end)
    ensures |end.collected| == |s.collected| + m && Tickets(end.collected) == Tickets(s.collected) + s.tasks[..m]
    decreases m
  {
    if m == 0 {
      Stay(s, plan, false);
      end := s;
      assert s.tasks[..0] == [];
    } else {
      var s1 := AnswerOne(s, plan);
      end := Answer(s1, m - 1, plan);
      Onward(s, s1, end, plan, false);
      assert [s.tasks[0]] + s.tasks[1..][..m - 1] == s.tasks[..m];
    }
  }

  /** The leftover result is taken first. */
  lemma TakeLeftover(s: State, t: Ticket, plan: Plan) returns (end: State)
    requires s.phase.Collecting? && s.collected == [] && s.sent != [] && t in RawTickets(s.results) && t.round == s.round
    ensures Reaches(s, end, plan, false) && SameRound(s, end)
    ensures end.tasks == s.tasks && Tickets(end.collected) == [t] && |end.collected| == 1
    ensures |s.sent| > 1 ==> end.results == []
  {
    var j := WhereIs(s.results, t);
    var s1 := LoseResults(s, j, plan);
    var s2 := Apply(s1, Take);
    GoOn(s, s1, Take, plan, false);
    assert s1.results[0] == s.results[j];
    if |s.sent| > 1 {
      end := LoseResults(s2, |s2.results|, plan);
      Onward(s, s2, end, plan, false);
    } else {
      end := s2;
    }
  }

  lemma {:induction false} WhereIs(raws: seq<Raw>, t: Ticket) returns (j: nat)
    requires t in RawTickets(raws)
    ensures j < |raws| && raws[j].Good? && raws[j].result.ticket == t
  {
    if t in RawTicket(raws[0]) {
      j := 0;
    } else {
      var k := WhereIs(raws[1..], t);
      j := k + 1;
    }
  }

  /** The tasks that are answered beside a leftover t: all but one that is not t. */
  function Others(ts: seq<Ticket>, t: Ticket): seq<Ticket>
    requires |ts| >= 1
  {
    if ts[|ts| - 1] == t then ts[1..] else ts[..|ts| - 1]
  }

  lemma OthersMissOne(ts: seq<Ticket>, t: Ticket)
    requires ts != [] && ts != [t] && Distinct(ts)
    ensures multiset(Others(ts, t))[t] == multiset(ts)[t] && |Others(ts, t)| == |ts| - 1
  {
    var n := |ts| - 1;
    if ts[n] == t {
      assert n > 0 && ts[0] != ts[n];
      assert ts == [ts[0]] + ts[1..];
    } else {
      assert ts == ts[..n] + [ts[n]];
    }
  }

  /** With a leftover answer taken, all but one other task is answered. */
  lemma AnswerOthers(s: State, t: Ticket, plan: Plan) returns (end: State)
    requires s.phase.Collecting? && |s.collected| == 1 && |s.sent| == |s.tasks| && s.tasks != []
    requires |s.sent| > 1 ==> s.results == []
    requires OfRound(s.tasks, s.round)
    ensures Reaches(s, end, plan, false) && SameRound(s, end)
    ensures |end.collected| == |s.sent| && Tickets(end.collected) == Tickets(s.collected) + Others(s.tasks, t)
  {
    var k := |s.tasks|;
    if k == 1 {
      Stay(s, plan, false);
      end := s;
      assert Others(s.tasks, t) == [];
    } else if s.tasks[k - 1] == t {
      var s1 := Apply(s, Pop);
      Go(s, Pop, plan, false);
      var s2 := Answer(s1, k - 1, plan);
      Onward(s, s1, s2, plan, false);
      end := s2;
      assert s.tasks[1..][..k - 1] == s.tasks[1..];
    } else {
      end := Answer(s, k - 1, plan);
    }
  }

  /** A round that meets a leftover of its number, and sends something else too,
      can be recorded with that leftover and one task unanswered. */
  lemma WrongRecord(s: State, t: Ticket, plan: Plan) returns (end: State)
    requires Inv(s) && s.phase.Idle? && WellPlanned(plan) && t in RawTickets(s.results) && t.round == s.round
    requires !Harmless(t, plan)
    ensures Reaches(s, end, plan, false)
    ensures |end.records| == |s.records| + 1 && !Exact(end.records[|s.records|])
  {
    var s1 := SendPlan(s, plan);
    var s2 := TakeLeftover(s1, t, plan);
    Onward(s, s1, s2, plan, false);
    var s3 := AnswerOthers(s2, t, plan);
    Onward(s, s2, s3, plan, false);
    assert forall r | r in s.records :: r.round < s.round;
    GoOn(s, s3, Finish(true), plan, false);
    end := Apply(s3, Finish(true));
    OthersMissOne(plan(s.round), t);
    OneTooMany(end.records[|s.records|], t);
  }

  lemma OneTooMany(r: Record, t: Ticket)
    requires r.sent != [] && Tickets(r.results) == [t] + Others(r.sent, t)
    requires multiset(Others(r.sent, t))[t] == multiset(r.sent)[t]
    ensures !Exact(r)
  {
    assert multiset(Tickets(r.results)) == multiset{t} + multiset(Others(r.sent, t));
  }

  lemma HarmfulLeadsToWrong(s: State, t: Ticket, plan: Plan) returns (end: State)
    requires Inv(s) && s.phase.Idle? && WellPlanned(plan)
    requires t in Stock(s) && t.round >= s.round && !Harmless(t, plan)
    ensures Reaches(s, end, plan, false) && !OnlyExactSince(|s.records|, end)
  {
    var s1 := BringIn(s, t, plan);
    var s2 := PassRounds(s1, t.round, plan);
    Onward(s, s1, s2, plan, false);
    ReachKeepsInv(s, s2, plan, false);
    end := WrongRecord(s2, t, plan);
    Onward(s, s2, end, plan, false);
  }

  // --------------------------------------------- harmless ones do not, ever

  ghost predicate HarmlessAhead(s: State, plan: Plan) {
    forall t | t in Stock(s) :: t.round < s.round || (!s.phase.Idle? && t.round == s.round) || Harmless(t, plan)
  }

  ghost predicate HarmlessBefore(s: State, plan: Plan) {
    InRound(s) ==> forall t | t in s.leftover && t.round == s.round :: Harmless(t, plan)
  }

  predicate SendsPlan(s: State, plan: Plan) {
    && (s.phase.Enqueueing? ==> s.sent + s.phase.todo == plan(s.round))
    && (s.phase.Collecting? ==> s.sent == plan(s.round))
  }

  ghost predicate TrustInv(s: State, plan: Plan, base: nat) {
    && Inv(s)
    && SendsPlan(s, plan)
    && HarmlessAhead(s, plan)
    && HarmlessBefore(s, plan)
    && base <= |s.records|
    && OnlyExactSince(base, s)
  }

  /** When the counts meet, the results are the round's tasks, even with
      harmless leftovers taken for them. */
  lemma HarmlessCountIsExact(s: State, plan: Plan)
    requires Inv(s) && s.phase.Collecting? && SendsPlan(s, plan) && HarmlessBefore(s, plan)
    requires |s.collected| == |s.sent| && s.sent != []
    ensures multiset(s.sent) == multiset(Tickets(s.collected))
  {
    if CleanRound(s) {
      FullCountIsExact(s);
    } else {
      var t :| t in s.leftover && t.round == s.round;
      assert s.sent == [t];
      var ts := Tickets(s.collected);
      assert ts[0] in ts && ts[0].round == s.round;
      assert ts[0] in multiset(ts);
      assert Held(s)[ts[0]] == multiset(s.sent)[ts[0]] + s.leftover[ts[0]];
      if ts[0] != t {
        assert ts[0] in s.leftover;
      }
      assert ts == [t];
    }
  }

  lemma FinishIsTrusted(s: State, saved: bool, plan: Plan, base: nat)
    requires TrustInv(s, plan, base) && Enabled(s, Finish(saved))
    ensures TrustInv(Apply(s, Finish(saved)), plan, base)
  {
    var s' := Apply(s, Finish(saved));
    StepKeepsInv(s, Finish(saved));
    if s'.records != s.records {
      HarmlessCountIsExact(s, plan);
      forall i | base <= i < |s'.records| ensures Exact(s'.records[i]) {
        if i < |s.records| { assert s'.records[i] == s.records[i]; }
      }
    }
  }

  lemma NewStock(s: State, ok: bool)
    requires Enabled(s, Enqueue(ok)) && s.phase.todo[0].round == s.round
    ensures forall x | x in Stock(Apply(s, Enqueue(ok))) :: x in Stock(s) || x.round == s.round
  {
    EnqueueStock(s, ok);
    forall x | x in Stock(Apply(s, Enqueue(ok))) ensures x in Stock(s) || x.round == s.round {
      if x !in Stock(s) { assert x in multiset{s.phase.todo[0]}; }
    }
  }

  lemma EnqueueStaysOnPlan(s: State, ok: bool, plan: Plan)
    requires Enabled(s, Enqueue(ok)) && SendsPlan(s, plan)
    ensures SendsPlan(Apply(s, Enqueue(ok)), plan)
  {
    var todo := s.phase.todo;
    assert (s.sent + [todo[0]]) + todo[1..] == s.sent + todo;
  }

  lemma EnqueueIsTrusted(s: State, ok: bool, plan: Plan, base: nat)
    requires TrustInv(s, plan, base) && Enabled(s, Enqueue(ok))
    ensures TrustInv(Apply(s, Enqueue(ok)), plan, base)
  {
    var s' := Apply(s, Enqueue(ok));
    StepKeepsInv(s, Enqueue(ok));
    EnqueueStaysOnPlan(s, ok, plan);
    assert s.phase.todo[0] in s.phase.todo;
    NewStock(s, ok);
    CleanStays(s, Enqueue(ok));
    assert s'.records == s.records;
  }

  lemma BeginIsTrusted(s: State, cleared: bool, plan: Plan, base: nat)
    requires TrustInv(s, plan, base) && Enabled(s, Begin(plan(s.round), cleared))
    ensures TrustInv(Apply(s, Begin(plan(s.round), cleared)), plan, base)
  {
    var st := Begin(plan(s.round), cleared);
    var s' := Apply(s, st);
    StepKeepsInv(s, st);
    StockStep(s, st);
    assert [] + plan(s.round) == plan(s.round);
    assert s'.leftover == Stock(s.(tasks := s'.tasks)) == Stock(s');
    assert forall t | t in Stock(s') :: t in Stock(s);
  }

  lemma AheadStays(s: State, st: Step, plan: Plan)
    requires HarmlessAhead(s, plan) && Enabled(s, st) && !st.Restart? && !st.Enqueue?
    ensures HarmlessAhead(Apply(s, st), plan)
  {
    var s' := Apply(s, st);
    StockStep(s, st);
    StepMoves(s, st);
    StaysBelow(s, st);
    forall t | t in Stock(s') ensures t.round < s'.round || (!s'.phase.Idle? && t.round == s'.round) || Harmless(t, plan) {
      assert t in Stock(s);
    }
  }

  lemma StaysOnPlan(s: State, st: Step, plan: Plan)
    requires SendsPlan(s, plan) && Enabled(s, st) && !st.Restart? && !st.Enqueue? && !st.Begin?
    ensures SendsPlan(Apply(s, st), plan)
  {
    if st.Ready? { assert s.sent + s.phase.todo == s.sent; }
  }

  lemma OtherStepIsTrusted(s: State, st: Step, plan: Plan, base: nat)
    requires TrustInv(s, plan, base) && Enabled(s, st)
    requires !st.Restart? && !st.Finish? && !st.Enqueue? && !st.Begin?
    ensures TrustInv(Apply(s, st), plan, base)
  {
    StepKeepsInv(s, st);
    AheadStays(s, st, plan);
    StaysOnPlan(s, st, plan);
    StepMoves(s, st);
    if InRound(Apply(s, st)) { CleanStays(s, st); }
  }

  lemma StepIsTrusted(s: State, st: Step, plan: Plan, base: nat)
    requires TrustInv(s, plan, base) && Enabled(s, st) && !st.Restart? && (st.Begin? ==> st.plan == plan(s.round))
    ensures TrustInv(Apply(s, st), plan, base)
  {
    match st
    case Begin(_, cleared) => BeginIsTrusted(s, cleared, plan, base);
    case Enqueue(ok) => EnqueueIsTrusted(s, ok, plan, base);
    case Finish(saved) => FinishIsTrusted(s, saved, plan, base);
    case _ => OtherStepIsTrusted(s, st, plan, base);
  }

  lemma {:induction false} RunIsTrusted(s: State, steps: seq<Step>, plan: Plan, base: nat)
    requires TrustInv(s, plan, base) && Run(s, steps, plan, false)
    ensures TrustInv(Exec(s, steps), plan, base)
    decreases steps
  {
    if steps != [] {
      StepIsTrusted(s, steps[0], plan, base);
      RunIsTrusted(Apply(s, steps[0]), steps[1..], plan, base);
    }
  }

  /** Exactly when an engine can be trusted from its first round on, given what
      its rounds send: each leftover of this or a later round is alone in its
      round, or its round sends nothing. */
  lemma TrustedIffHarmless(s: State, plan: Plan)
    requires Inv(s) && s.phase.Idle? && WellPlanned(plan)
    ensures Trusted(s, plan, false) <==> forall t | t in Stock(s) && t.round >= s.round :: Harmless(t, plan)
  {
    if forall t | t in Stock(s) && t.round >= s.round :: Harmless(t, plan) {
      forall end | Reaches(s, end, plan, false) ensures OnlyExactSince(|s.records|, end) {
        var steps :| Run(s, steps, plan, false) && Exec(s, steps) == end;
        RunIsTrusted(s, steps, plan, |s.records|);
      }
    } else {
      var t :| t in Stock(s) && t.round >= s.round && !Harmless(t, plan);
      var end := HarmfulLeadsToWrong(s, t, plan);
    }
  }

  /** A round of the leftover's number that sends one other task, and no other
      round that sends anything. */
  function JustOther(t: Ticket): Plan {
    (n: nat) => if n == t.round then [t.(service := t.service + [120])] else []
  }

  lemma LeftoverMakesWrong(s: State, t: Ticket) returns (steps: seq<Step>)
    requires Inv(s) && s.phase.Idle? && t in Stock(s) && t.round >= s.round
    ensures Valid(s, steps) && NoRestart(steps)
    ensures !OnlyExactSince(|s.records|, Exec(s, steps))
  {
    var plan := JustOther(t);
    assert plan(t.round)[0].service != t.service;
    var end := HarmfulLeadsToWrong(s, t, plan);
    steps :| Run(s, steps, plan, false) && Exec(s, steps) == end;
  }

  /** Exactly when an engine can be trusted from its first round on, whatever its
      rounds will send: no ticket of this or a later round is queued, running or
      waiting as a result. */
  lemma ExactIffNoLeftover(s: State)
    requires Inv(s) && s.phase.Idle?
    ensures AlwaysExact(s) <==> NoLeftover(s)
  {
    if NoLeftover(s) {
      forall steps | Valid(s, steps) && NoRestart(steps) ensures OnlyExactSince(|s.records|, Exec(s, steps)) {
        RecordedRoundsAreExact(s, steps);
      }
    } else {
      var t :| t in Stock(s) && t.round >= s.round;
      var steps := LeftoverMakesWrong(s, t);
    }
  }

  // ------------------------------------------------------------------ restarts

  ghost predicate SmallPlans(plan: Plan, first: nat) { forall n: nat | n >= first :: |plan(n)| <= 1 }

  /** What holds over runs with restarts when no round sends two tasks. */
  ghost predicate RestartInv(s: State, plan: Plan, first: nat, base: nat) {
    && TrustInv(s, plan, base)
    && first <= s.round
    && (first <= 1 || exists r | r in s.records :: first <= r.round + 1)
    && (forall t | t in Stock(s) :: t.round < first || Harmless(t, plan))
  }

  lemma SentIsHarmless(s: State, ok: bool, plan: Plan, base: nat)
    requires TrustInv(s, plan, base) && Enabled(s, Enqueue(ok)) && |plan(s.round)| <= 1
    ensures Harmless(s.phase.todo[0], plan)
  {
    var t := s.phase.todo[0];
    assert |s.sent + s.phase.todo| <= 1;
    assert s.sent + s.phase.todo == [t];
    assert t in s.phase.todo;
  }

  lemma RestartIsTrusted(s: State, plan: Plan, first: nat, base: nat)
    requires RestartInv(s, plan, first, base)
    ensures RestartInv(Apply(s, Restart), plan, first, base)
  {
    var s' := Apply(s, Restart);
    StepKeepsInv(s, Restart);
    assert Stock(s') == Stock(s);
  }

  lemma RecordsStay(s: State, st: Step)
    requires Enabled(s, st)
    ensures s.records <= Apply(s, st).records
  {
  }

  lemma StepWithRestarts(s: State, st: Step, plan: Plan, first: nat, base: nat)
    requires RestartInv(s, plan, first, base) && SmallPlans(plan, first)
    requires Enabled(s, st) && (st.Begin? ==> st.plan == plan(s.round))
    ensures RestartInv(Apply(s, st), plan, first, base)
  {
    if st.Restart? {
      RestartIsTrusted(s, plan, first, base);
    } else {
      StepIsTrusted(s, st, plan, base);
      StepMoves(s, st);
      RecordsStay(s, st);
      StockStaysHarmless(s, st, plan, first, base);
      if r :| r in s.records && first <= r.round + 1 { assert r in Apply(s, st).records; }
    }
  }

  lemma StockStaysHarmless(s: State, st: Step, plan: Plan, first: nat, base: nat)
    requires RestartInv(s, plan, first, base) && SmallPlans(plan, first) && Enabled(s, st) && !st.Restart?
    ensures forall t | t in Stock(Apply(s, st)) :: t.round < first || Harmless(t, plan)
  {
    if st.Enqueue? {
      EnqueueStock(s, st.ok);
      SentIsHarmless(s, st.ok, plan, base);
      forall t | t in Stock(Apply(s, st)) ensures t in Stock(s) || t == s.phase.todo[0] {
        if t !in Stock(s) { assert t in multiset{s.phase.todo[0]}; }
      }
    } else {
      StockStep(s, st);
      assert forall t | t in Stock(Apply(s, st)) :: t in Stock(s);
    }
  }

  lemma {:induction false} RunWithRestarts(s: State, steps: seq<Step>, plan: Plan, first: nat, base: nat)
    requires RestartInv(s, plan, first, base) && SmallPlans(plan, first) && Run(s, steps, plan, true)
    ensures RestartInv(Exec(s, steps), plan, first, base)
    decreases steps
  {
    if steps != [] {
      StepWithRestarts(s, steps[0], plan, first, base);
      RunWithRestarts(Apply(s, steps[0]), steps[1..], plan, first, base);
    }
  }

  /** A round of two tasks that is discarded, a restart that goes back to its
      number or before, and the round again: its first task's late answer is
      recorded beside the new one, and another task is not answered. */
  lemma RestartAfterDiscard(s: State, n: nat, plan: Plan) returns (end: State)
    requires Inv(s) && s.phase.Idle? && WellPlanned(plan) && s.round == LastRound(s.records) + 1
    requires n >= s.round && |plan(n)| > 1
    ensures Reaches(s, end, plan, true) && !OnlyExactSince(|s.records|, end)
  {
    var s1 := PassRounds(s, n, plan);
    var s2 := SendPlan(s1, plan);
    Onward(s, s1, s2, plan, false);
    MoreAllowed(s, s2, plan);
    var t, s3 := plan(n)[0], Apply(s2, Pop);
    GoOn(s, s2, Pop, plan, true);
    var s4 := Apply(s3, Timeout);
    GoOn(s, s3, Timeout, plan, true);
    var s5 := Apply(s4, Restart);
    GoOn(s, s4, Restart, plan, true);
    assert t in s5.inFlight && t in Stock(s5) && t in plan(n) && t.round == n;
    ReachKeepsInv(s, s5, plan, true);
    end := HarmfulLeadsToWrong(s5, t, plan);
    MoreAllowed(s5, end, plan);
    Onward(s, s5, end, plan, true);
  }

  /** Exactly when restarts at any moment are safe for a started engine, given
      what its rounds send: when no round sends two tasks. */
  lemma RestartsSafeIffSmallPlans(s: State, plan: Plan)
    requires Inv(s) && s.phase.Idle? && NoLeftover(s) && WellPlanned(plan) && s.round == LastRound(s.records) + 1
    ensures Trusted(s, plan, true) <==> SmallPlans(plan, s.round)
  {
    if SmallPlans(plan, s.round) {
      forall end | Reaches(s, end, plan, true) ensures OnlyExactSince(|s.records|, end) {
        var steps :| Run(s, steps, plan, true) && Exec(s, steps) == end;
        RunWithRestarts(s, steps, plan, s.round, |s.records|);
      }
    } else {
      var n: nat :| n >= s.round && |plan(n)| > 1;
      var end := RestartAfterDiscard(s, n, plan);
    }
  }
}
