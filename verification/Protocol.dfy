/** The round protocol: one engine, any number of runners, two shared lists.

    A state is what the lists, the runners and the engine hold at one moment;
    a run is any sequence of enabled steps, so every interleaving and every
    speed is a run. A task is represented by its ticket: its credentials,
    attempts and deadline do not steer the protocol. */
module Protocol {
  import opened Wire
  import opened Numbering

  /** Where the engine loop stands. Halted: the loop has returned on an error. */
  datatype Phase = Idle | Enqueueing(todo: seq<Ticket>) | Collecting | Halted

  /** A row of the rounds table with its checks, and beside it what the round
      had sent. */
  datatype Record = Record(round: nat, sent: seq<Ticket>, results: seq<Result>)

  datatype State = State(
    phase: Phase,
    round: nat,
    sent: seq<Ticket>,           // this round's tasks so far; |sent| is the expected count
    tasks: seq<Ticket>,          // the shared "tasks" list
    inFlight: multiset<Ticket>,  // popped by a runner, no result pushed yet
    results: seq<Raw>,           // the shared "results" list
    collected: seq<Result>,
    lost: multiset<Ticket>,      // gone without reaching the engine, since the round began
    leftover: multiset<Ticket>,  // what the lists and runners held when the round began
    records: seq<Record>)

  datatype Step =
    | Begin(plan: seq<Ticket>, cleared: bool)  // cleared: the stale-task delete succeeded
    | Enqueue(ok: bool)                        // the push's error is ignored by the engine
    | Ready                                    // the enqueue loop is over
    | Pop                                      // a runner takes the head task
    | Lose(t: Ticket)                          // no runner for it, runner gone, or push failed
    | Push(r: Result)
    | Noise                                    // an undecodable entry reaches "results"
    | Take                                     // one iteration of the collection loop
    | TakeLost                                 // popped by the server, reply lost on the way
    | Timeout
    | Finish(saved: bool)                      // saved: the insert itself succeeds
    | Halt
    | Restart                                  // the engine process starts anew

  function RoundNumbers(records: seq<Record>): seq<nat> {
    seq(|records|, i requires 0 <= i < |records| => records[i].round)
  }

  function LastRound(records: seq<Record>): (n: nat)
    ensures forall r | r in records :: r.round <= n
    ensures n == 0 || exists r | r in records :: r.round == n
  {
    var numbers := RoundNumbers(records);
    assert forall i | 0 <= i < |records| :: numbers[i] == records[i].round && numbers[i] in numbers;
    MaxRound(numbers)
  }

  predicate Recorded(records: seq<Record>, round: nat) {
    exists r | r in records :: r.round == round
  }

  predicate Enabled(s: State, st: Step) {
    match st
    case Begin(plan, _) => s.phase.Idle? && forall t | t in plan :: t.round == s.round
    case Enqueue(_) => s.phase.Enqueueing? && s.phase.todo != []
    case Ready => s.phase.Enqueueing? && s.phase.todo == []
    case Pop => s.tasks != []
    case Lose(t) => t in s.inFlight
    case Push(r) => r.ticket in s.inFlight
    case Noise => true
    case Take => s.phase.Collecting? && |s.collected| < |s.sent| && s.results != []
    case TakeLost => s.phase.Collecting? && |s.collected| < |s.sent| && s.results != []
    case Timeout => s.phase.Collecting? && |s.collected| < |s.sent|
    case Finish(_) => s.phase.Collecting? && |s.collected| == |s.sent|
    case Halt => s.phase.Idle? || s.phase.Collecting?
    case Restart => true
  }

  function RawTicket(raw: Raw): multiset<Ticket> {
    if raw.Good? then multiset{raw.result.ticket} else multiset{}
  }

  function RawTickets(raws: seq<Raw>): multiset<Ticket> {
    if raws == [] then multiset{} else RawTicket(raws[0]) + RawTickets(raws[1..])
  }

  /** Everything the lists and the runners hold. */
  function Stock(s: State): multiset<Ticket> {
    multiset(s.tasks) + s.inFlight + RawTickets(s.results)
  }

  /** One state's successor: the round's end, recorded or not, goes straight to
      the next round number. */
  function EndRound(s: State): State {
    s.(phase := Idle, round := s.round + 1, sent := [], collected := [])
  }

  function Apply(s: State, st: Step): State
    requires Enabled(s, st)
  {
    match st
    case Begin(plan, cleared) =>
      var b := s.(tasks := if cleared then [] else s.tasks);
      b.(phase := Enqueueing(plan), sent := [], collected := [], lost := multiset{}, leftover := Stock(b))
    case Enqueue(ok) =>
      var t := s.phase.todo[0];
      var b := s.(phase := Enqueueing(s.phase.todo[1..]), sent := s.sent + [t]);
      if ok then b.(tasks := s.tasks + [t]) else b.(lost := s.lost + multiset{t})
    case Ready => s.(phase := Collecting)
    case Pop => s.(tasks := s.tasks[1..], inFlight := s.inFlight + multiset{s.tasks[0]})
    case Lose(t) => s.(inFlight := s.inFlight - multiset{t}, lost := s.lost + multiset{t})
    case Push(r) => s.(inFlight := s.inFlight - multiset{r.ticket}, results := s.results + [Good(r)])
    case Noise => s.(results := s.results + [Garbled])
    case Take =>
      var b := s.(results := s.results[1..]);
      if s.results[0].Garbled? || s.results[0].result.ticket.round != s.round then b
      else b.(collected := s.collected + [s.results[0].result])
    case TakeLost => s.(results := s.results[1..], lost := s.lost + RawTicket(s.results[0]))
    case Timeout => EndRound(s)
    case Finish(saved) =>
      if saved && s.sent != [] && !Recorded(s.records, s.round)
      then EndRound(s).(records := s.records + [Record(s.round, s.sent, s.collected)])
      else EndRound(s)
    case Halt => s.(phase := Halted, sent := [], collected := [])
    case Restart => s.(phase := Idle, round := LastRound(s.records) + 1, sent := [], collected := [])
  }

  predicate Valid(s: State, steps: seq<Step>)
    decreases steps
  {
    steps == [] || (Enabled(s, steps[0]) && Valid(Apply(s, steps[0]), steps[1..]))
  }

  function Exec(s: State, steps: seq<Step>): State
    requires Valid(s, steps)
    decreases steps
  {
    if steps == [] then s else Exec(Apply(s, steps[0]), steps[1..])
  }

  // -------------------------------------------------------------- invariant

  predicate InRound(s: State) { s.phase.Enqueueing? || s.phase.Collecting? }

  function Held(s: State): multiset<Ticket> {
    Stock(s) + multiset(Tickets(s.collected)) + s.lost
  }

  /** Conservation: each ticket of the current round is held somewhere exactly
      as often as it was sent, plus as often as it was already around. */
  ghost predicate Conserved(s: State) {
    forall t: Ticket | t.round == s.round :: Held(s)[t] == multiset(s.sent)[t] + s.leftover[t]
  }

  predicate OfRound(ts: seq<Ticket>, round: nat) { forall t | t in ts :: t.round == round }

  /** What every recorded round satisfies, whatever happened around it: as many
      results as tasks were sent, all of its own round. */
  predicate Whole(r: Record) {
    && r.sent != []
    && |r.results| == |r.sent|
    && OfRound(r.sent, r.round)
    && OfRound(Tickets(r.results), r.round)
  }

  ghost predicate RecordsInv(s: State) {
    && (forall r | r in s.records :: Whole(r) && r.round < s.round)
    && (forall i, j | 0 <= i < j < |s.records| :: s.records[i].round < s.records[j].round)
  }

  ghost predicate RoundInv(s: State) {
    && OfRound(s.sent, s.round)
    && OfRound(Tickets(s.collected), s.round)
    && |s.collected| <= |s.sent|
    && (s.phase.Enqueueing? ==> OfRound(s.phase.todo, s.round) && s.collected == [])
    && Conserved(s)
  }

  ghost predicate Inv(s: State) {
    RecordsInv(s) && (InRound(s) ==> RoundInv(s))
  }

  // ------------------------------------------------------ lists as multisets

  lemma PlusAssoc(a: multiset<Ticket>, b: multiset<Ticket>, c: multiset<Ticket>)
    ensures (a + b) + c == a + (b + c)
  {
  }

  lemma PlusComm(a: multiset<Ticket>, b: multiset<Ticket>)
    ensures a + b == b + a
  {
  }

  lemma HeadRaw(raws: seq<Raw>)
    requires raws != []
    ensures RawTickets(raws) == RawTickets(raws[1..]) + RawTicket(raws[0])
  {
    PlusComm(RawTicket(raws[0]), RawTickets(raws[1..]));
  }

  lemma {:induction false} PushRaw(raws: seq<Raw>, raw: Raw)
    ensures RawTickets(raws + [raw]) == RawTickets(raws) + RawTicket(raw)
  {
    if raws == [] {
      assert [raw][1..] == [];
      assert raws + [raw] == [raw];
    } else {
      PushRaw(raws[1..], raw);
      PushTail(raws, raw);
      PlusAssoc(RawTicket(raws[0]), RawTickets(raws[1..]), RawTicket(raw));
    }
  }

  lemma PushTail(raws: seq<Raw>, raw: Raw)
    requires raws != []
    ensures RawTickets(raws + [raw]) == RawTicket(raws[0]) + RawTickets(raws[1..] + [raw])
  {
    assert (raws + [raw])[1..] == raws[1..] + [raw];
  }

  lemma HeadTask(ts: seq<Ticket>)
    requires ts != []
    ensures multiset(ts) == multiset{ts[0]} + multiset(ts[1..])
  {
    assert ts == [ts[0]] + ts[1..];
  }

  lemma TicketsAppend(rs: seq<Result>, r: Result)
    ensures Tickets(rs + [r]) == Tickets(rs) + [r.ticket]
  {
  }

  // -------------------------------------------- conservation, step by step

  lemma FinishKeepsRecords(s: State, saved: bool)
    requires Inv(s) && Enabled(s, Finish(saved))
    ensures RecordsInv(Apply(s, Finish(saved)))
  {
    var s' := Apply(s, Finish(saved));
    if s'.records != s.records {
      var rec := s'.records[|s.records|];
      assert Whole(rec) && |s'.records| == |s.records| + 1;
      assert forall i | 0 <= i < |s.records| :: s'.records[i] == s.records[i] && s.records[i] in s.records;
      assert forall r | r in s'.records :: r in s.records || r == rec;
    }
  }

  lemma StepKeepsRecords(s: State, st: Step)
    requires Inv(s) && Enabled(s, st)
    ensures RecordsInv(Apply(s, st))
  {
    if st.Finish? { FinishKeepsRecords(s, st.saved); }
  }

  lemma BeginKeeps(s: State, plan: seq<Ticket>, cleared: bool)
    requires Enabled(s, Begin(plan, cleared))
    ensures RoundInv(Apply(s, Begin(plan, cleared)))
  {
  }

  lemma EnqueueKeeps(s: State, ok: bool)
    requires RoundInv(s) && Enabled(s, Enqueue(ok))
    ensures RoundInv(Apply(s, Enqueue(ok)))
  {
    var s' := Apply(s, Enqueue(ok));
    var t := s.phase.todo[0];
    assert Held(s') == Held(s) + multiset{t};
    assert multiset(s'.sent) == multiset(s.sent) + multiset{t};
  }

  /** The five places a ticket can be. */
  function Places(tasks: multiset<Ticket>, inFlight: multiset<Ticket>, results: multiset<Ticket>,
                  collected: multiset<Ticket>, lost: multiset<Ticket>): multiset<Ticket> {
    tasks + inFlight + results + collected + lost
  }

  lemma HeldInPlaces(s: State)
    ensures Held(s) == Places(multiset(s.tasks), s.inFlight, RawTickets(s.results), multiset(Tickets(s.collected)), s.lost)
  {
  }

  lemma PlacesMove(a: multiset<Ticket>, b: multiset<Ticket>, c: multiset<Ticket>, d: multiset<Ticket>, e: multiset<Ticket>,
                   x: multiset<Ticket>)
    ensures Places(a + x, b, c, d, e) == Places(a, b + x, c, d, e) == Places(a, b, c + x, d, e)
    ensures Places(a, b, c + x, d, e) == Places(a, b, c, d + x, e) == Places(a, b, c, d, e + x)
  {
  }

  lemma Remains(b: multiset<Ticket>, t: Ticket)
    requires t in b
    ensures b == (b - multiset{t}) + multiset{t}
  {
  }

  lemma PopKeepsHeld(s: State)
    requires Enabled(s, Pop)
    ensures Held(Apply(s, Pop)) == Held(s)
  {
    HeldInPlaces(s);
    HeldInPlaces(Apply(s, Pop));
    HeadTask(s.tasks);
    PlusComm(multiset{s.tasks[0]}, multiset(s.tasks[1..]));
    PlacesMove(multiset(s.tasks[1..]), s.inFlight, RawTickets(s.results), multiset(Tickets(s.collected)), s.lost,
               multiset{s.tasks[0]});
  }

  lemma LoseKeepsHeld(s: State, t: Ticket)
    requires Enabled(s, Lose(t))
    ensures Held(Apply(s, Lose(t))) == Held(s)
  {
    HeldInPlaces(s);
    HeldInPlaces(Apply(s, Lose(t)));
    Remains(s.inFlight, t);
    PlacesMove(multiset(s.tasks), s.inFlight - multiset{t}, RawTickets(s.results), multiset(Tickets(s.collected)), s.lost,
               multiset{t});
  }

  lemma PushKeepsHeld(s: State, r: Result)
    requires Enabled(s, Push(r))
    ensures Held(Apply(s, Push(r))) == Held(s)
  {
    HeldInPlaces(s);
    HeldInPlaces(Apply(s, Push(r)));
    PushRaw(s.results, Good(r));
    Remains(s.inFlight, r.ticket);
    PlacesMove(multiset(s.tasks), s.inFlight - multiset{r.ticket}, RawTickets(s.results), multiset(Tickets(s.collected)),
               s.lost, multiset{r.ticket});
  }

  lemma NoiseKeepsHeld(s: State)
    ensures Held(Apply(s, Noise)) == Held(s)
  {
    HeldInPlaces(s);
    HeldInPlaces(Apply(s, Noise));
    PushRaw(s.results, Garbled);
  }

  lemma TakeLostKeepsHeld(s: State)
    requires Enabled(s, TakeLost)
    ensures Held(Apply(s, TakeLost)) == Held(s)
  {
    HeldInPlaces(s);
    HeldInPlaces(Apply(s, TakeLost));
    HeadRaw(s.results);
    PlacesMove(multiset(s.tasks), s.inFlight, RawTickets(s.results[1..]), multiset(Tickets(s.collected)), s.lost,
               RawTicket(s.results[0]));
  }

  /** What a runner, the network or a garbled entry does moves tickets about
      and creates none. */
  lemma OutsideStepKeepsHeld(s: State, st: Step)
    requires Enabled(s, st)
    requires st.Pop? || st.Lose? || st.Push? || st.Noise? || st.TakeLost?
    ensures Held(Apply(s, st)) == Held(s)
  {
    match st
    case Pop => PopKeepsHeld(s);
    case Lose(t) => LoseKeepsHeld(s, t);
    case Push(r) => PushKeepsHeld(s, r);
    case Noise => NoiseKeepsHeld(s);
    case TakeLost => TakeLostKeepsHeld(s);
  }

  lemma StepKeepsRound(s: State, st: Step)
    requires Inv(s) && Enabled(s, st) && InRound(Apply(s, st))
    ensures RoundInv(Apply(s, st))
  {
    match st
    case Begin(plan, cleared) => BeginKeeps(s, plan, cleared);
    case Enqueue(ok) => EnqueueKeeps(s, ok);
    case Take => TakeKeeps(s);
    case Ready =>
    case _ => OutsideStepKeepsHeld(s, st);
  }

  function Collected(s: State): State
    requires s.results != [] && s.results[0].Good?
  {
    s.(results := s.results[1..], collected := s.collected + [s.results[0].result])
  }

  /** A result of the round goes from the list to the collection. */
  lemma CollectKeepsHeld(s: State)
    requires s.results != [] && s.results[0].Good?
    ensures Held(Collected(s)) == Held(s)
  {
    var x := multiset{s.results[0].result.ticket};
    var tail, done := RawTickets(s.results[1..]), multiset(Tickets(s.collected));
    HeldInPlaces(s);
    HeldInPlaces(Collected(s));
    HeadRaw(s.results);
    TicketsAppend(s.collected, s.results[0].result);
    assert multiset(Tickets(Collected(s).collected)) == done + x;
    PlacesMove(multiset(s.tasks), s.inFlight, tail, done, s.lost, x);
  }

  lemma TakeKeepsHeld(s: State)
    requires Enabled(s, Take) && s.results[0].Good? && s.results[0].result.ticket.round == s.round
    ensures Apply(s, Take) == Collected(s) && Held(Apply(s, Take)) == Held(s)
  {
    CollectKeepsHeld(s);
  }

  /** Anything else that is taken is not of the round. */
  lemma TakeDropsOthers(s: State, t: Ticket)
    requires Enabled(s, Take) && t.round == s.round
    requires s.results[0].Garbled? || s.results[0].result.ticket.round != s.round
    ensures Held(Apply(s, Take))[t] == Held(s)[t]
  {
    assert RawTickets(s.results) == RawTicket(s.results[0]) + RawTickets(s.results[1..]);
    assert RawTicket(s.results[0])[t] == 0;
  }

  lemma TakeKeeps(s: State)
    requires RoundInv(s) && Enabled(s, Take)
    ensures RoundInv(Apply(s, Take))
  {
    if s.results[0].Garbled? || s.results[0].result.ticket.round != s.round {
      forall t: Ticket | t.round == s.round ensures Held(Apply(s, Take))[t] == Held(s)[t] { TakeDropsOthers(s, t); }
    } else {
      TakeKeepsHeld(s);
      TicketsAppend(s.collected, s.results[0].result);
    }
  }

  lemma StepKeepsInv(s: State, st: Step)
    requires Inv(s) && Enabled(s, st)
    ensures Inv(Apply(s, st))
  {
    StepKeepsRecords(s, st);
    if InRound(Apply(s, st)) { StepKeepsRound(s, st); }
  }

  /** Conservation and isolation over every run, restarts and all: nothing of
      the current round appears or disappears, a recorded round is whole, and
      its number is below the current one, so the next insert never collides. */
  lemma {:induction false} RunKeepsInv(s: State, steps: seq<Step>)
    requires Inv(s) && Valid(s, steps)
    ensures Inv(Exec(s, steps))
    ensures !Recorded(Exec(s, steps).records, Exec(s, steps).round)
    decreases steps
  {
    if steps != [] {
      StepKeepsInv(s, steps[0]);
      RunKeepsInv(Apply(s, steps[0]), steps[1..]);
    }
  }
}
