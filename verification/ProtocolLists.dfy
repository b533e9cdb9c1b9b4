/** What becomes of the two lists, the runners and the records at each step, and
    what a queue cleared at every start holds over whole runs. */
module ProtocolLists {
  import opened Wire
  import opened Protocol
  import opened ProtocolSafety

  /** The task list is a queue: the engine appends, a runner takes the first, and
      only a start that gets its delete through empties it. */
  lemma TasksAreAQueue(s: State, st: Step)
    requires Enabled(s, st)
    ensures var tasks := Apply(s, st).tasks;
            && (st == Enqueue(true) ==> tasks == s.tasks + [s.phase.todo[0]])
            && (st.Pop? ==> tasks == s.tasks[1..])
            && (st.Begin? && st.cleared ==> tasks == [])
            && (!st.Pop? && !(st.Begin? && st.cleared) && st != Enqueue(true) ==> tasks == s.tasks)
  {
  }

  /** So is the result list: runners append, the engine takes the first, and a
      start leaves it alone. */
  lemma ResultsAreAQueue(s: State, st: Step)
    requires Enabled(s, st)
    ensures var results := Apply(s, st).results;
            && (st.Push? ==> results == s.results + [Good(st.r)])
            && (st.Noise? ==> results == s.results + [Garbled])
            && (st.Take? || st.TakeLost? ==> results == s.results[1..])
            && (!st.Push? && !st.Noise? && !st.Take? && !st.TakeLost? ==> results == s.results)
  {
  }

  /** Runners hold what they popped until they push or lose it, whatever becomes
      of the engine. */
  lemma RunnersKeepTheirs(s: State, st: Step, t: Ticket)
    requires Enabled(s, st)
    ensures var held := Apply(s, st).inFlight;
            && (st.Pop? ==> held[t] == s.inFlight[t] + (if t == s.tasks[0] then 1 else 0))
            && (st.Push? ==> held[t] == s.inFlight[t] - (if t == st.r.ticket then 1 else 0))
            && (st.Lose? ==> held[t] == s.inFlight[t] - (if t == st.t then 1 else 0))
            && (!st.Pop? && !st.Push? && !st.Lose? ==> held == s.inFlight)
  {
  }

  /** Losses are on the books: a push that failed, a ticket a runner lost, a
      result whose reply was lost; a start opens new books. */
  lemma LossesAreCounted(s: State, st: Step, t: Ticket)
    requires Enabled(s, st)
    ensures var lost := Apply(s, st).lost;
            && (st == Enqueue(false) ==> lost[t] == s.lost[t] + (if t == s.phase.todo[0] then 1 else 0))
            && (st.Lose? ==> lost[t] == s.lost[t] + (if t == st.t then 1 else 0))
            && (st.TakeLost? ==> lost[t] == s.lost[t] + (if s.results[0].Good? && s.results[0].result.ticket == t then 1 else 0))
            && (st.Begin? ==> lost[t] == 0)
            && (st != Enqueue(false) && !st.Lose? && !st.TakeLost? && !st.Begin? ==> lost[t] == s.lost[t])
  {
  }

  /** A round's end goes to the next number, a new process to the one after the
      last recorded; nothing else changes it. */
  lemma NumbersGoOn(s: State, st: Step)
    requires Enabled(s, st)
    ensures var s' := Apply(s, st);
            && (st.Finish? || st.Timeout? ==> s'.phase.Idle? && s'.round == s.round + 1)
            && (st.Restart? ==> s'.phase.Idle? && s'.records == s.records && s'.round == LastRound(s.records) + 1)
            && (st.Halt? ==> s'.phase.Halted?)
            && (!st.Finish? && !st.Timeout? && !st.Restart? ==> s'.round == s.round)
  {
  }

  /** A record is made by a finish whose insert works, of a round that sent
      something and is not recorded, with all that it sent and collected. */
  lemma RecordedWhen(s: State, st: Step)
    requires Enabled(s, st)
    ensures var made := st == Finish(true) && s.sent != [] && forall r | r in s.records :: r.round != s.round;
            Apply(s, st).records == s.records + if made then [Record(s.round, s.sent, s.collected)] else []
  {
    if !(st == Finish(true) && s.sent != [] && forall r | r in s.records :: r.round != s.round) {
      assert s.records + [] == s.records;
    }
  }

  /** Over every run in which no insert works, nothing is recorded. */
  lemma {:induction false} NothingSavedNothingRecorded(s: State, steps: seq<Step>)
    requires Valid(s, steps) && forall st | st in steps :: st != Finish(true)
    ensures Exec(s, steps).records == s.records
    decreases steps
  {
    if steps != [] {
      assert steps[0] in steps && forall st | st in steps[1..] :: st in steps;
      RecordedWhen(s, steps[0]);
      assert s.records + [] == s.records;
      NothingSavedNothingRecorded(Apply(s, steps[0]), steps[1..]);
    }
  }

  /** What can happen is what a list, a runner or the engine can do: pop what is
      queued, push or lose what is held, take what waits while results are
      missing; garbage and a new process can come at any time. */
  lemma WhatCanHappen(s: State, t: Ticket, r: Result)
    ensures Enabled(s, Noise) && Enabled(s, Restart)
    ensures Enabled(s, Pop) <==> |s.tasks| > 0
    ensures Enabled(s, Lose(t)) <==> s.inFlight[t] > 0
    ensures Enabled(s, Push(r)) <==> s.inFlight[r.ticket] > 0
    ensures Enabled(s, Take) <==> Enabled(s, Timeout) && |s.results| > 0
    ensures Enabled(s, TakeLost) <==> Enabled(s, Take)
    ensures Enabled(s, Timeout) <==> s.phase.Collecting? && |s.collected| < |s.sent|
  {
  }

  /** An engine that has not halted can always go on by itself: begin, send, wait
      out the deadline or finish. */
  lemma EngineIsNeverStuck(s: State) returns (st: Step)
    requires Inv(s) && !s.phase.Halted?
    ensures Enabled(s, st) && (st.Begin? || st.Enqueue? || st.Ready? || st.Timeout? || st.Finish?)
  {
    match s.phase
    case Idle => st := Begin([], true);
    case Enqueueing(todo) => st := if todo == [] then Ready else Enqueue(true);
    case Collecting => st := if |s.collected| < |s.sent| then Timeout else Finish(true);
  }

  // -------------------------------------------------------- a cleared task list

  predicate Clears(steps: seq<Step>) { forall st | st in steps && st.Begin? :: st.cleared }

  /** Only tasks of the round under way are queued, none more often than sent. */
  predicate OnlySent(s: State) { InRound(s) ==> multiset(s.tasks) <= multiset(s.sent) }

  lemma PopStaysSent(s: State)
    requires Enabled(s, Pop) && OnlySent(s)
    ensures OnlySent(Apply(s, Pop))
  {
    HeadTask(s.tasks);
  }

  lemma StepStaysSent(s: State, st: Step)
    requires Enabled(s, st) && OnlySent(s) && (st.Begin? ==> st.cleared)
    ensures OnlySent(Apply(s, st))
  {
    TasksAreAQueue(s, st);
    if st.Pop? { PopStaysSent(s); }
  }

  lemma {:induction false} RunStaysSent(s: State, steps: seq<Step>)
    requires Valid(s, steps) && OnlySent(s) && Clears(steps)
    ensures OnlySent(Exec(s, steps))
    decreases steps
  {
    if steps != [] {
      assert steps[0] in steps;
      StepStaysSent(s, steps[0]);
      RunStaysSent(Apply(s, steps[0]), steps[1..]);
    }
  }

  /** When every start clears the stale tasks, a queue met in a round holds only
      that round's tasks, each at most as often as it was sent: over every run
      from any state between rounds, restarts and losses and all. */
  lemma ClearedQueueIsOfTheRound(s: State, steps: seq<Step>)
    requires Inv(s) && !InRound(s) && Valid(s, steps) && Clears(steps) && InRound(Exec(s, steps))
    ensures var s' := Exec(s, steps);
            multiset(s'.tasks) <= multiset(s'.sent) && OfRound(s'.tasks, s'.round)
  {
    RunStaysSent(s, steps);
    RunKeepsInv(s, steps);
    var s' := Exec(s, steps);
    forall t | t in s'.tasks ensures t.round == s'.round {
      assert t in multiset(s'.tasks);
      assert t in multiset(s'.sent);
    }
  }

  /** Without the clearing it need not: here a task of the round before is still
      queued in the next. */
  lemma UnclearedQueueCanBeStale() returns (s: State, steps: seq<Step>)
    ensures Inv(s) && s.phase.Idle? && Valid(s, steps) && steps == [Begin([], false)]
    ensures !OfRound(Exec(s, steps).tasks, Exec(s, steps).round)
  {
    var t := Ticket(1, 1, [119], "Web");
    s := State(Idle, 2, [], [t], multiset{}, [], [], multiset{}, multiset{}, []);
    steps := [Begin([], false)];
    Single(s, Begin([], false));
    assert t in Apply(s, Begin([], false)).tasks;
  }
}
