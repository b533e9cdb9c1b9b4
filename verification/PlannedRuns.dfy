/** Configuration, enqueue loop and protocol together, over whole runs. */
module PlannedRuns {
  import opened Wire
  import opened Config
  import opened Protocol
  import opened ProtocolSafety
  import E = Enqueue

  /** What a round works on: the teams table, a loaded configuration, what the
      clock and the database answer, and the round's deadline. */
  datatype Setup = Setup(teams: seq<E.Team>, boxes: seq<Box>, lists: seq<Credlist>, world: E.World, deadline: int)

  /** Team ids are a key of their table; only a configuration that loads runs. */
  ghost predicate Sane(u: Setup) {
    (forall i, j | 0 <= i < j < |u.teams| :: u.teams[i].id != u.teams[j].id) && Loads(u.boxes, u.lists)
  }

  function ChecksOf(u: Setup): seq<Check>
    requires Loads(u.boxes, u.lists)
  {
    Flat(LoadedBoxes(u.boxes, u.lists))
  }

  /** The tickets of what the enqueue loop sends. */
  ghost predicate IsPlanOf(plan: seq<Ticket>, u: Setup, round: nat) {
    Sane(u) && exists tasks :: E.IsPlan(tasks, u.teams, ChecksOf(u), u.world, round, u.deadline) && plan == E.TaskTickets(tasks)
  }

  /** Every round of the run sends what its enqueue loop would; site tells each
      round's setup. */
  ghost predicate Planned(s: State, steps: seq<Step>, site: nat -> Setup)
    requires Valid(s, steps)
    decreases steps
  {
    steps == [] ||
    ((steps[0].Begin? ==> IsPlanOf(steps[0].plan, site(s.round), s.round)) && Planned(Apply(s, steps[0]), steps[1..], site))
  }

  ghost predicate RecordPlanned(r: Record, site: nat -> Setup) { IsPlanOf(r.sent, site(r.round), r.round) }

  /** What is sent and what is still to be sent make up the round's plan. */
  ghost predicate SentAsPlanned(s: State, site: nat -> Setup, base: nat) {
    && (s.phase.Enqueueing? ==> IsPlanOf(s.sent + s.phase.todo, site(s.round), s.round))
    && (s.phase.Collecting? ==> IsPlanOf(s.sent, site(s.round), s.round))
    && base <= |s.records|
    && (forall i | base <= i < |s.records| :: RecordPlanned(s.records[i], site))
  }

  lemma EnqueueStaysPlanned(s: State, ok: bool, site: nat -> Setup, base: nat)
    requires Enabled(s, Enqueue(ok)) && SentAsPlanned(s, site, base)
    ensures SentAsPlanned(Apply(s, Enqueue(ok)), site, base)
  {
    var s', todo := Apply(s, Enqueue(ok)), s.phase.todo;
    assert s'.sent + s'.phase.todo == s.sent + todo;
  }

  lemma BeginIsPlanned(s: State, plan: seq<Ticket>, cleared: bool, site: nat -> Setup, base: nat)
    requires Enabled(s, Begin(plan, cleared)) && SentAsPlanned(s, site, base) && IsPlanOf(plan, site(s.round), s.round)
    ensures SentAsPlanned(Apply(s, Begin(plan, cleared)), site, base)
  {
    assert [] + plan == plan;
  }

  lemma StepStaysPlanned(s: State, st: Step, site: nat -> Setup, base: nat)
    requires Enabled(s, st) && SentAsPlanned(s, site, base)
    requires st.Begin? ==> IsPlanOf(st.plan, site(s.round), s.round)
    ensures SentAsPlanned(Apply(s, st), site, base)
  {
    match st
    case Begin(plan, cleared) => BeginIsPlanned(s, plan, cleared, site, base);
    case Enqueue(ok) => EnqueueStaysPlanned(s, ok, site, base);
    case Ready => assert s.sent + s.phase.todo == s.sent;
    case _ =>
  }

  lemma {:induction false} RunStaysPlanned(s: State, steps: seq<Step>, site: nat -> Setup, base: nat)
    requires Valid(s, steps) && Planned(s, steps, site) && SentAsPlanned(s, site, base)
    ensures SentAsPlanned(Exec(s, steps), site, base)
    decreases steps
  {
    if steps != [] {
      StepStaysPlanned(s, steps[0], site, base);
      RunStaysPlanned(Apply(s, steps[0]), steps[1..], site, base);
    }
  }

  /** The record's results are those of the eligible pairs, one each. */
  ghost predicate OneResultEach(r: Record, u: Setup) {
    && Sane(u)
    && (forall i, j | 0 <= i < |u.teams| && 0 <= j < |ChecksOf(u)| ::
          E.Key(r.round, u.teams[i], ChecksOf(u)[j]) in Tickets(r.results) <==> E.Eligible(u.teams[i], ChecksOf(u)[j], u.world))
    && (forall k, m | 0 <= k < m < |r.results| :: r.results[k].ticket != r.results[m].ticket)
    && (forall k | 0 <= k < |r.results| :: r.results[k].ticket in r.sent)
  }

  lemma PlannedAndExact(r: Record, site: nat -> Setup)
    requires RecordPlanned(r, site) && Exact(r)
    ensures OneResultEach(r, site(r.round))
  {
    var u := site(r.round);
    var tasks :| E.IsPlan(tasks, u.teams, ChecksOf(u), u.world, r.round, u.deadline) && r.sent == E.TaskTickets(tasks);
    LoadedNamesAreDistinct(u.boxes, u.lists);
    E.OneResultPerEligibleCheck(r, tasks, u.teams, ChecksOf(u), u.world, u.deadline);
    E.PlanTicketsAreDistinct(tasks, u.teams, ChecksOf(u), u.world, r.round, u.deadline);
    ExactMeansOneEach(r);
  }

  /** Over every run that starts without leftovers and in which each round sends
      what its configuration, teams and database give, a round that is recorded
      has sent its whole plan, and holds a result for a team and a check exactly
      when the pair was eligible, one for each and none for anything else. */
  lemma RecordedRoundsAnswerThePlan(s: State, steps: seq<Step>, site: nat -> Setup)
    requires Inv(s) && s.phase.Idle? && NoLeftover(s)
    requires Valid(s, steps) && NoRestart(steps) && Planned(s, steps, site)
    ensures var s' := Exec(s, steps);
            && |s.records| <= |s'.records|
            && forall i | |s.records| <= i < |s'.records| ::
                 RecordPlanned(s'.records[i], site) && OneResultEach(s'.records[i], site(s'.records[i].round))
  {
    RecordedRoundsAreExact(s, steps);
    RunStaysPlanned(s, steps, site, |s.records|);
    var s' := Exec(s, steps);
    forall i | |s.records| <= i < |s'.records| ensures OneResultEach(s'.records[i], site(s'.records[i].round)) {
      PlannedAndExact(s'.records[i], site);
    }
  }
}
