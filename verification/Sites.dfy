/** Runs of an engine whose configuration, teams and database are given. */
module Sites {
  import opened Utf8
  import opened Wire
  import opened Config
  import opened Protocol
  import opened ProtocolSafety
  import opened ProtocolLeftovers
  import opened PlannedRuns
  import L = PlannedLeftovers
  import E = Enqueue

  // ------------------------------------------------ the plan of a round exists

  lemma TasksExist(teams: seq<E.Team>, checks: seq<Check>, w: E.World, round: nat, deadline: int) returns (tasks: seq<Task>)
    ensures E.IsPlan(tasks, teams, checks, w, round, deadline)
  {
    tasks := [];
    var places: seq<(nat, nat)> := [];
    for i := 0 to |teams|
      invariant E.PlanUpTo(tasks, places, teams, checks, w, round, deadline, (i, 0))
    {
      for j := 0 to |checks|
        invariant E.PlanUpTo(tasks, places, teams, checks, w, round, deadline, (i, j))
      {
        if E.Eligible(teams[i], checks[j], w) {
          E.TakePlace(tasks, places, teams, checks, w, round, deadline, i, j);
          tasks, places := tasks + [E.TaskFor(teams[i], checks[j], w, round, deadline)], places + [(i, j)];
        } else {
          E.SkipPlace(tasks, places, teams, checks, w, round, deadline, i, j, i, j + 1);
        }
      }
      E.SkipPlace(tasks, places, teams, checks, w, round, deadline, i, |checks|, i + 1, 0);
    }
  }

  lemma PlanExists(u: Setup, round: nat)
    requires Sane(u)
    ensures exists plan :: IsPlanOf(plan, u, round)
  {
    var tasks := TasksExist(u.teams, ChecksOf(u), u.world, round, u.deadline);
    assert IsPlanOf(E.TaskTickets(tasks), u, round);
  }

  lemma OnePlan(a: seq<Ticket>, b: seq<Ticket>, u: Setup, round: nat)
    requires IsPlanOf(a, u, round) && IsPlanOf(b, u, round)
    ensures a == b
  {
    var x :| E.IsPlan(x, u.teams, ChecksOf(u), u.world, round, u.deadline) && a == E.TaskTickets(x);
    var y :| E.IsPlan(y, u.teams, ChecksOf(u), u.world, round, u.deadline) && b == E.TaskTickets(y);
    E.PlanIsTheOnlyOne(x, y, u.teams, ChecksOf(u), u.world, round, u.deadline);
  }

  /** What the enqueue loop sends. */
  ghost function PlanAt(u: Setup, round: nat): (plan: seq<Ticket>)
    requires Sane(u)
    ensures IsPlanOf(plan, u, round)
  {
    PlanExists(u, round);
    var plan :| IsPlanOf(plan, u, round);
    plan
  }

  ghost predicate AllSane(site: nat -> Setup) { forall n: nat :: Sane(site(n)) }

  ghost function PlanOf(site: nat -> Setup): L.Plan
    requires AllSane(site)
  {
    (n: nat) => PlanAt(site(n), n)
  }

  lemma PlanIsDistinct(plan: seq<Ticket>, u: Setup, round: nat)
    requires IsPlanOf(plan, u, round)
    ensures OfRound(plan, round) && Distinct(plan)
  {
    var tasks :| E.IsPlan(tasks, u.teams, ChecksOf(u), u.world, round, u.deadline) && plan == E.TaskTickets(tasks);
    LoadedNamesAreDistinct(u.boxes, u.lists);
    E.PlanTicketsAreDistinct(tasks, u.teams, ChecksOf(u), u.world, round, u.deadline);
  }

  lemma SitesArePlanned(site: nat -> Setup)
    requires AllSane(site)
    ensures L.WellPlanned(PlanOf(site))
  {
    forall n: nat ensures OfRound(PlanOf(site)(n), n) && Distinct(PlanOf(site)(n)) {
      PlanIsDistinct(PlanAt(site(n), n), site(n), n);
    }
  }

  lemma {:induction false} PlannedIsFollowing(s: State, steps: seq<Step>, site: nat -> Setup)
    requires AllSane(site) && Valid(s, steps)
    ensures Planned(s, steps, site) <==> L.Follows(s, steps, PlanOf(site))
    decreases steps
  {
    if steps != [] {
      PlannedIsFollowing(Apply(s, steps[0]), steps[1..], site);
      if steps[0].Begin? && IsPlanOf(steps[0].plan, site(s.round), s.round) {
        OnePlan(steps[0].plan, PlanAt(site(s.round), s.round), site(s.round), s.round);
      }
    }
  }

  // ------------------------------------------------------------- when to trust

  /** Every run of the site records only exact rounds. */
  ghost predicate SiteTrusted(s: State, site: nat -> Setup, restarts: bool) {
    forall steps | Valid(s, steps) && Planned(s, steps, site) && (restarts || NoRestart(steps)) ::
      OnlyExactSince(|s.records|, Exec(s, steps))
  }

  lemma SiteTrustedIsTrusted(s: State, site: nat -> Setup, restarts: bool)
    requires AllSane(site)
    ensures SiteTrusted(s, site, restarts) <==> L.Trusted(s, PlanOf(site), restarts)
  {
    var plan := PlanOf(site);
    if SiteTrusted(s, site, restarts) {
      forall end | L.Reaches(s, end, plan, restarts) ensures OnlyExactSince(|s.records|, end) {
        var steps :| L.Run(s, steps, plan, restarts) && Exec(s, steps) == end;
        PlannedIsFollowing(s, steps, site);
      }
    }
    if L.Trusted(s, plan, restarts) {
      forall steps | Valid(s, steps) && Planned(s, steps, site) && (restarts || NoRestart(steps))
        ensures OnlyExactSince(|s.records|, Exec(s, steps))
      {
        PlannedIsFollowing(s, steps, site);
        assert L.Run(s, steps, plan, restarts);
        assert L.Reaches(s, Exec(s, steps), plan, restarts);
      }
    }
  }

  /** Given what every round works on, an engine can be trusted from its first
      round on exactly when each leftover of this or a later round is of a round
      that sends nothing, or sends just that task. */
  lemma TrustedIffHarmless(s: State, site: nat -> Setup)
    requires Inv(s) && s.phase.Idle? && AllSane(site)
    ensures SiteTrusted(s, site, false) <==>
            forall t | t in Stock(s) && t.round >= s.round ::
              PlanAt(site(t.round), t.round) == [] || PlanAt(site(t.round), t.round) == [t]
  {
    SitesArePlanned(site);
    SiteTrustedIsTrusted(s, site, false);
    L.TrustedIffHarmless(s, PlanOf(site));
    forall t | t in Stock(s)
      ensures L.Harmless(t, PlanOf(site)) <==>
              PlanAt(site(t.round), t.round) == [] || PlanAt(site(t.round), t.round) == [t]
    {
      assert PlanOf(site)(t.round) == PlanAt(site(t.round), t.round);
    }
  }

  /** Restarts at any moment are safe for a started engine exactly when no round
      from its first on sends two tasks. */
  lemma RestartsSafeIffOneTask(s: State, site: nat -> Setup)
    requires Inv(s) && s.phase.Idle? && NoLeftover(s) && s.round == LastRound(s.records) + 1 && AllSane(site)
    ensures SiteTrusted(s, site, true) <==> forall n: nat | n >= s.round :: |PlanAt(site(n), n)| <= 1
  {
    SitesArePlanned(site);
    SiteTrustedIsTrusted(s, site, true);
    L.RestartsSafeIffSmallPlans(s, PlanOf(site));
    forall n: nat ensures PlanOf(site)(n) == PlanAt(site(n), n) { }
  }

  // ------------------------------------------------------------ a run that fails

  /** One team and two checks, always due and with no credentials to load. */
  function TwoChecks(): Setup {
    Setup([E.Team(1, "1", true)], TwinBoxes(), [], E.World((_, _) => 0, map[], {}, map[], {}), 10)
  }

  lemma EligibleIsPlanned(plan: seq<Ticket>, u: Setup, round: nat, i: nat, j: nat)
    requires IsPlanOf(plan, u, round) && i < |u.teams| && j < |ChecksOf(u)| && E.Eligible(u.teams[i], ChecksOf(u)[j], u.world)
    ensures E.Key(round, u.teams[i], ChecksOf(u)[j]) in plan
  {
    var checks := ChecksOf(u);
    var tasks: seq<Task> :| E.IsPlan(tasks, u.teams, checks, u.world, round, u.deadline) && plan == E.TaskTickets(tasks);
    var places: seq<(nat, nat)> :| E.PlanUpTo(tasks, places, u.teams, checks, u.world, round, u.deadline, (|u.teams|, 0));
    E.PlacedIffEligible(tasks, places, u.teams, checks, u.world, round, u.deadline, i, j);
    var p :| 0 <= p < |places| && places[p] == (i, j);
    assert tasks[p] == E.TaskFor(u.teams[i], checks[j], u.world, round, u.deadline);
    assert plan[p] == E.Key(round, u.teams[i], checks[j]);
  }

  /** Two eligible checks of a site's first team give its plan two tickets. */
  lemma TwoEligible(u: Setup, round: nat)
    requires Sane(u) && |u.teams| > 0 && |ChecksOf(u)| > 1
    requires E.Eligible(u.teams[0], ChecksOf(u)[0], u.world) && E.Eligible(u.teams[0], ChecksOf(u)[1], u.world)
    ensures |PlanAt(u, round)| > 1
  {
    var checks := ChecksOf(u);
    EligibleIsPlanned(PlanAt(u, round), u, round, 0, 0);
    EligibleIsPlanned(PlanAt(u, round), u, round, 0, 1);
    LoadedNamesAreDistinct(u.boxes, u.lists);
    assert CheckNames(checks)[0] != CheckNames(checks)[1];
    TwoMembers(PlanAt(u, round), E.Key(round, u.teams[0], checks[0]), E.Key(round, u.teams[0], checks[1]));
  }

  lemma TwoMembers(plan: seq<Ticket>, a: Ticket, b: Ticket)
    requires a in plan && b in plan && a.service != b.service
    ensures |plan| > 1
  {
  }

  lemma TwoTasks(round: nat)
    ensures Sane(TwoChecks()) && |PlanAt(TwoChecks(), round)| > 1
  {
    TwinChecks();
    TwoEligible(TwoChecks(), round);
  }

  lemma TwinChecks()
    ensures Sane(TwoChecks())
    ensures var checks := ChecksOf(TwoChecks());
            && |checks| == 2
            && forall j | 0 <= j < 2 :: E.Eligible(TwoChecks().teams[0], checks[j], TwoChecks().world)
  {
    TwinBoxesLoad();
    var out := LoadedBoxes(TwinBoxes(), []);
    assert out[..1][..0] == [] && out[..2] == out && out[..2][..1] == out[..1];
    assert |out[0].checks| == 1 && |out[1].checks| == 1;
    assert Flat(out[..1]) == out[0].checks;
    assert Flat(out) == out[0].checks + out[1].checks;
  }

  /** A restart after a discarded round, with nothing else changed: the round's
      number is used twice and a late answer of its first use is recorded. */
  lemma RestartAfterDiscardCanBeWrong() returns (s: State, steps: seq<Step>, site: nat -> Setup)
    ensures Inv(s) && s.phase.Idle? && NoLeftover(s) && Valid(s, steps)
    ensures AllSane(site) && (forall m, n :: site(m) == site(n)) && Planned(s, steps, site)
    ensures !OnlyExactSince(|s.records|, Exec(s, steps))
  {
    s := State(Idle, 1, [], [], multiset{}, [], [], multiset{}, multiset{}, []);
    EmptyStock(s);
    site := _ => TwoChecks();
    TwoTasks(1);
    RestartsSafeIffOneTask(s, site);
    assert |PlanAt(site(1), 1)| > 1;
    steps :| Valid(s, steps) && Planned(s, steps, site) && !OnlyExactSince(|s.records|, Exec(s, steps));
  }
}
