/** Configuration, protocol and ledger together: what runs of the protocol do to
    a service's uptime. */
module JointRuns {
  import opened Utf8
  import opened Wire
  import opened Ledger
  import opened PlannedRuns
  import P = Protocol
  import S = ProtocolSafety
  import C = Config
  import E = Enqueue

  /** A service is checked in a round: some team and check of these names are an
      eligible pair. */
  ghost predicate PairEligible(u: Setup, t: nat, s: Str)
    requires Sane(u)
  {
    exists i, j | 0 <= i < |u.teams| && 0 <= j < |ChecksOf(u)| ::
      u.teams[i].id == t && ChecksOf(u)[j].name == s && E.Eligible(u.teams[i], ChecksOf(u)[j], u.world)
  }

  /** The rounds among those recorded in which a service was to be checked. */
  ghost function EligibleRounds(rs: seq<P.Record>, site: nat -> Setup, t: nat, s: Str): nat {
    if rs == [] then 0
    else
      var r := rs[|rs| - 1];
      EligibleRounds(rs[..|rs| - 1], site, t, s) +
      (if Sane(site(r.round)) && PairEligible(site(r.round), t, s) then 1 else 0)
  }

  /** stored(n, i): an SLA insert for round n's i-th result would work. */
  function EntriesOf(r: P.Record, stored: (nat, nat) -> bool): seq<Entry> {
    seq(|r.results|, i requires 0 <= i < |r.results| => Entry(r.results[i], stored(r.round, i)))
  }

  /** The rounds the protocol records, taken into the books one by one. */
  function Account(w: World, rs: seq<P.Record>, stored: (nat, nat) -> bool, c: Settings): World {
    if rs == [] then w
    else
      var r := rs[|rs| - 1];
      RecordRound(Account(w, rs[..|rs| - 1], stored, c), r.round, EntriesOf(r, stored), true, c)
  }

  // ------------------------------------------------------ one record, counted

  /** The results of one service. */
  function Checks(results: seq<Result>, t: nat, s: Str): nat {
    if results == [] then 0
    else
      var x := results[|results| - 1].ticket;
      Checks(results[..|results| - 1], t, s) + (if x.team == t && x.service == s then 1 else 0)
  }

  lemma {:induction false} HistoryGrows(xs: seq<Sample>, es: seq<Entry>, results: seq<Result>, t: nat, s: Str)
    requires |es| == |results| && forall i | 0 <= i < |es| :: es[i].result == results[i]
    ensures |History(xs + RawSamples(es), t, s)| == |History(xs, t, s)| + Checks(results, t, s)
  {
    if es == [] {
      assert xs + RawSamples(es) == xs;
    } else {
      var n := |es| - 1;
      HistoryGrows(xs, es[..n], results[..n], t, s);
      SamplesLast(xs, es);
      HistoryStep(xs + RawSamples(es[..n]), RawSample(es[n]), t, s);
    }
  }

  predicate OneEach(results: seq<Result>) {
    forall k, m | 0 <= k < m < |results| ::
      (results[k].ticket.team, results[k].ticket.service) != (results[m].ticket.team, results[m].ticket.service)
  }

  lemma {:induction false} ChecksOnce(results: seq<Result>, t: nat, s: Str)
    requires OneEach(results)
    ensures Checks(results, t, s) ==
            if exists k | 0 <= k < |results| :: results[k].ticket.team == t && results[k].ticket.service == s then 1 else 0
  {
    if results != [] {
      var front, x := results[..|results| - 1], results[|results| - 1].ticket;
      ChecksOnce(front, t, s);
      if k :| 0 <= k < |front| && front[k].ticket.team == t && front[k].ticket.service == s {
        assert results[k] == front[k];
        assert (results[k].ticket.team, results[k].ticket.service) != (x.team, x.service);
      }
    }
  }

  /** A ticket sent is of an eligible pair. */
  lemma SentIsEligible(plan: seq<Ticket>, u: Setup, round: nat, x: Ticket)
    requires IsPlanOf(plan, u, round) && x in plan
    ensures PairEligible(u, x.team, x.service)
  {
    var checks := ChecksOf(u);
    var tasks: seq<Task> :| E.IsPlan(tasks, u.teams, checks, u.world, round, u.deadline) && plan == E.TaskTickets(tasks);
    var places: seq<(nat, nat)> :| E.PlanUpTo(tasks, places, u.teams, checks, u.world, round, u.deadline, (|u.teams|, 0));
    var p :| 0 <= p < |plan| && plan[p] == x;
    var i, j := places[p].0, places[p].1;
    assert (i, j) == places[p] && (i, j) in places;
    assert x == tasks[p].ticket && tasks[p] == E.TaskFor(u.teams[i], checks[j], u.world, round, u.deadline);
  }

  ghost predicate PairsDiffer(plan: seq<Ticket>) {
    forall p, q | 0 <= p < q < |plan| :: (plan[p].team, plan[p].service) != (plan[q].team, plan[q].service)
  }

  lemma PlanPairsDiffer(plan: seq<Ticket>, u: Setup, round: nat)
    requires IsPlanOf(plan, u, round)
    ensures PairsDiffer(plan)
  {
    var checks := ChecksOf(u);
    var tasks: seq<Task> :| E.IsPlan(tasks, u.teams, checks, u.world, round, u.deadline) && plan == E.TaskTickets(tasks);
    C.LoadedNamesAreDistinct(u.boxes, u.lists);
    E.PlanTicketsAreDistinct(tasks, u.teams, checks, u.world, round, u.deadline);
    assert forall p | 0 <= p < |plan| :: plan[p] == tasks[p].ticket;
  }

  lemma SentOnceEach(plan: seq<Ticket>, x: Ticket, y: Ticket)
    requires PairsDiffer(plan) && x in plan && y in plan && x.team == y.team && x.service == y.service
    ensures x == y
  {
    var p :| 0 <= p < |plan| && plan[p] == x;
    var q :| 0 <= q < |plan| && plan[q] == y;
    assert p == q;
  }

  lemma ResultsAreOneEach(r: P.Record, site: nat -> Setup)
    requires RecordPlanned(r, site) && OneResultEach(r, site(r.round))
    ensures OneEach(r.results)
  {
    PlanPairsDiffer(r.sent, site(r.round), r.round);
    forall k, m | 0 <= k < m < |r.results|
      ensures (r.results[k].ticket.team, r.results[k].ticket.service) != (r.results[m].ticket.team, r.results[m].ticket.service)
    {
      var x, y := r.results[k].ticket, r.results[m].ticket;
      if x.team == y.team && x.service == y.service { SentOnceEach(r.sent, x, y); }
    }
  }

  lemma PairHasResult(r: P.Record, u: Setup, t: nat, s: Str)
    requires OneResultEach(r, u) && PairEligible(u, t, s)
    ensures exists k | 0 <= k < |r.results| :: r.results[k].ticket.team == t && r.results[k].ticket.service == s
  {
    var i, j :| 0 <= i < |u.teams| && 0 <= j < |ChecksOf(u)| && u.teams[i].id == t && ChecksOf(u)[j].name == s &&
                E.Eligible(u.teams[i], ChecksOf(u)[j], u.world);
    var key := E.Key(r.round, u.teams[i], ChecksOf(u)[j]);
    assert key in Tickets(r.results);
    var k :| 0 <= k < |r.results| && Tickets(r.results)[k] == key;
  }

  /** A recorded round checks a service once if its pair was eligible, and else
      not at all. */
  lemma RecordChecks(r: P.Record, site: nat -> Setup, t: nat, s: Str)
    requires RecordPlanned(r, site) && OneResultEach(r, site(r.round))
    ensures Checks(r.results, t, s) == if PairEligible(site(r.round), t, s) then 1 else 0
  {
    ResultsAreOneEach(r, site);
    ChecksOnce(r.results, t, s);
    if PairEligible(site(r.round), t, s) {
      PairHasResult(r, site(r.round), t, s);
    } else if k :| 0 <= k < |r.results| && r.results[k].ticket.team == t && r.results[k].ticket.service == s {
      SentIsEligible(r.sent, site(r.round), r.round, r.results[k].ticket);
    }
  }

  // ---------------------------------------------------------- many, in order

  ghost predicate Recordable(rs: seq<P.Record>, site: nat -> Setup) {
    && (forall i | 0 <= i < |rs| :: rs[i].results != [] && RecordPlanned(rs[i], site) && OneResultEach(rs[i], site(rs[i].round)))
    && (forall i, j | 0 <= i < j < |rs| :: rs[i].round != rs[j].round)
  }

  /** What the books tell of a service: memory is the summary of some history,
      and this many checks of the service are in it. */
  ghost predicate Tells(w: World, c: Settings, t: nat, s: Str, checks: nat) {
    exists xs :: Summarizes(w, xs, c) && |History(xs, t, s)| == checks
  }

  function UptimeTotal(w: World, t: nat, s: Str): nat { Get(w.uptime, t, s, Uptime(0, 0)).total }

  lemma TellsUptime(w: World, c: Settings, t: nat, s: Str, checks: nat)
    requires Tells(w, c, t, s, checks)
    ensures UptimeTotal(w, t, s) == checks
  {
    var xs :| Summarizes(w, xs, c) && |History(xs, t, s)| == checks;
    GetFromTable(xs, UptimeOf, t, s, Uptime(0, 0));
  }

  lemma TellsMore(w: World, r: P.Record, stored: (nat, nat) -> bool, c: Settings, t: nat, s: Str, checks: nat)
    requires Tells(w, c, t, s, checks) && r.results != [] && r.round !in w.rounds
    ensures var w' := RecordRound(w, r.round, EntriesOf(r, stored), true, c);
            Tells(w', c, t, s, checks + Checks(r.results, t, s)) && w'.rounds == w.rounds + [r.round]
  {
    var es := EntriesOf(r, stored);
    var xs :| Summarizes(w, xs, c) && |History(xs, t, s)| == checks;
    ObserveAllSteps(Insert(w, r.round, es), xs, r.round, es, c);
    HistoryGrows(xs, es, r.results, t, s);
  }

  lemma PartRecordable(rs: seq<P.Record>, site: nat -> Setup)
    requires rs != [] && Recordable(rs, site)
    ensures Recordable(rs[..|rs| - 1], site)
  {
  }

  ghost predicate NotIn(rs: seq<P.Record>, rounds: seq<nat>) { forall i | 0 <= i < |rs| :: rs[i].round !in rounds }

  lemma NotYet(rounds: seq<nat>, rs: seq<P.Record>, site: nat -> Setup)
    requires rs != [] && Recordable(rs, site) && NotIn(rs, rounds)
    ensures rs[|rs| - 1].round !in rounds + P.RoundNumbers(rs[..|rs| - 1])
  {
    var n := |rs| - 1;
    var numbers := P.RoundNumbers(rs[..n]);
    forall k | 0 <= k < |numbers| ensures numbers[k] != rs[n].round {
      assert numbers[k] == rs[k].round;
    }
  }

  lemma NumbersAppend(a: seq<P.Record>, b: seq<P.Record>)
    ensures P.RoundNumbers(a + b) == P.RoundNumbers(a) + P.RoundNumbers(b)
  {
  }

  lemma NumbersLast(rounds: seq<nat>, rs: seq<P.Record>)
    requires rs != []
    ensures (rounds + P.RoundNumbers(rs[..|rs| - 1])) + [rs[|rs| - 1].round] == rounds + P.RoundNumbers(rs)
  {
  }

  lemma AccountStep(w: World, rs: seq<P.Record>, site: nat -> Setup, stored: (nat, nat) -> bool, c: Settings,
                    t: nat, s: Str, checks: nat)
    requires rs != [] && Recordable(rs, site) && NotIn(rs, w.rounds)
    requires var w1 := Account(w, rs[..|rs| - 1], stored, c);
             Tells(w1, c, t, s, checks) && w1.rounds == w.rounds + P.RoundNumbers(rs[..|rs| - 1])
    ensures var w2 := Account(w, rs, stored, c);
            && Tells(w2, c, t, s, checks + Checks(rs[|rs| - 1].results, t, s))
            && w2.rounds == w.rounds + P.RoundNumbers(rs)
  {
    NotYet(w.rounds, rs, site);
    TellsMore(Account(w, rs[..|rs| - 1], stored, c), rs[|rs| - 1], stored, c, t, s, checks);
    NumbersLast(w.rounds, rs);
  }

  lemma {:induction false} AccountTells(w: World, rs: seq<P.Record>, site: nat -> Setup, stored: (nat, nat) -> bool, c: Settings,
                                        t: nat, s: Str, checks: nat)
    requires Tells(w, c, t, s, checks) && Recordable(rs, site) && NotIn(rs, w.rounds)
    ensures Tells(Account(w, rs, stored, c), c, t, s, checks + EligibleRounds(rs, site, t, s))
    ensures Account(w, rs, stored, c).rounds == w.rounds + P.RoundNumbers(rs)
  {
    if rs == [] {
      assert w.rounds + P.RoundNumbers(rs) == w.rounds;
    } else {
      var front, r := rs[..|rs| - 1], rs[|rs| - 1];
      PartRecordable(rs, site);
      AccountTells(w, front, site, stored, c, t, s, checks);
      AccountStep(w, rs, site, stored, c, t, s, checks + EligibleRounds(front, site, t, s));
      RecordChecks(r, site, t, s);
    }
  }

  lemma AccountUptime(w: World, xs: seq<Sample>, rs: seq<P.Record>, site: nat -> Setup, stored: (nat, nat) -> bool, c: Settings,
                      t: nat, s: Str)
    requires Summarizes(w, xs, c) && Recordable(rs, site)
    requires NotIn(rs, w.rounds)
    ensures UptimeTotal(Account(w, rs, stored, c), t, s) == UptimeTotal(w, t, s) + EligibleRounds(rs, site, t, s)
    ensures Account(w, rs, stored, c).rounds == w.rounds + P.RoundNumbers(rs)
  {
    var checks := |History(xs, t, s)|;
    assert Tells(w, c, t, s, checks);
    TellsUptime(w, c, t, s, checks);
    AccountTells(w, rs, site, stored, c, t, s, checks);
    TellsUptime(Account(w, rs, stored, c), c, t, s, checks + EligibleRounds(rs, site, t, s));
  }

  // -------------------------------------------------------------- whole runs

  lemma {:induction false} RecordsGrow(s: P.State, steps: seq<P.Step>)
    requires P.Valid(s, steps)
    ensures s.records <= P.Exec(s, steps).records
    decreases steps
  {
    if steps != [] {
      assert s.records <= P.Apply(s, steps[0]).records;
      RecordsGrow(P.Apply(s, steps[0]), steps[1..]);
    }
  }

  lemma AddedAreNew(all: seq<P.Record>, n: nat)
    requires n <= |all| && forall i, j | 0 <= i < j < |all| :: all[i].round < all[j].round
    ensures NotIn(all[n..], P.RoundNumbers(all[..n]))
  {
    forall i | 0 <= i < |all| - n ensures all[n..][i].round !in P.RoundNumbers(all[..n]) {
      forall k | 0 <= k < n ensures P.RoundNumbers(all[..n])[k] != all[n + i].round {
        assert all[k].round < all[n + i].round;
      }
    }
  }

  lemma AddedAreRecordable(all: seq<P.Record>, n: nat, site: nat -> Setup)
    requires n <= |all| && forall i, j | 0 <= i < j < |all| :: all[i].round < all[j].round
    requires forall i | n <= i < |all| :: all[i].results != [] && RecordPlanned(all[i], site) && OneResultEach(all[i], site(all[i].round))
    ensures Recordable(all[n..], site)
  {
    var added := all[n..];
    forall i, j | 0 <= i < j < |added| ensures added[i].round != added[j].round {
      assert all[n + i].round < all[n + j].round;
    }
  }

  /** The records a run adds. */
  lemma NewRecords(s: P.State, steps: seq<P.Step>, site: nat -> Setup) returns (added: seq<P.Record>)
    requires P.Inv(s) && s.phase.Idle? && S.NoLeftover(s)
    requires P.Valid(s, steps) && S.NoRestart(steps) && Planned(s, steps, site)
    ensures P.Exec(s, steps).records == s.records + added
    ensures Recordable(added, site) && NotIn(added, P.RoundNumbers(s.records))
  {
    var all, n := P.Exec(s, steps).records, |s.records|;
    RecordsGrow(s, steps);
    P.RunKeepsInv(s, steps);
    RecordedRoundsAnswerThePlan(s, steps, site);
    forall i | n <= i < |all| ensures all[i].results != [] { assert all[i] in all; }
    added := all[n..];
    AddedAreNew(all, n);
    AddedAreRecordable(all, n, site);
    assert all[..n] == s.records;
  }

  /** Over every run that starts without leftovers and in which each round sends
      what its configuration, teams and database give: when the rounds it
      records are taken into the books, a service's uptime counts one check more
      for each of them in which its pair was eligible, and no other, whatever SLA
      inserts fail. */
  lemma UptimeCountsEligibleRounds(s: P.State, steps: seq<P.Step>, site: nat -> Setup, w: World, xs: seq<Sample>,
                                   stored: (nat, nat) -> bool, c: Settings, t: nat, service: Str)
    returns (added: seq<P.Record>)
    requires P.Inv(s) && s.phase.Idle? && S.NoLeftover(s)
    requires P.Valid(s, steps) && S.NoRestart(steps) && Planned(s, steps, site)
    requires w.rounds == P.RoundNumbers(s.records) && Summarizes(w, xs, c)
    ensures P.Exec(s, steps).records == s.records + added
    ensures var w' := Account(w, added, stored, c);
            && w'.rounds == P.RoundNumbers(s.records + added)
            && UptimeTotal(w', t, service) == UptimeTotal(w, t, service) + EligibleRounds(added, site, t, service)
  {
    added := NewRecords(s, steps, site);
    AccountUptime(w, xs, added, site, stored, c, t, service);
    NumbersAppend(s.records, added);
  }
}
