/** The engine's enqueue loop: which tasks a round sends, and in what order. */
module Enqueue {
  import opened Utf8
  import opened Wire
  import opened Config
  import P = Protocol
  import S = ProtocolSafety

  datatype Team = Team(id: nat, identifier: string, active: bool)

  /** What the loop asks the clock and the database, for each team and check.
      A service without a row counts as enabled; a failed lookup skips. */
  datatype World = World(
    now: (nat, Str) -> int,
    enabled: map<(nat, Str), bool>,
    lookupFails: set<(nat, Str)>,
    credentials: map<(nat, Str), seq<Credential>>,
    credentialsFail: set<(nat, Str)>)

  predicate Runnable(c: Check, now: int) {
    !c.disabled && c.launch <= now && !(c.stop != 0 && c.stop < now)
  }

  predicate Enabled(w: World, team: nat, service: Str) {
    (team, service) !in w.lookupFails && ((team, service) in w.enabled ==> w.enabled[(team, service)])
  }

  function Loaded(w: World, team: nat, list: Str): seq<Credential> {
    if (team, list) in w.credentials && (team, list) !in w.credentialsFail then w.credentials[(team, list)] else []
  }

  function AllLoaded(w: World, team: nat, lists: seq<Str>): seq<Credential> {
    if lists == [] then []
    else AllLoaded(w, team, lists[..|lists| - 1]) + Loaded(w, team, lists[|lists| - 1])
  }

  /** Who gets a task: an active team, for a check that is due and enabled for
      it, and has a credential if it needs any. */
  predicate Eligible(t: Team, c: Check, w: World) {
    && t.active
    && Runnable(c, w.now(t.id, c.name))
    && Enabled(w, t.id, c.name)
    && (c.credlists != [] ==> exists l | l in c.credlists :: Loaded(w, t.id, l) != [])
  }

  function TaskFor(t: Team, c: Check, w: World, round: nat, deadline: int): Task {
    Task(Ticket(round, t.id, c.name, c.kind), t.identifier, c.attempts, deadline, AllLoaded(w, t.id, c.credlists))
  }

  predicate Precedes(a: (nat, nat), b: (nat, nat)) { a.0 < b.0 || (a.0 == b.0 && a.1 < b.1) }

  /** The tasks are those of the places listed, the places are in nested-loop
      order, and they are all the eligible ones before place `end`. */
  ghost predicate PlanUpTo(tasks: seq<Task>, places: seq<(nat, nat)>, teams: seq<Team>, checks: seq<Check>,
                           w: World, round: nat, deadline: int, end: (nat, nat)) {
    && |tasks| == |places|
    && (forall p | 0 <= p < |places| :: places[p].0 < |teams| && places[p].1 < |checks| &&
          tasks[p] == TaskFor(teams[places[p].0], checks[places[p].1], w, round, deadline))
    && (forall p, q | 0 <= p < q < |places| :: Precedes(places[p], places[q]))
    && (forall i: nat, j: nat | i < |teams| && j < |checks| ::
          (i, j) in places <==> Precedes((i, j), end) && Eligible(teams[i], checks[j], w))
  }

  ghost predicate IsPlan(tasks: seq<Task>, teams: seq<Team>, checks: seq<Check>,
                         w: World, round: nat, deadline: int) {
    exists places :: PlanUpTo(tasks, places, teams, checks, w, round, deadline, (|teams|, 0))
  }

  // --------------------------------------------------------------- the loops

  method Gather(w: World, team: nat, lists: seq<Str>) returns (creds: seq<Credential>)
    ensures creds == AllLoaded(w, team, lists)
  {
    creds := [];
    for k := 0 to |lists|
      invariant creds == AllLoaded(w, team, lists[..k])
    {
      assert lists[..k + 1][..k] == lists[..k];
      if (team, lists[k]) in w.credentials && (team, lists[k]) !in w.credentialsFail {
        creds := creds + w.credentials[(team, lists[k])];
      }
    }
    assert lists[..|lists|] == lists;
  }

  lemma {:induction false} SomeLoaded(w: World, team: nat, lists: seq<Str>)
    ensures AllLoaded(w, team, lists) != [] <==> exists l | l in lists :: Loaded(w, team, l) != []
  {
    if lists != [] {
      SomeLoaded(w, team, lists[..|lists| - 1]);
      assert lists == lists[..|lists| - 1] + [lists[|lists| - 1]];
    }
  }

  /** The credentials of several lists come one list after the other, a list
      that cannot be loaded adding none. */
  lemma {:induction false} LoadedInOrder(w: World, team: nat, a: seq<Str>, b: seq<Str>)
    ensures AllLoaded(w, team, a + b) == AllLoaded(w, team, a) + AllLoaded(w, team, b)
  {
    if b == [] {
      assert a + b == a && AllLoaded(w, team, a) + [] == AllLoaded(w, team, a);
    } else {
      var last := Loaded(w, team, b[|b| - 1]);
      LoadedInOrder(w, team, a, b[..|b| - 1]);
      LoadedInOrderStep(w, team, a, b);
      assert (AllLoaded(w, team, a) + AllLoaded(w, team, b[..|b| - 1])) + last == AllLoaded(w, team, a) + (AllLoaded(w, team, b[..|b| - 1]) + last);
    }
  }

  lemma LoadedInOrderStep(w: World, team: nat, a: seq<Str>, b: seq<Str>)
    requires b != []
    ensures AllLoaded(w, team, a + b) == AllLoaded(w, team, a + b[..|b| - 1]) + Loaded(w, team, b[|b| - 1])
  {
    assert (a + b)[..|a + b| - 1] == a + b[..|b| - 1] && (a + b)[|a + b| - 1] == b[|b| - 1];
  }

  lemma LoadedFromOne(w: World, team: nat, list: Str)
    ensures AllLoaded(w, team, [list]) ==
            if (team, list) in w.credentials && (team, list) !in w.credentialsFail then w.credentials[(team, list)] else []
  {
    assert [list][..0] == [];
  }

  /** Who gets a task, by what is configured and what is answered. */
  lemma EligibleWhen(t: Team, c: Check, w: World)
    ensures Eligible(t, c, w) <==>
            && t.active
            && !c.disabled
            && c.launch <= w.now(t.id, c.name)
            && (c.stop == 0 || w.now(t.id, c.name) <= c.stop)
            && (t.id, c.name) !in w.lookupFails
            && ((t.id, c.name) in w.enabled ==> w.enabled[(t.id, c.name)])
            && (c.credlists != [] ==> exists l | l in c.credlists ::
                  (t.id, l) in w.credentials && (t.id, l) !in w.credentialsFail && w.credentials[(t.id, l)] != [])
  {
    if l :| l in c.credlists && Loaded(w, t.id, l) != [] {
      assert (t.id, l) in w.credentials && (t.id, l) !in w.credentialsFail && w.credentials[(t.id, l)] != [];
    }
    if l :| l in c.credlists && (t.id, l) in w.credentials && (t.id, l) !in w.credentialsFail && w.credentials[(t.id, l)] != [] {
      assert Loaded(w, t.id, l) != [];
    }
  }

  method TryTask(t: Team, c: Check, w: World, round: nat, deadline: int) returns (push: bool, task: Task)
    requires t.active
    ensures push <==>
            && t.active
            && !c.disabled
            && c.launch <= w.now(t.id, c.name)
            && (c.stop == 0 || w.now(t.id, c.name) <= c.stop)
            && (t.id, c.name) !in w.lookupFails
            && ((t.id, c.name) in w.enabled ==> w.enabled[(t.id, c.name)])
            && (c.credlists != [] ==> exists l | l in c.credlists ::
                  (t.id, l) in w.credentials && (t.id, l) !in w.credentialsFail && w.credentials[(t.id, l)] != [])
    ensures push ==>
            && task.ticket == Ticket(round, t.id, c.name, c.kind)
            && task.identifier == t.identifier && task.attempts == c.attempts && task.deadline == deadline
            && task.credentials == AllLoaded(w, t.id, c.credlists)
    ensures push <==> Eligible(t, c, w)
    ensures push ==> task == TaskFor(t, c, w, round, deadline)
  {
    task := Task(Ticket(round, t.id, c.name, c.kind), t.identifier, c.attempts, deadline, []);
    EligibleWhen(t, c, w);
    if !Runnable(c, w.now(t.id, c.name)) {
      return false, task;
    }
    if !Enabled(w, t.id, c.name) {
      return false, task;
    }
    if |c.credlists| > 0 {
      var creds := Gather(w, t.id, c.credlists);
      SomeLoaded(w, t.id, c.credlists);
      task := task.(credentials := creds);
      if |creds| == 0 {
        return false, task;
      }
    }
    push := true;
  }

  lemma SkipPlace(tasks: seq<Task>, places: seq<(nat, nat)>, teams: seq<Team>, checks: seq<Check>,
                  w: World, round: nat, deadline: int, i: nat, j: nat, i': nat, j': nat)
    requires PlanUpTo(tasks, places, teams, checks, w, round, deadline, (i, j))
    requires (i', j') == (i + 1, 0) || (i', j') == (i, j + 1)
    requires forall m: nat | i < |teams| && m < |checks| && !Precedes((i, m), (i, j)) && Precedes((i, m), (i', j')) ::
               !Eligible(teams[i], checks[m], w)
    ensures PlanUpTo(tasks, places, teams, checks, w, round, deadline, (i', j'))
  {
  }

  lemma TakePlace(tasks: seq<Task>, places: seq<(nat, nat)>, teams: seq<Team>, checks: seq<Check>,
                  w: World, round: nat, deadline: int, i: nat, j: nat)
    requires PlanUpTo(tasks, places, teams, checks, w, round, deadline, (i, j))
    requires i < |teams| && j < |checks| && Eligible(teams[i], checks[j], w)
    ensures PlanUpTo(tasks + [TaskFor(teams[i], checks[j], w, round, deadline)], places + [(i, j)],
                     teams, checks, w, round, deadline, (i, j + 1))
  {
    var places' := places + [(i, j)];
    forall p | 0 <= p < |places| ensures Precedes(places[p], (i, j)) {
      assert places[p] in places;
      assert (places[p].0, places[p].1) == places[p];
    }
    forall p, q | 0 <= p < q < |places'| ensures Precedes(places'[p], places'[q]) {
    }
    forall a: nat, b: nat | a < |teams| && b < |checks|
      ensures (a, b) in places' <==> Precedes((a, b), (i, j + 1)) && Eligible(teams[a], checks[b], w)
    {
      assert (a, b) in places' <==> (a, b) in places || (a, b) == (i, j);
    }
  }

  method Enqueue(teams: seq<Team>, checks: seq<Check>, w: World, round: nat, deadline: int)
    returns (tasks: seq<Task>, runners: nat)
    ensures IsPlan(tasks, teams, checks, w, round, deadline)
    ensures runners == |tasks|
  {
    tasks, runners := [], 0;
    ghost var places: seq<(nat, nat)> := [];
    for i := 0 to |teams|
      invariant PlanUpTo(tasks, places, teams, checks, w, round, deadline, (i, 0))
      invariant runners == |tasks|
    {
      if teams[i].active {
        for j := 0 to |checks|
          invariant PlanUpTo(tasks, places, teams, checks, w, round, deadline, (i, j))
          invariant runners == |tasks|
        {
          var push, task := TryTask(teams[i], checks[j], w, round, deadline);
          if push {
            TakePlace(tasks, places, teams, checks, w, round, deadline, i, j);
            tasks := tasks + [task];
            places := places + [(i, j)];
            runners := runners + 1;
          } else {
            SkipPlace(tasks, places, teams, checks, w, round, deadline, i, j, i, j + 1);
          }
        }
        SkipPlace(tasks, places, teams, checks, w, round, deadline, i, |checks|, i + 1, 0);
      } else {
        SkipPlace(tasks, places, teams, checks, w, round, deadline, i, 0, i + 1, 0);
      }
    }
  }

  // ------------------------------------------------------------ what follows

  function TaskTickets(tasks: seq<Task>): seq<Ticket> {
    seq(|tasks|, i requires 0 <= i < |tasks| => tasks[i].ticket)
  }

  /** A plan is determined by its round: no other list of tasks will do. */
  lemma PlanIsTheOnlyOne(a: seq<Task>, b: seq<Task>, teams: seq<Team>, checks: seq<Check>,
                         w: World, round: nat, deadline: int)
    requires IsPlan(a, teams, checks, w, round, deadline) && IsPlan(b, teams, checks, w, round, deadline)
    ensures a == b
  {
    var end := (|teams|, 0);
    var p: seq<(nat, nat)> :| PlanUpTo(a, p, teams, checks, w, round, deadline, end);
    var q: seq<(nat, nat)> :| PlanUpTo(b, q, teams, checks, w, round, deadline, end);
    forall x: (nat, nat) | x in p ensures x in q { assert (x.0, x.1) == x && (x.0, x.1) in p; }
    forall x: (nat, nat) | x in q ensures x in p { assert (x.0, x.1) == x && (x.0, x.1) in q; }
    SameOrder(p, q);
  }

  /** A plan goes through the teams in order, and for each through the checks. */
  lemma PlanIsInOrder(tasks: seq<Task>, teams: seq<Team>, checks: seq<Check>, w: World, round: nat, deadline: int, p: nat, q: nat)
    requires IsPlan(tasks, teams, checks, w, round, deadline) && p < q < |tasks|
    ensures exists i, j, k, m ::
              && 0 <= i < |teams| && 0 <= k < |teams| && 0 <= j < |checks| && 0 <= m < |checks|
              && tasks[p] == TaskFor(teams[i], checks[j], w, round, deadline)
              && tasks[q] == TaskFor(teams[k], checks[m], w, round, deadline)
              && (i < k || (i == k && j < m))
  {
    var places: seq<(nat, nat)> :| PlanUpTo(tasks, places, teams, checks, w, round, deadline, (|teams|, 0));
    var a, b := places[p], places[q];
    assert Precedes(a, b);
    assert tasks[p] == TaskFor(teams[a.0], checks[a.1], w, round, deadline);
    assert tasks[q] == TaskFor(teams[b.0], checks[b.1], w, round, deadline);
  }

  lemma SomeMember<T>(p: seq<T>, q: seq<T>)
    requires forall x :: x in p ==> x in q
    ensures p != [] ==> q != []
  {
    if p != [] { assert p[0] in p; }
  }

  lemma {:induction false} SameOrder(p: seq<(nat, nat)>, q: seq<(nat, nat)>)
    requires forall i, j | 0 <= i < j < |p| :: Precedes(p[i], p[j])
    requires forall i, j | 0 <= i < j < |q| :: Precedes(q[i], q[j])
    requires forall x :: x in p <==> x in q
    ensures p == q
  {
    SomeMember(p, q);
    SomeMember(q, p);
    if p != [] {
      assert p[0] in q && q[0] in p;
      assert p[0] == q[0];
      assert p == [p[0]] + p[1..] && q == [q[0]] + q[1..];
      forall x ensures x in p[1..] <==> x in q[1..] {
        assert x in p[1..] <==> x in p && x != p[0];
        assert x in q[1..] <==> x in q && x != q[0];
      }
      SameOrder(p[1..], q[1..]);
    }
  }

  lemma SamePlace(teams: seq<Team>, checks: seq<Check>, a: (nat, nat), b: (nat, nat))
    requires a.0 < |teams| && b.0 < |teams| && a.1 < |checks| && b.1 < |checks|
    requires forall i, j | 0 <= i < j < |teams| :: teams[i].id != teams[j].id
    requires Distinct(CheckNames(checks))
    requires teams[a.0].id == teams[b.0].id && checks[a.1].name == checks[b.1].name
    ensures a == b
  {
    assert CheckNames(checks)[a.1] == checks[a.1].name && CheckNames(checks)[b.1] == checks[b.1].name;
  }

  lemma TwoTasksDiffer(tasks: seq<Task>, places: seq<(nat, nat)>, teams: seq<Team>, checks: seq<Check>,
                       w: World, round: nat, deadline: int, p: nat, q: nat)
    requires PlanUpTo(tasks, places, teams, checks, w, round, deadline, (|teams|, 0))
    requires forall i, j | 0 <= i < j < |teams| :: teams[i].id != teams[j].id
    requires Distinct(CheckNames(checks))
    requires p < q < |tasks|
    ensures (tasks[p].ticket.team, tasks[p].ticket.service) != (tasks[q].ticket.team, tasks[q].ticket.service)
  {
    assert Precedes(places[p], places[q]);
    if tasks[p].ticket.team == tasks[q].ticket.team && tasks[p].ticket.service == tasks[q].ticket.service {
      SamePlace(teams, checks, places[p], places[q]);
    }
  }

  /** Distinct team ids and distinct check names give a round distinct tasks,
      all of its own number: a plan the protocol can begin with. */
  lemma PlanTicketsAreDistinct(tasks: seq<Task>, teams: seq<Team>, checks: seq<Check>,
                               w: World, round: nat, deadline: int)
    requires IsPlan(tasks, teams, checks, w, round, deadline)
    requires forall i, j | 0 <= i < j < |teams| :: teams[i].id != teams[j].id
    requires Distinct(CheckNames(checks))
    ensures forall p, q | 0 <= p < q < |tasks| ::
              (tasks[p].ticket.team, tasks[p].ticket.service) != (tasks[q].ticket.team, tasks[q].ticket.service)
    ensures Distinct(TaskTickets(tasks)) && P.OfRound(TaskTickets(tasks), round)
  {
    var places: seq<(nat, nat)> :| PlanUpTo(tasks, places, teams, checks, w, round, deadline, (|teams|, 0));
    AllTasksDiffer(tasks, places, teams, checks, w, round, deadline);
    TicketsDiffer(tasks, round);
  }

  lemma TicketsDiffer(tasks: seq<Task>, round: nat)
    requires forall p, q | 0 <= p < q < |tasks| ::
               (tasks[p].ticket.team, tasks[p].ticket.service) != (tasks[q].ticket.team, tasks[q].ticket.service)
    requires forall p | 0 <= p < |tasks| :: tasks[p].ticket.round == round
    ensures Distinct(TaskTickets(tasks)) && P.OfRound(TaskTickets(tasks), round)
  {
    var ts := TaskTickets(tasks);
    forall p, q | 0 <= p < q < |ts| ensures ts[p] != ts[q] {
      assert (tasks[p].ticket.team, tasks[p].ticket.service) != (tasks[q].ticket.team, tasks[q].ticket.service);
    }
  }

  lemma AllTasksDiffer(tasks: seq<Task>, places: seq<(nat, nat)>, teams: seq<Team>, checks: seq<Check>,
                       w: World, round: nat, deadline: int)
    requires PlanUpTo(tasks, places, teams, checks, w, round, deadline, (|teams|, 0))
    requires forall i, j | 0 <= i < j < |teams| :: teams[i].id != teams[j].id
    requires Distinct(CheckNames(checks))
    ensures forall p, q | 0 <= p < q < |tasks| ::
              (tasks[p].ticket.team, tasks[p].ticket.service) != (tasks[q].ticket.team, tasks[q].ticket.service)
    ensures forall p | 0 <= p < |tasks| :: tasks[p].ticket.round == round
  {
    forall p, q | 0 <= p < q < |tasks|
      ensures (tasks[p].ticket.team, tasks[p].ticket.service) != (tasks[q].ticket.team, tasks[q].ticket.service)
    {
      TwoTasksDiffer(tasks, places, teams, checks, w, round, deadline, p, q);
    }
  }

  /** The ticket a team and a check have in a round. */
  function Key(round: nat, t: Team, c: Check): Ticket { Ticket(round, t.id, c.name, c.kind) }

  lemma PlacedIffSent(tasks: seq<Task>, places: seq<(nat, nat)>, teams: seq<Team>, checks: seq<Check>,
                      w: World, round: nat, deadline: int, i: nat, j: nat)
    requires PlanUpTo(tasks, places, teams, checks, w, round, deadline, (|teams|, 0))
    requires forall i, j | 0 <= i < j < |teams| :: teams[i].id != teams[j].id
    requires Distinct(CheckNames(checks))
    requires i < |teams| && j < |checks|
    ensures (i, j) in places <==> exists p | 0 <= p < |tasks| :: tasks[p].ticket == Key(round, teams[i], checks[j])
  {
    if p :| 0 <= p < |places| && places[p] == (i, j) {
      assert tasks[p].ticket == Key(round, teams[i], checks[j]);
    }
    if p :| 0 <= p < |tasks| && tasks[p].ticket == Key(round, teams[i], checks[j]) {
      SamePlace(teams, checks, places[p], (i, j));
    }
  }

  lemma PlacedIffEligible(tasks: seq<Task>, places: seq<(nat, nat)>, teams: seq<Team>, checks: seq<Check>,
                          w: World, round: nat, deadline: int, i: nat, j: nat)
    requires PlanUpTo(tasks, places, teams, checks, w, round, deadline, (|teams|, 0))
    requires i < |teams| && j < |checks|
    ensures (i, j) in places <==> Eligible(teams[i], checks[j], w)
  {
  }

  lemma AmongTickets(tasks: seq<Task>, t: Ticket)
    ensures t in TaskTickets(tasks) <==> exists p | 0 <= p < |tasks| :: tasks[p].ticket == t
  {
    var ts := TaskTickets(tasks);
    assert forall p | 0 <= p < |ts| :: ts[p] == tasks[p].ticket;
  }

  lemma SentIffEligible(tasks: seq<Task>, teams: seq<Team>, checks: seq<Check>,
                        w: World, round: nat, deadline: int, i: nat, j: nat)
    requires IsPlan(tasks, teams, checks, w, round, deadline)
    requires forall i, j | 0 <= i < j < |teams| :: teams[i].id != teams[j].id
    requires Distinct(CheckNames(checks))
    requires i < |teams| && j < |checks|
    ensures Key(round, teams[i], checks[j]) in TaskTickets(tasks) <==> Eligible(teams[i], checks[j], w)
    ensures var (t, c) := (teams[i], checks[j]);
            (exists p | 0 <= p < |tasks| :: tasks[p].ticket == Ticket(round, t.id, c.name, c.kind)) <==>
              && t.active
              && !c.disabled
              && c.launch <= w.now(t.id, c.name)
              && (c.stop == 0 || w.now(t.id, c.name) <= c.stop)
              && (t.id, c.name) !in w.lookupFails
              && ((t.id, c.name) in w.enabled ==> w.enabled[(t.id, c.name)])
              && (c.credlists != [] ==> exists l | l in c.credlists ::
                    (t.id, l) in w.credentials && (t.id, l) !in w.credentialsFail && w.credentials[(t.id, l)] != [])
  {
    var places: seq<(nat, nat)> :| PlanUpTo(tasks, places, teams, checks, w, round, deadline, (|teams|, 0));
    PlacedIffSent(tasks, places, teams, checks, w, round, deadline, i, j);
    PlacedIffEligible(tasks, places, teams, checks, w, round, deadline, i, j);
    AmongTickets(tasks, Key(round, teams[i], checks[j]));
    EligibleWhen(teams[i], checks[j], w);
  }

  /** Configuration, enqueue loop and protocol together: a record exact for the
      tasks of one plan holds one result for each eligible team and check, and
      none for any other. */
  lemma OneResultPerEligibleCheck(r: P.Record, tasks: seq<Task>, teams: seq<Team>, checks: seq<Check>,
                                  w: World, deadline: int)
    requires IsPlan(tasks, teams, checks, w, r.round, deadline)
    requires forall i, j | 0 <= i < j < |teams| :: teams[i].id != teams[j].id
    requires Distinct(CheckNames(checks))
    requires r.sent == TaskTickets(tasks) && S.Exact(r)
    ensures forall i, j | 0 <= i < |teams| && 0 <= j < |checks| ::
              Key(r.round, teams[i], checks[j]) in Tickets(r.results) <==> Eligible(teams[i], checks[j], w)
    ensures forall k, m | 0 <= k < m < |r.results| :: r.results[k].ticket != r.results[m].ticket
    ensures |r.results| == |tasks|
  {
    PlanTicketsAreDistinct(tasks, teams, checks, w, r.round, deadline);
    S.ExactMeansOneEach(r);
    forall i, j | 0 <= i < |teams| && 0 <= j < |checks|
      ensures Key(r.round, teams[i], checks[j]) in Tickets(r.results) <==> Eligible(teams[i], checks[j], w)
    {
      SentIffEligible(tasks, teams, checks, w, r.round, deadline, i, j);
      var t := Key(r.round, teams[i], checks[j]);
      assert t in r.sent <==> t in multiset(r.sent);
      assert t in Tickets(r.results) <==> t in multiset(Tickets(r.results));
    }
    assert |multiset(r.sent)| == |multiset(Tickets(r.results))|;
  }
}
