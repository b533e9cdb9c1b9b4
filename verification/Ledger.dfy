/** The score log and the counters the engine keeps beside it in memory. */
module Ledger {
  import opened Utf8
  import opened Wire
  import opened Sla

  datatype CheckRow = CheckRow(round: nat, team: nat, service: Str, points: int, passed: bool, error: Str, debug: Str)
  datatype SlaRow = SlaRow(round: nat, team: nat, service: Str, penalty: int)
  datatype Uptime = Uptime(passed: nat, total: nat)

  type Nested<V> = map<nat, map<Str, V>>

  /** A result on its way into the log; stored: an SLA row for it, if one is
      due, will be inserted. */
  datatype Entry = Entry(result: Result, stored: bool)

  /** The global settings that SLA accounting uses. */
  datatype Settings = Settings(threshold: int, penalty: int)

  // ------------------------------------------------- the simple truth: samples

  /** One check of one service, as counters see it. */
  datatype Sample = Sample(team: nat, service: Str, passed: bool)

  function Teams(xs: seq<Sample>): set<nat> { set x | x in xs :: x.team }

  function Services(xs: seq<Sample>, team: nat): set<Str> { set x | x in xs && x.team == team :: x.service }

  /** The passes and failures of one service, oldest first. */
  function History(xs: seq<Sample>, team: nat, service: Str): seq<bool> {
    if xs == [] then []
    else
      var x := xs[|xs| - 1];
      History(xs[..|xs| - 1], team, service) + (if x.team == team && x.service == service then [x.passed] else [])
  }

  /** A summary of every history there is, by team and service. */
  ghost function Table<V>(xs: seq<Sample>, f: seq<bool> -> V): Nested<V> {
    map t | t in Teams(xs) :: TeamTable(xs, f, t)
  }

  ghost function TeamTable<V>(xs: seq<Sample>, f: seq<bool> -> V, team: nat): map<Str, V> {
    map s | s in Services(xs, team) :: f(History(xs, team, s))
  }

  function Passes(h: seq<bool>): nat {
    if h == [] then 0 else Passes(h[..|h| - 1]) + (if h[|h| - 1] then 1 else 0)
  }

  function UptimeOf(h: seq<bool>): Uptime { Uptime(Passes(h), |h|) }

  ghost function ResetAt(threshold: int): seq<bool> -> int { h => ResetCounter(h, threshold) }

  ghost function ModAt(threshold: int): seq<bool> -> int
    requires threshold != 0
  {
    h => ModCounter(h, threshold)
  }

  // ------------------------------------------------------- one result, in place

  function Row<V>(m: Nested<V>, team: nat): map<Str, V> { if team in m then m[team] else map[] }

  function Get<V>(m: Nested<V>, team: nat, service: Str, default: V): V {
    if service in Row(m, team) then Row(m, team)[service] else default
  }

  function Put<V>(m: Nested<V>, team: nat, service: Str, v: V): Nested<V> {
    m[team := Row(m, team)[service := v]]
  }

  function RowOf(round: nat, r: Result): CheckRow {
    CheckRow(round, r.ticket.team, Sanitize(r.ticket.service), r.points, r.status, Sanitize(r.error), Sanitize(r.debug))
  }

  function RowsOf(round: nat, es: seq<Entry>): seq<CheckRow> {
    seq(|es|, i requires 0 <= i < |es| => RowOf(round, es[i].result))
  }

  /** Log and memory together. */
  datatype World = World(rounds: seq<nat>, log: seq<CheckRow>, slas: seq<SlaRow>,
                         uptime: Nested<Uptime>, counters: Nested<int>)

  function Observe(w: World, round: nat, e: Entry, c: Settings): World {
    var t, s := e.result.ticket.team, e.result.ticket.service;
    var u := Get(w.uptime, t, s, Uptime(0, 0));
    var failed := Get(w.counters, t, s, 0) + 1;
    var w1 := w.(uptime := Put(w.uptime, t, s, Uptime(u.passed + (if e.result.status then 1 else 0), u.total + 1)));
    if e.result.status then w1.(counters := Put(w.counters, t, s, 0))
    else if failed >= c.threshold then
      w1.(counters := Put(w.counters, t, s, 0),
          slas := if e.stored then w.slas + [SlaRow(round, t, s, c.penalty)] else w.slas)
    else w1.(counters := Put(w.counters, t, s, failed))
  }

  function ObserveAll(w: World, round: nat, es: seq<Entry>, c: Settings): World {
    if es == [] then w
    else Observe(ObserveAll(w, round, es[..|es| - 1], c), round, es[|es| - 1], c)
  }

  /** The whole round in one transaction; its number is the table's key. */
  function Insert(w: World, round: nat, es: seq<Entry>): World {
    w.(rounds := w.rounds + [round], log := w.log + RowsOf(round, es))
  }

  predicate Accepts(w: World, round: nat, es: seq<Entry>, saved: bool) {
    es != [] && saved && round !in w.rounds
  }

  function RecordRound(w: World, round: nat, es: seq<Entry>, saved: bool, c: Settings): World {
    if Accepts(w, round, es, saved) then ObserveAll(Insert(w, round, es), round, es, c) else w
  }

  // ------------------------------------------------------------------- loading

  function SampleOf(r: CheckRow): Sample { Sample(r.team, r.service, r.passed) }

  function LogSamples(log: seq<CheckRow>): seq<Sample> {
    seq(|log|, i requires 0 <= i < |log| => SampleOf(log[i]))
  }

  function LoadCounters(m: Nested<int>, xs: seq<Sample>, threshold: int): Nested<int>
    requires threshold != 0
  {
    if xs == [] then m
    else
      var m1 := LoadCounters(m, xs[..|xs| - 1], threshold);
      var x := xs[|xs| - 1];
      Put(m1, x.team, x.service, if x.passed then 0 else GoRem(Get(m1, x.team, x.service, 0) + 1, threshold))
  }

  ghost function Merge<V>(a: Nested<V>, b: Nested<V>): Nested<V> {
    map t | t in a.Keys + b.Keys :: Row(a, t) + Row(b, t)
  }

  /** A fresh process over the same database. */
  ghost function Load(w: World, c: Settings): World
    requires c.threshold != 0
  {
    w.(uptime := Table(LogSamples(w.log), UptimeOf),
       counters := LoadCounters(map[], LogSamples(w.log), c.threshold))
  }

  /** A row of the query that groups the log by team and service. */
  datatype UptimeGroup = UptimeGroup(team: nat, service: Str, passed: nat, total: nat)

  ghost predicate GroupsOf(gs: seq<UptimeGroup>, xs: seq<Sample>) {
    && (forall i, j | 0 <= i < j < |gs| :: (gs[i].team, gs[i].service) != (gs[j].team, gs[j].service))
    && (forall g | g in gs :: g.service in Services(xs, g.team) &&
          Uptime(g.passed, g.total) == UptimeOf(History(xs, g.team, g.service)))
    && (forall x | x in xs :: exists g | g in gs :: g.team == x.team && g.service == x.service)
  }

  // ---------------------------------------------------------- the table, stepped

  lemma ServicesStep(xs: seq<Sample>, x: Sample, team: nat)
    ensures Services(xs + [x], team) == Services(xs, team) + (if x.team == team then {x.service} else {})
    ensures Teams(xs + [x]) == Teams(xs) + {x.team}
  {
    var ys := xs + [x];
    assert forall y :: y in ys <==> y in xs || y == x;
    forall s | s in Services(xs, team) ensures s in Services(ys, team) {
      var y :| y in xs && y.team == team && y.service == s;
      assert y in ys;
    }
    assert x in ys;
  }

  lemma HistoryStep(xs: seq<Sample>, x: Sample, team: nat, service: Str)
    ensures History(xs + [x], team, service) ==
            History(xs, team, service) + (if x.team == team && x.service == service then [x.passed] else [])
  {
    assert (xs + [x])[..|xs|] == xs;
  }

  lemma TableRow<V>(xs: seq<Sample>, f: seq<bool> -> V, t: nat)
    ensures Row(Table(xs, f), t) == TeamTable(xs, f, t)
  {
    NoServices(xs, t);
  }

  lemma ChangedRow<V>(xs: seq<Sample>, x: Sample, f: seq<bool> -> V)
    ensures TeamTable(xs + [x], f, x.team) ==
            TeamTable(xs, f, x.team)[x.service := f(History(xs, x.team, x.service) + [x.passed])]
  {
    ServicesStep(xs, x, x.team);
    forall s ensures History(xs + [x], x.team, s) ==
                     History(xs, x.team, s) + (if s == x.service then [x.passed] else []) {
      HistoryStep(xs, x, x.team, s);
    }
    forall s | s != x.service ensures History(xs + [x], x.team, s) == History(xs, x.team, s) {
      HistoryStep(xs, x, x.team, s);
    }
  }

  lemma OtherRow<V>(xs: seq<Sample>, x: Sample, f: seq<bool> -> V, t: nat)
    requires t != x.team
    ensures TeamTable(xs + [x], f, t) == TeamTable(xs, f, t)
  {
    ServicesStep(xs, x, t);
    forall s ensures History(xs + [x], t, s) == History(xs, t, s) {
      HistoryStep(xs, x, t, s);
    }
  }

  /** Adding a sample to a table changes the one entry, as an update in place
      does. */
  lemma TableStep<V>(xs: seq<Sample>, x: Sample, f: seq<bool> -> V)
    ensures Table(xs + [x], f) ==
            Put(Table(xs, f), x.team, x.service, f(History(xs, x.team, x.service) + [x.passed]))
  {
    var a := Table(xs + [x], f);
    var b := Put(Table(xs, f), x.team, x.service, f(History(xs, x.team, x.service) + [x.passed]));
    ServicesStep(xs, x, x.team);
    TableRow(xs, f, x.team);
    ChangedRow(xs, x, f);
    assert a.Keys == b.Keys;
    forall t | t in a ensures a[t] == b[t] {
      if t != x.team { OtherRow(xs, x, f, t); }
    }
  }

  lemma NoServices(xs: seq<Sample>, team: nat)
    ensures team !in Teams(xs) ==> Services(xs, team) == {}
  {
  }

  lemma {:induction false} EmptyHistory(xs: seq<Sample>, team: nat, service: Str)
    ensures service !in Services(xs, team) ==> History(xs, team, service) == []
  {
    if xs != [] {
      var front := xs[..|xs| - 1];
      EmptyHistory(front, team, service);
      assert xs == front + [xs[|xs| - 1]];
      ServicesStep(front, xs[|xs| - 1], team);
    }
  }

  lemma GetFromTable<V>(xs: seq<Sample>, f: seq<bool> -> V, team: nat, service: Str, default: V)
    requires f([]) == default
    ensures Get(Table(xs, f), team, service, default) == f(History(xs, team, service))
  {
    EmptyHistory(xs, team, service);
    NoServices(xs, team);
  }

  // --------------------------------------------------------- memory is a table

  function RawSample(e: Entry): Sample {
    Sample(e.result.ticket.team, e.result.ticket.service, e.result.status)
  }

  function RawSamples(es: seq<Entry>): seq<Sample> {
    seq(|es|, i requires 0 <= i < |es| => RawSample(es[i]))
  }

  ghost predicate Summarizes(w: World, xs: seq<Sample>, c: Settings) {
    w.uptime == Table(xs, UptimeOf) && w.counters == Table(xs, ResetAt(c.threshold))
  }

  /** The SLA row, if any, that a result costs a service with history h. */
  function Charge(h: seq<bool>, round: nat, e: Entry, c: Settings): seq<SlaRow> {
    if !e.result.status && e.stored && Breaches(h, c.threshold)
    then [SlaRow(round, e.result.ticket.team, e.result.ticket.service, c.penalty)] else []
  }

  /** The SLA rows that results owe after a past: one for each failure that
      completes a threshold. */
  function Owed(past: seq<Sample>, round: nat, es: seq<Entry>, c: Settings): seq<SlaRow> {
    if es == [] then []
    else
      var front, e := es[..|es| - 1], es[|es| - 1];
      Owed(past, round, front, c) +
      Charge(History(past + RawSamples(front), e.result.ticket.team, e.result.ticket.service), round, e, c)
  }

  lemma AppendLast(h: seq<bool>, b: bool)
    ensures (h + [b])[..|h|] == h && (h + [b])[|h|] == b
  {
  }

  lemma UptimeNext(h: seq<bool>, b: bool)
    ensures UptimeOf(h + [b]) == Uptime(UptimeOf(h).passed + (if b then 1 else 0), UptimeOf(h).total + 1)
  {
    AppendLast(h, b);
  }

  lemma CounterNext(h: seq<bool>, b: bool, threshold: int)
    ensures ResetCounter(h + [b], threshold) ==
            if b || Breaches(h, threshold) then 0 else ResetCounter(h, threshold) + 1
  {
    AppendLast(h, b);
  }

  /** An update in place gives the entry its history's next uptime. */
  lemma UptimePut(w: World, round: nat, e: Entry, c: Settings, h: seq<bool>)
    requires Get(w.uptime, e.result.ticket.team, e.result.ticket.service, Uptime(0, 0)) == UptimeOf(h)
    ensures Observe(w, round, e, c).uptime ==
            Put(w.uptime, e.result.ticket.team, e.result.ticket.service, UptimeOf(h + [e.result.status]))
  {
    UptimeNext(h, e.result.status);
  }

  lemma CounterPut(w: World, round: nat, e: Entry, c: Settings, h: seq<bool>)
    requires Get(w.counters, e.result.ticket.team, e.result.ticket.service, 0) == ResetCounter(h, c.threshold)
    ensures Observe(w, round, e, c).counters ==
            Put(w.counters, e.result.ticket.team, e.result.ticket.service, ResetCounter(h + [e.result.status], c.threshold))
    ensures Observe(w, round, e, c).slas == w.slas + Charge(h, round, e, c)
  {
    CounterNext(h, e.result.status, c.threshold);
  }

  lemma ObserveUptime(w: World, xs: seq<Sample>, round: nat, e: Entry, c: Settings)
    requires w.uptime == Table(xs, UptimeOf)
    ensures Observe(w, round, e, c).uptime == Table(xs + [RawSample(e)], UptimeOf)
  {
    var x := RawSample(e);
    GetFromTable(xs, UptimeOf, x.team, x.service, Uptime(0, 0));
    UptimePut(w, round, e, c, History(xs, x.team, x.service));
    TableStep(xs, x, UptimeOf);
  }

  lemma ObserveCounter(w: World, xs: seq<Sample>, round: nat, e: Entry, c: Settings)
    requires w.counters == Table(xs, ResetAt(c.threshold))
    ensures Observe(w, round, e, c).counters == Table(xs + [RawSample(e)], ResetAt(c.threshold))
    ensures Observe(w, round, e, c).slas ==
            w.slas + Charge(History(xs, e.result.ticket.team, e.result.ticket.service), round, e, c)
  {
    var x := RawSample(e);
    GetFromTable(xs, ResetAt(c.threshold), x.team, x.service, 0);
    CounterPut(w, round, e, c, History(xs, x.team, x.service));
    TableStep(xs, x, ResetAt(c.threshold));
  }

  /** What counting results does to a world that summarizes xs. */
  ghost predicate Counted(w: World, xs: seq<Sample>, round: nat, es: seq<Entry>, c: Settings) {
    var w' := ObserveAll(w, round, es, c);
    && Summarizes(w', xs + RawSamples(es), c)
    && w'.slas == w.slas + Owed(xs, round, es, c)
    && w'.log == w.log && w'.rounds == w.rounds
  }

  lemma {:induction false} ObserveAllSteps(w: World, xs: seq<Sample>, round: nat, es: seq<Entry>, c: Settings)
    requires Summarizes(w, xs, c)
    ensures Counted(w, xs, round, es, c)
  {
    if es == [] {
      assert xs + RawSamples(es) == xs;
    } else {
      ObserveAllSteps(w, xs, round, es[..|es| - 1], c);
      ObserveOneMore(w, xs, round, es, c);
    }
  }

  lemma ObserveOneMore(w: World, xs: seq<Sample>, round: nat, es: seq<Entry>, c: Settings)
    requires es != [] && Counted(w, xs, round, es[..|es| - 1], c)
    ensures Counted(w, xs, round, es, c)
  {
    var front, e := es[..|es| - 1], es[|es| - 1];
    var w1, ys := ObserveAll(w, round, front, c), xs + RawSamples(front);
    ObserveUptime(w1, ys, round, e, c);
    ObserveCounter(w1, ys, round, e, c);
    SamplesLast(xs, es);
    AppendAssoc(w.slas, Owed(xs, round, front, c),
                Charge(History(ys, e.result.ticket.team, e.result.ticket.service), round, e, c));
  }

  lemma AppendAssoc<T>(a: seq<T>, b: seq<T>, c: seq<T>)
    ensures (a + b) + c == a + (b + c)
  {
  }

  lemma SamplesLast(xs: seq<Sample>, es: seq<Entry>)
    requires es != []
    ensures xs + RawSamples(es) == (xs + RawSamples(es[..|es| - 1])) + [RawSample(es[|es| - 1])]
  {
  }

  // ------------------------------------------------------------ crash recovery

  /** The thresholds the rebuilt counters agree for; see Sla.RebuildAgreesExactly. */
  predicate Sound(c: Settings) { c.threshold >= 1 || c.threshold == -1 }

  /** Memory is what the log says. */
  ghost predicate Consistent(w: World, c: Settings) { Summarizes(w, LogSamples(w.log), c) }

  predicate Fixed(name: Str) { Sanitize(name) == name }

  predicate CleanNames(es: seq<Entry>) { forall e | e in es :: Fixed(e.result.ticket.service) }

  lemma LoadPut(m: Nested<int>, x: Sample, threshold: int, h: seq<bool>)
    requires threshold != 0 && Get(m, x.team, x.service, 0) == ModCounter(h, threshold)
    ensures Put(m, x.team, x.service, if x.passed then 0 else GoRem(Get(m, x.team, x.service, 0) + 1, threshold))
            == Put(m, x.team, x.service, ModCounter(h + [x.passed], threshold))
  {
    AppendLast(h, x.passed);
  }

  /** One row of a load, on a map that is a table of the rows before it. */
  lemma LoadOne(m: Nested<int>, xs: seq<Sample>, x: Sample, threshold: int)
    requires threshold != 0 && m == Table(xs, ModAt(threshold))
    ensures Put(m, x.team, x.service, if x.passed then 0 else GoRem(Get(m, x.team, x.service, 0) + 1, threshold))
            == Table(xs + [x], ModAt(threshold))
  {
    GetFromTable(xs, ModAt(threshold), x.team, x.service, 0);
    LoadPut(m, x, threshold, History(xs, x.team, x.service));
    TableStep(xs, x, ModAt(threshold));
  }

  lemma {:induction false} LoadCountersIsTable(xs: seq<Sample>, threshold: int)
    requires threshold != 0
    ensures LoadCounters(map[], xs, threshold) == Table(xs, ModAt(threshold))
  {
    if xs != [] {
      var front, x := xs[..|xs| - 1], xs[|xs| - 1];
      LoadCountersIsTable(front, threshold);
      LoadOne(LoadCounters(map[], front, threshold), front, x, threshold);
      assert xs == front + [x];
    }
  }

  lemma SameTables(xs: seq<Sample>, c: Settings)
    requires Sound(c)
    ensures Table(xs, ModAt(c.threshold)) == Table(xs, ResetAt(c.threshold))
  {
    RebuildAgreesExactly(c.threshold);
    var a, b := Table(xs, ModAt(c.threshold)), Table(xs, ResetAt(c.threshold));
    forall t | t in a ensures a[t] == b[t] {
      forall s | s in a[t] ensures a[t][s] == b[t][s] {
        assert ResetCounter(History(xs, t, s), c.threshold) == ModCounter(History(xs, t, s), c.threshold);
      }
    }
  }

  /** A consistent engine can be restarted and nothing is different. */
  lemma RestartIsInvisible(w: World, c: Settings)
    requires Consistent(w, c) && Sound(c)
    ensures Load(w, c) == w
  {
    LoadCountersIsTable(LogSamples(w.log), c.threshold);
    SameTables(LogSamples(w.log), c);
  }

  lemma SamplesOfRows(log: seq<CheckRow>, round: nat, es: seq<Entry>)
    requires CleanNames(es)
    ensures LogSamples(log + RowsOf(round, es)) == LogSamples(log) + RawSamples(es)
  {
    forall i | 0 <= i < |es| ensures SampleOf(RowOf(round, es[i].result)) == RawSample(es[i]) {
      assert es[i] in es;
    }
  }

  lemma RecordKeepsConsistent(w: World, round: nat, es: seq<Entry>, saved: bool, c: Settings)
    requires Consistent(w, c) && CleanNames(es)
    ensures Consistent(RecordRound(w, round, es, saved, c), c)
  {
    if Accepts(w, round, es, saved) {
      ObserveAllSteps(Insert(w, round, es), LogSamples(w.log), round, es, c);
      SamplesOfRows(w.log, round, es);
    }
  }

  /** What can happen to an engine and its database. A crash comes after the
      round is in the log, with only the first `done` results counted. */
  datatype Event =
    | Recorded(round: nat, entries: seq<Entry>, saved: bool)
    | Crashed(round: nat, entries: seq<Entry>, done: nat)
    | Restarted

  ghost function Happen(w: World, ev: Event, c: Settings): World
    requires c.threshold != 0
  {
    match ev
    case Recorded(round, es, saved) => RecordRound(w, round, es, saved, c)
    case Crashed(round, es, done) =>
      if Accepts(w, round, es, true) && done <= |es|
      then Load(ObserveAll(Insert(w, round, es), round, es[..done], c), c)
      else Load(w, c)
    case Restarted => Load(w, c)
  }

  ghost function Run(w: World, evs: seq<Event>, c: Settings): World
    requires c.threshold != 0
  {
    if evs == [] then w else Happen(Run(w, evs[..|evs| - 1], c), evs[|evs| - 1], c)
  }

  /** The results of a crashed round, as if the SLA inserts for those not
      counted had failed. */
  function Cut(es: seq<Entry>, done: nat): seq<Entry> {
    seq(|es|, i requires 0 <= i < |es| => if i < done then es[i] else es[i].(stored := false))
  }

  /** The same events with no restart in them. */
  function Uninterrupted(evs: seq<Event>): seq<Event> {
    if evs == [] then []
    else
      var ev := evs[|evs| - 1];
      Uninterrupted(evs[..|evs| - 1]) +
      (match ev
       case Recorded(_, _, _) => [ev]
       case Crashed(round, es, done) => if done <= |es| then [Recorded(round, Cut(es, done), true)] else []
       case Restarted => [])
  }

  predicate CleanEvent(ev: Event) { ev.Restarted? || CleanNames(ev.entries) }

  lemma UnstoredOwesNothing(past: seq<Sample>, round: nat, es: seq<Entry>, c: Settings)
    requires es != [] && !es[|es| - 1].stored
    ensures Owed(past, round, es, c) == Owed(past, round, es[..|es| - 1], c)
  {
  }

  lemma CutKeepsCounted(es: seq<Entry>, done: nat)
    requires done <= |es|
    ensures Cut(es, done)[..done] == es[..done]
  {
  }

  lemma ShorterPrefix<T>(xs: seq<T>, n: nat)
    requires 0 < n <= |xs|
    ensures xs[..n][..n - 1] == xs[..n - 1]
  {
  }

  lemma {:induction false} CutOwesNoMore(past: seq<Sample>, round: nat, es: seq<Entry>, done: nat, n: nat, c: Settings)
    requires done <= n <= |es|
    ensures Owed(past, round, Cut(es, done)[..n], c) == Owed(past, round, es[..done], c)
    decreases n
  {
    if n == done {
      CutKeepsCounted(es, done);
    } else {
      CutOwesNoMore(past, round, es, done, n - 1, c);
      ShorterPrefix(Cut(es, done), n);
      UnstoredOwesNothing(past, round, Cut(es, done)[..n], c);
    }
  }

  /** Loading gives the world in which the whole round was counted. */
  lemma LoadIsCounted(w: World, a: World, xs: seq<Sample>, round: nat, es: seq<Entry>, c: Settings)
    requires Counted(w, xs, round, es, c) && Sound(c) && LogSamples(w.log) == xs + RawSamples(es)
    requires a.slas == w.slas + Owed(xs, round, es, c) && a.log == w.log && a.rounds == w.rounds
    ensures Load(a, c) == ObserveAll(w, round, es, c)
  {
    RestartIsInvisible(ObserveAll(w, round, es, c), c);
  }

  lemma CrashIsLostRows(w: World, round: nat, es: seq<Entry>, done: nat, c: Settings)
    requires Consistent(w, c) && Sound(c) && CleanNames(es) && done <= |es|
    ensures Happen(w, Crashed(round, es, done), c) == RecordRound(w, round, Cut(es, done), true, c)
  {
    if Accepts(w, round, es, true) {
      var cut, xs := Cut(es, done), LogSamples(w.log);
      var w0 := Insert(w, round, es);
      assert RowsOf(round, cut) == RowsOf(round, es);
      SamplesOfRows(w.log, round, cut);
      ObserveAllSteps(w0, xs, round, es[..done], c);
      ObserveAllSteps(w0, xs, round, cut, c);
      CutOwesNoMore(xs, round, es, done, |es|, c);
      assert cut[..|es|] == cut;
      LoadIsCounted(w0, ObserveAll(w0, round, es[..done], c), xs, round, cut, c);
    } else {
      RestartIsInvisible(w, c);
    }
  }

  lemma RunAppend(w: World, evs: seq<Event>, ev: Event, c: Settings)
    requires c.threshold != 0
    ensures Run(w, evs + [ev], c) == Happen(Run(w, evs, c), ev, c)
  {
    assert (evs + [ev])[..|evs|] == evs;
  }

  /** Crash recovery: restarts at any points, even in the middle of counting a
      round, leave the log, the counters and the SLA rows as the same rounds
      without them would, but for the rows a crash kept from being written. */
  lemma {:induction false} RestartsChangeNothing(w: World, evs: seq<Event>, c: Settings)
    requires Consistent(w, c) && Sound(c)
    requires forall ev | ev in evs :: CleanEvent(ev)
    ensures Run(w, evs, c) == Run(w, Uninterrupted(evs), c)
    ensures Consistent(Run(w, evs, c), c)
  {
    if evs != [] {
      var front, ev := evs[..|evs| - 1], evs[|evs| - 1];
      RestartsChangeNothing(w, front, c);
      assert CleanEvent(ev);
      var w1 := Run(w, front, c);
      match ev
      case Recorded(round, es, saved) =>
        RecordKeepsConsistent(w1, round, es, saved, c);
        RunAppend(w, Uninterrupted(front), ev, c);
      case Crashed(round, es, done) =>
        if done <= |es| {
          CrashIsLostRows(w1, round, es, done, c);
          RecordKeepsConsistent(w1, round, Cut(es, done), true, c);
          RunAppend(w, Uninterrupted(front), Recorded(round, Cut(es, done), true), c);
        } else {
          RestartIsInvisible(w1, c);
          assert Uninterrupted(evs) == Uninterrupted(front);
        }
      case Restarted =>
        RestartIsInvisible(w1, c);
        assert Uninterrupted(evs) == Uninterrupted(front);
    }
  }

  lemma RawInServices(xs: seq<Sample>, es: seq<Entry>, e: Entry)
    requires e in es
    ensures e.result.ticket.service in Services(xs + RawSamples(es), e.result.ticket.team)
    ensures e.result.ticket.team in Teams(xs + RawSamples(es))
  {
    var i :| 0 <= i < |es| && es[i] == e;
    var ys := xs + RawSamples(es);
    assert ys[|xs| + i] == RawSample(e);
    assert RawSample(e) in ys;
  }

  predicate CleanLog(log: seq<CheckRow>) { forall r | r in log :: Fixed(r.service) }

  predicate CleanText(s: Str) { 0 !in s && ValidString(s) }

  /** A row tells of its result, under the round's number, and every text in it
      is one the database takes. */
  lemma LoggedTextIsClean(round: nat, r: Result)
    ensures var row := RowOf(round, r);
            && (row.round, row.team, row.points, row.passed) == (round, r.ticket.team, r.points, r.status)
            && CleanText(row.service) && CleanText(row.error) && CleanText(row.debug)
            && (CleanText(r.ticket.service) ==> row.service == r.ticket.service)
            && (CleanText(r.error) ==> row.error == r.error)
            && (CleanText(r.debug) ==> row.debug == r.debug)
  {
    CleanedText(r.ticket.service);
    CleanedText(r.error);
    CleanedText(r.debug);
  }

  lemma CleanedText(s: Str)
    ensures CleanText(Sanitize(s)) && (CleanText(s) ==> Sanitize(s) == s)
  {
    SanitizeIsClean(s);
    ValidIsWellFormed(s);
    ValidIsWellFormed(Sanitize(s));
  }

  lemma RowsAreClean(round: nat, es: seq<Entry>)
    ensures CleanLog(RowsOf(round, es))
  {
    forall i | 0 <= i < |es| ensures Fixed(RowOf(round, es[i].result).service) {
      SanitizeIsClean(es[i].result.ticket.service);
    }
  }

  /** When a recorded round survives a restart: exactly when all its service
      names are fixed points of the cleaning they get on their way into the log,
      since memory is keyed by the names as they came. */
  lemma SurvivesIffNamesAreClean(w: World, round: nat, es: seq<Entry>, c: Settings)
    requires Consistent(w, c) && Sound(c) && CleanLog(w.log) && Accepts(w, round, es, true)
    ensures var w' := RecordRound(w, round, es, true, c); Load(w', c) == w' <==> CleanNames(es)
  {
    var w' := RecordRound(w, round, es, true, c);
    if CleanNames(es) {
      RecordKeepsConsistent(w, round, es, true, c);
      RestartIsInvisible(w', c);
    } else {
      var e :| e in es && !Fixed(e.result.ticket.service);
      var t, s := e.result.ticket.team, e.result.ticket.service;
      ObserveAllSteps(Insert(w, round, es), LogSamples(w.log), round, es, c);
      RawInServices(LogSamples(w.log), es, e);
      TableRow(LogSamples(w.log) + RawSamples(es), UptimeOf, t);
      assert s in Row(w'.uptime, t);
      RowsAreClean(round, es);
      assert CleanLog(w'.log);
      NotLogged(w'.log, t, s);
      TableRow(LogSamples(w'.log), UptimeOf, t);
      assert s !in Row(Load(w', c).uptime, t);
    }
  }

  lemma NotLogged(log: seq<CheckRow>, t: nat, s: Str)
    requires CleanLog(log) && !Fixed(s)
    ensures s !in Services(LogSamples(log), t)
  {
    forall x | x in LogSamples(log) ensures x.service != s {
      var i :| 0 <= i < |log| && LogSamples(log)[i] == x;
      assert log[i] in log;
    }
  }

  lemma ZeroByteIsUnclean()
    ensures !Fixed([119, 0])
  {
    var name: Str := [119, 0];
    SanitizeIsClean(name);
    assert name[1] == 0;
  }

  /** A name with a zero byte is lost: the service is counted in memory and, by
      another name, in the log. */
  lemma ZeroByteNameIsLost() returns (w: World, es: seq<Entry>, c: Settings)
    ensures Consistent(w, c) && Sound(c) && CleanLog(w.log) && Accepts(w, 1, es, true)
    ensures Load(RecordRound(w, 1, es, true, c), c) != RecordRound(w, 1, es, true, c)
  {
    c := Settings(5, 25);
    w := World([], [], [], map[], map[]);
    es := [Entry(Result(Ticket(1, 1, [119, 0], "Web"), true, 1, [], []), true)];
    ZeroByteIsUnclean();
    assert es[0] in es && !CleanNames(es);
    SurvivesIffNamesAreClean(w, 1, es, c);
  }

  // ------------------------------------------------------- rounds and their rows

  predicate HasRow(log: seq<CheckRow>, round: nat) { exists r | r in log :: r.round == round }

  /** A recorded round has rows: no round is recorded empty. */
  predicate NoEmptyRound(w: World) { forall n | n in w.rounds :: HasRow(w.log, n) }

  lemma HasRowStays(log: seq<CheckRow>, more: seq<CheckRow>, round: nat)
    requires HasRow(log, round)
    ensures HasRow(log + more, round)
  {
    var r :| r in log && r.round == round;
    assert r in log + more;
  }

  lemma InsertedHasRow(log: seq<CheckRow>, round: nat, es: seq<Entry>)
    requires es != []
    ensures HasRow(log + RowsOf(round, es), round)
  {
    var rows := RowsOf(round, es);
    assert rows[0] in log + rows && rows[0].round == round;
  }

  lemma {:induction false} ObservedLog(w: World, round: nat, es: seq<Entry>, c: Settings)
    ensures ObserveAll(w, round, es, c).log == w.log && ObserveAll(w, round, es, c).rounds == w.rounds
  {
    if es != [] { ObservedLog(w, round, es[..|es| - 1], c); }
  }

  /** When a round goes into the books and when it does not: with no results, a
      failing insert or a number already there, nothing at all changes. */
  lemma RecordedLog(w: World, round: nat, es: seq<Entry>, saved: bool, c: Settings)
    ensures var w' := RecordRound(w, round, es, saved, c);
            if es == [] || !saved || round in w.rounds
            then w' == w
            else w'.log == w.log + RowsOf(round, es) && w'.rounds == w.rounds + [round]
    ensures Accepts(w, round, es, saved) <==> |es| > 0 && saved && round !in w.rounds
  {
    ObservedLog(Insert(w, round, es), round, es, c);
  }

  lemma CountedHasRows(w: World, round: nat, es: seq<Entry>, done: seq<Entry>, c: Settings)
    requires NoEmptyRound(w) && es != []
    ensures NoEmptyRound(ObserveAll(Insert(w, round, es), round, done, c))
  {
    ObservedLog(Insert(w, round, es), round, done, c);
    InsertedHasRow(w.log, round, es);
    forall n | n in w.rounds ensures HasRow(w.log + RowsOf(round, es), n) {
      HasRowStays(w.log, RowsOf(round, es), n);
    }
  }

  lemma RecordKeepsRows(w: World, round: nat, es: seq<Entry>, saved: bool, c: Settings)
    requires NoEmptyRound(w)
    ensures NoEmptyRound(RecordRound(w, round, es, saved, c))
  {
    RecordedLog(w, round, es, saved, c);
    if es != [] { CountedHasRows(w, round, es, es, c); }
  }

  lemma HappenKeepsRows(w: World, ev: Event, c: Settings)
    requires NoEmptyRound(w) && c.threshold != 0
    ensures NoEmptyRound(Happen(w, ev, c))
  {
    match ev
    case Recorded(round, es, saved) => RecordKeepsRows(w, round, es, saved, c);
    case Crashed(round, es, done) =>
      RecordedLog(w, round, es, true, c);
      if es != [] && done <= |es| { CountedHasRows(w, round, es, es[..done], c); }
    case Restarted =>
  }

  /** Over every run of rounds, crashes and restarts: a round in the table has
      rows in the log, so a round that timed out is never in it. */
  lemma {:induction false} RunKeepsRows(w: World, evs: seq<Event>, c: Settings)
    requires NoEmptyRound(w) && c.threshold != 0
    ensures NoEmptyRound(Run(w, evs, c))
  {
    if evs != [] {
      RunKeepsRows(w, evs[..|evs| - 1], c);
      HappenKeepsRows(Run(w, evs[..|evs| - 1], c), evs[|evs| - 1], c);
    }
  }

  // ----------------------------------------------- loading over what is there

  /** An entry of a merge is the second map's, if it has one. */
  lemma MergedEntry<V>(a: Nested<V>, b: Nested<V>, t: nat, s: Str, default: V)
    ensures s in Row(Merge(a, b), t) <==> s in Row(a, t) || s in Row(b, t)
    ensures Get(Merge(a, b), t, s, default) == if s in Row(b, t) then b[t][s] else Get(a, t, s, default)
  {
  }

  /** A counter carried on through a history. */
  function CarriedOn(c: int, h: seq<bool>, threshold: int): int
    requires threshold != 0
  {
    if h == [] then c
    else if h[|h| - 1] then 0
    else GoRem(CarriedOn(c, h[..|h| - 1], threshold) + 1, threshold)
  }

  lemma PutGet<V>(m: Nested<V>, t: nat, s: Str, v: V, t': nat, s': Str, default: V)
    ensures Get(Put(m, t, s, v), t', s', default) == if t == t' && s == s' then v else Get(m, t', s', default)
  {
  }

  /** Loading into a map with counters in it carries each on through the rows of
      its service. */
  lemma {:induction false} LoadCarriesOn(m: Nested<int>, xs: seq<Sample>, threshold: int, t: nat, s: Str)
    requires threshold != 0
    ensures Get(LoadCounters(m, xs, threshold), t, s, 0) == CarriedOn(Get(m, t, s, 0), History(xs, t, s), threshold)
  {
    if xs != [] {
      var front, x := xs[..|xs| - 1], xs[|xs| - 1];
      LoadCarriesOn(m, front, threshold, t, s);
      LoadOneCarries(LoadCounters(m, front, threshold), Get(m, t, s, 0), History(front, t, s), x, threshold, t, s);
    }
  }

  lemma LoadOneCarries(m: Nested<int>, start: int, h: seq<bool>, x: Sample, threshold: int, t: nat, s: Str)
    requires threshold != 0 && Get(m, t, s, 0) == CarriedOn(start, h, threshold)
    ensures Get(Put(m, x.team, x.service, if x.passed then 0 else GoRem(Get(m, x.team, x.service, 0) + 1, threshold)), t, s, 0)
            == CarriedOn(start, h + (if x.team == t && x.service == s then [x.passed] else []), threshold)
  {
    PutGet(m, x.team, x.service, if x.passed then 0 else GoRem(Get(m, x.team, x.service, 0) + 1, threshold), t, s, 0);
    if x.team == t && x.service == s { AppendLast(h, x.passed); } else { assert h + [] == h; }
  }
}
