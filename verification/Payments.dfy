/** What the log's SLA rows pay for, and exactly when a violation goes unpaid. */
module Payments {
  import opened Utf8
  import opened Wire
  import opened Sla
  import opened Ledger

  /** The SLA rows of one service. */
  function RowsFor(rows: seq<SlaRow>, team: nat, service: Str): nat {
    if rows == [] then 0
    else
      var r := rows[|rows| - 1];
      RowsFor(rows[..|rows| - 1], team, service) + (if r.team == team && r.service == service then 1 else 0)
  }

  /** A service's violations so far, read off the log. */
  ghost function Incurred(w: World, c: Settings, t: nat, s: Str): nat {
    Violations(History(LogSamples(w.log), t, s), c.threshold)
  }

  predicate AtPenalty(rows: seq<SlaRow>, c: Settings) { forall r | r in rows :: r.penalty == c.penalty }

  ghost predicate Settles(w: World, c: Settings, t: nat, s: Str) { RowsFor(w.slas, t, s) == Incurred(w, c, t, s) }

  ghost predicate NoneTooMany(w: World, c: Settings, t: nat, s: Str) { RowsFor(w.slas, t, s) <= Incurred(w, c, t, s) }

  /** One row at the global penalty for every violation of the log. */
  ghost predicate Paid(w: World, c: Settings) { (forall t, s :: Settles(w, c, t, s)) && AtPenalty(w.slas, c) }

  /** No row too many: what every run keeps, whatever inserts fail. */
  ghost predicate Fair(w: World, c: Settings) { (forall t, s :: NoneTooMany(w, c, t, s)) && AtPenalty(w.slas, c) }

  lemma PaidIsFair(w: World, c: Settings)
    requires Paid(w, c)
    ensures Fair(w, c)
  {
    forall t, s ensures NoneTooMany(w, c, t, s) { assert Settles(w, c, t, s); }
  }

  /** The i-th result is a failure that completes a threshold. */
  predicate DueAt(past: seq<Sample>, es: seq<Entry>, c: Settings, i: nat)
    requires i < |es|
  {
    Owes(History(past + RawSamples(es[..i]), es[i].result.ticket.team, es[i].result.ticket.service), es[i], c)
  }

  predicate Owes(h: seq<bool>, e: Entry, c: Settings) { !e.result.status && Breaches(h, c.threshold) }

  predicate DueStored(past: seq<Sample>, es: seq<Entry>, c: Settings) {
    forall i | 0 <= i < |es| && DueAt(past, es, c, i) :: es[i].stored
  }

  predicate DueStoredBy(past: seq<Sample>, es: seq<Entry>, c: Settings, done: nat) {
    forall i | 0 <= i < |es| && DueAt(past, es, c, i) :: i < done && es[i].stored
  }

  // -------------------------------------------------- rows, misses, violations

  predicate Concerns(e: Entry, t: nat, s: Str) { e.result.ticket.team == t && e.result.ticket.service == s }

  function Due(h: seq<bool>, passed: bool, threshold: int): nat { if !passed && Breaches(h, threshold) then 1 else 0 }

  /** The rows of a service that fell due and were not stored. */
  function Missed(past: seq<Sample>, es: seq<Entry>, c: Settings, t: nat, s: Str): nat {
    if es == [] then 0
    else
      var front, e := es[..|es| - 1], es[|es| - 1];
      Missed(past, front, c, t, s) +
      (if Concerns(e, t, s) && !e.stored then Due(History(past + RawSamples(front), t, s), e.result.status, c.threshold) else 0)
  }

  predicate NoneMissed(past: seq<Sample>, es: seq<Entry>, c: Settings, t: nat, s: Str) { Missed(past, es, c, t, s) == 0 }

  lemma {:induction false} OwedAtPenalty(past: seq<Sample>, round: nat, es: seq<Entry>, c: Settings)
    ensures forall r | r in Owed(past, round, es, c) :: r.penalty == c.penalty
  {
    if es != [] { OwedAtPenalty(past, round, es[..|es| - 1], c); }
  }

  /** New rows and missed rows together are the new violations. */
  ghost predicate Balanced(past: seq<Sample>, round: nat, es: seq<Entry>, c: Settings, rows: seq<SlaRow>, t: nat, s: Str) {
    RowsFor(rows + Owed(past, round, es, c), t, s) + Missed(past, es, c, t, s) + Violations(History(past, t, s), c.threshold)
    == RowsFor(rows, t, s) + Violations(History(past + RawSamples(es), t, s), c.threshold)
  }

  lemma {:induction false} RowsAndMisses(past: seq<Sample>, round: nat, es: seq<Entry>, c: Settings,
                                         rows: seq<SlaRow>, t: nat, s: Str)
    ensures Balanced(past, round, es, c, rows, t, s)
  {
    if es == [] {
      assert rows + [] == rows && past + RawSamples(es) == past;
    } else {
      RowsAndMisses(past, round, es[..|es| - 1], c, rows, t, s);
      OneMoreOwed(past, round, es, c, rows, t, s);
    }
  }

  lemma OneMoreOwed(past: seq<Sample>, round: nat, es: seq<Entry>, c: Settings, rows: seq<SlaRow>, t: nat, s: Str)
    requires es != [] && Balanced(past, round, es[..|es| - 1], c, rows, t, s)
    ensures Balanced(past, round, es, c, rows, t, s)
  {
    var front, e := es[..|es| - 1], es[|es| - 1];
    var xs := past + RawSamples(front);
    var h := History(xs, e.result.ticket.team, e.result.ticket.service);
    SamplesLast(past, es);
    AppendAssoc(rows, Owed(past, round, front, c), Charge(h, round, e, c));
    NextViolations(xs, e, t, s, c.threshold);
    ChargeCounts(rows + Owed(past, round, front, c), h, round, e, c, t, s);
  }

  lemma NextViolations(xs: seq<Sample>, e: Entry, t: nat, s: Str, threshold: int)
    ensures Violations(History(xs + [RawSample(e)], t, s), threshold) ==
            Violations(History(xs, t, s), threshold) +
            (if Concerns(e, t, s) then Due(History(xs, t, s), e.result.status, threshold) else 0)
  {
    HistoryStep(xs, RawSample(e), t, s);
    if Concerns(e, t, s) {
      ViolationsNext(History(xs, t, s), e.result.status, threshold);
    } else {
      assert History(xs, t, s) + [] == History(xs, t, s);
    }
  }

  lemma ChargeCounts(rows: seq<SlaRow>, h: seq<bool>, round: nat, e: Entry, c: Settings, t: nat, s: Str)
    ensures RowsFor(rows + Charge(h, round, e, c), t, s) ==
            RowsFor(rows, t, s) + (if Concerns(e, t, s) && e.stored then Due(h, e.result.status, c.threshold) else 0)
  {
    if Charge(h, round, e, c) == [] {
      assert rows + [] == rows;
    } else {
      OneMoreRow(rows, SlaRow(round, e.result.ticket.team, e.result.ticket.service, c.penalty), t, s);
    }
  }

  lemma ViolationsNext(h: seq<bool>, b: bool, threshold: int)
    ensures Violations(h + [b], threshold) == Violations(h, threshold) + Due(h, b, threshold)
  {
    AppendLast(h, b);
  }

  lemma OneMoreRow(rows: seq<SlaRow>, row: SlaRow, t: nat, s: Str)
    ensures RowsFor(rows + [row], t, s) == RowsFor(rows, t, s) + (if row.team == t && row.service == s then 1 else 0)
  {
    assert (rows + [row])[..|rows|] == rows;
  }

  lemma PrefixOfPrefix<T>(xs: seq<T>, n: nat, i: nat)
    requires i <= n <= |xs|
    ensures xs[..n][..i] == xs[..i]
  {
  }

  lemma DueInPrefix(past: seq<Sample>, es: seq<Entry>, c: Settings, n: nat, i: nat)
    requires i < n <= |es|
    ensures DueAt(past, es[..n], c, i) <==> DueAt(past, es, c, i)
  {
    PrefixOfPrefix(es, n, i);
  }

  /** If the i-th result owes this service a row, it is stored. */
  predicate StoredIfDue(past: seq<Sample>, es: seq<Entry>, c: Settings, t: nat, s: Str, i: nat)
    requires i < |es|
  {
    Concerns(es[i], t, s) && DueAt(past, es, c, i) ==> es[i].stored
  }

  ghost predicate ServiceStored(past: seq<Sample>, es: seq<Entry>, c: Settings, t: nat, s: Str) {
    forall i: nat | i < |es| :: StoredIfDue(past, es, c, t, s, i)
  }

  lemma StoredInPrefix(past: seq<Sample>, es: seq<Entry>, c: Settings, t: nat, s: Str, n: nat, i: nat)
    requires i < n <= |es|
    ensures StoredIfDue(past, es[..n], c, t, s, i) <==> StoredIfDue(past, es, c, t, s, i)
  {
    DueInPrefix(past, es, c, n, i);
  }

  lemma ServiceStoredStep(past: seq<Sample>, es: seq<Entry>, c: Settings, t: nat, s: Str)
    requires es != []
    ensures var n := |es| - 1;
            ServiceStored(past, es, c, t, s) <==> ServiceStored(past, es[..n], c, t, s) && StoredIfDue(past, es, c, t, s, n)
  {
    var n := |es| - 1;
    forall i: nat | i < n ensures StoredIfDue(past, es[..n], c, t, s, i) <==> StoredIfDue(past, es, c, t, s, i) {
      StoredInPrefix(past, es, c, t, s, n, i);
    }
  }

  lemma {:induction false} MissedIff(past: seq<Sample>, es: seq<Entry>, c: Settings, t: nat, s: Str)
    ensures Missed(past, es, c, t, s) == 0 <==> ServiceStored(past, es, c, t, s)
  {
    if es != [] {
      MissedIff(past, es[..|es| - 1], c, t, s);
      ServiceStoredStep(past, es, c, t, s);
    }
  }

  lemma NothingMissed(past: seq<Sample>, es: seq<Entry>, c: Settings)
    ensures (forall t, s :: NoneMissed(past, es, c, t, s)) <==> DueStored(past, es, c)
  {
    if DueStored(past, es, c) {
      forall t, s ensures NoneMissed(past, es, c, t, s) {
        MissedIff(past, es, c, t, s);
        assert ServiceStored(past, es, c, t, s);
      }
    }
    if i: nat :| i < |es| && DueAt(past, es, c, i) && !es[i].stored {
      var t, s := es[i].result.ticket.team, es[i].result.ticket.service;
      MissedIff(past, es, c, t, s);
      assert !StoredIfDue(past, es, c, t, s, i);
      assert !NoneMissed(past, es, c, t, s);
    }
  }

  // ------------------------------------------------------ one round, exactly

  /** Recording adds to a service's unpaid violations what was missed. */
  lemma RecordedRows(w: World, round: nat, es: seq<Entry>, saved: bool, c: Settings, t: nat, s: Str)
    requires Consistent(w, c) && CleanNames(es) && Accepts(w, round, es, saved)
    ensures var w' := RecordRound(w, round, es, saved, c);
            RowsFor(w'.slas, t, s) + Missed(LogSamples(w.log), es, c, t, s) + Incurred(w, c, t, s)
            == RowsFor(w.slas, t, s) + Incurred(w', c, t, s)
  {
    var past := LogSamples(w.log);
    ObserveAllSteps(Insert(w, round, es), past, round, es, c);
    SamplesOfRows(w.log, round, es);
    RowsAndMisses(past, round, es, c, w.slas, t, s);
  }

  lemma RecordedPenalties(w: World, round: nat, es: seq<Entry>, saved: bool, c: Settings)
    requires Consistent(w, c) && AtPenalty(w.slas, c)
    ensures AtPenalty(RecordRound(w, round, es, saved, c).slas, c)
  {
    if Accepts(w, round, es, saved) {
      ObserveAllSteps(Insert(w, round, es), LogSamples(w.log), round, es, c);
      OwedAtPenalty(LogSamples(w.log), round, es, c);
    }
  }

  lemma ServicePaidIff(w: World, round: nat, es: seq<Entry>, saved: bool, c: Settings, t: nat, s: Str)
    requires Consistent(w, c) && CleanNames(es) && Accepts(w, round, es, saved) && NoneTooMany(w, c, t, s)
    ensures var w' := RecordRound(w, round, es, saved, c);
            && NoneTooMany(w', c, t, s)
            && (Settles(w', c, t, s) <==> Settles(w, c, t, s) && NoneMissed(LogSamples(w.log), es, c, t, s))
  {
    RecordedRows(w, round, es, saved, c, t, s);
  }

  lemma AllServicesPaidIff(w: World, w': World, past: seq<Sample>, es: seq<Entry>, c: Settings)
    requires AtPenalty(w.slas, c) && AtPenalty(w'.slas, c)
    requires forall t, s :: Settles(w', c, t, s) <==> Settles(w, c, t, s) && NoneMissed(past, es, c, t, s)
    ensures Paid(w', c) <==> Paid(w, c) && DueStored(past, es, c)
  {
    NothingMissed(past, es, c);
    if Paid(w', c) {
      forall t, s ensures Settles(w, c, t, s) { assert Settles(w', c, t, s); }
      forall t, s ensures NoneMissed(past, es, c, t, s) { assert Settles(w', c, t, s); }
    }
  }

  /** A recorded round leaves every violation paid for exactly when all were
      before and every result that was due a row got it stored. */
  lemma PaidIffDueStored(w: World, round: nat, es: seq<Entry>, saved: bool, c: Settings)
    requires Consistent(w, c) && Fair(w, c) && CleanNames(es) && Accepts(w, round, es, saved)
    ensures var w' := RecordRound(w, round, es, saved, c);
            Fair(w', c) && (Paid(w', c) <==> Paid(w, c) && DueStored(LogSamples(w.log), es, c))
  {
    var past, w' := LogSamples(w.log), RecordRound(w, round, es, saved, c);
    RecordedPenalties(w, round, es, saved, c);
    forall t, s
      ensures NoneTooMany(w', c, t, s)
      ensures Settles(w', c, t, s) <==> Settles(w, c, t, s) && NoneMissed(past, es, c, t, s)
    {
      assert NoneTooMany(w, c, t, s);
      ServicePaidIff(w, round, es, saved, c, t, s);
    }
    AllServicesPaidIff(w, w', past, es, c);
  }

  lemma DueInCut(past: seq<Sample>, es: seq<Entry>, c: Settings, done: nat)
    ensures DueStored(past, Cut(es, done), c) <==> DueStoredBy(past, es, c, done)
  {
    var cut := Cut(es, done);
    forall i | 0 <= i < |es| ensures DueAt(past, cut, c, i) <==> DueAt(past, es, c, i) {
      assert RawSamples(cut[..i]) == RawSamples(es[..i]);
    }
  }

  lemma CutNames(es: seq<Entry>, done: nat)
    requires CleanNames(es)
    ensures CleanNames(Cut(es, done))
  {
    forall i | 0 <= i < |es| ensures Fixed(Cut(es, done)[i].result.ticket.service) {
      assert es[i] in es;
    }
  }

  /** A crash in the middle of counting leaves every violation paid for exactly
      when all were before and every row due was stored before the crash. */
  lemma CrashPaidIff(w: World, round: nat, es: seq<Entry>, done: nat, c: Settings)
    requires Consistent(w, c) && Fair(w, c) && Sound(c) && CleanNames(es) && Accepts(w, round, es, true) && done <= |es|
    ensures var w' := Happen(w, Crashed(round, es, done), c);
            Fair(w', c) && (Paid(w', c) <==> Paid(w, c) && DueStoredBy(LogSamples(w.log), es, c, done))
  {
    CrashIsLostRows(w, round, es, done, c);
    CutNames(es, done);
    PaidIffDueStored(w, round, Cut(es, done), true, c);
    DueInCut(LogSamples(w.log), es, c, done);
  }

  lemma RecordKeepsPaid(w: World, round: nat, es: seq<Entry>, saved: bool, c: Settings)
    requires Consistent(w, c) && Paid(w, c) && CleanNames(es) && forall e | e in es :: e.stored
    ensures Paid(RecordRound(w, round, es, saved, c), c)
  {
    if Accepts(w, round, es, saved) {
      PaidIsFair(w, c);
      PaidIffDueStored(w, round, es, saved, c);
    }
  }

  // ------------------------------------------------------------ whole runs

  /** Every row that falls due in an event is stored. */
  ghost predicate Pays(w: World, ev: Event, c: Settings) {
    match ev
    case Recorded(round, es, saved) => Accepts(w, round, es, saved) ==> DueStored(LogSamples(w.log), es, c)
    case Crashed(round, es, done) =>
      Accepts(w, round, es, true) && done <= |es| ==> DueStoredBy(LogSamples(w.log), es, c, done)
    case Restarted => true
  }

  lemma EventPaysIff(w: World, ev: Event, c: Settings)
    requires Consistent(w, c) && Fair(w, c) && Sound(c) && CleanEvent(ev)
    ensures Consistent(Happen(w, ev, c), c) && Fair(Happen(w, ev, c), c)
    ensures Paid(Happen(w, ev, c), c) <==> Paid(w, c) && Pays(w, ev, c)
  {
    RestartIsInvisible(w, c);
    match ev
    case Recorded(round, es, saved) =>
      RecordKeepsConsistent(w, round, es, saved, c);
      if Accepts(w, round, es, saved) { PaidIffDueStored(w, round, es, saved, c); }
    case Crashed(round, es, done) =>
      if Accepts(w, round, es, true) && done <= |es| {
        CrashPaidIff(w, round, es, done, c);
        CrashIsLostRows(w, round, es, done, c);
        CutNames(es, done);
        RecordKeepsConsistent(w, round, Cut(es, done), true, c);
      }
    case Restarted =>
  }

  ghost predicate PaysAt(w: World, evs: seq<Event>, c: Settings, n: nat)
    requires c.threshold != 0 && n < |evs|
  {
    Pays(Run(w, evs[..n], c), evs[n], c)
  }

  ghost predicate AllPay(w: World, evs: seq<Event>, c: Settings)
    requires c.threshold != 0
  {
    forall n: nat | n < |evs| :: PaysAt(w, evs, c, n)
  }

  lemma PaysInPrefix(w: World, evs: seq<Event>, c: Settings, n: nat, m: nat)
    requires c.threshold != 0 && m < n <= |evs|
    ensures PaysAt(w, evs[..n], c, m) <==> PaysAt(w, evs, c, m)
  {
    PrefixOfPrefix(evs, n, m);
  }

  lemma AllPayStep(w: World, evs: seq<Event>, c: Settings)
    requires c.threshold != 0 && evs != []
    ensures AllPay(w, evs, c) <==> AllPay(w, evs[..|evs| - 1], c) && PaysAt(w, evs, c, |evs| - 1)
  {
    var n := |evs| - 1;
    forall m: nat | m < n ensures PaysAt(w, evs[..n], c, m) <==> PaysAt(w, evs, c, m) {
      PaysInPrefix(w, evs, c, n, m);
    }
  }

  /** A violation that goes unpaid stays unpaid: over every run of rounds,
      failed inserts, crashes and restarts there is never a row too many, and
      every violation is paid for exactly when every row was stored in the event
      in which it fell due. */
  lemma {:induction false} RunPaysIff(w: World, evs: seq<Event>, c: Settings)
    requires Consistent(w, c) && Fair(w, c) && Sound(c)
    requires forall ev | ev in evs :: CleanEvent(ev)
    ensures Consistent(Run(w, evs, c), c) && Fair(Run(w, evs, c), c)
    ensures Paid(Run(w, evs, c), c) <==> Paid(w, c) && AllPay(w, evs, c)
  {
    if evs != [] {
      var front, ev := evs[..|evs| - 1], evs[|evs| - 1];
      assert CleanEvent(ev);
      RunPaysIff(w, front, c);
      EventPaysIff(Run(w, front, c), ev, c);
      AllPayStep(w, evs, c);
    }
  }

  /** The accounting law of the log: over every run with restarts at round
      boundaries and no failed insert, each service has one SLA row, at the
      global penalty, for every full threshold of each run of failures; and the
      failures not paid for are on its counter or were forgiven by a pass. */
  lemma {:induction false} LogPaysForStreaks(w: World, evs: seq<Event>, c: Settings, t: nat, s: Str)
    requires Consistent(w, c) && Paid(w, c) && c.threshold >= 1
    requires forall ev | ev in evs :: ev.Restarted? || (ev.Recorded? && CleanNames(ev.entries) && forall e | e in ev.entries :: e.stored)
    ensures Consistent(Run(w, evs, c), c) && Paid(Run(w, evs, c), c)
    ensures var w' := Run(w, evs, c);
            var h := History(LogSamples(w'.log), t, s);
            && RowsFor(w'.slas, t, s) == FullThresholds(Streaks(h), c.threshold)
            && Failures(h) == c.threshold * RowsFor(w'.slas, t, s) + Get(w'.counters, t, s, 0) + Forgiven(h, c.threshold)
            && 0 <= Get(w'.counters, t, s, 0) < c.threshold
  {
    if evs != [] {
      var front, ev := evs[..|evs| - 1], evs[|evs| - 1];
      LogPaysForStreaks(w, front, c, t, s);
      if ev.Restarted? {
        RestartIsInvisible(Run(w, front, c), c);
      } else {
        RecordKeepsConsistent(Run(w, front, c), ev.round, ev.entries, ev.saved, c);
        RecordKeepsPaid(Run(w, front, c), ev.round, ev.entries, ev.saved, c);
      }
    }
    StreaksPaid(Run(w, evs, c), c, t, s);
  }

  lemma StreaksPaid(w: World, c: Settings, t: nat, s: Str)
    requires Consistent(w, c) && Paid(w, c) && c.threshold >= 1
    ensures var h := History(LogSamples(w.log), t, s);
            && RowsFor(w.slas, t, s) == FullThresholds(Streaks(h), c.threshold)
            && Failures(h) == c.threshold * RowsFor(w.slas, t, s) + Get(w.counters, t, s, 0) + Forgiven(h, c.threshold)
            && 0 <= Get(w.counters, t, s, 0) < c.threshold
  {
    var h := History(LogSamples(w.log), t, s);
    assert Settles(w, c, t, s);
    ViolationsPerStreak(h, c.threshold);
    Accounting(h, c.threshold);
    CounterBounds(h, c.threshold);
    GetFromTable(LogSamples(w.log), ResetAt(c.threshold), t, s, 0);
  }

  /** A crash can lose a violation for good: here one row is due, the crash
      comes before it is written, and the rebuilt counter owes nothing. */
  lemma CrashCanLoseAViolation() returns (w: World, ev: Event, c: Settings)
    ensures Consistent(w, c) && Paid(w, c) && c.threshold >= 1 && ev.Crashed? && CleanEvent(ev)
    ensures !Paid(Happen(w, ev, c), c)
  {
    c := Settings(1, 5);
    w := World([], [], [], map[], map[]);
    var e := Down(true);
    ev := Crashed(1, [e], 0);
    DueAtOnce(e, c);
    CrashPaidIff(w, 1, [e], 0, c);
  }

  /** So can an insert that fails: the error is written to the engine's own log
      and the counter goes back to zero. */
  lemma FailedInsertLosesAViolation() returns (w: World, ev: Event, c: Settings)
    ensures Consistent(w, c) && Paid(w, c) && c.threshold >= 1 && ev.Recorded? && CleanEvent(ev)
    ensures !Paid(Happen(w, ev, c), c)
  {
    c := Settings(1, 5);
    w := World([], [], [], map[], map[]);
    var e := Down(false);
    ev := Recorded(1, [e], true);
    DueAtOnce(e, c);
    PaidIffDueStored(w, 1, [e], true, c);
  }

  /** A failure of team 1's "w". */
  function Down(stored: bool): Entry { Entry(Result(Ticket(1, 1, [119], "Web"), false, 0, [], []), stored) }

  lemma DueAtOnce(e: Entry, c: Settings)
    requires !e.result.status && c.threshold == 1
    ensures DueAt([], [e], c, 0)
  {
    assert [] + RawSamples([e][..0]) == [];
  }
}
