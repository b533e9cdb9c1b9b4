/** The engine's collection loop, on any stream of what it can meet. */
module Collection {
  import opened Wire
  import P = Protocol
  import S = ProtocolSafety
  import L = ProtocolLeftovers

  /** One turn of the loop: a message on the events channel, or what the
      blocking pop gave. */
  datatype Event =
    | ResetMessage
    | OtherMessage
    | Popped(raw: Raw)
    | ShortReply
    | DeadlinePassed
    | PopFailed

  /** Handed: what goes on to be processed, nothing after a timeout.
      Waiting: the stream is over and the loop is not. */
  datatype Outcome = Handed(results: seq<Result>) | Aborted | Waiting

  predicate Stops(e: Event) { e.ResetMessage? || e.DeadlinePassed? }

  predicate NoStop(events: seq<Event>) { forall e | e in events :: !Stops(e) }

  /** The entries popped, in order. */
  function Raws(events: seq<Event>): seq<Raw> {
    if events == [] then []
    else
      var e := events[|events| - 1];
      Raws(events[..|events| - 1]) + (if e.Popped? then [e.raw] else [])
  }

  /** The results of this round among them. */
  function Kept(events: seq<Event>, round: nat): seq<Result> {
    Current(Raws(events), round)
  }

  lemma KeptOne(events: seq<Event>, i: nat, round: nat)
    requires i < |events|
    ensures Kept(events[..i + 1], round) == Kept(events[..i], round) +
            (if events[i].Popped? && events[i].raw.Good? && events[i].raw.result.ticket.round == round
             then [events[i].raw.result] else [])
  {
    var a, b := events[..i], events[..i + 1];
    assert b[..|b| - 1] == a && b[|b| - 1] == events[i];
    if events[i].Popped? {
      assert Raws(b) == Raws(a) + [events[i].raw];
      assert Raws(b)[..|Raws(b)| - 1] == Raws(a);
    } else {
      assert Raws(b) == Raws(a);
    }
  }

  /** What the outcome must be, given how much of the stream was used. */
  ghost predicate Decides(events: seq<Event>, round: nat, runners: nat, out: Outcome, used: nat)
    requires used <= |events|
  {
    match out
    case Handed(rs) =>
      if |Kept(events[..used], round)| == runners && NoStop(events[..used]) then
        && rs == Kept(events[..used], round)
        && (used > 0 ==> |Kept(events[..used - 1], round)| < runners)
      else
        && used > 0 && events[used - 1].DeadlinePassed? && rs == []
        && NoStop(events[..used - 1]) && |Kept(events[..used - 1], round)| < runners
    case Aborted =>
      && used > 0 && events[used - 1].ResetMessage?
      && NoStop(events[..used - 1]) && |Kept(events[..used - 1], round)| < runners
    case Waiting =>
      used == |events| && NoStop(events) && |Kept(events, round)| < runners
  }

  method Collect(events: seq<Event>, round: nat, runners: nat) returns (out: Outcome, used: nat)
    ensures used <= |events|
    ensures Decides(events, round, runners, out, used)
  {
    var results: seq<Result> := [];
    var i := 0;
    used := 0;
    while i < runners
      invariant used <= |events| && i == |results| <= runners
      invariant NoStop(events[..used])
      invariant results == Kept(events[..used], round)
      invariant used > 0 ==> |Kept(events[..used - 1], round)| < runners
      decreases |events| - used
    {
      if used == |events| {
        assert events[..used] == events;
        return Waiting, used;
      }
      var e := events[used];
      KeptOne(events, used, round);
      assert events[..used + 1] == events[..used] + [e];
      used := used + 1;
      if e.ResetMessage? {
        return Aborted, used;
      } else if e.DeadlinePassed? {
        assert e in events[..used];
        return Handed([]), used;
      } else if e.Popped? && e.raw.Good? && e.raw.result.ticket.round == round {
        results := results + [e.raw.result];
        i := i + 1;
      }
    }
    out := Handed(results);
  }

  lemma {:induction false} KeptGrows(events: seq<Event>, n: nat, round: nat)
    requires n <= |events|
    ensures Kept(events[..n], round) <= Kept(events, round)
    decreases |events| - n
  {
    if n == |events| {
      assert events[..n] == events;
    } else {
      KeptOne(events, n, round);
      KeptGrows(events, n + 1, round);
    }
  }

  /** Whatever the stream, the loop hands on nothing or exactly the first
      `runners` results of the round, in the order they came. */
  lemma HandsOnAllOrNothing(events: seq<Event>, round: nat, runners: nat, out: Outcome, used: nat)
    requires used <= |events| && Decides(events, round, runners, out, used)
    ensures out.Handed? && out.results != [] ==>
            |Kept(events, round)| >= runners && out.results == Kept(events, round)[..runners]
    ensures forall r | out.Handed? && r in out.results :: r.ticket.round == round
  {
    KeptGrows(events, used, round);
    CurrentIsCurrent(Raws(events[..used]), round);
  }

  lemma KeptPrefix(events: seq<Event>, n: nat, m: nat, round: nat)
    requires n <= |events| && m <= |events|
    ensures n <= m ==> Kept(events[..n], round) <= Kept(events[..m], round)
  {
    if n <= m {
      KeptGrows(events[..m], n, round);
      assert events[..m][..n] == events[..n];
    }
  }

  /** Neither a reset message nor the deadline comes before place n. */
  predicate Quiet(events: seq<Event>, n: nat)
    requires n <= |events|
  {
    forall j | 0 <= j < n :: !events[j].ResetMessage? && !events[j].DeadlinePassed?
  }

  lemma QuietSoFar(events: seq<Event>, i: nat, n: nat)
    requires i <= |events| && n <= |events| && Quiet(events, i)
    ensures n <= i ==> NoStop(events[..n])
  {
  }

  lemma StopSeen(events: seq<Event>, i: nat, n: nat)
    requires i < |events| && n <= |events| && Stops(events[i])
    ensures i < n ==> !NoStop(events[..n])
  {
    if i < n { assert events[..n][i] == events[i]; }
  }

  /** Which event ends the loop: nothing before the counts meet, the deadline or
      a reset, and none of these later than the first. */
  lemma UsedIsFirst(events: seq<Event>, round: nat, runners: nat, out: Outcome, used: nat, i: nat)
    requires used <= |events| && Decides(events, round, runners, out, used) && i < |events|
    requires Quiet(events, i) && |Kept(events[..i], round)| < runners && (events[i].ResetMessage? || events[i].DeadlinePassed?)
    ensures used == i + 1
  {
    var before := if used > 0 then used - 1 else 0;
    QuietSoFar(events, i, used);
    StopSeen(events, i, used);
    StopSeen(events, i, before);
    StopSeen(events, i, |events|);
    KeptPrefix(events, used, i, round);
    assert events[..|events|] == events;
  }

  /** A reset before the counts meet ends the round, and nothing is handed on. */
  lemma ResetHandsNothing(events: seq<Event>, round: nat, runners: nat, out: Outcome, used: nat, i: nat)
    requires used <= |events| && Decides(events, round, runners, out, used) && i < |events|
    requires Quiet(events, i) && |Kept(events[..i], round)| < runners && events[i].ResetMessage?
    ensures out.Aborted? && used == i + 1
  {
    UsedIsFirst(events, round, runners, out, used, i);
    StopSeen(events, i, used);
    StopSeen(events, i, |events|);
    assert events[..|events|] == events;
  }

  /** The deadline before the counts meet: the round goes on to its end with no
      results. */
  lemma DeadlineHandsNothing(events: seq<Event>, round: nat, runners: nat, out: Outcome, used: nat, i: nat)
    requires used <= |events| && Decides(events, round, runners, out, used) && i < |events|
    requires Quiet(events, i) && |Kept(events[..i], round)| < runners && events[i].DeadlinePassed?
    ensures out == Handed([]) && used == i + 1
  {
    UsedIsFirst(events, round, runners, out, used, i);
    StopSeen(events, i, used);
    StopSeen(events, i, |events|);
    assert events[..|events|] == events;
  }

  /** The counts meet first: all results of the round so far are handed on, and
      no further event is used. */
  lemma FullHandsOn(events: seq<Event>, round: nat, runners: nat, out: Outcome, used: nat, i: nat)
    requires used <= |events| && Decides(events, round, runners, out, used) && i <= |events|
    requires Quiet(events, i) && |Kept(events[..i], round)| == runners && (i > 0 ==> |Kept(events[..i - 1], round)| < runners)
    ensures out == Handed(Kept(events[..i], round)) && used == i
  {
    var before, last := if used > 0 then used - 1 else 0, if i > 0 then i - 1 else 0;
    QuietSoFar(events, i, used);
    KeptPrefix(events, used, last, round);
    KeptPrefix(events, i, before, round);
    KeptPrefix(events, i, used, round);
    assert events[..|events|] == events;
  }

  lemma {:induction false} CurrentIsCurrent(raws: seq<Raw>, round: nat)
    ensures forall r | r in Current(raws, round) :: r.ticket.round == round
  {
    if raws != [] { CurrentIsCurrent(raws[..|raws| - 1], round); }
  }

  /** The loop is the protocol's Take step over and over: as many takes as
      entries popped collect the same results. */
  lemma {:induction false} TakesCollectCurrent(s: P.State, k: nat) returns (steps: seq<P.Step>)
    requires s.phase.Collecting? && k <= |s.results|
    requires k > 0 ==> |s.collected| + |Current(s.results[..k - 1], s.round)| < |s.sent|
    ensures P.Valid(s, steps) && S.NoRestart(steps)
    ensures P.Exec(s, steps) ==
            s.(results := s.results[k..], collected := s.collected + Current(s.results[..k], s.round))
    decreases k
  {
    if k == 0 {
      steps := [];
      assert s.collected + [] == s.collected;
    } else {
      if k > 1 { FewerKept(s.results, k - 2, s.round); }
      var before := TakesCollectCurrent(s, k - 1);
      OneMoreTake(s, k);
      S.Single(Taken(s, k - 1), P.Take);
      L.Compose(s, before, [P.Take]);
      steps := before + [P.Take];
    }
  }

  /** The state after k takes. */
  function Taken(s: P.State, k: nat): P.State
    requires k <= |s.results|
  {
    s.(results := s.results[k..], collected := s.collected + Current(s.results[..k], s.round))
  }

  lemma OneMoreTake(s: P.State, k: nat)
    requires 0 < k <= |s.results| && P.Enabled(Taken(s, k - 1), P.Take)
    ensures P.Apply(Taken(s, k - 1), P.Take) == Taken(s, k)
  {
    var front, last := s.results[..k], s.results[k - 1];
    assert front[..k - 1] == s.results[..k - 1] && front[k - 1] == last;
    assert s.results[k - 1..][0] == last && s.results[k - 1..][1..] == s.results[k..];
    var kept := Current(front[..k - 1], s.round);
    if last.Good? {
      assert s.collected + (kept + [last.result]) == (s.collected + kept) + [last.result];
    }
    assert kept + [] == kept;
  }

  lemma FewerKept(raws: seq<Raw>, k: nat, round: nat)
    requires k < |raws|
    ensures |Current(raws[..k], round)| <= |Current(raws[..k + 1], round)|
  {
    assert raws[..k + 1][..k] == raws[..k];
  }
}
