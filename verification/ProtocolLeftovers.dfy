/** Starting a round clears "tasks" but not "results", and a restarted engine
    reuses the number of a round that was never recorded, so a start can meet
    tickets of rounds still to come. Here: what it is to be trusted all the
    same, how runs are put together, and a restart that meets none. */
module ProtocolLeftovers {
  import opened Wire
  import opened Protocol
  import opened ProtocolSafety

  ghost predicate AlwaysExact(s: State) {
    forall steps | Valid(s, steps) && NoRestart(steps) :: OnlyExactSince(|s.records|, Exec(s, steps))
  }

  ghost predicate OnlyExactSince(base: nat, s: State) {
    forall i | base <= i < |s.records| :: Exact(s.records[i])
  }

  lemma Unfold(s: State, a: seq<Step>)
    requires Valid(s, a) && a != []
    ensures Enabled(s, a[0]) && Valid(Apply(s, a[0]), a[1..])
    ensures Exec(s, a) == Exec(Apply(s, a[0]), a[1..])
  {
  }

  lemma HeadAndRest(a: seq<Step>, b: seq<Step>)
    requires a != []
    ensures [a[0]] + (a[1..] + b) == a + b
  {
  }

  lemma Fold(s: State, a: seq<Step>, b: seq<Step>, end: State)
    requires a != [] && Enabled(s, a[0])
    requires Valid(Apply(s, a[0]), a[1..] + b) && Exec(Apply(s, a[0]), a[1..] + b) == end
    ensures Valid(s, a + b) && Exec(s, a + b) == end
  {
    Prefixed(s, a[0], a[1..] + b);
    HeadAndRest(a, b);
  }

  lemma {:induction false} Compose(s: State, a: seq<Step>, b: seq<Step>)
    requires Valid(s, a) && Valid(Exec(s, a), b)
    ensures Valid(s, a + b) && Exec(s, a + b) == Exec(Exec(s, a), b)
    decreases a
  {
    if a == [] {
      assert a + b == b;
    } else {
      Unfold(s, a);
      Compose(Apply(s, a[0]), a[1..], b);
      Fold(s, a, b, Exec(Exec(s, a), b));
    }
  }

  lemma NotHeld(ts: seq<Ticket>, t: Ticket)
    requires ts != [] && t in ts && t != ts[0]
    ensures t in ts[1..]
  {
  }

  /** A restart right after a recorded round starts without leftovers, when the
      incarnation before it did: all that is still around is older. */
  lemma RestartAfterRecordIsSafe(s: State, steps: seq<Step>)
    requires Inv(s) && s.phase.Idle? && NoLeftover(s) && Valid(s, steps) && NoRestart(steps)
    requires var s' := Exec(s, steps); s'.phase.Idle? && exists r | r in s'.records :: r.round + 1 == s'.round
    ensures var r := Apply(Exec(s, steps), Restart);
            r.round == Exec(s, steps).round && Inv(r) && NoLeftover(r)
  {
    RunIsSafe(s, steps, |s.records|);
    var s' := Exec(s, steps);
    StepKeepsInv(s', Restart);
    assert Stock(Apply(s', Restart)) == Stock(s');
  }
}
