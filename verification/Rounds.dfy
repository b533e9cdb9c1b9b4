/** One round of the engine from end to end: enqueue, collect, record, and on
    to the next number. */
module Rounds {
  import opened Wire
  import opened Ledger
  import opened Engine
  import C = Collection
  import E = Enqueue
  import Config

  function Flags(stored: nat -> bool, n: nat): seq<bool> { seq(n, i requires 0 <= i < n => stored(i)) }

  ghost predicate NumberIsAhead(se: ScoringEngine)
    reads se
  {
    forall r | r in se.rounds :: r < se.currentRound
  }

  /** events: what the collection loop meets. stored(i): an SLA insert for the
      i-th result would work. Waiting means that the stream ended first; a reset
      message ends the engine loop. */
  method Rvb(se: ScoringEngine, teams: seq<E.Team>, checks: seq<Config.Check>, w: E.World, deadline: int,
             events: seq<C.Event>, saved: bool, stored: nat -> bool)
    returns (sent: seq<Task>, out: C.Outcome, used: nat)
    modifies se
    ensures E.IsPlan(sent, teams, checks, w, old(se.currentRound), deadline)
    ensures used <= |events| && C.Decides(events, old(se.currentRound), |sent|, out, used)
    ensures out.Handed? ==>
            && se.currentRound == old(se.currentRound) + 1
            && se.Now() == RecordRound(old(se.Now()), old(se.currentRound),
                                       Entries(out.results, Flags(stored, |out.results|)), saved, se.settings)
    ensures !out.Handed? ==> se.Now() == old(se.Now()) && se.currentRound == old(se.currentRound)
    ensures out.Handed? && (out.results == [] || !saved || old(se.currentRound in se.rounds)) ==> se.Now() == old(se.Now())
    ensures out.Handed? && out.results != [] && saved && old(se.currentRound !in se.rounds) ==>
            && se.rounds == old(se.rounds) + [old(se.currentRound)]
            && |se.checks| == |old(se.checks)| + |out.results|
    ensures old(NumberIsAhead(se)) ==> NumberIsAhead(se)
    ensures se.checks != old(se.checks) ==>
            && out.Handed? && |out.results| == |sent|
            && se.checks == old(se.checks) + RowsOf(old(se.currentRound), Entries(out.results, Flags(stored, |sent|)))
            && forall r | r in out.results :: r.ticket.round == old(se.currentRound)
  {
    var round := se.currentRound;
    var runners;
    sent, runners := E.Enqueue(teams, checks, w, round, deadline);
    out, used := C.Collect(events, round, runners);
    if out.Handed? {
      C.HandsOnAllOrNothing(events, round, runners, out, used);
      ghost var es := Entries(out.results, Flags(stored, |out.results|));
      RecordedLog(se.Now(), round, es, saved, se.settings);
      var _ := se.ProcessCollectedResults(out.results, saved, Flags(stored, |out.results|));
      se.currentRound := round + 1;
    }
  }
}
