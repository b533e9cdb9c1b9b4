/** The values that travel between the engine and its runners. */
module Wire {
  import opened Utf8

  datatype Credential = Credential(username: Str, password: Str)

  /** What a task and its result have in common: who is checked, on what, and
      for which round. */
  datatype Ticket = Ticket(round: nat, team: nat, service: Str, kind: string)

  datatype Task = Task(ticket: Ticket, identifier: string, attempts: int, deadline: int,
                       credentials: seq<Credential>)

  datatype Result = Result(ticket: Ticket, status: bool, points: int, error: Str, debug: Str)

  /** An entry of the shared "results" list: a decodable result or not. */
  datatype Raw = Garbled | Good(result: Result)

  function Tickets(rs: seq<Result>): seq<Ticket> {
    seq(|rs|, i requires 0 <= i < |rs| => rs[i].ticket)
  }

  /** The results of one round, in order. */
  function Current(raws: seq<Raw>, round: nat): seq<Result> {
    if raws == [] then []
    else
      var last := raws[|raws| - 1];
      Current(raws[..|raws| - 1], round) +
      (if last.Good? && last.result.ticket.round == round then [last.result] else [])
  }

  /** Which results are of a round: those decoded, with its number, all of them
      and in order. */
  lemma CurrentOfOne(raw: Raw, round: nat)
    ensures Current([raw], round) == if raw.Good? && raw.result.ticket.round == round then [raw.result] else []
  {
    assert [raw][..0] == [];
  }

  lemma {:induction false} CurrentInOrder(a: seq<Raw>, b: seq<Raw>, round: nat)
    ensures Current(a + b, round) == Current(a, round) + Current(b, round)
  {
    if b == [] {
      assert a + b == a && Current(a, round) + [] == Current(a, round);
    } else {
      var last := Current([b[|b| - 1]], round);
      CurrentInOrder(a, b[..|b| - 1], round);
      CurrentInOrderStep(a, b, round);
      CurrentOfOne(b[|b| - 1], round);
      assert (Current(a, round) + Current(b[..|b| - 1], round)) + last == Current(a, round) + (Current(b[..|b| - 1], round) + last);
    }
  }

  lemma CurrentInOrderStep(a: seq<Raw>, b: seq<Raw>, round: nat)
    requires b != []
    ensures Current(a + b, round) == Current(a + b[..|b| - 1], round) + Current([b[|b| - 1]], round)
  {
    assert (a + b)[..|a + b| - 1] == a + b[..|b| - 1] && (a + b)[|a + b| - 1] == b[|b| - 1];
    CurrentOfOne(b[|b| - 1], round);
  }
}
