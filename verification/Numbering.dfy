/** Round numbers: the next one is after the largest recorded. */
module Numbering {

  function MaxRound(rounds: seq<nat>): (n: nat)
    ensures forall r | r in rounds :: r <= n
    ensures n == 0 || n in rounds
  {
    if rounds == [] then 0
    else
      var n, r := MaxRound(rounds[..|rounds| - 1]), rounds[|rounds| - 1];
      assert rounds == rounds[..|rounds| - 1] + [r];
      if r > n then r else n
  }
}
