/** The worker's result retry loop against any sequence of answers. */
module ResultRetry {

  /** What one submission came to; an unauthenticated one is followed by an attempt to refresh the token. */
  datatype Answer = Committed | NotCommitted | Failed | Unauthenticated(refreshed: bool)

  /** One turn of the loop: whether the job is no longer active at its start, the answer, and whether the context ended
      in the pause before the next turn. */
  datatype Turn = Turn(gone: bool, answer: Answer, cancelled: bool)
  {
    predicate Refreshes() {
      answer == Unauthenticated(true)
    }

    /** The turn uses up one of the attempts. */
    predicate Counts() {
      !answer.Committed? && !Refreshes()
    }

    /** The loop goes on after it as far as the attempts allow. */
    predicate GoesOn() {
      !gone && !answer.Committed? && (Counts() ==> !cancelled)
    }
  }

  datatype Exit = Sent | GivenUp | Vanished | Cancelled | Running

  /** The loop from attempt number `attempt`; Running when the answers end before the loop does. */
  function ExitOf(max: int, attempt: int, turns: seq<Turn>): Exit
    decreases |turns|
  {
    if attempt > max then GivenUp
    else if turns == [] then Running
    else if turns[0].gone then Vanished
    else if turns[0].answer.Committed? then Sent
    else if turns[0].Refreshes() then ExitOf(max, attempt, turns[1..])
    else if attempt == max then GivenUp
    else if turns[0].cancelled then Cancelled
    else ExitOf(max, attempt + 1, turns[1..])
  }

  function Counted(turns: seq<Turn>): nat {
    if turns == [] then 0 else (if turns[0].Counts() then 1 else 0) + Counted(turns[1..])
  }

  function Refreshed(turns: seq<Turn>): nat {
    if turns == [] then 0 else (if turns[0].Refreshes() then 1 else 0) + Refreshed(turns[1..])
  }

  predicate AllGoOn(turns: seq<Turn>) {
    forall i :: 0 <= i < |turns| ==> turns[i].GoesOn()
  }

  /** After `n` turns the loop is still going: none of them ended it, and attempts are left. */
  ghost predicate Alive(max: int, turns: seq<Turn>, n: nat) {
    n <= |turns| && AllGoOn(turns[..n]) && Counted(turns[..n]) < max
  }

  lemma {:induction false} Shift(max: int, attempt: int, turns: seq<Turn>, n: nat)
    requires 1 <= attempt && n <= |turns| && AllGoOn(turns[..n])
    requires Counted(turns[..n]) <= max - attempt
    ensures ExitOf(max, attempt, turns) == ExitOf(max, attempt + Counted(turns[..n]), turns[n..])
    decreases n
  {
    if n > 0 {
      assert turns[..n][1..] == turns[1..][..n - 1];
      assert turns[1..][n - 1..] == turns[n..];
      assert turns[..n][0] == turns[0];
      Shift(max, if turns[0].Counts() then attempt + 1 else attempt, turns[1..], n - 1);
    } else {
      assert turns[n..] == turns;
    }
  }

  /** How the loop ends is decided by the first turn that does not let it go on. */
  lemma FirstStopDecides(max: int, turns: seq<Turn>, n: nat)
    requires Alive(max, turns, n)
    ensures n == |turns| ==> ExitOf(max, 1, turns) == Running
    ensures n < |turns| && turns[n].gone ==> ExitOf(max, 1, turns) == Vanished
    ensures n < |turns| && !turns[n].gone && turns[n].answer.Committed? ==> ExitOf(max, 1, turns) == Sent
    ensures n < |turns| && !turns[n].gone && turns[n].Counts() && Counted(turns[..n]) + 1 == max ==> ExitOf(max, 1, turns) == GivenUp
    ensures n < |turns| && !turns[n].gone && turns[n].Counts() && Counted(turns[..n]) + 1 < max && turns[n].cancelled
            ==> ExitOf(max, 1, turns) == Cancelled
  {
    Shift(max, 1, turns, n);
  }

  lemma {:induction false} TurnsAdd(turns: seq<Turn>)
    requires AllGoOn(turns)
    ensures |turns| == Counted(turns) + Refreshed(turns)
  {
    if turns != [] {
      TurnsAdd(turns[1..]);
    }
  }

  lemma {:induction false} RunningGoesOn(max: int, attempt: int, turns: seq<Turn>)
    requires ExitOf(max, attempt, turns) == Running
    ensures AllGoOn(turns) && Counted(turns) <= max - attempt
    decreases |turns|
  {
    if turns != [] {
      RunningGoesOn(max, if turns[0].Counts() then attempt + 1 else attempt, turns[1..]);
    }
  }

  /** The loop is still running after some answers exactly when every one of them lets it go on and fewer than the maximum
      count. */
  lemma RunningIff(max: int, turns: seq<Turn>)
    requires max >= 1
    ensures ExitOf(max, 1, turns) == Running <==> Alive(max, turns, |turns|)
  {
    assert turns[..|turns|] == turns;
    if ExitOf(max, 1, turns) == Running {
      RunningGoesOn(max, 1, turns);
    }
    if Alive(max, turns, |turns|) {
      FirstStopDecides(max, turns, |turns|);
    }
  }

  /** So when at most R tokens are refreshed, the loop ends within the maximum plus R submissions. */
  lemma EndsWhenRefreshesDo(max: int, turns: seq<Turn>)
    requires max >= 1 && |turns| >= max + Refreshed(turns)
    ensures ExitOf(max, 1, turns) != Running
  {
    if ExitOf(max, 1, turns) == Running {
      RunningGoesOn(max, 1, turns);
      TurnsAdd(turns);
    }
  }

  const REFRESH: Turn := Turn(false, Unauthenticated(true), false)

  /** Without a bound on the refreshes there is no end: every refreshed turn is taken back. */
  lemma {:induction false} NeverEnds(max: int, n: nat)
    requires max >= 1
    ensures ExitOf(max, 1, seq(n, i => REFRESH)) == Running
  {
    if n > 0 {
      NeverEnds(max, n - 1);
      assert seq(n, i => REFRESH)[1..] == seq(n - 1, i => REFRESH);
    }
  }
}
