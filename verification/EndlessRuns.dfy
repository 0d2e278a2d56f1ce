/** Runs without end, for what happens eventually. */
module EndlessRuns {
  import opened Bytes
  import opened Multiplexer

  /** An endless run: `at(i)` is the state at moment i, and `does(i)` the step taken then, by any thread; None
      is a moment in which nothing happens. */
  ghost predicate IsRun(at: nat -> World, does: nat -> Option<Step>) {
    Inv(at(0)) && forall i: nat :: Inv(at(i)) ==> Moment(at(i), does(i), at(i + 1))
  }

  ghost predicate Moment(w: World, s: Option<Step>, w': World)
    requires Inv(w)
  {
    if s.None? then w' == w else Enabled(w, s.value) && w' == Apply(w, s.value)
  }

  /** From moment i on, step `h` does not stay enabled for ever without being taken. */
  ghost predicate Served(at: nat -> World, does: nat -> Option<Step>, h: Step, i: nat) {
    exists j: nat :: i <= j && TakenOrNot(at(j), does(j), h)
  }

  ghost predicate TakenOrNot(w: World, s: Option<Step>, h: Step) { s == Some(h) || !Enabled(w, h) }

  lemma {:induction false} RunInv(at: nat -> World, does: nat -> Option<Step>, i: nat)
    requires IsRun(at, does)
    ensures Inv(at(i)) && Moment(at(i), does(i), at(i + 1))
  {
    hide Inv;
    if i > 0 {
      RunInv(at, does, i - 1);
      if does(i - 1).Some? { StepInv(at(i - 1), does(i - 1).value); }
    }
  }
}
