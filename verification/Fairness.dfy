/** A proof rule for termination under weak fairness. */
module Fairness {

  /**
    A process in time: whether it is still stopping, whether it is over, the two parts of its
    measure, and for each stage whether the actor of that stage can act and whether it acts.
   */
  datatype Watched = Watched(
    stops: nat -> bool,
    over: nat -> bool,
    stage: nat -> nat,
    rest: nat -> nat,
    can: (nat, nat) -> bool,
    acts: (nat, nat) -> bool)

  ghost predicate Below(w: Watched, t: nat, u: nat) {
    w.stage(u) < w.stage(t) || (w.stage(u) == w.stage(t) && w.rest(u) < w.rest(t))
  }

  ghost predicate AtMost(w: Watched, t: nat, u: nat) {
    w.stage(u) < w.stage(t) || (w.stage(u) == w.stage(t) && w.rest(u) <= w.rest(t))
  }

  /**
    One step of a stopping process: it is over or still stopping with no larger measure, its
    stage's actor can act, and if that actor acts the measure falls.
   */
  ghost predicate StepsWell(w: Watched, t: nat) {
    w.stops(t) ==>
      && w.can(w.stage(t), t)
      && (w.over(t + 1) || (w.stops(t + 1) && AtMost(w, t, t + 1)))
      && (w.stops(t + 1) && w.acts(w.stage(t), t) ==> Below(w, t, t + 1))
  }

  /** From t on the actor of the stage is at some time unable to act, or acts. */
  ghost predicate IsAttended(w: Watched, stage: nat, t: nat) {
    exists m: nat :: t <= m && (w.can(stage, m) ==> w.acts(stage, m))
  }

  lemma {:induction false} Along(w: Watched, n: nat, m: nat) returns (j: nat)
    requires n <= m && w.stops(n) && forall t: nat :: StepsWell(w, t)
    ensures n <= j && (w.over(j) || (j == m && w.stops(m) && AtMost(w, n, m)))
    decreases m
  {
    j := n;
    if n < m {
      j := Along(w, n, m - 1);
      assert StepsWell(w, m - 1);
      if !w.over(j) {
        j := m;
      }
    }
  }

  /** A stopping process whose actors are all attended to is over some day. */
  lemma {:induction false} EventuallyOver(w: Watched, n: nat) returns (m: nat)
    requires w.stops(n)
    requires forall t: nat :: StepsWell(w, t)
    requires forall stage: nat, t: nat :: IsAttended(w, stage, t)
    ensures n <= m && w.over(m)
    decreases w.stage(n), w.rest(n)
  {
    var stage := w.stage(n);
    assert IsAttended(w, stage, n);
    var t: nat :| n <= t && (w.can(stage, t) ==> w.acts(stage, t));
    m := Along(w, n, t);
    if !w.over(m) {
      assert StepsWell(w, t);
      if w.over(t + 1) {
        m := t + 1;
      } else {
        m := EventuallyOver(w, if Below(w, n, t) then t else t + 1);
      }
    }
  }
}
