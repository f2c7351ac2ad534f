/** `color_changer`: a coroutine that walks through consecutive pairs of a
    cycled colour list, yielding `transition` mixes per pair. Only the
    indices and the ratio are modelled; a yielded value names the two
    colours by position and the ratio as `step / transition`. */
module ColourSchedule {

  /** Mix `colours[from]` towards `colours[to]` with ratio `step / transition`. */
  datatype Mix = Mix(from: nat, to: nat, step: nat, transition: nat)

  /** Where the coroutine stands: not yet resumed, suspended at a yield
      inside pair `pair` at inner index `step`, or finished. */
  datatype Coroutine = Unstarted | SuspendedAt(pair: nat, step: nat) | Completed

  /** What one `resume` does. `Hangs` is the endless outer loop that never
      reaches a `yield` (a zero transition); resuming a finished coroutine
      panics. */
  datatype Resumed =
    | Yielded(mix: Mix, next: Coroutine)
    | Returned
    | Hangs
    | ResumedAfterCompletion

  /** A suspended coroutine sits inside a real pair at a real step. */
  predicate WellFormed(n: nat, t: nat, c: Coroutine) {
    c.SuspendedAt? ==> n > 0 && c.step < t
  }

  /** The value yielded in pair `p` at step `i`: the pairs come from zipping
      the cycled list with itself shifted by one. */
  function PairMix(n: nat, t: nat, p: nat, i: nat): Mix
    requires n > 0
  {
    Mix(p % n, (p + 1) % n, i, t)
  }

  /** One `resume` of the coroutine for `n` colours and transition `t`. */
  function Resume(n: nat, t: nat, c: Coroutine): (r: Resumed)
    requires WellFormed(n, t, c)
    ensures r.Yielded? ==> WellFormed(n, t, r.next) && r.next.SuspendedAt?
    ensures r.Yielded? ==> r.mix.from < n && r.mix.to < n && r.mix.step < r.mix.transition == t
    ensures r.Returned? <==> c.Unstarted? && n == 0
    ensures r.Hangs? <==> c.Unstarted? && n > 0 && t == 0
  {
    match c
    case Completed => ResumedAfterCompletion
    case Unstarted =>
      if n == 0 then Returned
      else if t == 0 then Hangs
      else Yielded(PairMix(n, t, 0, 0), SuspendedAt(0, 0))
    case SuspendedAt(p, i) =>
      if i + 1 < t then Yielded(PairMix(n, t, p, i + 1), SuspendedAt(p, i + 1))
      else Yielded(PairMix(n, t, p + 1, 0), SuspendedAt(p + 1, 0))
  }

  /** Resumes `k` times from the start, collecting the yielded values; stops
      early at the first resume that does not yield. */
  function Drive(n: nat, t: nat, k: nat): (r: (seq<Mix>, Coroutine))
    ensures WellFormed(n, t, r.1) && |r.0| <= k
    decreases k
  {
    if k == 0 then ([], Unstarted)
    else
      var (ys, c) := Drive(n, t, k - 1);
      match Resume(n, t, c)
      case Yielded(m, c') => (ys + [m], c')
      case _ => (ys, c)
  }

  /** The schedule in closed form: the `k`-th value (from 0) mixes colour
      `(k div t) mod n` towards the next one with ratio `(k mod t) / t`. */
  function Scheduled(n: nat, t: nat, k: nat): Mix
    requires n > 0 && t > 0
  {
    Mix((k / t) % n, (k / t + 1) % n, k % t, t)
  }

  /** Where the coroutine stands after `k` yields. */
  function Position(t: nat, k: nat): Coroutine
    requires t > 0
  {
    if k == 0 then Unstarted else SuspendedAt((k - 1) / t, (k - 1) % t)
  }

  /** Multiplying a larger factor by `t` gains at least `t`. */
  lemma {:induction false} MulGap(x: nat, y: nat, t: nat)
    requires x < y
    ensures x * t + t <= y * t
    decreases t
  {
    if t > 0 {
      MulGap(x, y, t - 1);
      assert x * t == x * (t - 1) + x;
      assert y * t == y * (t - 1) + y;
    }
  }

  /** Quotient and remainder are the only decomposition `a = q*t + r` with
      `0 <= r < t`. */
  lemma DivModUnique(a: nat, t: nat, q: nat, r: nat)
    requires t > 0 && r < t && a == q * t + r
    ensures a / t == q && a % t == r
  {
    var q', r' := a / t, a % t;
    assert a == q' * t + r';
    if q' > q {
      MulGap(q, q', t);
    } else if q' < q {
      MulGap(q', q, t);
    }
  }

  /** Resuming at the closed-form position yields the closed-form value and
      moves to the next position. */
  lemma ResumeFollowsSchedule(n: nat, t: nat, k: nat)
    requires n > 0 && t > 0
    ensures WellFormed(n, t, Position(t, k))
    ensures Resume(n, t, Position(t, k)) == Yielded(Scheduled(n, t, k), Position(t, k + 1))
  {
    if k == 0 {
      DivModUnique(0, t, 0, 0);
    } else {
      var q, r := (k - 1) / t, (k - 1) % t;
      if r + 1 < t {
        DivModUnique(k, t, q, r + 1);
      } else {
        DivModUnique(k, t, q + 1, 0);
      }
    }
  }

  /** For a non-empty list and a positive transition the coroutine never
      returns: `k` resumes yield exactly the first `k` scheduled values. */
  lemma {:induction false} DriveFollowsSchedule(n: nat, t: nat, k: nat)
    requires n > 0 && t > 0
    ensures Drive(n, t, k).1 == Position(t, k)
    ensures |Drive(n, t, k).0| == k
    ensures forall j :: 0 <= j < k ==> Drive(n, t, k).0[j] == Scheduled(n, t, j)
    decreases k
  {
    if k > 0 {
      DriveFollowsSchedule(n, t, k - 1);
      ResumeFollowsSchedule(n, t, k - 1);
    }
  }

  /** Every ratio lies in `[0, 1)`; the target colour of a pair is reached
      only as the ratio-0 start of the next pair. */
  lemma TargetReachedOnlyByNextPair(n: nat, t: nat, k: nat)
    requires n > 0 && t > 0
    ensures Scheduled(n, t, k).step < Scheduled(n, t, k).transition
    ensures var next := (k / t + 1) * t;
      && Scheduled(n, t, next).from == Scheduled(n, t, k).to
      && Scheduled(n, t, next).step == 0
  {
    DivModUnique((k / t + 1) * t, t, k / t + 1, 0);
  }

  /** With no colours the first resume returns, which the caller treats as
      a panic; with colours but a zero transition the first resume never
      comes back. */
  lemma DegenerateSchedules(n: nat, t: nat)
    ensures n == 0 ==> Resume(n, t, Unstarted) == Returned
    ensures n > 0 && t == 0 ==> Resume(n, t, Unstarted) == Hangs
  {
  }
}
