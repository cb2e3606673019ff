/** Times in seconds and microseconds, kept in a normal form that comparisons rely on. */
module TimeValue {
  const MILLION := 1_000_000

  datatype Time = Time(sec: int, usec: int)

  const ZERO := Time(0, 0)

  /** The time a value stands for. */
  function Micros(t: Time): int {
    t.sec * MILLION + t.usec
  }

  /** What normalize establishes: both parts in range, and no negative microseconds after whole seconds. */
  predicate Normal(t: Time) {
    -MILLION < t.usec < MILLION && (t.sec >= 1 ==> t.usec >= 0)
  }

  /** The one normal form of a time that is not negative. */
  predicate Canonical(t: Time) {
    t.sec >= 0 && 0 <= t.usec < MILLION
  }

  /** Whole seconds move from the microseconds to the seconds, rounding toward zero. */
  function Carry(t: Time): (r: Time)
    ensures Micros(r) == Micros(t) && -MILLION < r.usec < MILLION
    ensures t.usec >= 0 ==> r.usec >= 0
    ensures t.usec <= 0 ==> r.usec <= 0
  {
    if t.usec >= 0 then Time(t.sec + t.usec / MILLION, t.usec % MILLION)
    else Time(t.sec - (-t.usec) / MILLION, -((-t.usec) % MILLION))
  }

  function Borrow(t: Time): Time {
    if t.sec >= 1 && t.usec < 0 then Time(t.sec - 1, t.usec + MILLION) else t
  }

  function Normalized(t: Time): (r: Time)
    ensures Micros(r) == Micros(t) && Normal(r)
  {
    Borrow(Carry(t))
  }

  function Plus(t: Time, u: Time): (r: Time)
    ensures Micros(r) == Micros(t) + Micros(u) && Normal(r)
  {
    Normalized(Time(t.sec + u.sec, t.usec + u.usec))
  }

  function Minus(t: Time, u: Time): (r: Time)
    ensures Micros(r) == Micros(t) - Micros(u) && Normal(r)
  {
    Normalized(Time(t.sec - u.sec, t.usec - u.usec))
  }

  /** The comparison operators look at the seconds first. */
  predicate Lt(t: Time, u: Time) {
    t.sec < u.sec || (t.sec == u.sec && t.usec < u.usec)
  }

  predicate Le(t: Time, u: Time) {
    t.sec < u.sec || (t.sec == u.sec && t.usec <= u.usec)
  }

  /** A normal time that is not negative is canonical, and that form is unique. */
  lemma CanonicalUnique(t: Time, u: Time)
    requires Normal(t)
    ensures Canonical(t) <==> Micros(t) >= 0
    ensures Canonical(t) && Canonical(u) ==> (t == u <==> Micros(t) == Micros(u))
  {}

  /**
   * Between canonical times, comparing is comparing numbers; so it is when only one of two normal times is
   * canonical.
   */
  lemma CompareIsNumeric(t: Time, u: Time)
    requires Normal(t) && Normal(u) && (Canonical(t) || Canonical(u))
    ensures Lt(t, u) <==> Micros(t) < Micros(u)
    ensures Le(t, u) <==> Micros(t) <= Micros(u)
  {}

  /** t is the earlier by its seconds, though its microseconds make it the later one, by more than `slack`. */
  predicate Misordered(t: Time, u: Time, slack: int) {
    t.sec + 1 == u.sec && t.usec - u.usec > MILLION + slack
  }

  /**
   * Exactly when comparing normal times is comparing numbers: unless they are a second apart, and the
   * microseconds of the earlier one are ahead by at least a million, or by more than one.
   */
  lemma ComparesExactly(t: Time, u: Time)
    requires Normal(t) && Normal(u)
    ensures (Lt(t, u) <==> Micros(t) < Micros(u)) <==> !Misordered(t, u, -1) && !Misordered(u, t, 0)
    ensures (Le(t, u) <==> Micros(t) <= Micros(u)) <==> !Misordered(t, u, 0) && !Misordered(u, t, -1)
    ensures Misordered(t, u, -1) ==> t.usec > 0 > u.usec && t.sec < 0 && Micros(u) <= Micros(t) < 0
  {}

  /** Two negative times, both normal, that compare against their numbers. */
  lemma NegativesMisorder()
    ensures exists t, u :: Normal(t) && Normal(u) && Lt(t, u) && Micros(t) > Micros(u)
  {
    var t, u := Time(-2, 999_999), Time(-1, -999_999);
    assert Normal(t) && Normal(u) && Lt(t, u) && Micros(t) > Micros(u);
  }

  // ---------- The class ----------

  class Value {
    var sec: int
    var usec: int

    function Get(): Time
      reads this
    {
      Time(sec, usec)
    }

    constructor (s: int, us: int)
      ensures Get() == Normalized(Time(s, us))
    {
      sec, usec := s, us;
      new;
      Normalize();
    }

    /** The loops subtract a second at a time. */
    method Normalize()
      modifies this
      ensures Get() == Normalized(old(Get()))
    {
      ghost var was := Get();
      if usec >= MILLION {
        sec, usec := sec + 1, usec - MILLION;
        while usec >= MILLION
          invariant usec >= 0 && Micros(Get()) == Micros(was)
        {
          sec, usec := sec + 1, usec - MILLION;
        }
      } else if usec <= -MILLION {
        sec, usec := sec - 1, usec + MILLION;
        while usec <= -MILLION
          invariant usec <= 0 && Micros(Get()) == Micros(was)
        {
          sec, usec := sec - 1, usec + MILLION;
        }
      }
      if sec >= 1 && usec < 0 {
        sec, usec := sec - 1, usec + MILLION;
      }
    }

    method Set(s: int, us: int)
      modifies this
      ensures Get() == Normalized(Time(s, us))
    {
      sec, usec := s, us;
      Normalize();
    }

    method Add(tv: Time)
      modifies this
      ensures Get() == Plus(old(Get()), tv)
    {
      sec, usec := sec + tv.sec, usec + tv.usec;
      Normalize();
    }

    method Subtract(tv: Time)
      modifies this
      ensures Get() == Minus(old(Get()), tv)
    {
      sec, usec := sec - tv.sec, usec - tv.usec;
      Normalize();
    }
  }
}
