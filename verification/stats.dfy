/**
 * The aggregate figures shown above the session table: number of sessions,
 * total hours, mean rating and number of distinct mentors, and the
 * `toFixed(1)` rounding they are displayed with.
 */
module Stats {
  import opened Records

  /** `sessions.reduce((sum, s) => sum + s.duration, 0)`, folded from the left. */
  function TotalHours(s: seq<Session>): (h: real)
    ensures (forall i :: 0 <= i < |s| ==> s[i].duration >= 0.0) ==> h >= 0.0
  {
    if s == [] then 0.0 else TotalHours(s[..|s| - 1]) + s[|s| - 1].duration
  }

  /** `sessions.reduce((sum, s) => sum + s.rating, 0)`, folded from the left. */
  function RatingSum(s: seq<Session>): int
  {
    if s == [] then 0 else RatingSum(s[..|s| - 1]) + s[|s| - 1].rating
  }

  /**
   * The exact mean rating, and 0 for no sessions instead of a division by
   * zero: n sessions at the mean rating add up to the rating sum.
   */
  function MeanRating(s: seq<Session>): (m: real)
    ensures s == [] ==> m == 0.0
    ensures m * |s| as real == RatingSum(s) as real
  {
    if |s| == 0 then 0.0 else RatingSum(s) as real / |s| as real
  }

  /** The lowest rating among the sessions. */
  function MinRating(s: seq<Session>): (m: int)
    requires s != []
    ensures exists i :: 0 <= i < |s| && s[i].rating == m
    ensures forall i :: 0 <= i < |s| ==> m <= s[i].rating
  {
    if |s| == 1 then s[0].rating
    else var m := MinRating(s[1..]); if s[0].rating <= m then s[0].rating else m
  }

  /** The highest rating among the sessions. */
  function MaxRating(s: seq<Session>): (m: int)
    requires s != []
    ensures exists i :: 0 <= i < |s| && s[i].rating == m
    ensures forall i :: 0 <= i < |s| ==> s[i].rating <= m
  {
    if |s| == 1 then s[0].rating
    else var m := MaxRating(s[1..]); if m <= s[0].rating then s[0].rating else m
  }

  /** `new Set(sessions.map(s => s.mentor))`. */
  function MentorNames(s: seq<Session>): set<string>
  {
    if s == [] then {} else MentorNames(s[..|s| - 1]) + {s[|s| - 1].mentor}
  }

  /** One more session adds its duration, rating and mentor name. */
  lemma Snoc(s: seq<Session>, x: Session)
    ensures TotalHours(s + [x]) == TotalHours(s) + x.duration
    ensures RatingSum(s + [x]) == RatingSum(s) + x.rating
    ensures MentorNames(s + [x]) == MentorNames(s) + {x.mentor}
  {
    assert (s + [x])[..|s + [x]| - 1] == s;
  }

  lemma {:induction false} TotalHoursAppend(a: seq<Session>, b: seq<Session>)
    ensures TotalHours(a + b) == TotalHours(a) + TotalHours(b)
  {
    if b == [] {
      assert a + b == a;
    } else {
      assert (a + b)[..|a + b| - 1] == a + b[..|b| - 1];
      TotalHoursAppend(a, b[..|b| - 1]);
    }
  }

  /** With every rating within [lo, hi], the sum of n ratings lies within [n * lo, n * hi]. */
  lemma {:induction false} RatingSumBounds(s: seq<Session>, lo: int, hi: int)
    requires forall i :: 0 <= i < |s| ==> lo <= s[i].rating <= hi
    ensures lo * |s| <= RatingSum(s) <= hi * |s|
  {
    if s != [] {
      var n := |s|;
      RatingSumBounds(s[..n - 1], lo, hi);
      assert lo * (n - 1) + lo == lo * n;
      assert hi * (n - 1) + hi == hi * n;
    }
  }

  /** The mean of ratings within [lo, hi] stays within [lo, hi]. */
  lemma MeanRatingBounds(s: seq<Session>, lo: int, hi: int)
    requires s != []
    requires forall i :: 0 <= i < |s| ==> lo <= s[i].rating <= hi
    ensures lo as real <= MeanRating(s) <= hi as real
  {
    RatingSumBounds(s, lo, hi);
    var n := |s| as real;
    var sum := RatingSum(s) as real;
    assert (lo as real) * n <= sum <= (hi as real) * n;
    DivisionBounds(sum, n, lo as real, hi as real);
  }

  lemma DivisionBounds(sum: real, n: real, lo: real, hi: real)
    requires n > 0.0
    requires lo * n <= sum <= hi * n
    ensures lo <= sum / n <= hi
  {
  }

  /**
   * The number `x.toFixed(1)` displays, counted in tenths: the integer
   * nearest to 10 * x, halves rounded away from zero (toFixed works on
   * the magnitude and puts the sign back).
   */
  function ToFixedTenths(x: real): (n: int)
    ensures x >= 0.0 ==> 10.0 * x - 0.5 < n as real <= 10.0 * x + 0.5
    ensures x < 0.0 ==> 10.0 * x - 0.5 <= n as real < 10.0 * x + 0.5
  {
    if x >= 0.0 then (10.0 * x + 0.5).Floor else -((0.5 - 10.0 * x).Floor)
  }

  /** Rounding to tenths keeps a value between two whole numbers between them. */
  lemma ToFixedTenthsBounds(x: real, lo: int, hi: int)
    requires lo as real <= x <= hi as real
    ensures 10 * lo <= ToFixedTenths(x) <= 10 * hi
  {
  }

  lemma {:induction false} MentorNamesAre(s: seq<Session>)
    ensures MentorNames(s) == set i | 0 <= i < |s| :: s[i].mentor
  {
    if s != [] {
      var n := |s|;
      MentorNamesAre(s[..n - 1]);
      var prefix := s[..n - 1];
      assert (set i | 0 <= i < n :: s[i].mentor)
          == (set i | 0 <= i < n - 1 :: prefix[i].mentor) + {s[n - 1].mentor};
    }
  }

  /** There are never more distinct mentors than sessions, and at least one when there is a session. */
  lemma {:induction false} MentorNamesBound(s: seq<Session>)
    ensures |MentorNames(s)| <= |s|
    ensures s != [] ==> |MentorNames(s)| >= 1
  {
    if s != [] {
      MentorNamesBound(s[..|s| - 1]);
    }
  }

  /**
   * The four figures `updateStats` writes into the page: the count, the
   * hours and the mean rating to one decimal (as a number of tenths), and
   * the number of distinct mentors.
   */
  datatype StatsView = StatsView(totalSessions: nat, totalHoursTenths: int, avgRatingTenths: int, mentorsCount: nat)

  function ComputeStats(s: seq<Session>): (v: StatsView)
    ensures v.totalSessions == |s|
    ensures v.totalHoursTenths == ToFixedTenths(TotalHours(s))
    ensures s != [] ==> v.avgRatingTenths == ToFixedTenths(RatingSum(s) as real / |s| as real)
    ensures v.mentorsCount == |set i | 0 <= i < |s| :: s[i].mentor|
    ensures v.mentorsCount <= v.totalSessions
    ensures s == [] ==> v == StatsView(0, 0, 0, 0)
    ensures s != [] ==> 1 <= v.mentorsCount
  {
    MentorNamesAre(s);
    MentorNamesBound(s);
    StatsView(|s|, ToFixedTenths(TotalHours(s)),
              if |s| > 0 then ToFixedTenths(MeanRating(s)) else 0,
              |MentorNames(s)|)
  }

  /**
   * With ratings in 1..5 and no negative durations the figures are in range:
   * a mean rating shown between 1.0 and 5.0, and non-negative hours.
   */
  lemma StatsInRange(s: seq<Session>)
    requires forall i :: 0 <= i < |s| ==> 1 <= s[i].rating <= 5 && s[i].duration >= 0.0
    ensures s != [] ==> 10 <= ComputeStats(s).avgRatingTenths <= 50
    ensures ComputeStats(s).totalHoursTenths >= 0
  {
    if s != [] {
      MeanRatingBounds(s, 1, 5);
      ToFixedTenthsBounds(MeanRating(s), 1, 5);
    }
  }
}
