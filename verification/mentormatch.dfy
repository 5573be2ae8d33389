/**
 * The landing page with sign-up and session history (back/main.js): a
 * controller object holding the signed-in user and the session list, with a
 * search box, a sort box and the rating and hours figures.
 */
module MentorMatch {
  import opened Records
  import opened Text
  import opened Stats
  import Seqs

  /** The user object the sign-up endpoint returns in `data`. */
  datatype User = User(id: int, email: string)

  /**
   * What the sign-up request came back with: a decoded envelope
   * `{success, data, error}`, or an exception from `fetch` or from decoding
   * the body.
   */
  datatype RegisterReply = Reply(success: bool, data: Option<User>, error: string) | Thrown

  /**
   * A session matches when its mentor or topic contains the query, ignoring
   * case; the empty query matches every session.
   */
  predicate SessionMatches(s: Session, query: string)
    ensures SessionMatches(s, query) <==>
              (exists i :: OccursAt(Lower(s.mentor), Lower(query), i))
              || (exists i :: OccursAt(Lower(s.topic), Lower(query), i))
    ensures query == "" ==> SessionMatches(s, query)
  {
    ContainsIffOccurs(Lower(s.mentor), Lower(query));
    ContainsIffOccurs(Lower(s.topic), Lower(query));
    var q := Lower(query);
    Contains(Lower(s.mentor), q) || Contains(Lower(s.topic), q)
  }

  function MatchesQuery(query: string): Session -> bool
  {
    s => SessionMatches(s, query)
  }

  /**
   * The sort key behind each criterion of the session sort box; the source's
   * comparator is `SessionKey(a) - SessionKey(b)` (see SessionComparator).
   * There is no ascending rating criterion: "rating-asc" falls to the default.
   */
  function SessionKey(criteria: string, s: Session): int
  {
    if criteria == "date-desc" then -DateOrd(s.date)
    else if criteria == "date-asc" then DateOrd(s.date)
    else if criteria == "rating-desc" then -s.rating
    else 0
  }

  function SessionOrder(criteria: string): Session -> int
  {
    s => SessionKey(criteria, s)
  }

  /** The comparator passed to `sort`, case by case as the `switch` spells it. */
  function SessionComparator(criteria: string, a: Session, b: Session): (d: int)
    ensures d == SessionKey(criteria, a) - SessionKey(criteria, b)
  {
    match criteria
    case "date-desc" => DateOrd(b.date) - DateOrd(a.date)
    case "date-asc" => DateOrd(a.date) - DateOrd(b.date)
    case "rating-desc" => b.rating - a.rating
    case _ => 0
  }

  /** With no two sessions on the same day, "date-desc" is exactly the reverse of "date-asc". */
  lemma DateDescReversesDateAsc(sessions: seq<Session>)
    requires forall i, j :: 0 <= i < j < |sessions| ==> DateOrd(sessions[i].date) != DateOrd(sessions[j].date)
    ensures Seqs.SortByKey(sessions, SessionOrder("date-desc"))
         == Seqs.Reverse(Seqs.SortByKey(sessions, SessionOrder("date-asc")))
  {
    Seqs.OppositeSorts(sessions, SessionOrder("date-asc"), SessionOrder("date-desc"));
  }

  /** The sessions `loadMockData` installs. */
  function MockSessions(): seq<Session>
  {
    [ Session(1, Date(2024, 1, 15), "Дмитрий", "JavaScript Basics", 2.0, 5),
      Session(2, Date(2024, 1, 10), "Ярослав", "C++ Advanced", 1.5, 4),
      Session(3, Date(2024, 1, 5), "Энн", "CSS Grid", 2.0, 5) ]
  }

  /**
   * The mock sessions have the distinct ids 1, 2, 3, last 5.5 hours in all,
   * and their ratings sum to 14, shown as the mean 4.7.
   */
  lemma MockSessionsFacts()
    ensures |MockSessions()| == 3
    ensures forall i :: 0 <= i < 3 ==> MockSessions()[i].id == i + 1
    ensures TotalHours(MockSessions()) == 5.5
    ensures RatingSum(MockSessions()) == 14
    ensures ToFixedTenths(MeanRating(MockSessions())) == 47
  {
    var s := MockSessions();
    var p1 := [] + [s[0]];
    var p2 := p1 + [s[1]];
    var p3 := p2 + [s[2]];
    Snoc([], s[0]);
    Snoc(p1, s[1]);
    Snoc(p2, s[2]);
    assert p3 == s;
    assert MeanRating(s) == 14.0 / 3.0;
  }

  class MentorMatchApp {
    var currentUser: Option<User>
    var sessions: seq<Session>

    /** Nobody is signed in; the start-up sequence loads the mock sessions. */
    constructor ()
      ensures currentUser == None && sessions == MockSessions()
    {
      currentUser := None;
      sessions := MockSessions();
    }

    method LoadMockData()
      modifies this
      ensures sessions == MockSessions() && currentUser == old(currentUser)
    {
      sessions := MockSessions();
    }

    /**
     * The sign-up form: the returned user becomes the current one only on a
     * reply with `success` set; a rejected reply shows its error message and
     * an exception shows a connection error, both leaving the user as it was.
     */
    method HandleRegister(reply: RegisterReply) returns (notice: Notice)
      modifies this
      ensures reply.Reply? && reply.success ==>
                currentUser == reply.data && notice == Notice("Регистрация успешна!", Success)
      ensures reply.Reply? && !reply.success ==>
                currentUser == old(currentUser) && notice == Notice(reply.error, Error)
      ensures reply.Thrown? ==>
                currentUser == old(currentUser) && notice == Notice("Ошибка соединения", Error)
      ensures sessions == old(sessions)
    {
      match reply
      case Thrown =>
        notice := Notice("Ошибка соединения", Error);
      case Reply(success, data, error) =>
        if success {
          currentUser := data;
          notice := Notice("Регистрация успешна!", Success);
        } else {
          notice := Notice(error, Error);
        }
    }

    /** Signing out always clears the current user. */
    method HandleLogout() returns (notice: Notice)
      modifies this
      ensures currentUser == None && sessions == old(sessions)
      ensures notice == Notice("Вы вышли из системы", Info)
    {
      currentUser := None;
      notice := Notice("Вы вышли из системы", Info);
    }

    /**
     * The search box: the sessions matching the query, in list order; the
     * list itself is left alone (no `modifies` clause).
     */
    method FilterSessions(query: string) returns (view: seq<Session>)
      ensures view == Seqs.Filter(sessions, MatchesQuery(query))
      ensures Seqs.IsSubsequence(view, sessions)
      ensures forall s :: s in view <==> s in sessions && SessionMatches(s, query)
      ensures forall s :: multiset(view)[s] == if SessionMatches(s, query) then multiset(sessions)[s] else 0
      ensures query == "" ==> view == sessions
    {
      var p := MatchesQuery(query);
      view := Seqs.Filter(sessions, p);
      Seqs.FilterIsSubsequence(sessions, p);
      forall s ensures (s in view <==> s in sessions && SessionMatches(s, query))
                   && multiset(view)[s] == if SessionMatches(s, query) then multiset(sessions)[s] else 0
      {
        Seqs.FilterMembership(sessions, p, s);
        Seqs.FilterCount(sessions, p, s);
      }
      if query == "" {
        Seqs.FilterKeepsAll(sessions, p);
      }
    }

    /**
     * The sort box: a sorted copy of the sessions, a permutation of the list
     * ordered as the criterion asks with ties in list order; every other
     * criterion, "rating-asc" included, leaves the order as it is.
     */
    method SortSessions(criteria: string) returns (view: seq<Session>)
      ensures view == Seqs.SortByKey(sessions, SessionOrder(criteria))
      ensures multiset(view) == multiset(sessions)
      ensures Seqs.SameTies(view, sessions, SessionOrder(criteria))
      ensures criteria == "date-desc" ==>
                forall i, j :: 0 <= i < j < |view| ==> DateOrd(view[i].date) >= DateOrd(view[j].date)
      ensures criteria == "date-asc" ==>
                forall i, j :: 0 <= i < j < |view| ==> DateOrd(view[i].date) <= DateOrd(view[j].date)
      ensures criteria == "rating-desc" ==>
                forall i, j :: 0 <= i < j < |view| ==> view[i].rating >= view[j].rating
      ensures criteria !in {"date-desc", "date-asc", "rating-desc"} ==> view == sessions
      ensures forall i, j :: 0 <= i < j < |view| ==> SessionComparator(criteria, view[i], view[j]) <= 0
    {
      var key := SessionOrder(criteria);
      view := Seqs.SortByKey(sessions, key);
      Seqs.SortByKeyCorrect(sessions, key);
      assert forall i, j :: 0 <= i < j < |view| ==> SessionKey(criteria, view[i]) <= SessionKey(criteria, view[j]);
      if criteria !in {"date-desc", "date-asc", "rating-desc"} {
        Seqs.SortByConstantKey(sessions, key, 0);
      }
    }

    /**
     * The rating figure: 0 with no sessions, otherwise the mean rating to
     * one decimal (in tenths), which lies between the lowest and the highest rating.
     */
    method CalculateAverageRating() returns (tenths: int)
      ensures sessions == [] ==> tenths == 0
      ensures sessions != [] ==> tenths == ToFixedTenths(RatingSum(sessions) as real / |sessions| as real)
      ensures sessions != [] ==> 10 * MinRating(sessions) <= tenths <= 10 * MaxRating(sessions)
    {
      if |sessions| == 0 {
        return 0;
      }
      tenths := ToFixedTenths(MeanRating(sessions));
      var lo, hi := MinRating(sessions), MaxRating(sessions);
      MeanRatingBounds(sessions, lo, hi);
      ToFixedTenthsBounds(MeanRating(sessions), lo, hi);
    }

    /** The hours figure: the sum of durations, 0 with no sessions and never negative for non-negative durations. */
    method CalculateTotalHours() returns (hours: real)
      ensures hours == TotalHours(sessions)
      ensures sessions == [] ==> hours == 0.0
      ensures (forall i :: 0 <= i < |sessions| ==> sessions[i].duration >= 0.0) ==> hours >= 0.0
    {
      hours := TotalHours(sessions);
    }
  }
}
