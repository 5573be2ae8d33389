/**
 * The personal dashboard page (front/dashboard.js): a controller object that
 * owns the list of reviews and the list of sessions, derives filtered and
 * sorted views of the reviews, adds and removes reviews, and computes the
 * session statistics.
 */
module DashboardPage {
  import opened Records
  import opened Text
  import opened Stats
  import Seqs

  /**
   * A review matches when its title, text or mentor name contains the query,
   * ignoring case; the empty query matches every review.
   */
  predicate ReviewMatches(r: Review, query: string)
    ensures ReviewMatches(r, query) <==>
              (exists i :: OccursAt(Lower(r.title), Lower(query), i))
              || (exists i :: OccursAt(Lower(r.text), Lower(query), i))
              || (exists i :: OccursAt(Lower(r.mentorName), Lower(query), i))
    ensures query == "" ==> ReviewMatches(r, query)
  {
    ContainsIffOccurs(Lower(r.title), Lower(query));
    ContainsIffOccurs(Lower(r.text), Lower(query));
    ContainsIffOccurs(Lower(r.mentorName), Lower(query));
    var q := Lower(query);
    Contains(Lower(r.title), q) || Contains(Lower(r.text), q) || Contains(Lower(r.mentorName), q)
  }

  /** The callback handed to `filter` in the search box handler. */
  function MatchesQuery(query: string): Review -> bool
  {
    r => ReviewMatches(r, query)
  }

  /**
   * The sort key behind each criterion of the review sort box: the source's
   * comparator is `ReviewKey(a) - ReviewKey(b)` (see ReviewComparator), with
   * `new Date(d)` standing for DateOrd(d).
   */
  function ReviewKey(criteria: string, r: Review): int
  {
    if criteria == "newest" then -DateOrd(r.date)
    else if criteria == "oldest" then DateOrd(r.date)
    else if criteria == "rating-high" then -r.rating
    else if criteria == "rating-low" then r.rating
    else 0
  }

  function ReviewOrder(criteria: string): Review -> int
  {
    r => ReviewKey(criteria, r)
  }

  /** The comparator passed to `sort`, case by case as the `switch` spells it. */
  function ReviewComparator(criteria: string, a: Review, b: Review): (d: int)
    ensures d == ReviewKey(criteria, a) - ReviewKey(criteria, b)
  {
    match criteria
    case "newest" => DateOrd(b.date) - DateOrd(a.date)
    case "oldest" => DateOrd(a.date) - DateOrd(b.date)
    case "rating-high" => b.rating - a.rating
    case "rating-low" => a.rating - b.rating
    case _ => 0
  }

  /** With no two reviews on the same day, "newest" lists the reviews in exactly the reverse order of "oldest". */
  lemma NewestReversesOldest(reviews: seq<Review>)
    requires forall i, j :: 0 <= i < j < |reviews| ==> DateOrd(reviews[i].date) != DateOrd(reviews[j].date)
    ensures Seqs.SortByKey(reviews, ReviewOrder("newest"))
         == Seqs.Reverse(Seqs.SortByKey(reviews, ReviewOrder("oldest")))
  {
    Seqs.OppositeSorts(reviews, ReviewOrder("oldest"), ReviewOrder("newest"));
  }

  /** `reviews.filter(review => review.id !== reviewId)`. */
  function WithoutId(reviews: seq<Review>, id: int): (r: seq<Review>)
    ensures forall x: Review :: x in r <==> x in reviews && x.id != id
    ensures forall x: Review :: x.id != id ==> multiset(r)[x] == multiset(reviews)[x]
    ensures Seqs.IsSubsequence(r, reviews)
    ensures (forall i :: 0 <= i < |reviews| ==> reviews[i].id != id) ==> r == reviews
  {
    var keep := (x: Review) => x.id != id;
    assert Seqs.IsSubsequence(Seqs.Filter(reviews, keep), reviews)
      && ((forall i :: 0 <= i < |reviews| ==> reviews[i].id != id) ==> Seqs.Filter(reviews, keep) == reviews)
      && (forall x: Review :: x in Seqs.Filter(reviews, keep) <==> x in reviews && x.id != id)
      && (forall x: Review :: x.id != id ==> multiset(Seqs.Filter(reviews, keep))[x] == multiset(reviews)[x])
    by {
      Seqs.FilterIsSubsequence(reviews, keep);
      if forall i :: 0 <= i < |reviews| ==> reviews[i].id != id {
        Seqs.FilterKeepsAll(reviews, keep);
      }
      forall x: Review ensures (x in Seqs.Filter(reviews, keep) <==> x in reviews && x.id != id)
                    && (x.id != id ==> multiset(Seqs.Filter(reviews, keep))[x] == multiset(reviews)[x])
      {
        Seqs.FilterMembership(reviews, keep, x);
        Seqs.FilterCount(reviews, keep, x);
      }
    }
    Seqs.Filter(reviews, keep)
  }

  /** The position `reviews.find(r => r.id === reviewId)` stops at; |reviews| when nothing is found. */
  function FirstWithId(reviews: seq<Review>, id: int): (k: nat)
    ensures k <= |reviews|
    ensures forall j :: 0 <= j < k ==> reviews[j].id != id
    ensures k < |reviews| ==> reviews[k].id == id
  {
    if reviews == [] then 0
    else if reviews[0].id == id then 0
    else 1 + FirstWithId(reviews[1..], id)
  }

  /** The review the form adds: the id is the clock reading, the date today's. */
  function NewReview(now: int, title: string, text: string, today: Date): Review
  {
    Review(now, "Новый ментор", 5, title, text, today)
  }

  /** The bodies of the three seed reviews. */
  const SeedText1: string := "Дмитрий прекрасно объясняет сложные концепции JavaScript. Очень рекомендую для начинающих и продолжающих."
  const SeedText2: string := "Ярослав помог разобраться с продвинутыми темами C++. Немного сложно для новичков, но очень информативно."
  const SeedText3: string := "Энн не только отличный разработчик, но и прекрасный преподаватель. Научила меня многим современным подходам во фронтенде."

  /** The reviews `loadReviews` installs. */
  function SeedReviews(): seq<Review>
  {
    [ Review(1, "Дмитрий (JavaScript)", 5, "Отличный ментор!",
             SeedText1,
             Date(2024, 1, 20)),
      Review(2, "Ярослав (C++)", 4, "Полезные сессии по C++",
             SeedText2,
             Date(2024, 1, 15)),
      Review(3, "Энн (Frontend)", 5, "Лучший фронтенд-ментор",
             SeedText3,
             Date(2024, 1, 10)) ]
  }

  /** The sessions `loadSessions` installs. */
  function SeedSessions(): seq<Session>
  {
    [ Session(1, Date(2024, 1, 20), "Дмитрий", "JavaScript Advanced", 2.0, 5),
      Session(2, Date(2024, 1, 18), "Ярослав", "C++ Memory Management", 1.5, 4),
      Session(3, Date(2024, 1, 15), "Энн", "React Hooks", 2.0, 5),
      Session(4, Date(2024, 1, 12), "Дмитрий", "Node.js Basics", 1.0, 5) ]
  }

  /**
   * The seed sessions show 4 sessions, 6.5 hours, a mean rating of 4.8
   * (19 / 4 = 4.75, rounded up at the tie) and 3 mentors, Дмитрий counted once.
   */
  lemma SeedSessionsStats()
    ensures ComputeStats(SeedSessions()) == StatsView(4, 65, 48, 3)
  {
    var s := SeedSessions();
    var d, y, e := "Дмитрий", "Ярослав", "Энн";
    var p1 := [] + [s[0]];
    var p2 := p1 + [s[1]];
    var p3 := p2 + [s[2]];
    var p4 := p3 + [s[3]];
    Snoc([], s[0]);
    Snoc(p1, s[1]);
    Snoc(p2, s[2]);
    Snoc(p3, s[3]);
    assert p4 == s;
    assert TotalHours(s) == 6.5 && RatingSum(s) == 19;
    assert MentorNames(s) == {d, y, e};
    assert d[0] != y[0] && d[0] != e[0] && y[0] != e[0];
    assert |{d, y, e}| == 3;
  }

  class Dashboard {
    var reviews: seq<Review>
    var sessions: seq<Session>

    /** Both lists start empty; the page's load handlers fill them. */
    constructor ()
      ensures reviews == [] && sessions == []
    {
      reviews := [];
      sessions := [];
    }

    method LoadReviews()
      modifies this
      ensures reviews == SeedReviews() && sessions == old(sessions)
    {
      reviews := SeedReviews();
    }

    /** Installs the seed sessions and returns the statistics it then displays. */
    method LoadSessions() returns (shown: StatsView)
      modifies this
      ensures sessions == SeedSessions() && reviews == old(reviews)
      ensures shown == StatsView(4, 65, 48, 3)
    {
      sessions := SeedSessions();
      shown := UpdateStats();
      SeedSessionsStats();
    }

    /**
     * The review form. With a title and a text the new review goes to the
     * front of the list and every old review follows in its old order;
     * with either field empty ("Заполните все поля!") nothing changes.
     */
    method SubmitReview(title: string, text: string, now: int, today: Date)
      returns (added: bool, notice: Option<Notice>)
      modifies this
      ensures added <==> title != "" && text != ""
      ensures notice == if added then Some(Notice("Отзыв успешно добавлен!", Success)) else None
      ensures added ==> reviews == [NewReview(now, title, text, today)] + old(reviews)
      ensures added ==> reviews[0].rating == 5 && reviews[1..] == old(reviews)
      ensures !added ==> reviews == old(reviews)
      ensures sessions == old(sessions)
    {
      if title == "" || text == "" {
        added, notice := false, None;
        return;
      }
      reviews := [NewReview(now, title, text, today)] + reviews;
      added, notice := true, Some(Notice("Отзыв успешно добавлен!", Success));
    }

    /**
     * The edit button: shows the title of the first review with this id,
     * and nothing when no review has it.
     */
    method EditReview(reviewId: int) returns (shown: Option<string>)
      ensures shown.Some? <==> exists i :: 0 <= i < |reviews| && reviews[i].id == reviewId
      ensures shown.Some? ==> exists i :: 0 <= i < |reviews| && reviews[i].id == reviewId
                                        && shown.value == reviews[i].title
                                        && forall j :: 0 <= j < i ==> reviews[j].id != reviewId
    {
      var k := FirstWithId(reviews, reviewId);
      if k < |reviews| {
        shown := Some(reviews[k].title);
      } else {
        shown := None;
      }
    }

    /** The delete button; `confirmed` is the answer to the confirmation dialog. */
    method DeleteReview(reviewId: int, confirmed: bool) returns (notice: Option<Notice>)
      modifies this
      ensures reviews == if confirmed then WithoutId(old(reviews), reviewId) else old(reviews)
      ensures notice == if confirmed then Some(Notice("Отзыв удален", Success)) else None
      ensures sessions == old(sessions)
    {
      notice := None;
      if confirmed {
        reviews := WithoutId(reviews, reviewId);
        notice := Some(Notice("Отзыв удален", Success));
      }
    }

    /**
     * The search box: the reviews matching the query, in list order. The
     * method has no `modifies` clause, so the list itself is left alone.
     */
    method FilterReviews(query: string) returns (view: seq<Review>)
      ensures view == Seqs.Filter(reviews, MatchesQuery(query))
      ensures Seqs.IsSubsequence(view, reviews)
      ensures forall r :: r in view <==> r in reviews && ReviewMatches(r, query)
      ensures forall r :: multiset(view)[r] == if ReviewMatches(r, query) then multiset(reviews)[r] else 0
      ensures query == "" ==> view == reviews
    {
      var p := MatchesQuery(query);
      view := Seqs.Filter(reviews, p);
      Seqs.FilterIsSubsequence(reviews, p);
      forall r ensures (r in view <==> r in reviews && ReviewMatches(r, query))
                   && multiset(view)[r] == if ReviewMatches(r, query) then multiset(reviews)[r] else 0
      {
        Seqs.FilterMembership(reviews, p, r);
        Seqs.FilterCount(reviews, p, r);
      }
      if query == "" {
        Seqs.FilterKeepsAll(reviews, p);
      }
    }

    /**
     * The sort box: a sorted copy of the reviews. It is a permutation of the
     * list, ordered as the criterion asks, with reviews of equal key in list
     * order; an unknown criterion leaves the order as it is.
     */
    method SortReviews(criteria: string) returns (view: seq<Review>)
      ensures view == Seqs.SortByKey(reviews, ReviewOrder(criteria))
      ensures multiset(view) == multiset(reviews)
      ensures Seqs.SameTies(view, reviews, ReviewOrder(criteria))
      ensures criteria == "newest" ==>
                forall i, j :: 0 <= i < j < |view| ==> DateOrd(view[i].date) >= DateOrd(view[j].date)
      ensures criteria == "oldest" ==>
                forall i, j :: 0 <= i < j < |view| ==> DateOrd(view[i].date) <= DateOrd(view[j].date)
      ensures criteria == "rating-high" ==>
                forall i, j :: 0 <= i < j < |view| ==> view[i].rating >= view[j].rating
      ensures criteria == "rating-low" ==>
                forall i, j :: 0 <= i < j < |view| ==> view[i].rating <= view[j].rating
      ensures criteria !in {"newest", "oldest", "rating-high", "rating-low"} ==> view == reviews
      ensures forall i, j :: 0 <= i < j < |view| ==> ReviewComparator(criteria, view[i], view[j]) <= 0
    {
      var key := ReviewOrder(criteria);
      view := Seqs.SortByKey(reviews, key);
      Seqs.SortByKeyCorrect(reviews, key);
      assert forall i, j :: 0 <= i < j < |view| ==> ReviewKey(criteria, view[i]) <= ReviewKey(criteria, view[j]);
      if criteria !in {"newest", "oldest", "rating-high", "rating-low"} {
        Seqs.SortByConstantKey(reviews, key, 0);
      }
    }

    /** The statistics panel, computed from the session list. */
    method UpdateStats() returns (shown: StatsView)
      ensures shown == ComputeStats(sessions)
      ensures shown.totalSessions == |sessions|
      ensures shown.mentorsCount <= shown.totalSessions
      ensures sessions == [] ==> shown == StatsView(0, 0, 0, 0)
    {
      shown := ComputeStats(sessions);
    }
  }
}
