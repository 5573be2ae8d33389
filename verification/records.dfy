/**
 * The records both page controllers keep in memory: reviews of mentors and
 * mentoring sessions, with their ISO `YYYY-MM-DD` dates.
 */
module Records {

  datatype Option<T> = None | Some(value: T)

  /** A calendar date as written `YYYY-MM-DD`. */
  datatype Date = Date(year: int, month: int, day: int)

  /**
   * The month and day fields are in range. Impossible days such as
   * 2024-02-30 still pass, and date order does not depend on the month length.
   */
  predicate WellFormedDate(d: Date)
  {
    1 <= d.month <= 12 && 1 <= d.day <= 31
  }

  /** Calendar order: by year, then month, then day. */
  predicate Before(a: Date, b: Date)
  {
    a.year < b.year
    || (a.year == b.year && (a.month < b.month || (a.month == b.month && a.day < b.day)))
  }

  /**
   * A number that orders well-formed dates by year, month and day. On real
   * calendar dates the sign of `DateOrd(a) - DateOrd(b)` is the sign of
   * `new Date(a) - new Date(b)`.
   */
  function DateOrd(d: Date): int
  {
    d.year * 372 + (d.month - 1) * 31 + (d.day - 1)
  }

  lemma DateOrdOrdersDates(a: Date, b: Date)
    requires WellFormedDate(a) && WellFormedDate(b)
    ensures DateOrd(a) < DateOrd(b) <==> Before(a, b)
    ensures DateOrd(a) == DateOrd(b) <==> a == b
  {
    if a.year < b.year {
      assert DateOrd(a) < a.year * 372 + 372 <= DateOrd(b);
    } else if b.year < a.year {
      assert DateOrd(b) < b.year * 372 + 372 <= DateOrd(a);
    }
  }

  datatype NoticeKind = Success | Error | Info

  /** The pop-up message a handler shows with `showNotification(message, type)`. */
  datatype Notice = Notice(message: string, kind: NoticeKind)

  /** A review card: front/dashboard.js keeps these in `Dashboard.reviews`. */
  datatype Review = Review(id: int, mentorName: string, rating: int, title: string, text: string, date: Date)

  /** A table row of session history, kept by both page controllers. */
  datatype Session = Session(id: int, date: Date, mentor: string, topic: string, duration: real, rating: int)
}
