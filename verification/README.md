# MentorMatch page controllers in Dafny

This project models the two in-browser controllers of the MentorMatch site.

- `Dashboard` (front/dashboard.js) drives the personal dashboard. It keeps a list of mentor reviews and a list of past mentoring sessions. It adds, filters, sorts and deletes reviews, shows the title of a review for editing, and shows four session statistics: the number of sessions, the total hours, the mean rating and the number of distinct mentors.
- `MentorMatchApp` (back/main.js) drives the landing page. It records the user returned by registration, and clears it on logout. It keeps the session history table, filters and sorts it, and computes the mean rating and total hours.

Both controllers are Dafny classes that keep the source's data fields: `reviews` and `sessions` for `Dashboard`, and `currentUser` and `sessions` for `MentorMatchApp`. The fields that hold only page objects are dropped: `userData` and `charts` in `Dashboard`, and `sessionsChart`, `progressChart` and `map` in `MentorMatchApp`. Methods that change a field say so with `modifies this`, and their `ensures` clauses give the whole new state. Methods that only compute a view of a list (filter, sort, statistics) change nothing. They are proved against specification functions on sequences, and the properties of those functions are proved as lemmas.

The modules are:

- `Records`: dates, reviews and sessions. Date order is an integer key, `DateOrd`, proved to order well-formed dates by year, then month, then day.
- `Text`: lower-casing, substring search (`includes`) and the rating glyph strings (`'★'.repeat(r) + '☆'.repeat(5 - r)`).
- `Seqs`: generic filtering and stable sorting by an integer key. ECMAScript's `Array.prototype.sort` is stable. A comparator of the form `key(a) - key(b)` therefore produces the unique stable ordering by `key`, which `Seqs.StableSortUnique` proves is `Seqs.SortByKey`.
- `Stats`: sums, the mean, the distinct-mentor count and the rounding done by `toFixed(1)`.
- `DashboardPage`: the `Dashboard` class and its seed data.
- `MentorMatch`: the `MentorMatchApp` class and its mock data.

Things the browser supplies are method parameters:

- form fields;
- the answer to `confirm`;
- `Date.now()`;
- today's date;
- the JSON reply from `/api/register`.

A notification is modelled as the message and kind the controller would display. This covers the review added and review deleted notices of `Dashboard`, and the sign-up and logout notices of `MentorMatchApp`.

One note where the code is followed: main.js offers only the session orders `date-desc`, `date-asc` and `rating-desc`. There is no ascending rating order, so any other choice shows the stored session list in its stored order. That drops an active search filter and undoes an earlier sort. The filtered session table in main.js draws only the filled glyphs, without the padding to five empty ones. `Text.StarStringsDiffer` states how the two strings differ.

## Model

| member | source | states |
|---|---|---|
| Records.DateOrdOrdersDates | front/dashboard.js:456-457 | on well-formed dates the integer date key is smaller exactly when the date is earlier in calendar order, and equal exactly when the dates are equal, so subtracting keys compares dates as `new Date(a) - new Date(b)` does |
| Text.LowerChar | front/dashboard.js:446-449 | a character is changed exactly when it is a Latin or Cyrillic capital, and the result is never a capital |
| Text.LowerCharCasePartners | front/dashboard.js:446-449 | two characters lower to the same one exactly when they are equal or one is the other's small letter, so the case-insensitive search merges only case partners |
| Text.Lower | front/dashboard.js:446-449 | `toLowerCase` keeps the length and lowers every character as `LowerChar` does; `LowerIdempotent` shows a lowered string stays as it is |
| Text.LowerIdempotent | front/dashboard.js:446-449 | lower-casing a lowered string changes nothing |
| Text.Contains | front/dashboard.js:446-449 | `includes` always finds the empty needle, and a needle it finds is no longer than the text; `ContainsIffOccurs` proves it answers exactly whether the needle occurs somewhere |
| Text.ContainsIffOccurs | front/dashboard.js:447-449 | `includes` holds exactly when the needle occurs at some position of the text; the empty needle occurs everywhere |
| Text.Repeat | front/dashboard.js:432 | `c.repeat(n)` for a count that does not throw is n characters long and every character is c |
| Text.RatingStars | front/dashboard.js:432 | the glyph string exists exactly for ratings 0..5 (`repeat` throws otherwise), is five glyphs long, and position i is filled exactly when i is below the rating |
| Text.FilledStars | back/main.js:198 | the filled-only string exists exactly for non-negative ratings, and it is the rating's number of filled glyphs |
| Text.RatingStarsRoundTrip | front/dashboard.js:525 | reading back the filled glyphs of a rating's star string gives the rating |
| Text.StarStringsDiffer | back/main.js:157 | the full and the filtered session tables show the same number of filled glyphs, but their strings are equal only for a rating of 5 |
| Seqs.Filter | front/dashboard.js:445-450 | the kept elements are no more than the input and every one satisfies the predicate |
| Seqs.FilterIsSubsequence | back/main.js:167-170 | filtering keeps the surviving elements in their original order |
| Seqs.FilterCount | back/main.js:167-170 | an element that passes appears as often as in the input, and one that fails does not appear at all |
| Seqs.FilterMembership | front/dashboard.js:445-450 | an element is kept exactly when it is in the input and passes the predicate |
| Seqs.FilterKeepsAll | front/dashboard.js:445-450 | when every element passes (an empty query), filtering returns the list unchanged |
| Seqs.SortByKey | front/dashboard.js:454 | the sorted copy `[...list].sort(...)` is a permutation of the list; `SortByKeyCorrect` shows it is ordered and stable, and `StableSortUnique` that no other result is |
| Seqs.SortByKeyCorrect | front/dashboard.js:454-463 | the sorted copy is ordered by the key and keeps tied elements in their input order |
| Seqs.StableSortUnique | back/main.js:175-186 | two stable permutations of one list, both ordered by the same key, are equal, so the stable sort with a difference comparator has exactly one result |
| Seqs.SortByConstantKey | back/main.js:175-186 | a comparator that always answers 0 leaves the list as it is |
| Seqs.OppositeSorts | front/dashboard.js:456-457 | with distinct keys, sorting by the negated key gives the reverse of sorting by the key |
| Stats.MinRating | back/main.js:292-295 | the smallest rating is some session's rating and no rating is below it |
| Stats.MaxRating | back/main.js:292-295 | the largest rating is some session's rating and no rating exceeds it |
| Stats.TotalHours | back/main.js:298 | the left-to-right `reduce` of durations from 0, never negative when no duration is; `TotalHoursAppend` shows it is additive over joined lists |
| Stats.RatingSum | front/dashboard.js:538 | the left-to-right `reduce` of ratings from 0; `RatingSumBounds` bounds it by the number of sessions times the lowest and highest rating |
| Stats.TotalHoursAppend | back/main.js:297-299 | the total of two joined lists of sessions is the sum of their totals |
| Stats.RatingSumBounds | front/dashboard.js:537-539 | with every rating in [lo, hi], the sum of n ratings lies in [n·lo, n·hi] |
| Stats.MeanRating | front/dashboard.js:537-539 | the mean is 0 with no sessions, and the mean times the number of sessions equals the rating sum; `MeanRatingBounds` places it between the lowest and highest rating |
| Stats.MeanRatingBounds | back/main.js:292-295 | the mean of ratings in [lo, hi] lies in [lo, hi] |
| Stats.ToFixedTenths | front/dashboard.js:544 | `toFixed(1)` shows the number of tenths nearest to the value, with halves rounded away from zero |
| Stats.MentorNames | front/dashboard.js:541 | the set of mentor names built by `new Set(...)`; `MentorNamesAre` shows it is exactly the names of the sessions and `MentorNamesBound` bounds its size |
| Stats.MentorNamesAre | front/dashboard.js:541 | the set built from the mentors is exactly the set of mentor names of the sessions |
| Stats.MentorNamesBound | front/dashboard.js:541 | there are never more distinct mentors than sessions, and at least one when a session exists |
| Stats.ComputeStats | front/dashboard.js:534-547 | the session count; the hours and the mean as `toFixed(1)` shows them; the distinct mentors counted by name; and all zeros for no sessions |
| Stats.StatsInRange | front/dashboard.js:534-547 | with ratings 1..5 and no negative durations, the mean is shown between 1.0 and 5.0 and the hours are non-negative |
| DashboardPage.ReviewMatches | front/dashboard.js:445-449 | the filter callback holds exactly when the lowered query occurs in the lowered title, text or mentor name, and always for the empty query |
| DashboardPage.ReviewComparator | front/dashboard.js:455-462 | the comparator for each sort choice is the difference of that choice's key, and 0 for an unknown choice |
| DashboardPage.NewestReversesOldest | front/dashboard.js:456-457 | when no two reviews share a date, "newest" order is "oldest" order reversed |
| DashboardPage.WithoutId | front/dashboard.js:498 | a review survives deletion exactly when it is in the list and has another id; other reviews keep their multiplicity and order; a missing id changes nothing |
| DashboardPage.FirstWithId | front/dashboard.js:490 | `find` answers the first review with the id, or the list length when there is none |
| DashboardPage.SeedSessionsStats | front/dashboard.js:504-513 | the seeded sessions show 4 sessions, 6.5 hours, a mean of 4.8 and 3 mentors |
| DashboardPage.Dashboard.constructor | front/dashboard.js:2-8 | a new dashboard holds no reviews and no sessions |
| DashboardPage.Dashboard.LoadReviews | front/dashboard.js:391-419 | the reviews become the three seed reviews, newest first; the sessions are untouched |
| DashboardPage.Dashboard.LoadSessions | front/dashboard.js:504-513 | the sessions become the four seed sessions and the shown statistics are theirs; the reviews are untouched |
| DashboardPage.Dashboard.SubmitReview | front/dashboard.js:367-389 | a review is added exactly when both title and text are non-empty; it goes to the front with id `now`, rating 5, the placeholder mentor and today's date, and the success notice "Отзыв успешно добавлен!" is returned; otherwise nothing changes and no notice is shown |
| DashboardPage.Dashboard.EditReview | front/dashboard.js:489-494 | the title shown is that of the first review with the id, and nothing is shown when there is none |
| DashboardPage.Dashboard.DeleteReview | front/dashboard.js:496-502 | after confirmation every review with the id is removed, the rest keep their order and the success notice "Отзыв удален" is returned; without confirmation nothing changes and no notice is shown |
| DashboardPage.Dashboard.FilterReviews | front/dashboard.js:444-451 | the view holds, in order and with multiplicity, exactly the reviews whose title, text or mentor name contains the query, case-insensitively; an empty query shows every review |
| DashboardPage.Dashboard.SortReviews | front/dashboard.js:453-464 | the view is a stable permutation of the reviews: newest or oldest date first, or highest or lowest rating first, so the source's comparator is never positive on a pair in view order; any other choice keeps the order |
| DashboardPage.Dashboard.UpdateStats | front/dashboard.js:534-547 | the shown statistics are those of the current sessions |
| MentorMatch.SessionMatches | back/main.js:167-170 | the filter callback holds exactly when the lowered query occurs in the lowered mentor or topic, and always for the empty query |
| MentorMatch.SessionComparator | back/main.js:175-186 | the comparator for each sort choice is the difference of that choice's key, and 0 for any other choice |
| MentorMatch.DateDescReversesDateAsc | back/main.js:177-182 | when no two sessions share a date, "date-desc" order is "date-asc" order reversed |
| MentorMatch.MockSessionsFacts | back/main.js:283-290 | the mock sessions have ids 1..3, 5.5 hours in total and a mean rating shown as 4.7 |
| MentorMatch.MentorMatchApp.constructor | back/main.js:3-7 | a new app has no current user and holds the mock sessions |
| MentorMatch.MentorMatchApp.LoadMockData | back/main.js:283-290 | the sessions become the three mock sessions; the user is untouched |
| MentorMatch.MentorMatchApp.HandleRegister | back/main.js:41-67 | a successful reply makes its data the current user with a success notice; a failed reply shows its error; a failed request shows the connection error; the user changes only on success |
| MentorMatch.MentorMatchApp.HandleLogout | back/main.js:327-332 | the current user is cleared and an info notice is shown |
| MentorMatch.MentorMatchApp.FilterSessions | back/main.js:166-172 | the view holds, in order and with multiplicity, exactly the sessions whose mentor or topic contains the query, case-insensitively; an empty query shows every session |
| MentorMatch.MentorMatchApp.SortSessions | back/main.js:174-188 | the view is a stable permutation of the sessions: newest or oldest date first, or highest rating first, so the source's comparator is never positive on a pair in view order; any other choice keeps the order |
| MentorMatch.MentorMatchApp.CalculateAverageRating | back/main.js:292-295 | 0 with no sessions; otherwise the mean rating in tenths, between ten times the lowest and ten times the highest rating |
| MentorMatch.MentorMatchApp.CalculateTotalHours | back/main.js:297-299 | the sum of the session durations, 0 with no sessions and never negative when no duration is |

## Left out

- Charts (Chart.js), the map, drag-and-drop, animations and the notification element with its timers: these are presentation only. A notice is returned as its text and kind.
- The `fetch` call and JSON parsing in `handleRegister`: the parsed reply, or the fact that the request threw, is a parameter.
- HTML rendering through `innerHTML`, `formatDate`'s Russian locale formatting, and the `getElementById` null checks: these are browser I/O.
- `alert` and `confirm`: a declined confirmation is a boolean parameter.
- The user object's fields: the server decides them, so `User` carries only an id and an email.
- `loadUserData` (front/dashboard.js:38-50): it sets a fixed profile record in `userData` and writes the name into the page. Only that field is affected, and the model drops it.
- `showDashboard` and `updateDashboard` (back/main.js:69-79): they switch page sections and redraw the figures, charts and table. This is presentation only.
- `init` and `initEventListeners` in both files: they wire up DOM events. `Dashboard.init` may wait for DOMContentLoaded before loading, so `DashboardPage.Dashboard.constructor` models only the field initialisation, with the loaders as separate methods. `MentorMatchApp.init` calls `loadMockData` synchronously, and its constructor includes that.
- The dashboard's `logout`: it only navigates the window after a confirmation.
- front/app.js is not part of this model.
- Records.DateOrd: malformed date strings, which make `new Date` invalid and the comparator `NaN`, are not modelled. `WellFormedDate` bounds only the month (1..12) and the day (1..31). It lets through impossible days such as 2024-02-30, for which `new Date` rolls over or gives `NaN`, depending on the engine.
- Stats.ToFixedTenths: computed on exact reals. It does not model IEEE-754 sums or representation error at a tie, nor the exponent notation `toFixed` uses from 1e21 upwards.
- Stats.ComputeStats: with no sessions the mean is shown as the number 0, not the text "0.0". The view records it as 0 tenths.
- Text.LowerChar: covers Latin A–Z and Cyrillic U+0400..U+042F only. Other scripts and length-changing mappings of `toLowerCase` are not modelled.
- MentorMatch.MentorMatchApp.HandleRegister: failures of the DOM in `showDashboard`, which runs inside the `try` after the user is set, are not modelled. An example is a missing `.block3` or `#sessionsTableBody`. Such a failure would show "Ошибка соединения" with the user already set. The model pairs success with the success notice.
- Text.RatingStars: ratings are whole numbers. A fractional rating, which `repeat` truncates, is not modelled.
