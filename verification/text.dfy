/**
 * String operations the controllers use: `toLowerCase`, `includes`, and the
 * rating glyph strings built with `repeat`.
 */
module Text {
  import opened Records

  /** The Latin and Cyrillic capitals the page data is written in (U+0041..U+005A, U+0400..U+042F). */
  predicate IsCapital(c: char)
  {
    'A' <= c <= 'Z' || 'Ѐ' <= c <= 'Я'
  }

  /** Lower case of one character: capitals map to their small letters, everything else is kept. */
  function LowerChar(c: char): (d: char)
    ensures d == c <==> !IsCapital(c)
    ensures !IsCapital(d)
  {
    if 'A' <= c <= 'Z' then (c as int + 32) as char
    else if 'А' <= c <= 'Я' then (c as int + 32) as char
    else if 'Ѐ' <= c <= 'Џ' then (c as int + 80) as char
    else c
  }

  /**
   * Lowering merges only case partners: two characters lower to the same
   * one exactly when they are equal or one is the other's small letter.
   */
  lemma LowerCharCasePartners(c: char, e: char)
    ensures LowerChar(c) == LowerChar(e) <==> c == e || LowerChar(c) == e || LowerChar(e) == c
  {
  }

  /** `s.toLowerCase()`, one character at a time. */
  function Lower(s: string): (t: string)
    ensures |t| == |s|
    ensures forall i :: 0 <= i < |s| ==> t[i] == LowerChar(s[i])
  {
    seq(|s|, i requires 0 <= i < |s| => LowerChar(s[i]))
  }

  /** Lowering twice is lowering once, so a lowered query stays as it is. */
  lemma LowerIdempotent(s: string)
    ensures Lower(Lower(s)) == Lower(s)
  {
    forall i | 0 <= i < |s| ensures LowerChar(LowerChar(s[i])) == LowerChar(s[i]) {
    }
  }

  /** `needle` stands in `hay` starting at index `i`. */
  predicate OccursAt(hay: string, needle: string, i: int)
  {
    0 <= i && i + |needle| <= |hay| && hay[i..i + |needle|] == needle
  }

  /** `hay.includes(needle)`: the search walks the start position from left to right. */
  function Contains(hay: string, needle: string): (r: bool)
    ensures needle == [] ==> r
    ensures r ==> |needle| <= |hay|
  {
    if needle <= hay then true
    else if hay == [] then false
    else Contains(hay[1..], needle)
  }

  /** An occurrence past the first position is an occurrence in the tail. */
  lemma OccursInTail(hay: string, needle: string, i: int)
    requires 0 < i && OccursAt(hay, needle, i)
    ensures OccursAt(hay[1..], needle, i - 1)
  {
    assert hay[1..][i - 1..i - 1 + |needle|] == hay[i..i + |needle|];
  }

  /** Contains answers exactly whether the needle occurs somewhere; the empty needle occurs everywhere. */
  lemma {:induction false} ContainsIffOccurs(hay: string, needle: string)
    ensures Contains(hay, needle) <==> exists i :: OccursAt(hay, needle, i)
  {
    if needle <= hay {
      assert OccursAt(hay, needle, 0);
    } else if hay == [] {
      forall i ensures !OccursAt(hay, needle, i) {
      }
    } else {
      ContainsIffOccurs(hay[1..], needle);
      if Contains(hay, needle) {
        var i :| OccursAt(hay[1..], needle, i);
        assert hay[1..][i..i + |needle|] == hay[i + 1..i + 1 + |needle|];
        assert OccursAt(hay, needle, i + 1);
      } else {
        forall i | OccursAt(hay, needle, i) ensures false {
          if i > 0 {
            OccursInTail(hay, needle, i);
          }
        }
      }
    }
  }

  // ---------------------------------------------------------------------------
  // Rating glyphs

  const Filled: char := '★'
  const Empty: char := '☆'

  /** `c.repeat(n)` for a count that does not throw. */
  function Repeat(c: char, n: nat): (s: string)
    ensures |s| == n
    ensures forall i :: 0 <= i < n ==> s[i] == c
  {
    if n == 0 then [] else [c] + Repeat(c, n - 1)
  }

  /**
   * `'★'.repeat(r) + '☆'.repeat(5 - r)`. `repeat` throws a RangeError for a
   * negative count, so a rating outside 0..5 yields None.
   */
  function RatingStars(r: int): (out: Option<string>)
    ensures out.Some? <==> 0 <= r <= 5
    ensures out.Some? ==> |out.value| == 5
    ensures out.Some? ==> forall i :: 0 <= i < 5 ==> out.value[i] == if i < r then Filled else Empty
  {
    if r < 0 || 5 - r < 0 then None else Some(Repeat(Filled, r) + Repeat(Empty, 5 - r))
  }

  /** `'★'.repeat(r)` alone, as the filtered session table writes it. */
  function FilledStars(r: int): (out: Option<string>)
    ensures out.Some? <==> 0 <= r
    ensures out.Some? ==> |out.value| == r && forall i :: 0 <= i < r ==> out.value[i] == Filled
  {
    if r < 0 then None else Some(Repeat(Filled, r))
  }

  /** The number of filled glyphs in a glyph string: reading a rating back. */
  function CountFilled(s: string): nat
  {
    if s == [] then 0 else (if s[0] == Filled then 1 else 0) + CountFilled(s[1..])
  }

  lemma {:induction false} CountFilledAppend(a: string, b: string)
    ensures CountFilled(a + b) == CountFilled(a) + CountFilled(b)
  {
    if a != [] {
      assert (a + b)[1..] == a[1..] + b;
      CountFilledAppend(a[1..], b);
    } else {
      assert a + b == b;
    }
  }

  lemma {:induction false} CountFilledRepeat(c: char, n: nat)
    ensures CountFilled(Repeat(c, n)) == if c == Filled then n else 0
  {
    if n > 0 {
      CountFilledRepeat(c, n - 1);
      assert Repeat(c, n)[1..] == Repeat(c, n - 1);
    }
  }

  /** The star string of a rating in 0..5 shows exactly that rating. */
  lemma RatingStarsRoundTrip(r: int)
    requires 0 <= r <= 5
    ensures RatingStars(r).Some? && CountFilled(RatingStars(r).value) == r
  {
    CountFilledRepeat(Filled, r);
    CountFilledRepeat(Empty, 5 - r);
    CountFilledAppend(Repeat(Filled, r), Repeat(Empty, 5 - r));
  }

  /**
   * The two session tables disagree: both show `r` filled glyphs, but the
   * full table pads to five with empty ones and the filtered table does not,
   * so their strings are equal only for a rating of 5.
   */
  lemma StarStringsDiffer(r: int)
    requires 0 <= r <= 5
    ensures FilledStars(r).Some? && RatingStars(r).Some?
    ensures CountFilled(FilledStars(r).value) == CountFilled(RatingStars(r).value)
    ensures FilledStars(r) == RatingStars(r) <==> r == 5
  {
    RatingStarsRoundTrip(r);
    CountFilledRepeat(Filled, r);
    if r == 5 {
      assert RatingStars(r).value == FilledStars(r).value;
    }
  }
}
