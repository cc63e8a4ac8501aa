/**
 * The testimonial section: a fixed list of customer quotes, a star row per
 * quote, and (on narrow screens) a one-at-a-time carousel driven by
 * previous/next buttons and one dot per quote.
 */
module TestimonialSection {

  /** A customer quote; the quoted text itself is not modelled. */
  datatype Testimonial = Testimonial(name: string, role: string, company: string, rating: int)

  const Testimonials: seq<Testimonial> := [
    Testimonial("Sarah Johnson", "CFO", "CreativeTech Inc", 5),
    Testimonial("Michael Chen", "IT Director", "GlobalSystems Ltd", 5),
    Testimonial("Alex Rivera", "CTO", "NexGen Solutions", 4)
  ]

  /** The number of stars in every row. */
  const StarCount := 5

  /** The index after `i` in a list of length `n`, wrapping from the last back to the first. */
  function Next(i: int, n: int): int {
    if i == n - 1 then 0 else i + 1
  }

  /** The index before `i` in a list of length `n`, wrapping from the first to the last. */
  function Prev(i: int, n: int): int {
    if i == 0 then n - 1 else i - 1
  }

  /** Stepping forward stays in range and wraps exactly at the end; it is addition modulo `n`. */
  lemma NextInRange(i: int, n: int)
    requires 0 <= i < n
    ensures 0 <= Next(i, n) < n
    ensures Next(i, n) == 0 <==> i == n - 1
    ensures Next(i, n) == (i + 1) % n
  {
  }

  /** Stepping back stays in range and wraps exactly at the start; it is subtraction modulo `n`. */
  lemma PrevInRange(i: int, n: int)
    requires 0 <= i < n
    ensures 0 <= Prev(i, n) < n
    ensures Prev(i, n) == n - 1 <==> i == 0
    ensures Prev(i, n) == (i - 1) % n
  {
  }

  /** Back undoes forward and forward undoes back. */
  lemma PrevNextInverse(i: int, n: int)
    requires 0 <= i < n
    ensures Prev(Next(i, n), n) == i
    ensures Next(Prev(i, n), n) == i
  {
  }

  /** The index reached from `i` after `k` presses of "next". */
  function NextTimes(i: int, n: int, k: nat): int {
    if k == 0 then i else Next(NextTimes(i, n, k - 1), n)
  }

  /** Up to `n` presses of "next" advance the index by `k`, wrapping past the end once. */
  lemma {:induction false} NextTimesIsShift(i: int, n: int, k: nat)
    requires 0 <= i < n && k <= n
    ensures NextTimes(i, n, k) == if i + k < n then i + k else i + k - n
  {
    if k > 0 {
      NextTimesIsShift(i, n, k - 1);
    }
  }

  /** Pressing "next" once per quote comes back to the quote one started from, and not sooner. */
  lemma FullCycle(i: int, n: int)
    requires 0 <= i < n
    ensures NextTimes(i, n, n) == i
    ensures forall k | 0 < k < n :: NextTimes(i, n, k) != i
  {
    NextTimesIsShift(i, n, n);
    forall k | 0 < k < n ensures NextTimes(i, n, k) != i {
      NextTimesIsShift(i, n, k);
    }
  }

  /** The star row of a quote: star `i` is filled exactly when `i` is below the rating. */
  function Stars(rating: int): seq<bool> {
    seq(StarCount, i requires 0 <= i < StarCount => i < rating)
  }

  /** The number of filled stars in a row. */
  function CountFilled(stars: seq<bool>): nat {
    if stars == [] then 0
    else CountFilled(stars[..|stars| - 1]) + (if stars[|stars| - 1] then 1 else 0)
  }

  /** A row of `m` stars against rating `r` has `r` filled, clamped to the row. */
  lemma {:induction false} RowFilled(m: nat, r: int)
    ensures CountFilled(seq(m, i requires 0 <= i < m => i < r)) ==
      if r < 0 then 0 else if r > m then m else r
  {
    if m > 0 {
      var row := seq(m, i requires 0 <= i < m => i < r);
      assert row[..m - 1] == seq(m - 1, i requires 0 <= i < m - 1 => i < r);
      RowFilled(m - 1, r);
    }
  }

  /** Every row has five stars, and a rating between 0 and 5 fills exactly that many. */
  lemma StarsFilled(rating: int)
    ensures |Stars(rating)| == StarCount
    ensures 0 <= rating <= StarCount ==> CountFilled(Stars(rating)) == rating
    ensures rating > StarCount ==> CountFilled(Stars(rating)) == StarCount
    ensures rating < 0 ==> CountFilled(Stars(rating)) == 0
  {
    RowFilled(StarCount, rating);
  }

  /** The ratings shown: two quotes with five stars and one with four. */
  lemma ShownRatings()
    ensures CountFilled(Stars(Testimonials[0].rating)) == 5
    ensures CountFilled(Stars(Testimonials[1].rating)) == 5
    ensures CountFilled(Stars(Testimonials[2].rating)) == 4
  {
    StarsFilled(5);
    StarsFilled(4);
  }

  /** The carousel's state: which quote is on screen. */
  class Carousel {
    var activeIndex: int

    ghost predicate Valid()
      reads this
    {
      0 <= activeIndex < |Testimonials|
    }

    constructor()
      ensures Valid() && activeIndex == 0
    {
      activeIndex := 0;
    }

    /** The quote on screen. */
    function Shown(): Testimonial
      reads this
      requires Valid()
    {
      Testimonials[activeIndex]
    }

    /** The dot drawn highlighted. */
    predicate DotActive(index: int)
      reads this
    {
      index == activeIndex
    }

    /** `nextTestimonial`. */
    method NextTestimonial()
      modifies this
      requires Valid()
      ensures Valid()
      ensures activeIndex == Next(old(activeIndex), |Testimonials|)
      ensures activeIndex == (old(activeIndex) + 1) % |Testimonials|
    {
      NextInRange(activeIndex, |Testimonials|);
      activeIndex := if activeIndex == |Testimonials| - 1 then 0 else activeIndex + 1;
    }

    /** `prevTestimonial`. */
    method PrevTestimonial()
      modifies this
      requires Valid()
      ensures Valid()
      ensures activeIndex == Prev(old(activeIndex), |Testimonials|)
      ensures activeIndex == (old(activeIndex) - 1) % |Testimonials|
    {
      PrevInRange(activeIndex, |Testimonials|);
      activeIndex := if activeIndex == 0 then |Testimonials| - 1 else activeIndex - 1;
    }

    /** Clicking dot `index` (one is drawn per quote) shows that quote, and only its dot is highlighted. */
    method SelectDot(index: int)
      modifies this
      requires 0 <= index < |Testimonials|
      ensures Valid() && activeIndex == index && Shown() == Testimonials[index]
      ensures forall d | 0 <= d < |Testimonials| :: DotActive(d) <==> d == index
    {
      activeIndex := index;
    }
  }
}
