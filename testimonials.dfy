/** The testimonial carousel: a fixed list of client testimonials, one of
    which is shown at a time. The shown slide is moved forwards and backwards
    by the arrow buttons, jumps to a clicked dot, and advances on every
    autoplay tick. Below the shown testimonial are one dot per slide (the
    shown one marked active) and one star per point of its rating. */
module Testimonials {

  datatype Testimonial = Testimonial(
    id: nat,
    name: string,
    role: string,
    rating: nat,
    company: string)

  /** The five testimonials the carousel cycles through, in display order. */
  function Catalogue(): (ts: seq<Testimonial>)
    ensures |ts| == 5
  {
    [ Testimonial(1, "Sarah Johnson", "CEO, TechStart Inc.", 5, "TechStart Inc."),
      Testimonial(2, "Michael Chen", "CTO, InnovateLab", 5, "InnovateLab"),
      Testimonial(3, "Emily Rodriguez", "Product Manager, DataFlow", 5, "DataFlow"),
      Testimonial(4, "David Thompson", "Founder, GreenTech Solutions", 5, "GreenTech Solutions"),
      Testimonial(5, "Lisa Wang", "Marketing Director, RetailMax", 5, "RetailMax") ]
  }

  // ---------------------------------------------------------------------
  // Successor and predecessor of a slide index in a carousel of n slides

  /** The slide after i, wrapping from the last slide to the first. */
  function NextSlide(i: nat, n: nat): (r: nat)
    requires n > 0
    ensures r < n
    ensures i + 1 < n ==> r == i + 1
    ensures i == n - 1 ==> r == 0
  {
    (i + 1) % n
  }

  /** The slide before i, wrapping from the first slide to the last. The
      addition of n before taking the remainder keeps the operand
      non-negative, so the remainder agrees with a truncating one. */
  function PrevSlide(i: nat, n: nat): (r: nat)
    requires n > 0
    ensures r < n
    ensures 0 < i < n ==> r == i - 1
    ensures i == 0 ==> r == n - 1
  {
    (i - 1 + n) % n
  }

  lemma PrevAfterNext(i: nat, n: nat)
    requires i < n
    ensures PrevSlide(NextSlide(i, n), n) == i
  {
    if i + 1 < n {
      assert NextSlide(i, n) == i + 1;
    } else {
      assert NextSlide(i, n) == 0;
    }
  }

  lemma NextAfterPrev(i: nat, n: nat)
    requires i < n
    ensures NextSlide(PrevSlide(i, n), n) == i
  {
    if i == 0 {
      assert PrevSlide(i, n) == n - 1;
    } else {
      assert PrevSlide(i, n) == i - 1;
    }
  }

  /** The slide reached from i after k presses of the next button. */
  function NextSlideTimes(i: nat, k: nat, n: nat): (r: nat)
    requires i < n
    ensures r < n
  {
    if k == 0 then i else NextSlide(NextSlideTimes(i, k - 1, n), n)
  }

  /** Up to one full lap, k presses move the carousel k slides on, wrapping
      past the last slide once. */
  lemma {:induction false} NextSlideTimesShifts(i: nat, k: nat, n: nat)
    requires i < n && i + k < 2 * n
    ensures NextSlideTimes(i, k, n) == if i + k < n then i + k else i + k - n
  {
    if k > 0 {
      NextSlideTimesShifts(i, k - 1, n);
    }
  }

  /** Pressing next a times and then b times is pressing it a + b times. */
  lemma {:induction false} NextSlideTimesAdd(i: nat, a: nat, b: nat, n: nat)
    requires i < n
    ensures NextSlideTimes(i, a + b, n) == NextSlideTimes(NextSlideTimes(i, a, n), b, n)
  {
    if b > 0 {
      NextSlideTimesAdd(i, a, b - 1, n);
    }
  }

  /** Pressing next n times from any slide returns to it, and no smaller
      positive number of presses does: the carousel cycles through all n. */
  lemma NextSlideCycles(i: nat, n: nat)
    requires i < n
    ensures NextSlideTimes(i, n, n) == i
    ensures forall k :: 0 < k < n ==> NextSlideTimes(i, k, n) != i
  {
    NextSlideTimesShifts(i, n, n);
    forall k | 0 < k < n
      ensures NextSlideTimes(i, k, n) != i
    {
      NextSlideTimesShifts(i, k, n);
    }
  }

  /** The slide shown after k presses depends on k only modulo n. */
  lemma NextSlideTimesPeriodic(i: nat, k: nat, n: nat)
    requires i < n
    ensures NextSlideTimes(i, k + n, n) == NextSlideTimes(i, k, n)
  {
    NextSlideTimesAdd(i, n, k, n);
    NextSlideCycles(i, n);
  }

  // ---------------------------------------------------------------------
  // What is rendered for the shown slide

  /** Dot k of n is marked active exactly when k is the shown slide. */
  function DotStates(current: nat, n: nat): (dots: seq<bool>)
    ensures |dots| == n
    ensures forall k :: 0 <= k < n ==> dots[k] == (k == current)
  {
    seq(n, k => k == current)
  }

  function CountActive(dots: seq<bool>): (c: nat)
    ensures c <= |dots|
  {
    if dots == [] then 0
    else CountActive(dots[..|dots| - 1]) + (if dots[|dots| - 1] then 1 else 0)
  }

  /** With the shown slide in range, exactly one dot is active. */
  lemma ExactlyOneDotActive(current: nat, n: nat)
    requires current < n
    ensures CountActive(DotStates(current, n)) == 1
  {
    OneActive(DotStates(current, n), current);
  }

  lemma {:induction false} OneActive(dots: seq<bool>, c: nat)
    requires forall k :: 0 <= k < |dots| ==> dots[k] == (k == c)
    ensures CountActive(dots) == if c < |dots| then 1 else 0
  {
    if dots != [] {
      var init := dots[..|dots| - 1];
      assert forall k :: 0 <= k < |init| ==> init[k] == dots[k];
      OneActive(init, c);
    }
  }

  /** The star icons drawn for a rating: one per point, keyed 0 to rating - 1. */
  function Stars(rating: nat): (keys: seq<nat>)
    ensures |keys| == rating
    ensures forall i :: 0 <= i < rating ==> keys[i] == i
  {
    seq(rating, i => i)
  }

  lemma CatalogueRatedFive()
    ensures forall t :: t in Catalogue() ==> t.rating == 5
  {
  }

  // ---------------------------------------------------------------------
  // An autoplay tick with its crossfade, and a click during the fade

  /** A user action on the carousel: an arrow button or a dot. */
  datatype Click = PrevClick | NextClick | DotClick(dot: nat)

  /** The slide shown after click c on slide i. */
  function AfterClick(i: nat, n: nat, c: Click): (r: nat)
    requires i < n
    requires c.DotClick? ==> c.dot < n
    ensures r < n
    ensures c.DotClick? ==> r == c.dot
  {
    match c
    case PrevClick => PrevSlide(i, n)
    case NextClick => NextSlide(i, n)
    case DotClick(d) => d
  }

  /** The crossfaded tick as written: the successor is read from slide i when
      the interval fires, click c moves the slide while the card fades out,
      and the completion of the fade then writes the successor read before
      the click. The slide the click showed is overwritten, so c has no
      effect on the result. */
  function FadedTickAsWritten(i: nat, n: nat, c: Click): (r: nat)
    requires i < n
    requires c.DotClick? ==> c.dot < n
    ensures r < n
  {
    NextSlide(i, n)
  }

  /** The crossfaded tick as evidently intended: the completion of the fade
      advances the slide shown at that moment, as the arrow buttons do with
      their update of the previous state. */
  function FadedTickCorrected(i: nat, n: nat, c: Click): (r: nat)
    requires i < n
    requires c.DotClick? ==> c.dot < n
    ensures r < n
  {
    var shown := AfterClick(i, n, c);
    NextSlide(shown, n)
  }

  /** As written, a previous-arrow click during the fade is lost: with two or
      more slides the tick still lands on the successor of i, while either
      order of the click and the tick would come back to i. */
  lemma FadedTickLosesClick(i: nat, n: nat)
    requires 1 < n && i < n
    ensures FadedTickAsWritten(i, n, PrevClick) != i
    ensures PrevSlide(NextSlide(i, n), n) == i
    ensures NextSlide(PrevSlide(i, n), n) == i
  {
    NextSlideCycles(i, n);
    assert NextSlideTimes(i, 1, n) == NextSlide(i, n);
    PrevAfterNext(i, n);
    NextAfterPrev(i, n);
  }

  /** The concrete case: on the third of five slides, a previous-arrow click
      during the fade ends on the fourth slide rather than the third. */
  lemma FadedTickLosesClickOnSlideTwo()
    ensures FadedTickAsWritten(2, 5, PrevClick) == 3
    ensures FadedTickCorrected(2, 5, PrevClick) == 2
  {
  }

  /** As written, the click during the fade has no effect on the slide the
      tick ends on. */
  lemma FadedTickIgnoresClick(i: nat, n: nat, c: Click, d: Click)
    requires i < n
    requires c.DotClick? ==> c.dot < n
    requires d.DotClick? ==> d.dot < n
    ensures FadedTickAsWritten(i, n, c) == FadedTickAsWritten(i, n, d)
  {
  }

  /** As evidently intended, a click during the fade is kept: an arrow click
      and the tick commute, a previous-arrow click undoes the tick, and
      clicks leading to different slides give different results. */
  lemma {:induction false} FadedTickKeepsClick(i: nat, n: nat, c: Click, d: Click)
    requires i < n
    requires c.DotClick? ==> c.dot < n
    requires d.DotClick? ==> d.dot < n
    ensures !c.DotClick? ==> FadedTickCorrected(i, n, c) == AfterClick(NextSlide(i, n), n, c)
    ensures c.PrevClick? ==> FadedTickCorrected(i, n, c) == i
    ensures AfterClick(i, n, c) != AfterClick(i, n, d) ==>
      FadedTickCorrected(i, n, c) != FadedTickCorrected(i, n, d)
  {
    NextAfterPrev(i, n);
    PrevAfterNext(i, n);
    PrevAfterNext(AfterClick(i, n, c), n);
    PrevAfterNext(AfterClick(i, n, d), n);
  }

  // ---------------------------------------------------------------------
  // The carousel state

  class Carousel {
    const items: seq<Testimonial>
    /** The index of the shown testimonial. */
    var index: nat

    ghost predicate Valid()
      reads this
    {
      items == Catalogue() && 0 < |items| && index < |items|
    }

    constructor ()
      ensures Valid()
      ensures items == Catalogue() && index == 0
    {
      items := Catalogue();
      index := 0;
    }

    /** The next-arrow button. */
    method Next()
      requires Valid()
      modifies this
      ensures Valid()
      ensures index == NextSlide(old(index), |items|)
    {
      index := NextSlide(index, |items|);
    }

    /** The previous-arrow button. */
    method Prev()
      requires Valid()
      modifies this
      ensures Valid()
      ensures index == PrevSlide(old(index), |items|)
    {
      index := PrevSlide(index, |items|);
    }

    /** A click on dot number `dot`; dots exist only for slides 0 to n - 1. */
    method GoTo(dot: nat)
      requires Valid()
      requires dot < |items|
      modifies this
      ensures Valid()
      ensures index == dot
    {
      index := dot;
    }

    /** One autoplay period, as one step: the successor of the slide shown
        when the step completes becomes the shown one, so no click is lost. */
    method Tick()
      requires Valid()
      modifies this
      ensures Valid()
      ensures index == NextSlide(old(index), |items|)
    {
      var next := (index + 1) % |items|;
      index := next;
    }

    /** The testimonial on display: the catalogue entry at the shown slide,
        which carries a five-point rating. */
    method Current() returns (t: Testimonial)
      requires Valid()
      ensures t == Catalogue()[index] && t in Catalogue()
      ensures t.rating == 5
    {
      t := items[index];
      CatalogueRatedFive();
    }

    /** The dot row, with the active dot at the shown slide. */
    method Dots() returns (dots: seq<bool>)
      requires Valid()
      ensures |dots| == |items|
      ensures forall k :: 0 <= k < |dots| ==> dots[k] == (k == index)
      ensures CountActive(dots) == 1
    {
      dots := DotStates(index, |items|);
      ExactlyOneDotActive(index, |items|);
    }

    /** The star row of the shown testimonial. */
    method CurrentStars() returns (keys: seq<nat>)
      requires Valid()
      ensures |keys| == items[index].rating
      ensures |keys| == 5
    {
      keys := Stars(items[index].rating);
      CatalogueRatedFive();
    }
  }
}
