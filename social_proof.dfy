/**
 * The social-proof testimonial slider: the slide index stepped by the
 * arrows, the dots, swipes and the autoplay tick, the state of the arrows
 * and dots derived from it, and the autoplay timer.
 */
module SocialProofs {
  import opened Optional

  /** `getSlidesPerView`: one slide below 750 pixels, otherwise the column
      count capped by the number of slides. */
  function PerView(columns: int, total: nat, viewportWidth: int): (r: int)
    ensures viewportWidth < 750 ==> r == 1
    ensures viewportWidth >= 750 ==> r <= total && r <= columns && (r == total || r == columns)
  {
    if viewportWidth >= 750 then (if columns <= total then columns else total) else 1
  }

  /** `prevSlide` on the index: nothing at the first slide, one back
      otherwise. */
  function Prev(cur: int): (r: int)
    ensures cur == 0 ==> r == 0
    ensures cur > 0 ==> r == cur - 1
    ensures cur < 0 ==> r == 0
  {
    if cur == 0 then cur else if cur - 1 < 0 then 0 else cur - 1
  }

  /** `nextSlide` on the index, `last` being the index of the last full
      view: nothing from there on, one forward otherwise, never past it. */
  function Next(cur: int, last: int): (r: int)
    ensures cur >= last ==> r == cur
    ensures cur < last ==> r == cur + 1 && r <= last
  {
    if cur >= last then cur else if last < cur + 1 then last else cur + 1
  }

  /** The autoplay tick on the index: back to the first slide from the last
      full view on, one forward otherwise. */
  function Tick(cur: int, last: int): (r: int)
    ensures cur >= last ==> r == 0
    ensures cur < last ==> r == cur + 1 && r <= last
  {
    if cur >= last then 0 else cur + 1
  }

  /** `goToSlide` on the index: an index outside the slides is ignored. */
  function GoTo(cur: int, index: int, total: int): (r: int)
    ensures 0 <= index < total ==> r == index
    ensures index < 0 || index >= total ==> r == cur
  {
    if index < 0 || index >= total then cur else index
  }

  /** The index after `n` autoplay ticks. */
  function Ticks(cur: int, last: int, n: nat): int {
    if n == 0 then cur else Tick(Ticks(cur, last, n - 1), last)
  }

  /** Ticks compose: `a` ticks then `b` ticks are `a + b` ticks. */
  lemma {:induction false} TicksAdd(cur: int, last: int, a: nat, b: nat)
    ensures Ticks(Ticks(cur, last, a), last, b) == Ticks(cur, last, a + b)
  {
    if b > 0 {
      TicksAdd(cur, last, a, b - 1);
    }
  }

  /** From the first slide the ticks count up to the last full view. */
  lemma {:induction false} TicksCountUp(last: nat, n: nat)
    requires n <= last
    ensures Ticks(0, last, n) == n
  {
    if n > 0 {
      TicksCountUp(last, n - 1);
    }
  }

  /** Autoplay cycles: from the first slide it visits every start index up
      to the last full view in turn and comes back to the first after
      `last + 1` ticks, so the cycle repeats with that period. */
  lemma AutoplayCycle(last: nat, n: nat)
    ensures n <= last ==> Ticks(0, last, n) == n
    ensures Ticks(0, last, last + 1) == 0
    ensures Ticks(0, last, n + last + 1) == Ticks(0, last, n)
  {
    TicksCountUp(last, last);
    if n <= last {
      TicksCountUp(last, n);
    }
    assert Ticks(0, last, last + 1) == 0;
    TicksAdd(0, last, last + 1, n);
  }

  /** The slider as it stands on the page. */
  class SocialProof {
    const layout: string
    const autoplay: bool
    const autoplaySpeed: int
    const showArrows: bool
    const showDots: bool
    /** The number of slides, `0` unless the slider layout is in use. */
    const totalSlides: nat
    /** The `--social-proof-columns` value (3 when unset). */
    const columns: int
    const dotCount: nat
    const hasSliderList: bool
    const hasPrevArrow: bool
    const hasNextArrow: bool

    var currentSlide: int
    /** Whether an autoplay interval is running. */
    var timerRunning: bool
    var prevDisabled: bool
    var nextDisabled: bool
    /** Which dots carry the active class. */
    var activeDots: seq<bool>
    /** The `currentSlide` of every slide-changed event dispatched. */
    var slideEvents: seq<int>

    /** The index never goes below the first slide; with at least one
        column it stays on a slide. */
    ghost predicate Valid()
      reads this
    {
      0 <= currentSlide && (columns >= 1 ==> currentSlide == 0 || currentSlide < totalSlides)
    }

    /** The index of the last full view at this width. */
    function LastStart(viewportWidth: int): int {
      totalSlides - PerView(columns, totalSlides, viewportWidth)
    }

    /** The element with its defaults, then `initializeSlider`: settings from
        the attributes, the slide count and the first state when the slider
        layout is in use, and autoplay when enabled. */
    constructor (layout: string, autoplay: string, autoplaySpeed: Option<int>, showArrows: string,
                 showDots: string, hasSlider: bool, slideCount: nat, columns: int, dotCount: nat,
                 hasSliderList: bool, hasPrevArrow: bool, hasNextArrow: bool, viewportWidth: int)
      ensures Valid()
      ensures this.layout == (if layout != "" then layout else "grid")
      ensures this.autoplay == (autoplay == "true")
      ensures this.autoplaySpeed == (if autoplaySpeed.Some? && autoplaySpeed.value != 0 then autoplaySpeed.value * 1000 else 5000)
      ensures totalSlides == (if this.layout == "slider" && hasSlider then slideCount else 0)
      ensures currentSlide == 0
      ensures timerRunning == (this.layout == "slider" && hasSlider && this.autoplay)
      ensures this.showArrows == (showArrows == "true") && this.showDots == (showDots == "true")
      ensures this.columns == columns && this.dotCount == dotCount
      ensures this.hasSliderList == hasSliderList && this.hasPrevArrow == hasPrevArrow && this.hasNextArrow == hasNextArrow
      ensures this.layout == "slider" && hasSlider ==> Refreshed(viewportWidth, false, false, seq(dotCount, _ => false), [])
      ensures !(this.layout == "slider" && hasSlider) ==> DisplayIs(false, false, seq(dotCount, _ => false), [])
    {
      this.layout := if layout != "" then layout else "grid";
      this.autoplay := autoplay == "true";
      this.autoplaySpeed := if autoplaySpeed.Some? && autoplaySpeed.value != 0 then autoplaySpeed.value * 1000 else 5000;
      this.showArrows := showArrows == "true";
      this.showDots := showDots == "true";
      this.totalSlides := if (if layout != "" then layout else "grid") == "slider" && hasSlider then slideCount else 0;
      this.columns := columns;
      this.dotCount := dotCount;
      this.hasSliderList := hasSliderList;
      this.hasPrevArrow := hasPrevArrow;
      this.hasNextArrow := hasNextArrow;
      currentSlide := 0;
      timerRunning := false;
      prevDisabled := false;
      nextDisabled := false;
      activeDots := seq(dotCount, _ => false);
      slideEvents := [];
      new;
      if this.layout == "slider" && hasSlider {
        UpdateSliderState(viewportWidth);
        if this.autoplay {
          StartAutoplay();
        }
      }
    }

    /** The arrows, the dots and the dispatched events are the given ones. */
    ghost predicate DisplayIs(prev: bool, next: bool, dots: seq<bool>, events: seq<int>)
      reads this`prevDisabled, this`nextDisabled, this`activeDots, this`slideEvents
    {
      prevDisabled == prev && nextDisabled == next && activeDots == dots && slideEvents == events
    }

    /** The display after `updateSliderState`, from the arrows, dots and
        events it started with: with the list present, the previous arrow
        (when there is one) is disabled exactly at the first slide, the
        next arrow exactly from the last full view on, exactly the dot of
        the current slide is active, and one slide-changed event carrying
        the current slide is dispatched; without the list nothing
        changes. */
    ghost predicate Refreshed(viewportWidth: int, prev: bool, next: bool, dots: seq<bool>, events: seq<int>)
      reads this`currentSlide, this`prevDisabled, this`nextDisabled, this`activeDots, this`slideEvents
    {
      if hasSliderList then
        && slideEvents == events + [currentSlide]
        && prevDisabled == (if hasPrevArrow then currentSlide == 0 else prev)
        && nextDisabled == (if hasNextArrow then currentSlide >= LastStart(viewportWidth) else next)
        && |activeDots| == dotCount
        && (forall i :: 0 <= i < |activeDots| ==> (activeDots[i] <==> i == currentSlide))
      else
        DisplayIs(prev, next, dots, events)
    }

    /** `updateSliderState`. */
    method UpdateSliderState(viewportWidth: int)
      modifies this`prevDisabled, this`nextDisabled, this`activeDots, this`slideEvents
      ensures Refreshed(viewportWidth, old(prevDisabled), old(nextDisabled), old(activeDots), old(slideEvents))
    {
      if !hasSliderList {
        return;
      }
      if hasPrevArrow {
        prevDisabled := currentSlide == 0;
      }
      if hasNextArrow {
        nextDisabled := currentSlide >= LastStart(viewportWidth);
      }
      var dots: seq<bool> := [];
      for index := 0 to dotCount
        invariant |dots| == index
        invariant forall i :: 0 <= i < index ==> (dots[i] <==> i == currentSlide)
      {
        dots := dots + [index == currentSlide];
      }
      activeDots := dots;
      slideEvents := slideEvents + [currentSlide];
    }

    /** `prevSlide`: one slide back unless at the first. */
    method PrevSlide(viewportWidth: int)
      requires Valid()
      modifies this
      ensures Valid()
      ensures currentSlide == Prev(old(currentSlide))
      ensures old(currentSlide) == 0 ==>
        DisplayIs(old(prevDisabled), old(nextDisabled), old(activeDots), old(slideEvents)) &&
        timerRunning == old(timerRunning)
      ensures old(currentSlide) != 0 ==>
        Refreshed(viewportWidth, old(prevDisabled), old(nextDisabled), old(activeDots), old(slideEvents)) &&
        timerRunning == (autoplay || old(timerRunning))
    {
      if currentSlide == 0 {
        return;
      }
      currentSlide := if currentSlide - 1 < 0 then 0 else currentSlide - 1;
      UpdateSliderState(viewportWidth);
      ResetAutoplay();
    }

    /** `nextSlide`: one slide forward unless already at the last full
        view. */
    method NextSlide(viewportWidth: int)
      requires Valid()
      modifies this
      ensures Valid()
      ensures currentSlide == Next(old(currentSlide), LastStart(viewportWidth))
      ensures old(currentSlide) >= LastStart(viewportWidth) ==>
        DisplayIs(old(prevDisabled), old(nextDisabled), old(activeDots), old(slideEvents)) &&
        timerRunning == old(timerRunning)
      ensures old(currentSlide) < LastStart(viewportWidth) ==>
        Refreshed(viewportWidth, old(prevDisabled), old(nextDisabled), old(activeDots), old(slideEvents)) &&
        timerRunning == (autoplay || old(timerRunning))
    {
      var last := LastStart(viewportWidth);
      if currentSlide >= last {
        return;
      }
      currentSlide := if last < currentSlide + 1 then last else currentSlide + 1;
      UpdateSliderState(viewportWidth);
      ResetAutoplay();
    }

    /** `goToSlide`: jumps to a dot's slide; indexes outside the slides are
        ignored. */
    method GoToSlide(index: int, viewportWidth: int)
      requires Valid()
      modifies this
      ensures Valid()
      ensures currentSlide == GoTo(old(currentSlide), index, totalSlides)
      ensures (index < 0 || index >= totalSlides) ==>
        DisplayIs(old(prevDisabled), old(nextDisabled), old(activeDots), old(slideEvents)) &&
        timerRunning == old(timerRunning)
      ensures 0 <= index < totalSlides ==>
        Refreshed(viewportWidth, old(prevDisabled), old(nextDisabled), old(activeDots), old(slideEvents)) &&
        timerRunning == (autoplay || old(timerRunning))
    {
      if index < 0 || index >= totalSlides {
        return;
      }
      currentSlide := index;
      UpdateSliderState(viewportWidth);
      ResetAutoplay();
    }

    /** The end of a horizontal swipe: a drag of more than 50 pixels
        towards the left moves forward, towards the right moves back. */
    method SwipeEnd(dragging: bool, diffX: int, viewportWidth: int)
      requires Valid()
      modifies this
      ensures Valid()
      ensures !dragging || (-50 <= diffX <= 50) ==> currentSlide == old(currentSlide)
      ensures dragging && diffX > 50 ==> currentSlide == Next(old(currentSlide), LastStart(viewportWidth))
      ensures dragging && diffX < -50 ==> currentSlide == Prev(old(currentSlide))
      ensures var moved := dragging &&
        ((diffX > 50 && old(currentSlide) < LastStart(viewportWidth)) || (diffX < -50 && old(currentSlide) != 0));
        (moved ==>
          Refreshed(viewportWidth, old(prevDisabled), old(nextDisabled), old(activeDots), old(slideEvents)) &&
          timerRunning == (autoplay || old(timerRunning))) &&
        (!moved ==>
          DisplayIs(old(prevDisabled), old(nextDisabled), old(activeDots), old(slideEvents)) &&
          timerRunning == old(timerRunning))
    {
      if !dragging {
        return;
      }
      if diffX > 50 || diffX < -50 {
        if diffX > 0 {
          NextSlide(viewportWidth);
        } else {
          PrevSlide(viewportWidth);
        }
      }
    }

    /** `startAutoplay`: nothing when autoplay is off or a timer runs. */
    method StartAutoplay()
      modifies this`timerRunning
      ensures timerRunning == (old(timerRunning) || autoplay)
    {
      if !autoplay || timerRunning {
        return;
      }
      timerRunning := true;
    }

    /** `stopAutoplay`: clears the timer; calling it again changes nothing. */
    method StopAutoplay()
      modifies this`timerRunning
      ensures !timerRunning
    {
      if timerRunning {
        timerRunning := false;
      }
    }

    /** `resetAutoplay`: restarts the timer when autoplay is on. */
    method ResetAutoplay()
      modifies this`timerRunning
      ensures timerRunning == (autoplay || old(timerRunning))
    {
      if autoplay {
        StopAutoplay();
        StartAutoplay();
      }
    }

    /** One firing of the autoplay interval (only while it runs): wraps to
        the first slide from the last full view on, otherwise one forward. */
    method AutoplayTick(viewportWidth: int)
      requires Valid()
      modifies this`currentSlide, this`prevDisabled, this`nextDisabled, this`activeDots, this`slideEvents
      ensures Valid()
      ensures timerRunning ==>
        currentSlide == Tick(old(currentSlide), LastStart(viewportWidth)) &&
        Refreshed(viewportWidth, old(prevDisabled), old(nextDisabled), old(activeDots), old(slideEvents))
      ensures !timerRunning ==>
        currentSlide == old(currentSlide) &&
        DisplayIs(old(prevDisabled), old(nextDisabled), old(activeDots), old(slideEvents))
    {
      if !timerRunning {
        return;
      }
      if currentSlide >= LastStart(viewportWidth) {
        currentSlide := 0;
      } else {
        currentSlide := currentSlide + 1;
      }
      UpdateSliderState(viewportWidth);
    }
  }
}
