/** The wrap-around slide navigator of index.js: a fixed deck of 17
    slides whose next and previous moves use modular arithmetic, driven by
    a keydown handler. */
module WrapDeck {
  import opened Wrappers

  /** `totalSlides`. */
  const TotalSlides: int := 17

  /** Entries of the `slides` array: one workflow-simulation slide followed
      by the 17 numbered slides. */
  const SlidesLength: int := 18

  /** JavaScript's `%`: the remainder takes the sign of the dividend. */
  function JsRem(a: int, b: int): int
    requires b > 0
  {
    if a >= 0 then a % b else -((-a) % b)
  }

  /** The functional update of `nextSlide`. */
  function WrapNext(i: int): int
  {
    JsRem(i + 1, TotalSlides)
  }

  /** The functional update of `prevSlide`. */
  function WrapPrev(i: int): int
  {
    JsRem(i - 1 + TotalSlides, TotalSlides)
  }

  predicate InDeck(i: int)
  {
    0 <= i < TotalSlides
  }

  /** Both moves keep the index on the deck. */
  lemma MovesInDeck(i: int)
    requires InDeck(i)
    ensures InDeck(WrapNext(i)) && InDeck(WrapPrev(i))
  {
  }

  /** Inside the deck both moves step by one; at the ends they wrap. */
  lemma MoveSteps(i: int)
    requires InDeck(i)
    ensures i < TotalSlides - 1 ==> WrapNext(i) == i + 1
    ensures i == TotalSlides - 1 ==> WrapNext(i) == 0
    ensures i > 0 ==> WrapPrev(i) == i - 1
    ensures i == 0 ==> WrapPrev(i) == TotalSlides - 1
  {
  }

  /** Next and prev undo each other, in either order. */
  lemma NextPrevInverse(i: int)
    requires InDeck(i)
    ensures WrapPrev(WrapNext(i)) == i && WrapNext(WrapPrev(i)) == i
  {
  }

  /** `n` successive `nextSlide` calls. */
  function NextTimes(i: int, n: nat): int
    decreases n
  {
    if n == 0 then i else NextTimes(WrapNext(i), n - 1)
  }

  /** After `n` moves forward the deck is `n` slides further, modulo 17. */
  lemma {:induction false} NextTimesIsShift(i: int, n: nat)
    requires InDeck(i)
    ensures NextTimes(i, n) == (i + n) % TotalSlides
    decreases n
  {
    if n > 0 {
      MovesInDeck(i);
      NextTimesIsShift(WrapNext(i), n - 1);
      assert (WrapNext(i) + (n - 1)) % TotalSlides == (i + n) % TotalSlides by {
        assert WrapNext(i) == (i + 1) % TotalSlides;
        ModShift(i + 1, n - 1);
      }
    }
  }

  lemma ModShift(a: int, k: nat)
    requires a >= 0
    ensures (a % TotalSlides + k) % TotalSlides == (a + k) % TotalSlides
  {
  }

  /** Any whole number of rounds of seventeen moves forward comes back
      to the starting slide. */
  lemma FullCycle(i: int, n: nat)
    requires InDeck(i) && n % TotalSlides == 0
    ensures NextTimes(i, n) == i
  {
    NextTimesIsShift(i, n);
    ModShift(n, i);
  }

  /** The index into `slides` is always defined, and the array's last entry
      (index 17) is never shown. */
  lemma SlideAlwaysDefined(i: int)
    requires InDeck(i)
    ensures 0 <= i < SlidesLength && i != SlidesLength - 1
    ensures WrapNext(i) != SlidesLength - 1 && WrapPrev(i) != SlidesLength - 1
  {
  }

  datatype Move = Forward | Backward

  /** The keydown handler: "ArrowRight" or the key name "Space" move
      forward, "ArrowLeft" moves back, all other keys are ignored. */
  function KeyMove(key: string): Option<Move>
  {
    if key == "ArrowRight" || key == "Space" then Some(Forward)
    else if key == "ArrowLeft" then Some(Backward)
    else None
  }

  lemma KeyMoves(key: string)
    ensures KeyMove(key) == Some(Forward) <==> key == "ArrowRight" || key == "Space"
    ensures KeyMove(key) == Some(Backward) <==> key == "ArrowLeft"
    ensures KeyMove(" ") == None
  {
  }

  /** The `App` component of index.js. */
  class Deck {
    var currentSlide: int

    ghost predicate Valid()
      reads this
    {
      InDeck(currentSlide)
    }

    constructor ()
      ensures Valid() && currentSlide == 0
    {
      currentSlide := 0;
    }

    method NextSlide()
      requires Valid()
      modifies this
      ensures Valid() && currentSlide == WrapNext(old(currentSlide))
    {
      currentSlide := (currentSlide + 1) % TotalSlides;
    }

    method PrevSlide()
      requires Valid()
      modifies this
      ensures Valid() && currentSlide == WrapPrev(old(currentSlide))
    {
      currentSlide := (currentSlide - 1 + TotalSlides) % TotalSlides;
    }

    method HandleKeyDown(key: string)
      requires Valid()
      modifies this
      ensures Valid()
      ensures currentSlide == match KeyMove(key)
                              case Some(Forward) => WrapNext(old(currentSlide))
                              case Some(Backward) => WrapPrev(old(currentSlide))
                              case None => old(currentSlide)
    {
      if key == "ArrowRight" || key == "Space" {
        NextSlide();
      } else if key == "ArrowLeft" {
        PrevSlide();
      }
    }

    /** `slides[currentSlide]`: the slide rendered, as an index into the
        18-entry array. */
    function Shown(): (k: int)
      reads this
      requires Valid()
      ensures 0 <= k < SlidesLength - 1
    {
      currentSlide
    }
  }
}
