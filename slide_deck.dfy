/** The clamped slide navigator of src/App.jsx: the visible slide index and
    the last move's direction, changed only by the four navigation
    callbacks, which the swipe and keyboard adapters drive. */
module SlideDeck {
  import opened Wrappers
  import Swipe
  import Keyboard

  /** `'next'` or `'prev'`: which way the last move went (it only picks the
      enter or exit animation). */
  datatype Direction = Next | Prev

  /** The navigator's state as a value. */
  datatype View = View(current: int, direction: Direction)

  datatype Command = GoNext | GoPrev | GoFirst | GoLast

  /** The deck has slides 0 .. total - 1. */
  predicate InDeck(v: View, total: nat)
  {
    0 <= v.current < total
  }

  /** The state after `nextSlide`: it moves forward unless already on the last slide. */
  function AfterNext(v: View, total: nat): View
  {
    if v.current < total - 1 then View(v.current + 1, Next) else v
  }

  /** The state after `prevSlide`: it moves back unless already on slide 0. */
  function AfterPrev(v: View, total: nat): View
  {
    if v.current > 0 then View(v.current - 1, Prev) else v
  }

  /** The state after `goToFirst`, from any state. */
  function AfterFirst(v: View): View
  {
    View(0, Prev)
  }

  /** The state after `goToLast`, from any state. */
  function AfterLast(v: View, total: nat): View
  {
    View(total - 1, Next)
  }

  function Apply(v: View, c: Command, total: nat): View
  {
    match c
    case GoNext => AfterNext(v, total)
    case GoPrev => AfterPrev(v, total)
    case GoFirst => AfterFirst(v)
    case GoLast => AfterLast(v, total)
  }

  /** The state after a sequence of commands, applied left to right. */
  function Run(v: View, cs: seq<Command>, total: nat): View
    decreases |cs|
  {
    if cs == [] then v else Run(Apply(v, cs[0], total), cs[1..], total)
  }

  /** The state a session starts in. */
  const Initial := View(0, Next)

  /** Each command keeps the index on the deck. */
  lemma ApplyInDeck(v: View, c: Command, total: nat)
    requires InDeck(v, total)
    ensures InDeck(Apply(v, c, total), total)
  {
  }

  /** However the deck is driven, the index never leaves the deck, even for
      a one-slide deck where both moves are no-ops. */
  lemma {:induction false} RunInDeck(v: View, cs: seq<Command>, total: nat)
    requires InDeck(v, total)
    ensures InDeck(Run(v, cs, total), total)
    decreases |cs|
  {
    if cs != [] {
      ApplyInDeck(v, cs[0], total);
      RunInDeck(Apply(v, cs[0], total), cs[1..], total);
    }
  }

  /** Below the last slide `nextSlide` adds exactly one and records the
      forward direction; on the last slide it changes nothing. */
  lemma NextSlideEffect(v: View, total: nat)
    requires InDeck(v, total)
    ensures v.current < total - 1 ==> AfterNext(v, total) == View(v.current + 1, Next)
    ensures v.current == total - 1 ==> AfterNext(v, total) == v
  {
  }

  /** Above slide 0 `prevSlide` subtracts exactly one and records the
      backward direction; on slide 0 it changes nothing. */
  lemma PrevSlideEffect(v: View, total: nat)
    requires InDeck(v, total)
    ensures v.current > 0 ==> AfterPrev(v, total) == View(v.current - 1, Prev)
    ensures v.current == 0 ==> AfterPrev(v, total) == v
  {
  }

  /** A move forward that happened is undone by one move back. */
  lemma NextThenPrev(v: View, total: nat)
    requires InDeck(v, total) && v.current < total - 1
    ensures AfterPrev(AfterNext(v, total), total).current == v.current
  {
  }

  /** A move back that happened is undone by one move forward. */
  lemma PrevThenNext(v: View, total: nat)
    requires InDeck(v, total) && v.current > 0
    ensures AfterNext(AfterPrev(v, total), total).current == v.current
  {
  }

  /** Jumping to either end is idempotent, and a move past that end is a
      no-op. */
  lemma EndsAreFixed(v: View, total: nat)
    requires total >= 1
    ensures AfterFirst(AfterFirst(v)) == AfterFirst(v)
    ensures AfterLast(AfterLast(v, total), total) == AfterLast(v, total)
    ensures AfterPrev(AfterFirst(v), total) == View(0, Prev)
    ensures AfterNext(AfterLast(v, total), total) == View(total - 1, Next)
  {
  }

  /** The wiring in src/App.jsx: a left swipe goes forward, a right swipe
      back; no up or down callback is passed, so those do nothing. */
  function SwipeCommand(g: Swipe.Gesture): Option<Command>
  {
    match g
    case SwipeLeft => Some(GoNext)
    case SwipeRight => Some(GoPrev)
    case SwipeUp => None
    case SwipeDown => None
  }

  /** The four callbacks handed to the keyboard adapter. */
  function KeyCommand(h: Keyboard.Handler): Command
  {
    match h
    case OnNext => GoNext
    case OnPrevious => GoPrev
    case OnFirst => GoFirst
    case OnLast => GoLast
  }

  /** src/App.jsx passes all four callbacks. */
  const WiredHandlers: set<Keyboard.Handler> := {Keyboard.OnNext, Keyboard.OnPrevious, Keyboard.OnFirst, Keyboard.OnLast}

  /** The `App` component's navigation state. */
  class Navigator {
    const total: nat
    var current: int
    var direction: Direction

    ghost predicate Valid()
      reads this
    {
      InDeck(View(current, direction), total)
    }

    function State(): View
      reads this
    {
      View(current, direction)
    }

    /** `useState(0)` and `useState('next')` over a deck of `total` slides
        (17 in src/slides/slidesContent.jsx). */
    constructor (total: nat)
      requires total >= 1
      ensures Valid() && this.total == total && State() == Initial
    {
      this.total := total;
      current := 0;
      direction := Next;
    }

    method NextSlide()
      requires Valid()
      modifies this
      ensures Valid() && State() == AfterNext(old(State()), total)
    {
      if current < total - 1 {
        direction := Next;
        current := current + 1;
      }
    }

    method PrevSlide()
      requires Valid()
      modifies this
      ensures Valid() && State() == AfterPrev(old(State()), total)
    {
      if current > 0 {
        direction := Prev;
        current := current - 1;
      }
    }

    method GoToFirst()
      requires Valid()
      modifies this
      ensures Valid() && State() == AfterFirst(old(State()))
    {
      direction := Prev;
      current := 0;
    }

    method GoToLast()
      requires Valid()
      modifies this
      ensures Valid() && State() == AfterLast(old(State()), total)
    {
      direction := Next;
      current := total - 1;
    }

    method Perform(c: Command)
      requires Valid()
      modifies this
      ensures Valid() && State() == Apply(old(State()), c, total)
    {
      match c
      case GoNext => NextSlide();
      case GoPrev => PrevSlide();
      case GoFirst => GoToFirst();
      case GoLast => GoToLast();
    }

    /** A touch-end event: the swipe adapter classifies the gesture, and a
        left or right swipe moves the deck. */
    method OnTouchEnd(tracker: Swipe.Tracker)
      requires Valid()
      modifies this
      ensures Valid()
      ensures var g := Swipe.Classify(tracker.touchStart, tracker.touchEnd);
              State() == if g.Some? && SwipeCommand(g.value).Some?
                         then Apply(old(State()), SwipeCommand(g.value).value, total)
                         else old(State())
    {
      var fired := tracker.TouchEnd();
      if fired.Some? {
        var c := SwipeCommand(fired.value);
        if c.Some? {
          Perform(c.value);
        }
      }
    }

    /** A keydown event: returns whether the browser default was
        suppressed. */
    method OnKeyDown(key: string) returns (preventDefault: bool)
      requires Valid()
      modifies this
      ensures Valid()
      ensures preventDefault == Keyboard.HandleKeyDown(key, WiredHandlers).preventDefault
      ensures var b := Keyboard.Binding(key);
              State() == if b.Some? then Apply(old(State()), KeyCommand(b.value), total) else old(State())
    {
      var effect := Keyboard.HandleKeyDown(key, WiredHandlers);
      preventDefault := effect.preventDefault;
      if effect.called.Some? {
        Perform(KeyCommand(effect.called.value));
      }
    }
  }
}
