/** The card popup: a text shown for a fixed number of draws, then switched off. */
module Popups {

  /** Draws a popup stays up: three seconds at 60 ticks per second. */
  const DisplayTicks: int := 180

  class Popup {
    var text: string
    var active: bool
    var timer: int

    /** The countdown stays in range, and the popup is active exactly while draws remain. */
    ghost predicate Valid()
      reads this
    {
      0 <= timer <= DisplayTicks && (active <==> timer > 0)
    }

    constructor (text: string)
      ensures Valid()
      ensures this.text == text && active && timer == DisplayTicks
    {
      this.text := text;
      active := true;
      timer := DisplayTicks;
    }

    /** `Popup.draw`, without the pixels: one step of the countdown, and only while active. */
    method Draw()
      requires Valid()
      modifies this
      ensures Valid()
      ensures text == old(text)
      ensures (timer, active) == AfterDraw(old(timer), old(active))
    {
      if active {
        timer := timer - 1;
        if timer <= 0 {
          active := false;
        }
      }
    }
  }

  /** The (timer, active) pair after one draw. */
  function AfterDraw(timer: int, active: bool): (int, bool)
  {
    if active then (timer - 1, timer - 1 > 0) else (timer, active)
  }

  /** The (timer, active) pair after n draws. */
  function AfterDraws(n: nat, timer: int, active: bool): (int, bool)
  {
    if n == 0 then (timer, active)
    else
      var s := AfterDraw(timer, active);
      AfterDraws(n - 1, s.0, s.1)
  }

  /** Drawing an inactive popup changes nothing, however often. */
  lemma {:induction false} InactiveIsFrozen(n: nat, timer: int)
    ensures AfterDraws(n, timer, false) == (timer, false)
  {
    if n > 0 {
      InactiveIsFrozen(n - 1, timer);
    }
  }

  /** While draws remain, each draw takes exactly one from the timer. */
  lemma {:induction false} CountsDown(n: nat, timer: int)
    requires 0 < timer && n <= timer
    ensures AfterDraws(n, timer, true) == (timer - n, n < timer)
  {
    if n > 0 {
      if timer - 1 > 0 {
        CountsDown(n - 1, timer - 1);
      } else {
        assert n == 1;
      }
    }
  }

  /**
   * A new popup is active before its k-th draw exactly for k = 1 .. 180, so it
   * is drawn 180 times; from then on it stays inactive with timer 0.
   */
  lemma PopupLifetime(n: nat)
    ensures AfterDraws(n, DisplayTicks, true).1 <==> n < DisplayTicks
    ensures n <= DisplayTicks ==> AfterDraws(n, DisplayTicks, true).0 == DisplayTicks - n
    ensures n >= DisplayTicks ==> AfterDraws(n, DisplayTicks, true) == (0, false)
  {
    if n <= DisplayTicks {
      CountsDown(n, DisplayTicks);
    } else {
      AfterDrawsSplit(DisplayTicks, n - DisplayTicks, DisplayTicks, true);
      CountsDown(DisplayTicks, DisplayTicks);
      InactiveIsFrozen(n - DisplayTicks, 0);
    }
  }

  lemma {:induction false} AfterDrawsSplit(a: nat, b: nat, timer: int, active: bool)
    ensures var s := AfterDraws(a, timer, active);
            AfterDraws(a + b, timer, active) == AfterDraws(b, s.0, s.1)
  {
    if a > 0 {
      var s := AfterDraw(timer, active);
      AfterDrawsSplit(a - 1, b, s.0, s.1);
    }
  }
}
