/**
 * The scan-line animation of the viewfinder: one integer `offset` that every draw
 * advances by `Speed` and that restarts at 0 once it reaches the frame height,
 * giving a sawtooth sweep from the top of the frame to its bottom.
 */
module Animation {

  /** Pixels the laser moves per draw (field `speed`) */
  const Speed: int := 5

  /**
   * One draw's update of the offset for a frame `frameHeight` pixels high: advance
   * by one step, and restart at 0 when the advanced value reaches the height
   * (reaching it exactly restarts too).
   */
  function Tick(offset: int, frameHeight: int): (next: int)
    ensures next == 0 || next == offset + Speed
    ensures offset + Speed >= frameHeight ==> next == 0
    ensures offset + Speed < frameHeight ==> next == offset + Speed
    ensures offset >= 0 ==> 0 <= next && (next == 0 || next < frameHeight)
  {
    var advanced := offset + Speed;
    if advanced >= frameHeight then 0 else advanced
  }

  /** The offset after `n` draws of a frame of constant height */
  function Ticks(offset: int, frameHeight: int, n: nat): int
    decreases n
  {
    if n == 0 then offset else Ticks(Tick(offset, frameHeight), frameHeight, n - 1)
  }

  /** Draws needed to go from 0 back to 0: the least `n` with `n * Speed >= frameHeight` */
  function Period(frameHeight: int): (p: nat)
    requires frameHeight > 0
    ensures p >= 1
    ensures p * Speed >= frameHeight && (p - 1) * Speed < frameHeight
  {
    (frameHeight + Speed - 1) / Speed
  }

  /** Running `m` draws and then `n` more is running `m + n` draws */
  lemma {:induction false} TicksAdd(offset: int, frameHeight: int, m: nat, n: nat)
    ensures Ticks(offset, frameHeight, m + n) == Ticks(Ticks(offset, frameHeight, m), frameHeight, n)
    decreases m
  {
    if m > 0 {
      TicksAdd(Tick(offset, frameHeight), frameHeight, m - 1, n);
    }
  }

  /** Once non-negative, the offset stays non-negative and is 0 or below the frame height */
  lemma {:induction false} TicksStayInRange(offset: int, frameHeight: int, n: nat)
    requires offset >= 0
    ensures var o := Ticks(offset, frameHeight, n); 0 <= o && (n > 0 ==> o == 0 || o < frameHeight)
    decreases n
  {
    if n > 0 {
      var next := Tick(offset, frameHeight);
      TicksStayInRange(next, frameHeight, n - 1);
      if n - 1 == 0 {
        assert Ticks(offset, frameHeight, n) == next;
      }
    }
  }

  /** While the sweep has not reached the frame's height, `n` draws move the offset by `n` steps */
  lemma {:induction false} TicksAdvance(offset: int, frameHeight: int, n: nat)
    requires offset + n * Speed < frameHeight
    ensures Ticks(offset, frameHeight, n) == offset + n * Speed
    decreases n
  {
    if n > 0 {
      TicksAdvance(offset + Speed, frameHeight, n - 1);
    }
  }

  /** Starting from 0, the offset is back at 0 after exactly `Period(frameHeight)` draws and not before */
  lemma TicksWrap(frameHeight: int)
    requires frameHeight > 0
    ensures Ticks(0, frameHeight, Period(frameHeight)) == 0
    ensures forall n: nat :: 0 < n < Period(frameHeight) ==> Ticks(0, frameHeight, n) == n * Speed > 0
  {
    var p := Period(frameHeight);
    TicksAdvance(0, frameHeight, p - 1);
    TicksAdd(0, frameHeight, p - 1, 1);
    forall n: nat | 0 < n < p
      ensures Ticks(0, frameHeight, n) == n * Speed > 0
    {
      TicksAdvance(0, frameHeight, n);
    }
  }

  /** The sweep from 0 repeats with period `Period(frameHeight)` */
  lemma TicksPeriodic(frameHeight: int, n: nat)
    requires frameHeight > 0
    ensures Ticks(0, frameHeight, n + Period(frameHeight)) == Ticks(0, frameHeight, n)
  {
    var p := Period(frameHeight);
    TicksWrap(frameHeight);
    TicksAdd(0, frameHeight, p, n);
    assert p + n == n + p;
  }

  /**
   * Closed form of the sweep from 0: after `q` full periods and `r` more draws,
   * with `r` below the period, the offset is `r * Speed`.
   */
  lemma {:induction false} TicksFromZero(frameHeight: int, q: nat, r: nat)
    requires frameHeight > 0 && r < Period(frameHeight)
    ensures Ticks(0, frameHeight, q * Period(frameHeight) + r) == r * Speed
    decreases q
  {
    var p := Period(frameHeight);
    if q == 0 {
      TicksAdvance(0, frameHeight, r);
    } else {
      TicksFromZero(frameHeight, q - 1, r);
      TicksPeriodic(frameHeight, (q - 1) * p + r);
      assert (q - 1) * p + r + p == q * p + r;
    }
  }

  /**
   * A frame 200 pixels high: 39 draws from 0 bring the laser to 195, and the
   * 40th reaches 200 exactly and restarts it at 0.
   */
  lemma WrapAtFrameHeight()
    ensures Ticks(0, 200, 39) == 195
    ensures Ticks(0, 200, 40) == 0
  {
    TicksFromZero(200, 0, 39);
    TicksFromZero(200, 1, 0);
  }
}
