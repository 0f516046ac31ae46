/** The playhead of the drum machine: the index `curline` of the line played
    this frame, advanced once per frame and wrapped back to 0 after the last
    line `maxline`. */
module Playhead {

  /** One frame's advance: increment first, then wrap to 0 once past
      maxline. Within range this is a step of +1 modulo maxline + 1. */
  function Advance(cur: int, maxline: int): (r: int)
    ensures 0 <= cur <= maxline ==> 0 <= r <= maxline
    ensures 0 <= cur <= maxline ==> r == (cur + 1) % (maxline + 1)
  {
    if cur + 1 > maxline then 0 else cur + 1
  }

  /** The playhead after n frames. */
  function AdvanceN(cur: int, maxline: int, n: nat): (r: int)
    ensures 0 <= cur <= maxline ==> 0 <= r <= maxline
    ensures n == 0 ==> r == cur
  {
    if n == 0 then cur else Advance(AdvanceN(cur, maxline, n - 1), maxline)
  }

  /** Euclidean remainder is determined by any quotient-remainder split. */
  lemma ModOfSplit(a: int, d: int, q: int, r: int)
    requires d > 0 && 0 <= r < d && a == q * d + r
    ensures a % d == r
  {
    var k := q - a / d;
    assert k * d == a % d - r by {
      assert a == (a / d) * d + a % d;
      assert k * d == q * d - (a / d) * d;
    }
    if k >= 1 {
      AtLeastOnce(k, d);
    } else if k <= -1 {
      AtLeastOnce(-k, d);
    }
  }

  lemma AtLeastOnce(k: int, d: int)
    requires k >= 1 && d > 0
    ensures k * d >= d
  {
    assert (k - 1) * d >= 0;
  }

  /** Taking the remainder before adding one does not change the result. */
  lemma ModSucc(a: int, d: int)
    requires d > 0
    ensures (a % d + 1) % d == (a + 1) % d
  {
    var q, r := a / d, a % d;
    assert a == q * d + r;
    if r + 1 < d {
      ModOfSplit(a + 1, d, q, r + 1);
      ModOfSplit(r + 1, d, 0, r + 1);
    } else {
      ModOfSplit(a + 1, d, q + 1, 0);
      ModOfSplit(r + 1, d, 1, 0);
    }
  }

  /** After n frames a playhead that starts in range is at
      (cur + n) mod (maxline + 1). */
  lemma {:induction false} AdvanceNModular(cur: int, maxline: int, n: nat)
    requires 0 <= cur <= maxline
    ensures 0 <= AdvanceN(cur, maxline, n) <= maxline
    ensures AdvanceN(cur, maxline, n) == (cur + n) % (maxline + 1)
  {
    if n == 0 {
      ModOfSplit(cur, maxline + 1, 0, cur);
    } else {
      AdvanceNModular(cur, maxline, n - 1);
      ModSucc(cur + n - 1, maxline + 1);
    }
  }

  /** The playhead is periodic: after maxline + 1 frames (one per line) it
      is back where it started. */
  lemma Period(cur: int, maxline: int)
    requires 0 <= cur <= maxline
    ensures AdvanceN(cur, maxline, maxline + 1) == cur
  {
    AdvanceNModular(cur, maxline, maxline + 1);
    ModOfSplit(cur + maxline + 1, maxline + 1, 1, cur);
  }

  /** From the state after setup (curline 0, 16 lines), frame k (counting
      from 1) lights line k mod 16: the first frame lights line 1, not 0. */
  lemma FramesFromSetup(k: nat)
    ensures AdvanceN(0, 15, k) == k % 16
    ensures AdvanceN(0, 15, 1) == 1
  {
    AdvanceNModular(0, 15, k);
  }
}
