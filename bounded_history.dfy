/**
 * The bounded FIFO used for the monitor history and for both client-side
 * buffers: `buf.push(x)` followed by `if (buf.length > cap) buf.splice(0, 1)`.
 */
module BoundedHistory {

  /** One push onto a buffer of capacity `cap`: append, then drop the oldest element if too long. */
  function Push<T>(buf: seq<T>, x: T, cap: nat): (r: seq<T>)
    ensures |r| == if |buf| < cap then |buf| + 1 else |buf|
    ensures r == (buf + [x])[|buf| + 1 - |r|..]
    ensures |buf| <= cap ==> |r| <= cap
    ensures r != [] ==> r[|r| - 1] == x
    ensures |buf| == cap > 0 ==> r == buf[1..] + [x]
  {
    var grown := buf + [x];
    if |grown| > cap then grown[1..] else grown
  }

  /** Pushing the elements of `xs` one after the other, oldest first. */
  function PushAll<T>(buf: seq<T>, xs: seq<T>, cap: nat): seq<T>
    decreases |xs|
  {
    if xs == [] then buf else PushAll(Push(buf, xs[0], cap), xs[1..], cap)
  }

  /**
   * A buffer that starts within its capacity keeps exactly the newest `cap`
   * elements of everything it has seen, in the order they arrived.
   */
  lemma {:induction false} PushAllKeepsNewest<T>(buf: seq<T>, xs: seq<T>, cap: nat)
    requires |buf| <= cap
    ensures var all := buf + xs;
            var drop := if |all| > cap then |all| - cap else 0;
            PushAll(buf, xs, cap) == all[drop..]
    decreases |xs|
  {
    if xs != [] {
      var all := buf + xs;
      var b := Push(buf, xs[0], cap);
      var d := |buf| + 1 - |b|;
      assert d == 0 || d == 1;
      assert b == (buf + [xs[0]])[d..];
      assert b + xs[1..] == all[d..] by {
        assert buf + [xs[0]] + xs[1..] == all;
      }
      PushAllKeepsNewest(b, xs[1..], cap);
      var rest := b + xs[1..];
      var e := if |rest| > cap then |rest| - cap else 0;
      assert PushAll(buf, xs, cap) == rest[e..];
      assert rest[e..] == all[d + e..];
      assert d + e == (if |all| > cap then |all| - cap else 0);
    }
  }

  /** After at least `cap` pushes the buffer is exactly the last `cap` values pushed. */
  lemma FullAfterEnoughPushes<T>(buf: seq<T>, xs: seq<T>, cap: nat)
    requires |buf| <= cap && |xs| >= cap
    ensures PushAll(buf, xs, cap) == xs[|xs| - cap..]
  {
    PushAllKeepsNewest(buf, xs, cap);
    assert (buf + xs)[|buf| + |xs| - cap..] == xs[|xs| - cap..];
  }
}
