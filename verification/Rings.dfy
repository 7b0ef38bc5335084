/** Rings in an array: cnt elements from tail on, going round at the end. */
module Rings {
  function Wrap(n: nat, size: nat): nat
    requires n <= 2 * size
  {
    if n >= size then n - size else n
  }

  function Ring<T>(buff: seq<T>, tail: nat, cnt: nat): (r: seq<T>)
    requires tail < |buff| && cnt <= |buff|
    ensures |r| == cnt
  {
    if tail + cnt <= |buff| then buff[tail..tail + cnt] else buff[tail..] + buff[..tail + cnt - |buff|]
  }

  /** Taking n elements off a ring leaves the rest. */
  lemma RingDrop<T>(buff: seq<T>, tail: nat, cnt: nat, n: nat)
    requires tail < |buff| && n <= cnt <= |buff|
    ensures Wrap(tail + n, |buff|) < |buff|
    ensures Ring(buff, tail, cnt) == Ring(buff, tail, n) + Ring(buff, Wrap(tail + n, |buff|), cnt - n)
  {
  }

  lemma RingDropOne<T>(buff: seq<T>, tail: nat, cnt: nat)
    requires tail < |buff| && 0 < cnt <= |buff|
    ensures Wrap(tail + 1, |buff|) < |buff|
    ensures Ring(buff, tail, cnt) == [buff[tail]] + Ring(buff, Wrap(tail + 1, |buff|), cnt - 1)
  {
  }

  /** buff with the elements from position at on replaced by d */
  function Stored<T>(buff: seq<T>, at: nat, d: seq<T>): seq<T>
    requires at + |d| <= |buff|
  {
    buff[..at] + d + buff[at + |d|..]
  }

  /** Storing elements behind a ring, in one piece, makes it longer. */
  lemma RingPut<T>(buff: seq<T>, tail: nat, cnt: nat, d: seq<T>)
    requires tail < |buff| && cnt + |d| <= |buff| && Wrap(tail + cnt, |buff|) + |d| <= |buff|
    ensures Ring(Stored(buff, Wrap(tail + cnt, |buff|), d), tail, cnt + |d|) == Ring(buff, tail, cnt) + d
  {
  }

  lemma RingPutOne<T>(buff: seq<T>, tail: nat, cnt: nat, b: T)
    requires tail < |buff| && cnt < |buff|
    ensures var at := Wrap(tail + cnt, |buff|);
            at < |buff| && Ring(buff[at := b], tail, cnt + 1) == Ring(buff, tail, cnt) + [b]
  {
  }
}
