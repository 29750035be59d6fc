/** The image carousel of the batch detail dialog: stepping forward and back through the images
    with JavaScript's remainder operator. */
module Carousel {

  /** JavaScript's `%` on integers: the remainder truncates toward zero, so it takes the sign of
      the dividend. */
  function JsRem(a: int, n: int): (r: int)
    requires n > 0
    ensures a >= 0 ==> r == a % n
    ensures a < 0 ==> -n < r <= 0
  {
    if a >= 0 then a % n else -((-a) % n)
  }

  /** `nextImage`: one step forward, wrapping round; nothing happens with at most one image. */
  function NextImage(index: int, count: nat): (r: int)
    ensures count <= 1 ==> r == index
    ensures count > 1 && index >= 0 ==> 0 <= r < count && r == (index + 1) % count
  {
    if count > 1 then JsRem(index + 1, count) else index
  }

  /** `prevImage`: one step back, wrapping round; nothing happens with at most one image. */
  function PrevImage(index: int, count: nat): (r: int)
    ensures count <= 1 ==> r == index
    ensures count > 1 && index >= 1 - count ==> 0 <= r < count && r == (index - 1 + count) % count
  {
    if count > 1 then JsRem(index - 1 + count, count) else index
  }

  /** A step back undoes a step forward. */
  lemma PrevUndoesNext(index: int, count: nat)
    requires 0 <= index < count
    ensures PrevImage(NextImage(index, count), count) == index
  {
    NextInRange(index, count);
    PrevInRange(NextImage(index, count), count);
  }

  /** A step forward undoes a step back. */
  lemma NextUndoesPrev(index: int, count: nat)
    requires 0 <= index < count
    ensures NextImage(PrevImage(index, count), count) == index
  {
    PrevInRange(index, count);
    NextInRange(PrevImage(index, count), count);
  }

  /** `k` steps forward. */
  function Forward(index: int, count: nat, k: nat): int {
    if k == 0 then index else NextImage(Forward(index, count, k - 1), count)
  }

  /** One step forward from a position in range: the next position, or the first after the last. */
  lemma NextInRange(x: int, count: nat)
    requires 0 <= x < count
    ensures NextImage(x, count) == if x + 1 < count then x + 1 else 0
  {
    if count > 1 {
      if x + 1 < count {
        ModBelow(x + 1, count);
      } else {
        assert x + 1 == count;
      }
    }
  }

  /** One step back from a position in range: the previous position, or the last before the first. */
  lemma PrevInRange(x: int, count: nat)
    requires 0 <= x < count
    ensures PrevImage(x, count) == if x > 0 then x - 1 else count - 1
  {
    if count > 1 {
      if x > 0 {
        ModAbove(x - 1 + count, count);
      } else {
        ModBelow(count - 1, count);
      }
    }
  }

  lemma ModBelow(a: int, n: int)
    requires 0 <= a < n
    ensures a % n == a
  {
  }

  lemma ModAbove(a: int, n: int)
    requires 0 < n <= a < 2 * n
    ensures a % n == a - n
  {
    assert a == n * 1 + (a - n);
  }

  /** From a position in range, up to one full round of `k` steps forward lands `k` places on,
      wrapping past the last image back to the first. */
  lemma {:induction false} ForwardWithinRound(index: int, count: nat, k: nat)
    requires 0 <= index < count && k <= count
    ensures Forward(index, count, k) == if index + k < count then index + k else index + k - count
  {
    if k > 0 {
      ForwardWithinRound(index, count, k - 1);
      NextInRange(Forward(index, count, k - 1), count);
    }
  }

  /** Going forward once per image returns to the start. */
  lemma FullCircle(index: int, count: nat)
    requires 0 <= index < count
    ensures Forward(index, count, count) == index
  {
    ForwardWithinRound(index, count, count);
  }
}
