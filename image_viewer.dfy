/**
 * The full-screen image viewer: wrap-around next/previous navigation over
 * `n` images, the key bindings, and what is rendered for an index.
 * Callers mount it only with `0 <= index < n`; for these non-negative
 * operands JavaScript's truncating `%` and Dafny's `%` agree.
 */
module ImageViewer {
  import opened Wrappers

  /** `(index + 1) % images.length`. */
  function Next(i: int, n: int): (r: int)
    requires 0 <= i < n
    ensures 0 <= r < n
    ensures r == if i == n - 1 then 0 else i + 1
  {
    (i + 1) % n
  }

  /** `(index - 1 + images.length) % images.length`. */
  function Prev(i: int, n: int): (r: int)
    requires 0 <= i < n
    ensures 0 <= r < n
    ensures r == if i == 0 then n - 1 else i - 1
  {
    (i - 1 + n) % n
  }

  /** Next and previous undo each other. */
  lemma NextPrevInverse(i: int, n: int)
    requires 0 <= i < n
    ensures Next(Prev(i, n), n) == i
    ensures Prev(Next(i, n), n) == i
  {
  }

  /** `k` presses of the right arrow from index `i`. */
  function Forward(i: int, n: int, k: nat): (r: int)
    requires 0 <= i < n
    ensures 0 <= r < n
  {
    if k == 0 then i else Next(Forward(i, n, k - 1), n)
  }

  /** Before reaching the last image the right arrow just counts up. */
  lemma {:induction false} ForwardWithoutWrap(i: int, n: int, k: nat)
    requires 0 <= i < n && i + k < n
    ensures Forward(i, n, k) == i + k
  {
    if k > 0 {
      ForwardWithoutWrap(i, n, k - 1);
    }
  }

  /** Pressing `a` then `b` times is pressing `a + b` times. */
  lemma {:induction false} ForwardCompose(i: int, n: int, a: nat, b: nat)
    requires 0 <= i < n
    ensures Forward(i, n, a + b) == Forward(Forward(i, n, a), n, b)
  {
    if b > 0 {
      ForwardCompose(i, n, a, b - 1);
    }
  }

  /** `n` presses of the right arrow come back to the starting image; the last wraps to the first. */
  lemma {:induction false} FullCycle(i: int, n: int)
    requires 0 <= i < n
    ensures Next(n - 1, n) == 0
    ensures Forward(i, n, n) == i
  {
    ForwardWithoutWrap(i, n, n - 1 - i);
    assert Forward(i, n, n - i) == 0;
    ForwardCompose(i, n, n - i, i);
    ForwardWithoutWrap(0, n, i);
  }

  datatype KeyAction = Close | SetIndex(index: int) | Ignore

  /** `handleKey`: Escape closes, the arrow keys move with wrap-around, other keys do nothing. */
  function HandleKey(key: string, i: int, n: int): (r: KeyAction)
    requires 0 <= i < n
    ensures r.SetIndex? ==> 0 <= r.index < n
    ensures r == Close <==> key == "Escape"
    ensures key == "ArrowRight" ==> r == SetIndex(Next(i, n))
    ensures key == "ArrowLeft" ==> r == SetIndex(Prev(i, n))
    ensures key != "Escape" && key != "ArrowRight" && key != "ArrowLeft" ==> r == Ignore
  {
    if key == "Escape" then Close
    else if key == "ArrowRight" then SetIndex(Next(i, n))
    else if key == "ArrowLeft" then SetIndex(Prev(i, n))
    else Ignore
  }

  /** What is on screen: the image at the index, with the arrow buttons or without. */
  datatype Frame = Frame(shown: nat, arrows: bool)

  /** A negative index renders nothing; the arrows appear only for more than one image. */
  function Render(i: int, n: int): (r: Option<Frame>)
    requires i < n
    ensures r.None? <==> i < 0
    ensures r.Some? ==> r.value.shown == i && (r.value.arrows <==> n > 1)
  {
    if i < 0 then None else Some(Frame(i, n > 1))
  }
}
