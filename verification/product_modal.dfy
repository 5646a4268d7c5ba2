/** The image carousel of the product details dialog (src/components/products/ProductModal.tsx).
    `n` is the number of images and `i` the current index. */
module ProductModal {

  /** `nextImage`: wraps from the last image to the first. */
  function Next(i: int, n: int): (j: int)
    ensures 0 <= i < n ==> 0 <= j < n
    ensures 0 <= i < n ==> j == (i + 1) % n
  {
    if i == n - 1 then 0 else i + 1
  }

  /** `prevImage`: wraps from the first image to the last. */
  function Prev(i: int, n: int): (j: int)
    ensures 0 <= i < n ==> 0 <= j < n
    ensures 0 <= i < n ==> j == (i + n - 1) % n
  {
    if i == 0 then n - 1 else i - 1
  }

  /** Back and forth cancel out. */
  lemma PrevUndoesNext(i: int, n: int)
    requires 0 <= i < n
    ensures Prev(Next(i, n), n) == i && Next(Prev(i, n), n) == i
  {
  }

  /** `Next` applied `k` times. */
  function Advance(i: int, n: int, k: nat): int
  {
    if k == 0 then i else Next(Advance(i, n, k - 1), n)
  }

  /** Stepping `a` times and then `b` times is stepping `a + b` times. */
  lemma {:induction false} AdvanceAdd(i: int, n: int, a: nat, b: nat)
    ensures Advance(i, n, a + b) == Advance(Advance(i, n, a), n, b)
  {
    if b > 0 {
      AdvanceAdd(i, n, a, b - 1);
    }
  }

  /** Before the last image is passed, each step moves one image on. */
  lemma {:induction false} AdvanceNoWrap(i: int, n: int, k: nat)
    requires 0 <= i && i + k < n
    ensures Advance(i, n, k) == i + k
  {
    if k > 0 {
      AdvanceNoWrap(i, n, k - 1);
    }
  }

  /** Going forward once per image comes back to the starting image. */
  lemma FullCircle(i: int, n: int)
    requires 0 <= i < n
    ensures Advance(i, n, n) == i
  {
    AdvanceAdd(i, n, n - i, i);
    AdvanceNoWrap(i, n, n - i - 1);
    assert Advance(i, n, n - i) == 0;
    AdvanceNoWrap(0, n, i);
  }

  /** The arrows and the dots are drawn only when there is more than one image. */
  predicate ControlsShown(n: int)
  {
    n > 1
  }

  /** The controls are drawn exactly when the arrows would change the image: with a single
      image both arrows would stay on it. */
  lemma ControlsShownIffArrowsMove(i: int, n: int)
    requires 0 <= i < n
    ensures ControlsShown(n) <==> Next(i, n) != i
    ensures ControlsShown(n) <==> Prev(i, n) != i
  {
  }

  /** A dot click jumps straight to that image; the dots are the indexes `0 .. n - 1`, so the
      new index is always an image. */
  function DotClick(dot: nat, n: nat): (j: int)
    requires dot < n
    ensures j == dot && 0 <= j < n
  {
    dot
  }
}
