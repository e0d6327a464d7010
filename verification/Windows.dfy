/** The uint64 arithmetic of one poll: the next window of blocks, and how fast windows reach the head. */
module Windows {
  import opened Bytes
  import opened Chain

  datatype Window = Window(first: u64, last: u64)

  /** Go's uint64 addition and subtraction, which wrap. */
  function Add64(a: u64, b: u64): u64 { (a + b) % TWO_64 }

  function Sub64(a: u64, b: u64): u64 { (a - b) % TWO_64 }

  /** Go's int64(x) for a uint64 x. */
  function ToInt64(x: u64): (r: int)
    ensures -TWO_63 <= r < TWO_63 && (r == x || r == x - TWO_64)
  {
    if x < TWO_63 then x else x - TWO_64
  }

  function Min(a: int, b: int): (r: int)
    ensures r <= a && r <= b && (r == a || r == b)
  {
    if a < b then a else b
  }

  /** The window pollEvents asks for, written with the wrapping operators. The contract says it in
      unbounded integers, so no operation wraps whatever the cursor, head and span are. */
  function NextWindow(cursor: u64, head: u64, span: u64): (w: Option<Window>)
    ensures w.Some? <==> cursor < head
    ensures w.Some? ==>
              && w.value.first == cursor + 1 <= w.value.last <= head
              && w.value.last + 1 - w.value.first == Min(span + 1, head - cursor)
  {
    if head <= cursor then None
    else
      var first := Add64(cursor, 1);
      if Sub64(head, first) > span
      then Some(Window(first, Add64(first, span)))
      else Some(Window(first, head))
  }

  /** The signed bounds put on the wire are the window's own exactly when it ends below 2^63. */
  lemma WireBounds(w: Window)
    requires w.first <= w.last
    ensures (ToInt64(w.first) == w.first && ToInt64(w.last) == w.last) <==> w.last < TWO_63
  {
  }

  /** The cursor after a successful poll at that head. */
  function NextCursor(cursor: u64, head: u64, span: u64): u64 {
    match NextWindow(cursor, head, span) case None => cursor case Some(w) => w.last
  }

  /** The cursor after n successful polls against a head that stays put. */
  function CursorAfter(cursor: u64, head: u64, span: u64, n: nat): u64 {
    if n == 0 then cursor else NextCursor(CursorAfter(cursor, head, span, n - 1), head, span)
  }

  lemma {:induction false} CursorAfterClosedForm(cursor: u64, head: u64, span: u64, n: nat)
    requires cursor <= head
    ensures CursorAfter(cursor, head, span, n) == Min(head, cursor + n * (span + 1))
  {
    if n > 0 {
      CursorAfterClosedForm(cursor, head, span, n - 1);
      assert n * (span + 1) == (n - 1) * (span + 1) + (span + 1);
    }
  }

  /** ceil((head - cursor) / (span + 1)). */
  function PollsNeeded(cursor: u64, head: u64, span: u64): nat
    requires cursor <= head
  {
    (head - cursor + span) / (span + 1)
  }

  lemma CeilingBounds(d: nat, k: nat, q: nat)
    requires k > 0 && q == (d + k - 1) / k
    ensures d <= q * k && (q > 0 ==> (q - 1) * k < d)
  {
    var r := (d + k - 1) % k;
    assert d + k - 1 == q * k + r;
    assert (q - 1) * k == q * k - k;
  }

  lemma MulMonotone(a: nat, b: nat, k: nat)
    requires a <= b
    ensures a * k <= b * k
  {
  }

  /** n steps of k cover d exactly when n is at least the rounded-up quotient. */
  lemma StepsCover(d: nat, k: nat, q: nat, n: nat)
    requires k > 0 && q == (d + k - 1) / k
    ensures d <= n * k <==> q <= n
  {
    CeilingBounds(d, k, q);
    if q <= n {
      MulMonotone(q, n, k);
    } else {
      MulMonotone(n, q - 1, k);
    }
  }

  /** A steady head is reached after exactly that many successful polls, and not before. */
  lemma CatchUp(cursor: u64, head: u64, span: u64, n: nat)
    requires cursor <= head
    ensures CursorAfter(cursor, head, span, n) == head <==> n >= PollsNeeded(cursor, head, span)
  {
    CursorAfterClosedForm(cursor, head, span, n);
    StepsCover(head - cursor, span + 1, PollsNeeded(cursor, head, span), n);
  }
}
