/** Flow-control windows of bfe_http2/flow.go: int32 counters, one per connection and one per
    stream, the stream's counter pointing at the connection's. */
module Flow {

  const TWO_31: int := 0x8000_0000
  const TWO_32: int := 0x1_0000_0000
  /** 2^31-1, the largest window section 6.9.1 of RFC 7540 allows. */
  const MAX_WINDOW: int := 0x7fff_ffff

  predicate IsInt32(x: int) { -TWO_31 <= x < TWO_31 }

  /** Two's-complement wrap-around of Go's int32 arithmetic. */
  function Wrap32(x: int): (r: int)
    ensures IsInt32(r)
    ensures IsInt32(x) ==> r == x
  {
    (x + TWO_31) % TWO_32 - TWO_31
  }

  /** The guard of flow.add: the head-room is itself an int32, so it wraps for negative windows. */
  predicate AddAccepts(window: int, x: int) {
    !(x > Wrap32(MAX_WINDOW - window))
  }

  /** The window after flow.add: unchanged when refused. */
  function AddedWindow(window: int, x: int): (r: int)
    ensures IsInt32(window) ==> IsInt32(r)
  {
    if AddAccepts(window, x) then Wrap32(window + x) else window
  }

  /** What the comment on flow.add promises: refused exactly when the sum exceeds 2^31-1. */
  predicate FitsWindow(window: int, x: int) { window + x <= MAX_WINDOW }

  /** flow.add keeps that promise exactly when the window is not negative or the sum lies below
      the int32 range; so on a negative window every representable increment is refused. */
  lemma AddMeetsCommentIff(window: int, x: int)
    requires IsInt32(window) && IsInt32(x)
    ensures (AddAccepts(window, x) <==> FitsWindow(window, x))
       <==> (window >= 0 || window + x < -TWO_31)
    ensures AddAccepts(window, x) && window < 0 ==> AddedWindow(window, x) != window + x
  {
    if window < 0 {
      var head := MAX_WINDOW - window;
      assert Wrap32(head) == head - TWO_32;
    }
  }

  /** Section 6.9.2 allows a negative window; raising such a window by a legal WINDOW_UPDATE is
      what flow.add then wrongly refuses. */
  lemma AddRefusesLegalIncrement()
    ensures FitsWindow(-1, 1) && !AddAccepts(-1, 1)
  {
    assert Wrap32(MAX_WINDOW + 1) == -TWO_31;
  }

  /** On every window no smaller than -(2^31-1)-x the addition is exact or refused: it never wraps. */
  lemma AddExactOrRefused(window: int, x: int)
    requires IsInt32(window) && IsInt32(x)
    requires -MAX_WINDOW <= window + x
    ensures AddAccepts(window, x) <==> window >= 0 && FitsWindow(window, x)
    ensures AddAccepts(window, x) ==> AddedWindow(window, x) == window + x
  {
    AddMeetsCommentIff(window, x);
  }

  /** The flow struct: a window and, for a stream, the shared connection window. */
  class FlowWindow {
    var n: int
    const conn: FlowWindow?

    ghost predicate Valid()
      reads this, conn
    {
      IsInt32(n) && (conn != null ==> conn != this && conn.conn == null && IsInt32(conn.n))
    }

    constructor (conn: FlowWindow?)
      requires conn != null ==> conn.conn == null && IsInt32(conn.n)
      ensures Valid() && n == 0 && this.conn == conn
    {
      n := 0;
      this.conn := conn;
    }

    /** flow.available */
    function Available(): (r: int)
      reads this, conn
      ensures r <= n && (conn != null ==> r <= conn.n)
      ensures r == n || (conn != null && r == conn.n)
    {
      if conn != null && conn.n < n then conn.n else n
    }

    /** flow.take; the result reports the panic "took too much". */
    method Take(k: int) returns (panicked: bool)
      requires Valid() && IsInt32(k)
      modifies this, conn
      ensures Valid()
      ensures panicked <==> k > old(Available())
      ensures panicked ==> n == old(n) && (conn != null ==> conn.n == old(conn.n))
      ensures !panicked ==> n == Wrap32(old(n) - k) && (conn != null ==> conn.n == Wrap32(old(conn.n) - k))
      ensures !panicked && k >= 0 && old(Available()) >= 0 ==>
                n == old(n) - k >= 0 && (conn != null ==> conn.n == old(conn.n) - k >= 0)
    {
      if k > Available() {
        return true;
      }
      n := Wrap32(n - k);
      if conn != null {
        conn.n := Wrap32(conn.n - k);
      }
      return false;
    }

    /** flow.add */
    method Add(x: int) returns (ok: bool)
      requires Valid() && IsInt32(x)
      modifies this`n
      ensures Valid()
      ensures ok <==> AddAccepts(old(n), x)
      ensures n == AddedWindow(old(n), x)
      ensures old(n) >= 0 && -TWO_31 <= old(n) + x ==>
                (ok <==> FitsWindow(old(n), x)) && n == old(n) + (if ok then x else 0)
    {
      AddMeetsCommentIff(n, x);
      var remain := Wrap32(MAX_WINDOW - n);
      if x > remain {
        return false;
      }
      n := Wrap32(n + x);
      return true;
    }
  }
}
