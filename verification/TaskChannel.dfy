/** The channel buffer of the C runtime, updated in place (micai/src/rt_conc.c). */
module TaskChannel {

  // ---- a ring buffer as a sequence

  /** An index that may have run over the end once. */
  function Round(x: nat, n: nat): nat
    requires x < 2 * n
  {
    if x < n then x else x - n
  }

  lemma MulAtLeast(q: nat, n: nat)
    ensures q >= 2 ==> q * n >= 2 * n
  {
  }

  lemma Wrap(x: nat, n: nat)
    requires 0 < n && x < 2 * n
    ensures x % n == Round(x, n)
  {
    var q, r := x / n, x % n;
    assert x == q * n + r;
    MulAtLeast(q, n);
  }

  /** The `n` elements from `head` on, going round. */
  function Ring<T>(a: seq<T>, head: nat, n: nat): (r: seq<T>)
    requires n <= |a| && (n > 0 ==> head < |a|)
    ensures |r| == n
    decreases n
  {
    if n == 0 then [] else [a[head]] + Ring(a, Round(head + 1, |a|), n - 1)
  }

  lemma {:induction false} RingAt<T>(a: seq<T>, head: nat, n: nat, i: nat)
    requires i < n <= |a| && head < |a|
    ensures Ring(a, head, n)[i] == a[Round(head + i, |a|)]
    decreases n
  {
    if i > 0 {
      RingAt(a, Round(head + 1, |a|), n - 1, i - 1);
    }
  }

  /** A buffer that holds the ring of `a` unrolled from its start has the same ring. */
  lemma Unrolled<T>(a: seq<T>, h: nat, n: nat, b: seq<T>)
    requires n <= |a| && n <= |b| && (n > 0 ==> h < |a|)
    requires forall i :: 0 <= i < n ==> b[i] == a[Round(h + i, |a|)]
    ensures Ring(b, 0, n) == Ring(a, h, n)
  {
    var r, q := Ring(a, h, n), Ring(b, 0, n);
    forall i | 0 <= i < n ensures q[i] == r[i] {
      RingAt(a, h, n, i);
      RingAt(b, 0, n, i);
      assert Round(0 + i, |b|) == i;
    }
  }

  /** Writing behind the last element appends it. */
  lemma PushRing<T>(a: seq<T>, b: seq<T>, head: nat, n: nat, v: T)
    requires n < |a| && head < |a|
    requires b == a[Round(head + n, |a|) := v]
    ensures Ring(b, head, n + 1) == Ring(a, head, n) + [v]
  {
    forall i | 0 <= i < n + 1 ensures Ring(b, head, n + 1)[i] == (Ring(a, head, n) + [v])[i] {
      RingAt(b, head, n + 1, i);
      if i < n {
        RingAt(a, head, n, i);
      }
    }
  }

  /** A channel with its growing ring buffer. */
  class Channel<T(0)> {
    const cap: nat
    var buf: array<T>
    var len: nat
    var head: nat
    var closed: bool

    ghost predicate Sound()
      reads this
    {
      len <= buf.Length && (buf.Length == 0 ==> head == 0) && (buf.Length > 0 ==> head < buf.Length)
    }

    function Contents(): (r: seq<T>)
      requires Sound()
      reads this, buf
      ensures |r| == len
    {
      Ring(buf[..], head, len)
    }

    constructor (cap: nat)
      ensures Sound() && Contents() == [] && !closed && this.cap == cap && fresh(buf)
    {
      this.cap := cap;
      buf := new T[0];
      len, head, closed := 0, 0, false;
    }

    /** What a sender does once it may go on. */
    method Push(v: T)
      requires Sound() && !closed && (cap == 0 || len < cap)
      modifies this, buf
      ensures Sound() && Contents() == old(Contents()) + [v] && closed == old(closed)
      ensures buf == old(buf) || fresh(buf)
    {
      if len == buf.Length {
        Grow();
      }
      var n := buf.Length;
      ghost var a := buf[..];
      Wrap(head + len, n);
      buf[(head + len) % n] := v;
      len := len + 1;
      PushRing(a, buf[..], head, len - 1, v);
    }

    method Grow()
      requires Sound() && len == buf.Length
      modifies this
      ensures Sound() && Contents() == old(Contents()) && closed == old(closed)
      ensures len == old(len) < buf.Length && fresh(buf)
    {
      var nb := if buf.Length > 0 then buf.Length * 2 else 8;
      var nbuf := new T[nb];
      for i := 0 to len
        invariant unchanged(this) && buf[..] == old(buf[..]) && Sound() && len == buf.Length
        invariant forall j :: 0 <= j < i ==> nbuf[j] == buf[Round(head + j, buf.Length)]
      {
        Wrap(head + i, buf.Length);
        nbuf[i] := buf[(head + i) % buf.Length];
      }
      Unrolled(buf[..], head, len, nbuf[..]);
      buf := nbuf;
      head := 0;
    }

    /** What a receiver does when there is something to receive. */
    method Pop() returns (v: T)
      requires Sound() && len > 0
      modifies this
      ensures Sound() && old(Contents()) == [v] + Contents() && closed == old(closed) && buf == old(buf)
    {
      v := buf[head];
      Wrap(head + 1, buf.Length);
      head := (head + 1) % buf.Length;
      len := len - 1;
    }

    method Close()
      requires Sound()
      modifies this`closed
      ensures Sound() && Contents() == old(Contents()) && closed
    {
      closed := true;
    }
  }
}
