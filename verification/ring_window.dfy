/**
 The abstract FIFO held by a circular buffer of MAX_REQUISICOES slots: the
 `len` entries starting at slot `start`, wrapping modulo the capacity. Both
 queue layouts of the server (head/size in servidor_v2.c, head/tail in the
 other two versions) denote their contents through this one window.
 */
module RingWindow {
  import opened BankTypes

  /** Slot `k` places after `start`, wrapping around the buffer. */
  function Slot(start: int, k: int): int {
    (start + k) % MAX_REQUISICOES
  }

  predicate IsIndex(i: int) {
    0 <= i < MAX_REQUISICOES
  }

  /** The `len` entries of `buf` that start at slot `start`, oldest first. */
  function Window(buf: seq<Request>, start: int, len: nat): seq<Request>
    requires |buf| == MAX_REQUISICOES && IsIndex(start) && len <= MAX_REQUISICOES
  {
    seq(len, k requires 0 <= k < len => buf[Slot(start, k)])
  }

  /** Two offsets less than a full turn apart name different slots. */
  lemma SlotsDistinct(start: int, j: int, k: int)
    requires IsIndex(start) && 0 <= j < k < MAX_REQUISICOES
    ensures Slot(start, j) != Slot(start, k)
  {
    var a, b := start + j, start + k;
    assert a / MAX_REQUISICOES <= b / MAX_REQUISICOES;
  }

  /** Advancing the start by one slot is the same as looking one offset further. */
  lemma SlotShift(start: int, k: int)
    requires IsIndex(start) && 0 <= k
    ensures Slot(Slot(start, 1), k) == Slot(start, k + 1)
  {
    if start + 1 == MAX_REQUISICOES {
      assert Slot(start, 1) == 0;
      assert start + k + 1 == k + MAX_REQUISICOES;
    } else {
      assert Slot(start, 1) == start + 1;
    }
  }

  /**
   Writing `x` into the first slot past the window, while the window is not
   full, appends `x` to the FIFO.
   */
  lemma {:induction false} WindowPush(buf: seq<Request>, start: int, len: nat, x: Request)
    requires |buf| == MAX_REQUISICOES && IsIndex(start) && len < MAX_REQUISICOES
    ensures Window(buf[Slot(start, len) := x], start, len + 1) == Window(buf, start, len) + [x]
  {
    var written := buf[Slot(start, len) := x];
    var lhs, rhs := Window(written, start, len + 1), Window(buf, start, len) + [x];
    forall k | 0 <= k < len + 1 ensures lhs[k] == rhs[k] {
      if k < len {
        SlotsDistinct(start, k, len);
      }
    }
  }

  /** Dropping the oldest entry is advancing the start by one slot. */
  lemma {:induction false} WindowPop(buf: seq<Request>, start: int, len: nat)
    requires |buf| == MAX_REQUISICOES && IsIndex(start) && 0 < len <= MAX_REQUISICOES
    ensures Window(buf, Slot(start, 1), len - 1) == Window(buf, start, len)[1..]
  {
    var lhs, rhs := Window(buf, Slot(start, 1), len - 1), Window(buf, start, len)[1..];
    forall k | 0 <= k < len - 1 ensures lhs[k] == rhs[k] {
      SlotShift(start, k);
    }
  }
}
