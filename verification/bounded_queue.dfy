/**
 The bounded request queue of servidor_v2.c (FilaRequisicoes): a ring of
 MAX_REQUISICOES slots with a head index `inicio`, a tail index `fim` and
 an explicit size `tamanho`. Each operation is the critical section under
 the queue mutex; a wait on `cond_nao_cheia` / `cond_nao_vazia` becomes the
 precondition under which the wait has returned.
 */
module BoundedQueue {
  import opened BankTypes
  import opened RingWindow

  datatype Fila = Fila(dados: seq<Request>, inicio: int, fim: int, tamanho: int)

  /**
   Both indices lie in the buffer, the size is between empty and full, and
   the tail is the head advanced by the size.
   */
  predicate Valid(q: Fila) {
    && |q.dados| == MAX_REQUISICOES
    && IsIndex(q.inicio)
    && IsIndex(q.fim)
    && 0 <= q.tamanho <= MAX_REQUISICOES
    && q.fim == Slot(q.inicio, q.tamanho)
  }

  /** The FIFO the ring stands for, oldest request first. */
  function Contents(q: Fila): seq<Request>
    requires Valid(q)
  {
    Window(q.dados, q.inicio, q.tamanho)
  }

  /** `inicializar_fila`: reset the indices; the buffer keeps whatever it holds. */
  function Init(dados: seq<Request>): (q: Fila)
    requires |dados| == MAX_REQUISICOES
    ensures Valid(q)
    ensures Contents(q) == []
    ensures q.dados == dados
  {
    Fila(dados, 0, 0, 0)
  }

  /**
   `enfileirar`, once the wait for room has returned (room, or shutdown).
   After shutdown it refuses and leaves the queue as it was; otherwise the
   request joins the tail of the FIFO.
   */
  function Enqueue(q: Fila, shutdown: bool, req: Request): (r: (Fila, bool))
    requires Valid(q)
    requires shutdown || q.tamanho < MAX_REQUISICOES
    ensures Valid(r.0)
    ensures r.1 <==> !shutdown
    ensures shutdown ==> r.0 == q
    ensures !shutdown ==> Contents(r.0) == Contents(q) + [req]
  {
    if shutdown then
      (q, false)
    else
      WindowPush(q.dados, q.inicio, q.tamanho, req);
      (Fila(q.dados[q.fim := req], q.inicio, Slot(q.fim, 1), q.tamanho + 1), true)
  }

  /**
   `desenfileirar`, once the wait for an entry has returned (an entry, or
   shutdown). It fails only on an empty queue after shutdown; otherwise it
   hands out the oldest entry and removes exactly that one, shutdown or not.
   */
  function Dequeue(q: Fila, shutdown: bool): (r: (Fila, Option<Request>))
    requires Valid(q)
    requires shutdown || q.tamanho > 0
    ensures Valid(r.0)
    ensures r.1.None? <==> shutdown && Contents(q) == []
    ensures r.1.None? ==> r.0 == q
    ensures r.1.Some? ==> r.1.value == Contents(q)[0] && Contents(r.0) == Contents(q)[1..]
  {
    if q.tamanho == 0 && shutdown then
      (q, None)
    else
      WindowPop(q.dados, q.inicio, q.tamanho);
      SlotShift(q.inicio, q.tamanho - 1);
      (Fila(q.dados, Slot(q.inicio, 1), q.fim, q.tamanho - 1), Some(q.dados[q.inicio]))
  }

  /**
   The ring refines a FIFO sequence: enqueueing and then draining hands the
   entries back in the order they went in.
   */
  lemma {:induction false} FifoOrder(q: Fila, a: Request, b: Request)
    requires Valid(q) && q.tamanho == 0
    ensures var (q1, _) := Enqueue(q, false, a);
      var (q2, _) := Enqueue(q1, false, b);
      var (q3, first) := Dequeue(q2, false);
      var (_, second) := Dequeue(q3, false);
      first == Some(a) && second == Some(b)
  {
    var (q1, _) := Enqueue(q, false, a);
    var (q2, _) := Enqueue(q1, false, b);
    assert Contents(q2) == [a, b];
    var (q3, first) := Dequeue(q2, false);
    assert Contents(q3) == [b];
  }
}
