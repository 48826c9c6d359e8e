/**
 The request ring of servidor.c and servidor_final.c: the global array
 `fila_requisicoes` with a head `inicio_fila` and a tail `fim_fila` and no
 size field. The queue is empty exactly when head and tail meet, so it can
 tell at most MAX_REQUISICOES - 1 pending entries apart from none.
 */
module HeadTailRing {
  import opened BankTypes
  import opened RingWindow

  datatype Ring = Ring(dados: seq<Request>, inicio: int, fim: int)

  predicate Valid(q: Ring) {
    |q.dados| == MAX_REQUISICOES && IsIndex(q.inicio) && IsIndex(q.fim)
  }

  /** Number of pending entries the two indices describe. */
  function Count(q: Ring): nat
    requires Valid(q)
  {
    (q.fim - q.inicio) % MAX_REQUISICOES
  }

  /** The FIFO the ring stands for, oldest request first. */
  function Contents(q: Ring): seq<Request>
    requires Valid(q)
  {
    Window(q.dados, q.inicio, Count(q))
  }

  /** The worker's emptiness test. */
  predicate IsEmpty(q: Ring) {
    q.inicio == q.fim
  }

  /** `n` more entries can be written without the tail catching up with the head. */
  predicate HasRoom(q: Ring, n: nat)
    requires Valid(q)
  {
    Count(q) + n < MAX_REQUISICOES
  }

  /**
   The queue half of the invariant servidor.c and servidor_final.c share:
   a well-formed ring whose pending requests are dispatchable and carry
   strictly increasing ids below `idContador`, the next id to hand out.
   */
  predicate QueueInv(q: Ring, idContador: int) {
    && Valid(q)
    && AllValid(Contents(q))
    && IdsAscendingBelow(Contents(q), idContador)
  }

  /** The ring as the program starts: zeroed buffer, both indices 0. */
  function Start(): (q: Ring)
    ensures Valid(q) && IsEmpty(q) && Contents(q) == []
  {
    Ring(seq(MAX_REQUISICOES, _ => ZeroRequest), 0, 0)
  }

  /** The head/tail test and the abstract FIFO agree on emptiness. */
  lemma EmptyIffNoContents(q: Ring)
    requires Valid(q)
    ensures IsEmpty(q) <==> Contents(q) == []
  {
    if q.fim < q.inicio {
      assert Count(q) == q.fim - q.inicio + MAX_REQUISICOES;
    }
  }

  /** The tail sits `Count` slots after the head. */
  lemma TailAfterCount(q: Ring)
    requires Valid(q)
    ensures q.fim == Slot(q.inicio, Count(q))
  {
    if q.fim < q.inicio {
      assert Count(q) == q.fim - q.inicio + MAX_REQUISICOES;
    }
  }

  /** Write `x` at the tail and advance the tail by one slot. */
  function Push(q: Ring, x: Request): Ring
    requires Valid(q)
  {
    Ring(q.dados[q.fim := x], q.inicio, Slot(q.fim, 1))
  }

  /**
   While there is room, a write at the tail appends to the FIFO; on a ring
   holding MAX_REQUISICOES - 1 entries the same write makes it look empty.
   */
  lemma PushEffect(q: Ring, x: Request)
    requires Valid(q)
    ensures Valid(Push(q, x))
    ensures Count(Push(q, x)) == (Count(q) + 1) % MAX_REQUISICOES
    ensures HasRoom(q, 1) ==> Contents(Push(q, x)) == Contents(q) + [x]
  {
    TailAfterCount(q);
    var p := Push(q, x);
    if q.fim < q.inicio {
      assert Count(q) == q.fim - q.inicio + MAX_REQUISICOES;
    } else {
      assert Count(q) == q.fim - q.inicio;
    }
    if q.fim + 1 == MAX_REQUISICOES {
      assert p.fim == 0;
    } else {
      assert p.fim == q.fim + 1;
    }
    if HasRoom(q, 1) {
      WindowPush(q.dados, q.inicio, Count(q), x);
    }
  }

  /**
   The worker's take (`req = fila_requisicoes[inicio_fila]` and the head
   advancing modulo MAX_REQUISICOES) on a non-empty ring: the oldest entry,
   and the FIFO without it.
   */
  function Take(q: Ring): (r: (Ring, Request))
    requires Valid(q) && !IsEmpty(q)
    ensures Valid(r.0)
    ensures r.1 == Contents(q)[0]
    ensures Contents(r.0) == Contents(q)[1..]
    ensures r.0.fim == q.fim
  {
    HeadAdvance(q);
    (Ring(q.dados, Slot(q.inicio, 1), q.fim), q.dados[q.inicio])
  }

  /** Advancing the head of a non-empty ring drops its oldest entry. */
  lemma HeadAdvance(q: Ring)
    requires Valid(q) && !IsEmpty(q)
    ensures Contents(q) != []
    ensures Contents(Ring(q.dados, Slot(q.inicio, 1), q.fim)) == Contents(q)[1..]
  {
    EmptyIffNoContents(q);
    if q.fim < q.inicio {
      assert Count(q) == q.fim - q.inicio + MAX_REQUISICOES;
    }
    var next := Ring(q.dados, Slot(q.inicio, 1), q.fim);
    assert Count(next) == Count(q) - 1;
    WindowPop(q.dados, q.inicio, Count(q));
  }

  /**
   The audit record written at slot `i`: only the id and the operation are
   set, the other fields keep what the slot held before.
   */
  function StaleAudit(q: Ring, i: int, id: int): Request
    requires Valid(q) && IsIndex(i)
  {
    q.dados[i].(id := id, op := BALANCO)
  }

  /**
   The critical section shared by `adicionar_requisicao` in servidor.c and
   (past its shutdown guard) in servidor_final.c: the request is written at
   the tail with the next id, the tail advances, the operation counter is
   bumped, and when the new count is a multiple of OPERACOES_PARA_BALANCO an
   audit with the following id is written behind it. Nothing checks for
   room: with room the FIFO grows by those entries, in that order.
   */
  function Admit(q: Ring, contador: int, idContador: int, op: int, origem: int, destino: int, valor: int)
    : (r: (Ring, int, int))
    requires Valid(q)
    ensures Valid(r.0)
    ensures r.1 == contador + 1
    ensures r.2 == idContador + EntriesFor(contador)
    ensures Count(r.0) == (Count(q) + EntriesFor(contador)) % MAX_REQUISICOES
    ensures HasRoom(q, EntriesFor(contador)) && r.1 % OPERACOES_PARA_BALANCO != 0 ==>
      Contents(r.0) == Contents(q) + [Request(idContador, op, origem, destino, valor)]
    ensures HasRoom(q, EntriesFor(contador)) && r.1 % OPERACOES_PARA_BALANCO == 0 ==>
      Contents(r.0) == Contents(q) + [Request(idContador, op, origem, destino, valor),
                                      StaleAudit(q, Slot(q.fim, 1), idContador + 1)]
  {
    var req := Request(idContador, op, origem, destino, valor);
    var q1 := Push(q, req);
    PushEffect(q, req);
    var contador1 := contador + 1;
    if contador1 % OPERACOES_PARA_BALANCO == 0 then
      var audit := StaleAudit(q1, q1.fim, idContador + 1);
      assert audit == StaleAudit(q, Slot(q.fim, 1), idContador + 1);
      PushEffect(q1, audit);
      (Push(q1, audit), contador1, idContador + 2)
    else
      (q1, contador1, idContador + 1)
  }

  /**
   With room, admitting keeps the queued requests dispatchable and their
   ids strictly increasing below the next id: the request takes the current
   id and its audit, if any, the one after.
   */
  lemma AdmitKeepsIds(q: Ring, contador: int, idContador: int, op: int, origem: int, destino: int, valor: int)
    requires Valid(q) && HasRoom(q, EntriesFor(contador))
    requires AllValid(Contents(q)) && IdsAscendingBelow(Contents(q), idContador)
    requires ValidRequest(Request(idContador, op, origem, destino, valor))
    ensures var r := Admit(q, contador, idContador, op, origem, destino, valor);
      AllValid(Contents(r.0)) && IdsAscendingBelow(Contents(r.0), r.2)
  {
    var req := Request(idContador, op, origem, destino, valor);
    AppendValid(Contents(q), req);
    AppendAscending(Contents(q), idContador, req);
    if AuditDue(contador) {
      var audit := StaleAudit(q, Slot(q.fim, 1), idContador + 1);
      AppendValid(Contents(q) + [req], audit);
      AppendAscending(Contents(q) + [req], idContador + 1, audit);
    }
  }

  /**
   Admitting into a ring without room for the new entries wraps the tail
   past the head: the ring then claims MAX_REQUISICOES fewer entries than
   were written, so pending requests are lost.
   */
  lemma AdmitOverflow(q: Ring, contador: int, idContador: int, op: int, origem: int, destino: int, valor: int)
    requires Valid(q) && !HasRoom(q, EntriesFor(contador))
    ensures Count(Admit(q, contador, idContador, op, origem, destino, valor).0)
      == Count(q) + EntriesFor(contador) - MAX_REQUISICOES
  {
  }

  /**
   A concrete instance: with 49 requests pending, one more deposit leaves
   a ring that looks empty, so a worker will never see any of the 50.
   */
  lemma OverflowLosesQueue()
    ensures var q := Ring(seq(MAX_REQUISICOES, _ => ZeroRequest), 0, MAX_REQUISICOES - 1);
      && |Contents(q)| == MAX_REQUISICOES - 1
      && IsEmpty(Admit(q, 0, 0, DEPOSITO, 0, NO_ACCOUNT, 100).0)
  {
    var q := Ring(seq(MAX_REQUISICOES, _ => ZeroRequest), 0, MAX_REQUISICOES - 1);
    var r := Admit(q, 0, 0, DEPOSITO, 0, NO_ACCOUNT, 100);
    EmptyIffNoContents(r.0);
  }
}
