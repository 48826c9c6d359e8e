/**
 servidor_v2.c with the threads taken out: the state its mutexes protect,
 and each critical section as one atomic transition. Producers submit
 through `adicionar_requisicao`, workers take requests off the bounded
 queue and apply them to the ledger, and `encerrar_threads` raises the
 shutdown flag that rejects new work while the queue drains.
 */
module ServerV2 {
  import opened BankTypes
  import opened BoundedQueue
  import opened Accounts
  import opened Dispatch
  import opened AuditCadence

  /**
   The global state: the request queue, the accounts, the operation
   counter, the static id counter of `adicionar_requisicao` and the
   shutdown flag.
   */
  datatype Server = Server(fila: Fila, contas: Ledger, contador: int, idContador: int, shutdown: bool)

  /**
   The queue is a well-formed ring, the ledger has its ten accounts, and the
   queued requests can be dispatched and carry strictly increasing ids, all
   below the next id to be handed out.
   */
  predicate Inv(s: Server) {
    && Valid(s.fila)
    && WellFormed(s.contas)
    && s.contador >= 0
    && AllValid(Contents(s.fila))
    && IdsAscendingBelow(Contents(s.fila), s.idContador)
  }

  /** The state `main` sets up before starting any thread. */
  function Start(): (s: Server)
    ensures Inv(s) && !s.shutdown
    ensures Contents(s.fila) == []
    ensures s.contas == InitialLedger()
    ensures s.contador == 0 && s.idContador == 0
  {
    Server(BoundedQueue.Init(seq(MAX_REQUISICOES, _ => ZeroRequest)), InitialLedger(), 0, 0, false)
  }

  /** Queue slots one accepted submission takes: its request, and its audit when one is injected. */
  function SlotsNeeded(contador: int, shutdownMidway: bool): nat {
    if AuditDue(contador) && !shutdownMidway then 2 else 1
  }

  /**
   `adicionar_requisicao`. Its three critical sections run one after the
   other: an id is drawn from the id counter (even when the request is then
   refused), the request is enqueued, and the operation counter is bumped;
   when the new count is a multiple of OPERACOES_PARA_BALANCO an audit with
   a fresh id is enqueued as well. Other threads may run between the
   sections; `shutdownMidway` says whether `encerrar_threads` raised the
   flag after the request went in, in which case the audit is refused like
   any request enqueued after shutdown. The precondition on room stands
   for the producer having been let through the wait on `cond_nao_cheia`.
   */
  function Submit(s: Server, op: int, origem: int, destino: int, valor: int, shutdownMidway: bool)
    : (r: (Server, bool))
    requires Inv(s)
    requires ValidRequest(Request(s.idContador, op, origem, destino, valor))
    requires s.shutdown || s.fila.tamanho + SlotsNeeded(s.contador, shutdownMidway) <= MAX_REQUISICOES
    ensures Inv(r.0)
    ensures r.1 <==> !s.shutdown
    ensures r.0.contas == s.contas
    ensures r.0.shutdown == (s.shutdown || shutdownMidway)
    ensures s.shutdown ==>
      && r.0.fila == s.fila
      && r.0.contador == s.contador
      && r.0.idContador == s.idContador + 1
    ensures !s.shutdown ==> r.0.contador == s.contador + 1
    ensures !s.shutdown && r.0.contador % OPERACOES_PARA_BALANCO != 0 ==>
      && Contents(r.0.fila) == Contents(s.fila) + [Request(s.idContador, op, origem, destino, valor)]
      && r.0.idContador == s.idContador + 1
    ensures !s.shutdown && r.0.contador % OPERACOES_PARA_BALANCO == 0 && !shutdownMidway ==>
      && Contents(r.0.fila) == Contents(s.fila) + [Request(s.idContador, op, origem, destino, valor),
                                                   AuditRequest(s.idContador + 1)]
      && r.0.idContador == s.idContador + 2
    ensures !s.shutdown && r.0.contador % OPERACOES_PARA_BALANCO == 0 && shutdownMidway ==>
      && Contents(r.0.fila) == Contents(s.fila) + [Request(s.idContador, op, origem, destino, valor)]
      && r.0.idContador == s.idContador + 2
    ensures !s.shutdown && !shutdownMidway ==>
      && Contents(r.0.fila) == Contents(s.fila) + Chunk(s.contador, s.idContador, Order(op, origem, destino, valor))
      && r.0.idContador == s.idContador + EntriesFor(s.contador)
  {
    // __sync_fetch_and_add(&id_contador, 1)
    var req := Request(s.idContador, op, origem, destino, valor);
    var s1 := s.(idContador := s.idContador + 1);
    var (fila1, enfileirou) := Enqueue(s1.fila, s1.shutdown, req);
    if !enfileirou then
      (s1, false)
    else
      AppendValid(Contents(s.fila), req);
      AppendAscending(Contents(s.fila), s.idContador, req);
      // contador_operacoes++ under mutex_contador
      var s2 := s1.(fila := fila1, contador := s1.contador + 1, shutdown := s1.shutdown || shutdownMidway);
      if s2.contador % OPERACOES_PARA_BALANCO == 0 then
        var audit := AuditRequest(s2.idContador);
        assert !shutdownMidway ==> Chunk(s.contador, s.idContador, Order(op, origem, destino, valor)) == [req, audit];
        var (fila3, _) := Enqueue(s2.fila, s2.shutdown, audit);
        AppendValid(Contents(fila1), audit);
        AppendAscending(Contents(fila1), s2.idContador, audit);
        (s2.(fila := fila3, idContador := s2.idContador + 1), true)
      else
        assert Chunk(s.contador, s.idContador, Order(op, origem, destino, valor)) == [req];
        (s2, true)
  }

  /**
   One turn of `trabalhador`: take the oldest request (the wait on
   `cond_nao_vazia` has returned) and dispatch it. The worker exits, with
   no report, exactly when the queue is empty and shutdown is set; queued
   requests are still served after shutdown.
   */
  method WorkerStep(s: Server) returns (r: Server, report: Option<Report>)
    requires Inv(s)
    requires s.shutdown || s.fila.tamanho > 0
    ensures Inv(r)
    ensures report.None? <==> s.shutdown && Contents(s.fila) == []
    ensures report.None? ==> r == s
    ensures report.Some? ==>
      && Contents(r.fila) == Contents(s.fila)[1..]
      && r.contas == Apply(s.contas, Contents(s.fila)[0])
    ensures r.shutdown == s.shutdown && r.contador == s.contador && r.idContador == s.idContador
  {
    var (fila, req) := Dequeue(s.fila, s.shutdown);
    if req.None? {
      return s, None;
    }
    TailKeeps(Contents(s.fila), s.idContador);
    ApplyConserves(s.contas, req.value);
    var contas, line := Serve(s.contas, req.value);
    r := s.(fila := fila, contas := contas);
    report := Some(line);
  }

  /**
   A worker's whole life once shutdown is set: it serves every request
   still queued, in FIFO order, and exits on the empty queue. The ledger
   ends as if the queued requests were applied one by one, and its total
   grows by their deposits alone.
   */
  method RunWorker(s: Server) returns (r: Server, reports: seq<Report>)
    requires Inv(s) && s.shutdown
    ensures Inv(r) && r.shutdown
    ensures Contents(r.fila) == []
    ensures r.contas == ApplyAll(s.contas, Contents(s.fila))
    ensures Total(r.contas) == Total(s.contas) + TotalInflow(Contents(s.fila))
    ensures |reports| == |Contents(s.fila)|
  {
    r := s;
    reports := [];
    while true
      invariant Inv(r) && r.shutdown
      invariant ApplyAll(r.contas, Contents(r.fila)) == ApplyAll(s.contas, Contents(s.fila))
      invariant |reports| + |Contents(r.fila)| == |Contents(s.fila)|
      decreases r.fila.tamanho
    {
      var next, out := WorkerStep(r);
      if out.None? {
        break;
      }
      reports := reports + [out.value];
      r := next;
    }
    ApplyAllConserves(s.contas, Contents(s.fila));
  }

  /** `encerrar_threads` raises the flag under the queue mutex; nothing else changes. */
  function SignalShutdown(s: Server): Server {
    s.(shutdown := true)
  }

  /**
   What the flag gates. Raising it changes nothing else and keeps the
   invariant. Once it is set, raising it again changes nothing,
   a submission is refused without touching queue or counter (its id is
   still used up), and taking from the queue fails only when the queue is
   empty, so the requests queued before shutdown are still handed out.
   */
  lemma ShutdownGates(s: Server, op: int, origem: int, destino: int, valor: int)
    requires Inv(s)
    requires ValidRequest(Request(s.idContador, op, origem, destino, valor))
    ensures var t := SignalShutdown(s);
      && t.shutdown && Inv(t)
      && t.(shutdown := s.shutdown) == s
      && SignalShutdown(t) == t
      && Submit(t, op, origem, destino, valor, false) == (t.(idContador := s.idContador + 1), false)
      && (Contents(s.fila) != [] ==> Dequeue(t.fila, true).1 == Some(Contents(s.fila)[0]))
      && (Contents(s.fila) == [] ==> Dequeue(t.fila, true).1 == None)
  {
  }

  /** Before shutdown, a run that fits leaves room for its first order's entries and then for the rest of the run. */
  lemma SubmitStep(s: Server, orders: seq<Order>)
    requires Inv(s) && !s.shutdown && AllClientOrders(orders) && |orders| > 0
    requires s.fila.tamanho + |Stream(s.contador, s.idContador, orders)| <= MAX_REQUISICOES
    ensures s.fila.tamanho + SlotsNeeded(s.contador, false) <= MAX_REQUISICOES
    ensures s.fila.tamanho + EntriesFor(s.contador)
      + |Stream(s.contador + 1, s.idContador + EntriesFor(s.contador), orders[1..])| <= MAX_REQUISICOES
  {
    StreamUnfold(s.contador, s.idContador, orders);
  }

  /**
   One producer submitting `orders` in turn before shutdown with room for
   all of them: the queue grows by exactly `Stream` of those orders.
   */
  function SubmitAll(s: Server, orders: seq<Order>): (r: Server)
    requires Inv(s) && !s.shutdown && AllClientOrders(orders)
    requires s.fila.tamanho + |Stream(s.contador, s.idContador, orders)| <= MAX_REQUISICOES
    ensures Inv(r) && !r.shutdown && r.contas == s.contas
    ensures Contents(r.fila) == Contents(s.fila) + Stream(s.contador, s.idContador, orders)
    ensures r.contador == s.contador + |orders|
    ensures r.idContador == s.idContador + |Stream(s.contador, s.idContador, orders)|
    decreases |orders|
  {
    if |orders| == 0 then s
    else
      var o := orders[0];
      assert ClientOrder(o);
      ClientOrdersTail(orders);
      SubmitStep(s, orders);
      var s1 := Submit(s, o.op, o.origem, o.destino, o.valor, false).0;
      var r := SubmitAll(s1, orders[1..]);
      RunStepExact(Contents(s.fila), Contents(s1.fila), Contents(r.fila), orders,
        s.contador, s.idContador, s1.contador, s1.idContador, r.contador, r.idContador);
      r
  }
}
