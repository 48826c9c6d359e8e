/**
 servidor.c with the threads taken out. It has no shutdown: producers add
 requests to the head/tail ring under `mutex_fila`, and workers wait for a
 non-empty ring, take its oldest entry and apply it to the ledger.
 */
module ServerBasic {
  import opened BankTypes
  import opened HeadTailRing
  import opened Accounts
  import opened Dispatch
  import opened AuditCadence

  /** The globals: the ring, the accounts, the operation counter and the static id counter. */
  datatype Server = Server(fila: Ring, contas: Ledger, contador: int, idContador: int)

  /**
   The ring meets `QueueInv` (dispatchable requests, ids ascending below
   the next id) and the ledger has its ten accounts.
   */
  predicate Inv(s: Server) {
    && QueueInv(s.fila, s.idContador)
    && WellFormed(s.contas)
    && s.contador >= 0
  }

  /** The state `main` starts the threads in. */
  function Start(): (s: Server)
    ensures Inv(s)
    ensures Contents(s.fila) == []
    ensures s.contas == InitialLedger()
    ensures s.contador == 0 && s.idContador == 0
  {
    Server(HeadTailRing.Start(), InitialLedger(), 0, 0)
  }

  /**
   `adicionar_requisicao`, one critical section: the request gets the next
   id and joins the FIFO, the operation counter is bumped, and when the new
   count is a multiple of OPERACOES_PARA_BALANCO an audit with the id right
   after it joins directly behind it. The audit entry only has its id and
   operation set. The code never checks for room; the precondition keeps
   the model to runs where the ring does not overflow (see
   `HeadTailRing.AdmitOverflow` for what happens otherwise).
   */
  function Submit(s: Server, op: int, origem: int, destino: int, valor: int): (r: Server)
    requires Inv(s)
    requires ValidRequest(Request(s.idContador, op, origem, destino, valor))
    requires HasRoom(s.fila, EntriesFor(s.contador))
    ensures Inv(r)
    ensures r.contas == s.contas
    ensures r.contador == s.contador + 1
    ensures GrowsBy(Contents(s.fila), Contents(r.fila), Chunk(s.contador, s.idContador, Order(op, origem, destino, valor)))
    ensures r.idContador == s.idContador + EntriesFor(s.contador)
  {
    var (fila, contador, idContador) := Admit(s.fila, s.contador, s.idContador, op, origem, destino, valor);
    AdmitKeepsIds(s.fila, s.contador, s.idContador, op, origem, destino, valor);
    Server(fila, s.contas, contador, idContador)
  }

  /**
   The entries `Submit` queues, spelled out: the request alone, or, when the
   new count is a multiple of OPERACOES_PARA_BALANCO, the request followed
   directly by an entry with the next id and operation BALANCO.
   */
  lemma SubmitEntries(s: Server, op: int, origem: int, destino: int, valor: int)
    requires Inv(s)
    requires ValidRequest(Request(s.idContador, op, origem, destino, valor))
    requires HasRoom(s.fila, EntriesFor(s.contador))
    ensures var r := Submit(s, op, origem, destino, valor);
    && (r.contador % OPERACOES_PARA_BALANCO != 0 ==>
        && Contents(r.fila) == Contents(s.fila) + [Request(s.idContador, op, origem, destino, valor)]
        && r.idContador == s.idContador + 1)
    && (r.contador % OPERACOES_PARA_BALANCO == 0 ==>
        && |Contents(r.fila)| == |Contents(s.fila)| + 2
        && Contents(r.fila)[..|Contents(s.fila)| + 1]
           == Contents(s.fila) + [Request(s.idContador, op, origem, destino, valor)]
        && Contents(r.fila)[|Contents(s.fila)| + 1].id == s.idContador + 1
        && Contents(r.fila)[|Contents(s.fila)| + 1].op == BALANCO
        && r.idContador == s.idContador + 2)
  {
  }

  /**
   One turn of `trabalhador`, once the wait for a non-empty ring has
   returned: take the entry at the head, advance the head, and dispatch it.
   */
  method WorkerStep(s: Server) returns (r: Server, report: Report)
    requires Inv(s) && !IsEmpty(s.fila)
    ensures Inv(r)
    ensures Contents(s.fila) != []
    ensures Contents(r.fila) == Contents(s.fila)[1..]
    ensures r.contas == Apply(s.contas, Contents(s.fila)[0])
    ensures Total(r.contas) == Total(s.contas) + Inflow(Contents(s.fila)[0])
    ensures r.contador == s.contador && r.idContador == s.idContador
  {
    EmptyIffNoContents(s.fila);
    var (fila, req) := Take(s.fila);
    TailKeeps(Contents(s.fila), s.idContador);
    var contas;
    ApplyConserves(s.contas, req);
    contas, report := Serve(s.contas, req);
    r := s.(fila := fila, contas := contas);
  }

  /**
   One producer submitting `orders` in turn while the ring has room for all
   of them: the ring grows by `Stream` of those orders. Every client
   request is queued whole; an audit entry matches on id and operation and
   keeps the stale amount and accounts of its slot.
   */
  function SubmitAll(s: Server, orders: seq<Order>): (r: Server)
    requires Inv(s) && AllClientOrders(orders)
    requires HasRoom(s.fila, |Stream(s.contador, s.idContador, orders)|)
    ensures Inv(r) && r.contas == s.contas
    ensures GrowsBy(Contents(s.fila), Contents(r.fila), Stream(s.contador, s.idContador, orders))
    ensures r.contador == s.contador + |orders|
    ensures r.idContador == s.idContador + |Stream(s.contador, s.idContador, orders)|
    decreases |orders|
  {
    if |orders| == 0 then
      s
    else
      var o := orders[0];
      SubmitStep(s, orders);
      var s1 := Submit(s, o.op, o.origem, o.destino, o.valor);
      var r := SubmitAll(s1, orders[1..]);
      RunStep(Contents(s.fila), Contents(s1.fila), Contents(r.fila), orders,
        s.contador, s.idContador, s1.contador, s1.idContador, r.contador, r.idContador);
      r
  }

  /** The first order of a run that fits can be submitted, and the rest still fits after it. */
  lemma SubmitStep(s: Server, orders: seq<Order>)
    requires Inv(s) && AllClientOrders(orders) && |orders| > 0
    requires HasRoom(s.fila, |Stream(s.contador, s.idContador, orders)|)
    ensures var o := orders[0];
      && ValidRequest(Request(s.idContador, o.op, o.origem, o.destino, o.valor))
      && HasRoom(s.fila, EntriesFor(s.contador))
      && AllClientOrders(orders[1..])
      && var s1 := Submit(s, o.op, o.origem, o.destino, o.valor);
         HasRoom(s1.fila, |Stream(s1.contador, s1.idContador, orders[1..])|)
  {
    var o := orders[0];
    assert ClientOrder(o);
    ClientOrdersTail(orders);
    StreamUnfold(s.contador, s.idContador, orders);
    var s1 := Submit(s, o.op, o.origem, o.destino, o.valor);
    assert |Contents(s1.fila)| == |Contents(s.fila)| + EntriesFor(s.contador);
  }

  /**
   A client's order reaches the ring whole, amount and accounts included:
   submitted to an empty ring, the first order is the oldest entry, with
   the id the server handed it.
   */
  lemma SubmitAllKeepsFirstOrder(s: Server, orders: seq<Order>)
    requires Inv(s) && AllClientOrders(orders) && |orders| > 0
    requires Contents(s.fila) == []
    requires HasRoom(s.fila, |Stream(s.contador, s.idContador, orders)|)
    ensures Contents(SubmitAll(s, orders).fila) != []
    ensures Contents(SubmitAll(s, orders).fila)[0] == ToRequest(orders[0], s.idContador)
  {
    var st := Stream(s.contador, s.idContador, orders);
    assert st[0] == ToRequest(orders[0], s.idContador);
    assert ClientOrder(orders[0]);
  }
}
