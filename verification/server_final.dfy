/**
 servidor_final.c with the threads taken out: the head/tail ring of
 servidor.c plus the flag `encerrar`, which the timer thread raises, which
 turns producers away, and after which workers drain the ring and exit.
 */
module ServerFinal {
  import opened BankTypes
  import opened HeadTailRing
  import opened Accounts
  import opened Dispatch
  import opened AuditCadence

  /** The globals, with the shutdown flag `encerrar`. */
  datatype Server = Server(fila: Ring, contas: Ledger, contador: int, idContador: int, encerrar: bool)

  /**
   The invariant of servidor.c over the same four globals: the shared queue
   invariant `QueueInv`, ten well-formed accounts and a non-negative
   counter. The flag is unconstrained.
   */
  predicate Inv(s: Server) {
    && QueueInv(s.fila, s.idContador)
    && WellFormed(s.contas)
    && s.contador >= 0
  }

  /** The state `main` starts the threads in. */
  function Start(): (s: Server)
    ensures Inv(s) && !s.encerrar
    ensures Contents(s.fila) == []
    ensures s.contas == InitialLedger()
    ensures s.contador == 0 && s.idContador == 0
  {
    Server(HeadTailRing.Start(), InitialLedger(), 0, 0, false)
  }

  /**
   `adicionar_requisicao`: with `encerrar` set it returns at once, leaving
   ring, ids and counter alone; otherwise it is the critical section of
   servidor.c (request with the next id, counter bumped, an audit with the
   id after it behind every OPERACOES_PARA_BALANCO-th request). As there,
   nothing checks for room, and the precondition keeps to runs without
   overflow.
   */
  function Submit(s: Server, op: int, origem: int, destino: int, valor: int): (r: Server)
    requires Inv(s)
    requires ValidRequest(Request(s.idContador, op, origem, destino, valor))
    requires s.encerrar || HasRoom(s.fila, EntriesFor(s.contador))
    ensures Inv(r)
    ensures r.contas == s.contas && r.encerrar == s.encerrar
    ensures s.encerrar ==> r == s
    ensures !s.encerrar ==> r.contador == s.contador + 1
    ensures !s.encerrar ==> GrowsBy(Contents(s.fila), Contents(r.fila), Chunk(s.contador, s.idContador, Order(op, origem, destino, valor)))
    ensures !s.encerrar ==> r.idContador == s.idContador + EntriesFor(s.contador)
  {
    if s.encerrar then
      s
    else
      var (fila, contador, idContador) := Admit(s.fila, s.contador, s.idContador, op, origem, destino, valor);
      AdmitKeepsIds(s.fila, s.contador, s.idContador, op, origem, destino, valor);
      Server(fila, s.contas, contador, idContador, s.encerrar)
  }

  /**
   The entries `Submit` queues, spelled out: the request alone, or, when the
   new count is a multiple of OPERACOES_PARA_BALANCO, the request followed
   directly by an entry with the next id and operation BALANCO.
   */
  lemma SubmitEntries(s: Server, op: int, origem: int, destino: int, valor: int)
    requires Inv(s)
    requires ValidRequest(Request(s.idContador, op, origem, destino, valor))
    requires s.encerrar || HasRoom(s.fila, EntriesFor(s.contador))
    ensures var r := Submit(s, op, origem, destino, valor);
    && (!s.encerrar && r.contador % OPERACOES_PARA_BALANCO != 0 ==>
        && Contents(r.fila) == Contents(s.fila) + [Request(s.idContador, op, origem, destino, valor)]
        && r.idContador == s.idContador + 1)
    && (!s.encerrar && r.contador % OPERACOES_PARA_BALANCO == 0 ==>
        && |Contents(r.fila)| == |Contents(s.fila)| + 2
        && Contents(r.fila)[..|Contents(s.fila)| + 1]
           == Contents(s.fila) + [Request(s.idContador, op, origem, destino, valor)]
        && Contents(r.fila)[|Contents(s.fila)| + 1].id == s.idContador + 1
        && Contents(r.fila)[|Contents(s.fila)| + 1].op == BALANCO
        && r.idContador == s.idContador + 2)
  {
  }

  /**
   The queue part of one turn of `trabalhador`, once its wait has returned
   (the ring is non-empty or `encerrar` is set). The worker leaves, taking
   nothing, exactly when `encerrar` is set and the ring is empty; otherwise
   it takes the oldest entry, also after `encerrar`.
   */
  function Take(s: Server): (r: (Server, Option<Request>))
    requires Inv(s)
    requires s.encerrar || !IsEmpty(s.fila)
    ensures Inv(r.0)
    ensures r.1.None? <==> s.encerrar && Contents(s.fila) == []
    ensures r.1.None? ==> r.0 == s
    ensures r.1.Some? ==>
      && r.1.value == Contents(s.fila)[0]
      && Contents(r.0.fila) == Contents(s.fila)[1..]
      && r.0 == s.(fila := r.0.fila)
  {
    EmptyIffNoContents(s.fila);
    if s.encerrar && IsEmpty(s.fila) then
      (s, None)
    else
      var (fila, req) := HeadTailRing.Take(s.fila);
      TailKeeps(Contents(s.fila), s.idContador);
      (s.(fila := fila), Some(req))
  }

  /** One turn of `trabalhador`: take, then dispatch what was taken. */
  method WorkerStep(s: Server) returns (r: Server, report: Option<Report>)
    requires Inv(s)
    requires s.encerrar || !IsEmpty(s.fila)
    ensures Inv(r)
    ensures report.None? <==> s.encerrar && Contents(s.fila) == []
    ensures report.None? ==> r == s
    ensures report.Some? ==>
      && Contents(r.fila) == Contents(s.fila)[1..]
      && r.contas == Apply(s.contas, Contents(s.fila)[0])
    ensures r.encerrar == s.encerrar && r.contador == s.contador && r.idContador == s.idContador
  {
    var (taken, req) := Take(s);
    if req.None? {
      return s, None;
    }
    ApplyConserves(taken.contas, req.value);
    var contas, line := Serve(taken.contas, req.value);
    r := taken.(contas := contas);
    report := Some(line);
  }

  /**
   A worker once `encerrar` is set: it serves every entry still in the
   ring, oldest first, and exits when the ring is empty. The ledger ends as
   if those requests were applied in order.
   */
  method RunWorker(s: Server) returns (r: Server, reports: seq<Report>)
    requires Inv(s) && s.encerrar
    ensures Inv(r) && r.encerrar
    ensures IsEmpty(r.fila)
    ensures r.contas == ApplyAll(s.contas, Contents(s.fila))
    ensures Total(r.contas) == Total(s.contas) + TotalInflow(Contents(s.fila))
    ensures |reports| == |Contents(s.fila)|
  {
    r := s;
    reports := [];
    while true
      invariant Inv(r) && r.encerrar
      invariant ApplyAll(r.contas, Contents(r.fila)) == ApplyAll(s.contas, Contents(s.fila))
      invariant |reports| + |Contents(r.fila)| == |Contents(s.fila)|
      decreases |Contents(r.fila)|
    {
      var next, out := WorkerStep(r);
      if out.None? {
        break;
      }
      reports := reports + [out.value];
      r := next;
    }
    EmptyIffNoContents(r.fila);
    ApplyAllConserves(s.contas, Contents(s.fila));
  }

  /** `temporizador`, after its sleep: raise `encerrar` under `mutex_fila`. */
  function Encerrar(s: Server): Server {
    s.(encerrar := true)
  }

  /**
   What `encerrar` gates: raising it touches nothing else and keeps the
   invariant; raising it again changes nothing, every later
   submission leaves the state untouched, and workers still take queued
   entries, leaving only once the ring is empty.
   */
  lemma EncerrarGates(s: Server, op: int, origem: int, destino: int, valor: int)
    requires Inv(s)
    requires ValidRequest(Request(s.idContador, op, origem, destino, valor))
    ensures var t := Encerrar(s);
      && t.encerrar && Inv(t)
      && t.(encerrar := s.encerrar) == s
      && Encerrar(t) == t
      && Submit(t, op, origem, destino, valor) == t
      && (Contents(s.fila) != [] ==> Take(t).1 == Some(Contents(s.fila)[0]))
      && (Contents(s.fila) == [] ==> Take(t).1 == None)
  {
    EmptyIffNoContents(s.fila);
  }

  /** Before `encerrar`, the first order of a run that fits can be submitted, and the rest still fits after it. */
  lemma SubmitStep(s: Server, orders: seq<Order>)
    requires Inv(s) && !s.encerrar && AllClientOrders(orders) && |orders| > 0
    requires HasRoom(s.fila, |Stream(s.contador, s.idContador, orders)|)
    ensures var o := orders[0];
      && ValidRequest(Request(s.idContador, o.op, o.origem, o.destino, o.valor))
      && HasRoom(s.fila, EntriesFor(s.contador))
      && AllClientOrders(orders[1..])
      && var s1 := Submit(s, o.op, o.origem, o.destino, o.valor);
         HasRoom(s1.fila, |Stream(s1.contador, s1.idContador, orders[1..])|)
  {
    var o := orders[0];
    assert ClientOrder(o);
    ClientOrdersTail(orders);
    StreamUnfold(s.contador, s.idContador, orders);
    var s1 := Submit(s, o.op, o.origem, o.destino, o.valor);
    assert |Contents(s1.fila)| == |Contents(s.fila)| + EntriesFor(s.contador);
  }

  /**
   One producer submitting `orders` in turn while the ring has room for all
   of them: the ring grows by `Stream` of those orders. Every client
   request is queued whole; an audit entry matches on id and operation and
   keeps the stale amount and accounts of its slot.
   */
  function SubmitAll(s: Server, orders: seq<Order>): (r: Server)
    requires Inv(s) && !s.encerrar && AllClientOrders(orders)
    requires HasRoom(s.fila, |Stream(s.contador, s.idContador, orders)|)
    ensures Inv(r) && !r.encerrar && r.contas == s.contas
    ensures GrowsBy(Contents(s.fila), Contents(r.fila), Stream(s.contador, s.idContador, orders))
    ensures r.contador == s.contador + |orders|
    ensures r.idContador == s.idContador + |Stream(s.contador, s.idContador, orders)|
    decreases |orders|
  {
    if |orders| == 0 then
      s
    else
      var o := orders[0];
      SubmitStep(s, orders);
      var s1 := Submit(s, o.op, o.origem, o.destino, o.valor);
      var r := SubmitAll(s1, orders[1..]);
      RunStep(Contents(s.fila), Contents(s1.fila), Contents(r.fila), orders,
        s.contador, s.idContador, s1.contador, s1.idContador, r.contador, r.idContador);
      r
  }
}
