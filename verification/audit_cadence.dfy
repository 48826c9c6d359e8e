/**
 The audit cadence shared by the three versions of `adicionar_requisicao`:
 a reference definition of the request stream a run of accepted client
 orders puts into the queue, and what that stream contains.
 */
module AuditCadence {
  import opened BankTypes

  /**
   The entries one accepted order adds to the queue: the request with the
   next id and, when it brings the count to a multiple of
   OPERACOES_PARA_BALANCO, an audit with the id after it.
   */
  function Chunk(contador: int, nextId: int, o: Order): (c: seq<Request>)
    ensures |c| == EntriesFor(contador)
  {
    if AuditDue(contador) then [ToRequest(o, nextId), AuditRequest(nextId + 1)]
    else [ToRequest(o, nextId)]
  }

  /**
   Reference definition of what a run of accepted client orders adds to the
   FIFO when nothing else interleaves: the chunks of the orders, one after
   the other, with ids drawn in sequence.
   */
  function Stream(contador: int, nextId: int, orders: seq<Order>): seq<Request>
    decreases |orders|
  {
    if |orders| == 0 then []
    else
      var c := Chunk(contador, nextId, orders[0]);
      c + Stream(contador + 1, nextId + |c|, orders[1..])
  }

  /** The stream of a non-empty run is the first order's chunk, then the rest's stream. */
  lemma StreamUnfold(contador: int, nextId: int, orders: seq<Order>)
    requires |orders| > 0
    ensures Stream(contador, nextId, orders)
      == Chunk(contador, nextId, orders[0]) + Stream(contador + 1, nextId + EntriesFor(contador), orders[1..])
  {
  }

  predicate AllClientOrders(orders: seq<Order>) {
    forall k :: 0 <= k < |orders| ==> ClientOrder(orders[k])
  }

  /** One fewer audit is due before count c + 1 than before c, exactly when c + 1 triggers one. */
  lemma AuditStep(c: int)
    requires c >= 0
    ensures (c + 1) / OPERACOES_PARA_BALANCO - c / OPERACOES_PARA_BALANCO
      == if (c + 1) % OPERACOES_PARA_BALANCO == 0 then 1 else 0
  {
  }

  lemma ClientOrdersTail(orders: seq<Order>)
    requires |orders| > 0 && AllClientOrders(orders)
    ensures AllClientOrders(orders[1..])
  {
    var rest := orders[1..];
    forall k | 0 <= k < |rest| ensures ClientOrder(rest[k]) {
      assert rest[k] == orders[k + 1];
    }
  }

  lemma {:induction false} AuditCountAppend(a: seq<Request>, b: seq<Request>)
    ensures AuditCount(a + b) == AuditCount(a) + AuditCount(b)
    decreases |a|
  {
    if |a| == 0 {
      assert a + b == b;
    } else {
      assert (a + b)[1..] == a[1..] + b;
      AuditCountAppend(a[1..], b);
    }
  }

  /**
   Audit cadence: starting from count `contador`, a run of n client orders
   carries exactly one audit for each multiple of OPERACOES_PARA_BALANCO
   the count passes, and nothing else is added beside the orders themselves.
   */
  lemma {:induction false} StreamCadence(contador: int, nextId: int, orders: seq<Order>)
    requires contador >= 0 && AllClientOrders(orders)
    ensures AuditCount(Stream(contador, nextId, orders))
      == (contador + |orders|) / OPERACOES_PARA_BALANCO - contador / OPERACOES_PARA_BALANCO
    ensures |Stream(contador, nextId, orders)| == |orders| + AuditCount(Stream(contador, nextId, orders))
    decreases |orders|
  {
    if |orders| > 0 {
      var c := Chunk(contador, nextId, orders[0]);
      var rest := orders[1..];
      ClientOrdersTail(orders);
      AuditStep(contador);
      StreamCadence(contador + 1, nextId + |c|, rest);
      AuditCountAppend(c, Stream(contador + 1, nextId + |c|, rest));
      assert ClientOrder(orders[0]);
      if AuditDue(contador) {
        assert c[1..][1..] == [];
      } else {
        assert c[1..] == [];
      }
    }
  }

  /** Without interleaving, the ids in the stream are consecutive from `nextId`. */
  lemma {:induction false} StreamIdsConsecutive(contador: int, nextId: int, orders: seq<Order>)
    ensures forall k :: 0 <= k < |Stream(contador, nextId, orders)| ==>
      Stream(contador, nextId, orders)[k].id == nextId + k
    decreases |orders|
  {
    if |orders| > 0 {
      var c := Chunk(contador, nextId, orders[0]);
      StreamIdsConsecutive(contador + 1, nextId + |c|, orders[1..]);
    }
  }

  /**
   Queue entry `x` stands for stream entry `ref`: the same id and operation
   and, unless `ref` is an audit, the very same request. An audit entry in
   the head/tail rings sets only its id and operation; its amount and
   accounts are whatever its slot held before.
   */
  predicate Matches(x: Request, ref: Request) {
    && x.id == ref.id
    && x.op == ref.op
    && (ref.op != BALANCO ==> x == ref)
  }

  /** `q1` is `q0` with entries matching `added`, one for one, behind it. */
  predicate GrowsBy(q0: seq<Request>, q1: seq<Request>, added: seq<Request>) {
    && |q1| == |q0| + |added|
    && q1[..|q0|] == q0
    && forall k :: 0 <= k < |added| ==> Matches(q1[|q0| + k], added[k])
  }

  /** Growth composes: by `chunk` and then by `rest` is growth by `chunk + rest`. */
  lemma GrowsByCompose(q0: seq<Request>, q1: seq<Request>, q2: seq<Request>, chunk: seq<Request>, rest: seq<Request>)
    requires GrowsBy(q0, q1, chunk) && GrowsBy(q1, q2, rest)
    ensures GrowsBy(q0, q2, chunk + rest)
  {
    assert q2[..|q0|] == q1[..|q1|][..|q0|];
    forall k | 0 <= k < |chunk + rest|
      ensures Matches(q2[|q0| + k], (chunk + rest)[k])
    {
      if k < |chunk| {
        assert q2[|q0| + k] == q1[|q0| + k];
      } else {
        assert q2[|q0| + k] == q2[|q1| + (k - |chunk|)];
      }
    }
  }

  /**
   One step of a producer's run: a queue that grew by the first order's
   chunk and then by the stream of the remaining orders, with the counters
   advanced to match, has grown by the stream of the whole run.
   */
  lemma RunStep(q0: seq<Request>, q1: seq<Request>, q2: seq<Request>, orders: seq<Order>,
                c0: int, id0: int, c1: int, id1: int, c2: int, id2: int)
    requires |orders| > 0
    requires c1 == c0 + 1 && id1 == id0 + EntriesFor(c0)
    requires GrowsBy(q0, q1, Chunk(c0, id0, Order(orders[0].op, orders[0].origem, orders[0].destino, orders[0].valor)))
    requires GrowsBy(q1, q2, Stream(c1, id1, orders[1..]))
    requires c2 == c1 + |orders[1..]| && id2 == id1 + |Stream(c1, id1, orders[1..])|
    ensures GrowsBy(q0, q2, Stream(c0, id0, orders))
    ensures c2 == c0 + |orders| && id2 == id0 + |Stream(c0, id0, orders)|
  {
    StreamUnfold(c0, id0, orders);
    GrowsByCompose(q0, q1, q2, Chunk(c0, id0, orders[0]), Stream(c1, id1, orders[1..]));
  }

  /** `RunStep` for a queue that holds every entry exactly as the stream has it. */
  lemma RunStepExact(q0: seq<Request>, q1: seq<Request>, q2: seq<Request>, orders: seq<Order>,
                     c0: int, id0: int, c1: int, id1: int, c2: int, id2: int)
    requires |orders| > 0
    requires c1 == c0 + 1 && id1 == id0 + EntriesFor(c0)
    requires q1 == q0 + Chunk(c0, id0, Order(orders[0].op, orders[0].origem, orders[0].destino, orders[0].valor))
    requires q2 == q1 + Stream(c1, id1, orders[1..])
    requires c2 == c1 + |orders[1..]| && id2 == id1 + |Stream(c1, id1, orders[1..])|
    ensures q2 == q0 + Stream(c0, id0, orders)
    ensures c2 == c0 + |orders| && id2 == id0 + |Stream(c0, id0, orders)|
  {
    StreamUnfold(c0, id0, orders);
    assert q0 + Chunk(c0, id0, orders[0]) + Stream(c1, id1, orders[1..])
      == q0 + (Chunk(c0, id0, orders[0]) + Stream(c1, id1, orders[1..]));
  }
}
