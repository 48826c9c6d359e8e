/**
 Shared vocabulary of the bank server: the compile-time constants, the
 request record that travels through the queue, and the validity of the
 account ids a request names.
 */
module BankTypes {

  /** Number of bank accounts (NUM_CONTAS). */
  const NUM_CONTAS: int := 10

  /** Number of slots of the circular request buffer (MAX_REQUISICOES). */
  const MAX_REQUISICOES: int := 50

  /** Every this many accepted requests an audit is injected (OPERACOES_PARA_BALANCO). */
  const OPERACOES_PARA_BALANCO: int := 10

  /** Operation codes carried in `Request.op`. */
  const DEPOSITO: int := 1
  const TRANSFERENCIA: int := 2
  const BALANCO: int := 3

  /** Account id the producers put in a field that does not apply. */
  const NO_ACCOUNT: int := -1

  /** A queued request (the C struct Requisicao); amounts are whole cents. */
  datatype Request = Request(id: int, op: int, origem: int, destino: int, valor: int)

  /** A slot of a zero-initialised global buffer. */
  const ZeroRequest: Request := Request(0, 0, 0, 0, 0)

  /** The injected audit request of servidor_v2.c: both accounts -1, amount 0. */
  function AuditRequest(id: int): Request {
    Request(id, BALANCO, NO_ACCOUNT, NO_ACCOUNT, 0)
  }

  /** Whether the count reached by one more accepted request triggers an audit. */
  predicate AuditDue(contador: int) {
    (contador + 1) % OPERACOES_PARA_BALANCO == 0
  }

  /** Queue entries one accepted request occupies: itself, and the audit it may trigger. */
  function EntriesFor(contador: int): nat {
    if AuditDue(contador) then 2 else 1
  }

  datatype Option<T> = None | Some(value: T)

  predicate ValidAccount(id: int) {
    0 <= id < NUM_CONTAS
  }

  /**
   The worker indexes the account array with the ids of deposits and
   transfers without any check; a request is safe to dispatch when those
   ids are in range. Audits and unknown operation codes index nothing.
   */
  predicate ValidRequest(r: Request) {
    && (r.op == DEPOSITO ==> ValidAccount(r.origem))
    && (r.op == TRANSFERENCIA ==> ValidAccount(r.origem) && ValidAccount(r.destino))
  }

  /** Every entry of `rs` is safe to dispatch. */
  predicate AllValid(rs: seq<Request>) {
    forall k :: 0 <= k < |rs| ==> ValidRequest(rs[k])
  }

  /** Ids strictly increase along `rs` and all lie below `next`. */
  predicate IdsAscendingBelow(rs: seq<Request>, next: int) {
    && (forall i, j :: 0 <= i < j < |rs| ==> rs[i].id < rs[j].id)
    && (forall k :: 0 <= k < |rs| ==> rs[k].id < next)
  }

  /**
   The arguments a client thread passes to `adicionar_requisicao`: a deposit
   into one account (no destination), or a transfer between two different
   accounts, of a non-negative amount.
   */
  datatype Order = Order(op: int, origem: int, destino: int, valor: int)

  predicate ClientOrder(o: Order) {
    && o.valor >= 0
    && ((o.op == DEPOSITO && ValidAccount(o.origem) && o.destino == NO_ACCOUNT)
        || (o.op == TRANSFERENCIA && ValidAccount(o.origem) && ValidAccount(o.destino)
            && o.origem != o.destino))
  }

  /** The request a client order becomes once it is given id `id`. */
  function ToRequest(o: Order, id: int): Request {
    Request(id, o.op, o.origem, o.destino, o.valor)
  }

  /** Number of audit entries in a stream of requests. */
  function AuditCount(rs: seq<Request>): nat {
    if |rs| == 0 then 0
    else (if rs[0].op == BALANCO then 1 else 0) + AuditCount(rs[1..])
  }

  lemma AppendValid(rs: seq<Request>, r: Request)
    requires AllValid(rs) && ValidRequest(r)
    ensures AllValid(rs + [r])
  {
  }

  lemma AppendAscending(rs: seq<Request>, next: int, r: Request)
    requires IdsAscendingBelow(rs, next) && next <= r.id
    ensures IdsAscendingBelow(rs + [r], r.id + 1)
  {
  }

  lemma TailKeeps(rs: seq<Request>, next: int)
    requires |rs| > 0 && AllValid(rs) && IdsAscendingBelow(rs, next)
    ensures AllValid(rs[1..]) && IdsAscendingBelow(rs[1..], next)
  {
  }
}
