/**
 The account ledger shared by the three server versions. Their `deposito`,
 `transferencia` and `balanco` differ only in the text they print, so one
 model serves all three. Every function here is one critical section under
 `mutex_contas`; the printed line becomes a value the caller receives.
 */
module Accounts {
  import opened BankTypes

  /** One bank account (the C struct Conta); the balance is in cents. */
  datatype Account = Account(id: int, saldo: int)

  type Ledger = seq<Account>

  /** Opening balance of every account: 1000.00, in cents. */
  const SALDO_INICIAL: int := 100000

  /** The ledger has NUM_CONTAS accounts and account i carries id i. */
  predicate WellFormed(contas: Ledger) {
    && |contas| == NUM_CONTAS
    && forall i :: 0 <= i < |contas| ==> contas[i].id == i
  }

  /** Sum of all balances. */
  function Total(contas: Ledger): int {
    if |contas| == 0 then 0 else contas[0].saldo + Total(contas[1..])
  }

  /** All balances are at least zero. */
  predicate NonNegative(contas: Ledger) {
    forall i :: 0 <= i < |contas| ==> contas[i].saldo >= 0
  }

  /** The ledger `main` sets up: every account holds the opening balance. */
  function InitialLedger(): (contas: Ledger)
    ensures WellFormed(contas) && NonNegative(contas)
    ensures forall i :: 0 <= i < |contas| ==> contas[i].saldo == SALDO_INICIAL
    ensures Total(contas) == NUM_CONTAS * SALDO_INICIAL
  {
    var contas := seq(NUM_CONTAS, i => Account(i, SALDO_INICIAL));
    TotalOfUniform(contas, SALDO_INICIAL);
    contas
  }

  lemma {:induction false} TotalOfUniform(contas: Ledger, saldo: int)
    requires forall i :: 0 <= i < |contas| ==> contas[i].saldo == saldo
    ensures Total(contas) == |contas| * saldo
  {
    if |contas| > 0 {
      TotalOfUniform(contas[1..], saldo);
    }
  }

  /** Replacing one account changes the total by exactly the balance difference. */
  lemma {:induction false} TotalUpdate(contas: Ledger, i: int, a: Account)
    requires 0 <= i < |contas|
    ensures Total(contas[i := a]) == Total(contas) - contas[i].saldo + a.saldo
  {
    if i == 0 {
      assert contas[i := a][1..] == contas[1..];
    } else {
      assert contas[i := a][1..] == contas[1..][i - 1 := a];
      TotalUpdate(contas[1..], i - 1, a);
    }
  }

  /** `deposito`: add `valor` to account `id`; no other account moves. */
  function Deposit(contas: Ledger, id: int, valor: int): (r: Ledger)
    requires |contas| == NUM_CONTAS && ValidAccount(id)
    ensures |r| == |contas|
    ensures r[id].id == contas[id].id && r[id].saldo == contas[id].saldo + valor
    ensures forall j :: 0 <= j < |r| && j != id ==> r[j] == contas[j]
    ensures Total(r) == Total(contas) + valor
  {
    var a := contas[id].(saldo := contas[id].saldo + valor);
    TotalUpdate(contas, id, a);
    contas[id := a]
  }

  /**
   `transferencia`: when the source holds at least `valor`, debit the source
   and credit the destination and report true; otherwise change nothing and
   report false (insufficient funds).
   */
  function Transfer(contas: Ledger, origem: int, destino: int, valor: int): (r: (Ledger, bool))
    requires |contas| == NUM_CONTAS && ValidAccount(origem) && ValidAccount(destino)
    ensures r.1 <==> contas[origem].saldo >= valor
    ensures !r.1 ==> r.0 == contas
    ensures |r.0| == |contas|
    ensures forall j :: 0 <= j < |r.0| ==> r.0[j].id == contas[j].id
    ensures r.1 && origem != destino ==>
      && r.0[origem].saldo == contas[origem].saldo - valor
      && r.0[destino].saldo == contas[destino].saldo + valor
      && r.0[origem].saldo >= 0
    ensures origem == destino ==> r.0 == contas
    ensures forall j :: 0 <= j < |r.0| && j != origem && j != destino ==> r.0[j] == contas[j]
    ensures Total(r.0) == Total(contas)
  {
    if contas[origem].saldo >= valor then
      var debitada := contas[origem := contas[origem].(saldo := contas[origem].saldo - valor)];
      var creditada := debitada[destino := debitada[destino].(saldo := debitada[destino].saldo + valor)];
      TotalUpdate(contas, origem, debitada[origem]);
      TotalUpdate(debitada, destino, creditada[destino]);
      (creditada, true)
    else
      (contas, false)
  }

  /**
   `balanco`: one line (account id, balance) per account, visiting the
   accounts in index order 0..NUM_CONTAS-1. The ledger is a value, so the
   audit cannot change it.
   */
  method Balanco(contas: Ledger) returns (linhas: seq<(int, int)>)
    requires |contas| == NUM_CONTAS
    ensures |linhas| == NUM_CONTAS
    ensures forall i :: 0 <= i < NUM_CONTAS ==> linhas[i] == (contas[i].id, contas[i].saldo)
    ensures WellFormed(contas) ==> forall i :: 0 <= i < NUM_CONTAS ==> linhas[i].0 == i
  {
    linhas := [];
    var i := 0;
    while i < NUM_CONTAS
      invariant 0 <= i <= NUM_CONTAS
      invariant |linhas| == i
      invariant forall k :: 0 <= k < i ==> linhas[k] == (contas[k].id, contas[k].saldo)
    {
      linhas := linhas + [(contas[i].id, contas[i].saldo)];
      i := i + 1;
    }
  }

  /**
   A transfer of a non-negative amount never makes a balance negative,
   and a deposit of a non-negative amount keeps all balances non-negative.
   */
  lemma OperationsKeepNonNegative(contas: Ledger, id: int, origem: int, destino: int, valor: int)
    requires |contas| == NUM_CONTAS && NonNegative(contas)
    requires ValidAccount(id) && ValidAccount(origem) && ValidAccount(destino)
    ensures valor >= 0 ==> NonNegative(Deposit(contas, id, valor))
    ensures valor >= 0 ==> NonNegative(Transfer(contas, origem, destino, valor).0)
  {
  }

  /**
   A concrete case: from the opening ledger a deposit of
   50.00 into account 3 shows 1050.00 there and 1000.00 elsewhere, and a
   transfer of 1500.00 out of an account holding 1000.00 fails and moves
   nothing.
   */
  lemma OpeningScenario()
    ensures var c := Deposit(InitialLedger(), 3, 5000);
      && c[3].saldo == 105000
      && forall j :: 0 <= j < NUM_CONTAS && j != 3 ==> c[j].saldo == SALDO_INICIAL
    ensures Transfer(InitialLedger(), 0, 1, 150000) == (InitialLedger(), false)
  {
  }
}

/**
 What a worker does with a request it has taken from the queue (the
 dispatch in `trabalhador`): operation 1 is a deposit into `origem`,
 2 a transfer from `origem` to `destino`, 3 an audit, anything else is
 ignored.
 */
module Dispatch {
  import opened BankTypes
  import opened Accounts

  /** The line a processed request prints. */
  datatype Report =
    | Deposited(opId: int, valor: int, conta: int, novoSaldo: int)
    | Transferred(opId: int, valor: int, origem: int, destino: int)
    | InsufficientFunds(opId: int, origem: int)
    | Snapshot(opId: int, linhas: seq<(int, int)>)
    | Silent

  /** Effect of one request on the ledger. */
  function Apply(contas: Ledger, req: Request): Ledger
    requires |contas| == NUM_CONTAS && ValidRequest(req)
  {
    if req.op == DEPOSITO then Deposit(contas, req.origem, req.valor)
    else if req.op == TRANSFERENCIA then Transfer(contas, req.origem, req.destino, req.valor).0
    else contas
  }

  /** Amount a request adds to the bank as a whole: only deposits do. */
  function Inflow(req: Request): int {
    if req.op == DEPOSITO then req.valor else 0
  }

  /**
   One request is processed: the ledger changes as `Apply` says and the
   report names the outcome.
   */
  method Serve(contas: Ledger, req: Request) returns (novas: Ledger, report: Report)
    requires |contas| == NUM_CONTAS && ValidRequest(req)
    ensures novas == Apply(contas, req)
    ensures req.op == DEPOSITO ==>
      report == Deposited(req.id, req.valor, req.origem, novas[req.origem].saldo)
    ensures req.op == TRANSFERENCIA && contas[req.origem].saldo >= req.valor ==>
      report == Transferred(req.id, req.valor, req.origem, req.destino)
    ensures req.op == TRANSFERENCIA && contas[req.origem].saldo < req.valor ==>
      report == InsufficientFunds(req.id, req.origem)
    ensures req.op == BALANCO ==>
      && novas == contas
      && report.Snapshot?
      && report.opId == req.id
      && |report.linhas| == NUM_CONTAS
      && forall i :: 0 <= i < NUM_CONTAS ==> report.linhas[i] == (contas[i].id, contas[i].saldo)
    ensures req.op !in {DEPOSITO, TRANSFERENCIA, BALANCO} ==> novas == contas && report == Silent
  {
    if req.op == DEPOSITO {
      novas := Deposit(contas, req.origem, req.valor);
      report := Deposited(req.id, req.valor, req.origem, novas[req.origem].saldo);
    } else if req.op == TRANSFERENCIA {
      var t := Transfer(contas, req.origem, req.destino, req.valor);
      novas := t.0;
      if t.1 {
        report := Transferred(req.id, req.valor, req.origem, req.destino);
      } else {
        report := InsufficientFunds(req.id, req.origem);
      }
    } else if req.op == BALANCO {
      novas := contas;
      var linhas := Balanco(contas);
      report := Snapshot(req.id, linhas);
    } else {
      novas := contas;
      report := Silent;
    }
  }

  /** The ledger after processing `reqs` in order. */
  function ApplyAll(contas: Ledger, reqs: seq<Request>): Ledger
    requires |contas| == NUM_CONTAS && AllValid(reqs)
    decreases |reqs|
  {
    if |reqs| == 0 then contas
    else
      ApplyConserves(contas, reqs[0]);
      ApplyAll(Apply(contas, reqs[0]), reqs[1..])
  }

  /**
   One processed request keeps the ten accounts and their ids, and changes
   the bank's total by its deposit alone: a transfer, applied or refused,
   moves nothing in or out.
   */
  lemma ApplyConserves(contas: Ledger, req: Request)
    requires |contas| == NUM_CONTAS && ValidRequest(req)
    ensures |Apply(contas, req)| == NUM_CONTAS
    ensures WellFormed(contas) ==> WellFormed(Apply(contas, req))
    ensures Total(Apply(contas, req)) == Total(contas) + Inflow(req)
  {
  }

  /** Sum of the deposits among `reqs`. */
  function TotalInflow(reqs: seq<Request>): int {
    if |reqs| == 0 then 0 else Inflow(reqs[0]) + TotalInflow(reqs[1..])
  }

  /**
   Conservation over any run of requests: the bank's total grows by the
   deposits and by nothing else, whether transfers succeed or fail.
   */
  lemma {:induction false} ApplyAllConserves(contas: Ledger, reqs: seq<Request>)
    requires |contas| == NUM_CONTAS && AllValid(reqs)
    ensures Total(ApplyAll(contas, reqs)) == Total(contas) + TotalInflow(reqs)
    ensures WellFormed(contas) ==> WellFormed(ApplyAll(contas, reqs))
    decreases |reqs|
  {
    if |reqs| > 0 {
      ApplyConserves(contas, reqs[0]);
      var rest := reqs[1..];
      assert AllValid(rest) by {
        forall k | 0 <= k < |rest| ensures ValidRequest(rest[k]) {
          assert rest[k] == reqs[k + 1];
        }
      }
      ApplyAllConserves(Apply(contas, reqs[0]), rest);
    }
  }
}
