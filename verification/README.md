# Bank server core, modelled in Dafny

This project models the sequential core of a small pthread bank server. The
server comes in three versions: `servidor.c`, `servidor_final.c` and
`servidor_v2.c`. Each has the same pieces:

- a ledger of ten accounts (`deposito`, `transferencia`, `balanco`);
- a circular request queue of 50 slots;
- `adicionar_requisicao`, which gives every request an id, counts accepted
  requests and injects an audit request (operation 3) after every 10th;
- a worker loop (`trabalhador`) that takes requests from the queue and
  applies them to the ledger.

The two later versions also have a shutdown flag. It is `shutdown_flag` in
`servidor_v2.c` and `encerrar` in `servidor_final.c`. Once set it is never
cleared. It turns producers away, and workers drain the queue before they
exit.

Each mutex-protected region becomes one pure function or method on an
immutable state value, with one exception: a worker's take from the queue
(under the queue mutex) and its dispatch to the ledger (under
`mutex_contas`) are joined into one `WorkerStep`. A blocking wait becomes a
precondition: the state in which the wait has returned. Amounts are whole
cents (`int`).

Modules:

- `BankTypes` (`bank_types.dfy`): the constants, the `Request` record, and
  which account ids a request may name.
- `Accounts` and `Dispatch` (`ledger.dfy`): the ledger, and the worker's
  dispatch of one request. The ledger code of the three versions differs
  only in printed text, so one model serves all three.
- `RingWindow` (`ring_window.dfy`): the abstract FIFO that a 50-slot ring
  denotes.
- `BoundedQueue` (`bounded_queue.dfy`): the queue of `servidor_v2.c`, with
  head, tail and size.
- `ServerV2` (`server_v2.dfy`): `servidor_v2.c`.
- `AuditCadence` (`audit_cadence.dfy`): a reference definition of the
  request stream that a run of client orders produces, with its audit count
  and its ids.
- `HeadTailRing` (`head_tail_ring.dfy`): the head/tail-only ring of
  `servidor.c` and `servidor_final.c`, and their shared submission
  critical section.
- `ServerBasic` (`server_basic.dfy`): `servidor.c`.
- `ServerFinal` (`server_final.dfy`): `servidor_final.c`.

Where the code's behaviour is undefined or surprising, the model follows the
code:

- Account ids are never checked (an out-of-range id indexes past `contas`);
  the model requires them in range.
- In `servidor_v2.c` an id is consumed even when the enqueue is refused.
- In the head/tail versions, audit entries set only `id` and `operacao`.
  Their other fields are stale, and the model keeps those stale fields.
- The head/tail versions never wait for room (see Findings).
- `servidor_final.c:8` reads `\\constantes` where a `//` comment was
  evidently meant. The model reads it as a comment.

## Model

| member | source | states |
|---|---|---|
| Accounts.InitialLedger | servidor_v2.c:244-248 | Ten accounts; account i has id i and holds 1000.00. The invariant (ten accounts, ids in order) holds, and the total is ten times the opening balance. |
| Accounts.Deposit | servidor_v2.c:49-53 | Account `id` gains `valor`. Every other account is unchanged. The bank total rises by exactly `valor`. |
| Accounts.Transfer | servidor_v2.c:57-66 | Succeeds exactly when the source balance is at least `valor`. On success the source loses `valor`, the destination gains it, the source stays >= 0 when `origem != destino`, and no other account moves. On failure nothing changes. Either way the total is preserved. |
| Accounts.Balanco | servidor_v2.c:70-76 | Reports one (id, balance) line per account, for accounts 0..9 in order. On a well-formed ledger the reported ids are 0..9. |
| Accounts.TotalUpdate | servidor_final.c:38-50 | Rewriting one account's balance moves the bank total by exactly the difference. This is why a deposit adds `valor` and a transfer's debit and credit cancel out. |
| Accounts.OperationsKeepNonNegative | servidor_final.c:46-55 | From non-negative balances, a deposit or transfer of a non-negative amount leaves every balance non-negative. |
| Accounts.OpeningScenario | servidor.c:34-51 | From the opening ledger, depositing 50.00 into account 3 gives 1050.00 there and 1000.00 elsewhere. A 1500.00 transfer out of a 1000.00 account fails and changes nothing. |
| Dispatch.Serve | servidor_v2.c:139-146 | `Apply` is the dispatch's effect on the ledger; `Serve` adds the report. Operation 1 deposits into `id_origem`. Operation 2 transfers and reports either success or insufficient funds. Operation 3 reports the snapshot and leaves the ledger unchanged. Any other operation does nothing. |
| Dispatch.ApplyConserves | servidor_v2.c:139-146 | `Apply` of one request keeps the ten accounts and their ids. The total changes by the deposited amount and nothing else: a transfer, applied or refused, moves no money in or out. |
| Dispatch.ApplyAllConserves | servidor.c:80-87 | Over any run of requests, the total changes by the sum of the deposits and nothing else, whether transfers succeed or fail. The ledger stays well formed. |
| RingWindow.WindowPush | servidor_v2.c:102-104 | If the FIFO is not full, writing at slot (start+len) mod 50 appends the entry to the FIFO. |
| RingWindow.WindowPop | servidor_v2.c:122-124 | Advancing the head by one slot mod 50 drops exactly the oldest FIFO entry. |
| BoundedQueue.Init | servidor_v2.c:81-84 | Resetting head, tail and size gives a queue that meets the invariant (0 <= size <= 50, tail == (head+size) mod 50) and holds no entries. |
| BoundedQueue.Enqueue | servidor_v2.c:91-107 | After shutdown: returns false and leaves the queue unchanged. Otherwise, with room: returns true and the FIFO gains `req` at its tail. The invariant is kept. |
| BoundedQueue.Dequeue | servidor_v2.c:111-127 | Fails exactly when the queue is empty and shutdown is set. Otherwise returns the oldest entry and removes only that entry, even after shutdown. The invariant is kept. |
| BoundedQueue.FifoOrder | servidor_v2.c:102-124 | Enqueueing a then b into an empty queue, then dequeueing twice, yields a then b. |
| ServerV2.Start | servidor_v2.c:40-46 | The initial globals meet the server invariant: empty queue, opening ledger, counters at zero, flag clear. |
| ServerV2.Submit | servidor_v2.c:152-186 | After shutdown: returns false and uses up one id, but queue and counter are unchanged. Otherwise the request takes the current id and joins the FIFO, and the counter rises by one. When the new count is a multiple of 10, an audit (operation 3, accounts -1, amount 0) with the next id follows it, unless shutdown was raised in between, in which case the audit is dropped. With no shutdown at all, the queue grows by exactly the reference chunk of the order. The ledger is untouched and the invariant kept. |
| ServerV2.WorkerStep | servidor_v2.c:131-149 | The worker exits exactly when the queue is empty and shutdown is set. Otherwise it removes the oldest request and the ledger becomes that request applied. Counters and flag are unchanged. |
| ServerV2.RunWorker | servidor_v2.c:132-137 | After shutdown, a worker draining alone serves every queued request in FIFO order before it exits. The final ledger is the queued requests applied in order, and the total grows by their deposits. |
| ServerV2.ShutdownGates | servidor_v2.c:216-220 | `SignalShutdown` (the flag update of `encerrar_threads`, servidor_v2.c:216-217) changes nothing else, keeps the invariant, and is idempotent. Afterwards a submission is refused without touching queue or counter, and a dequeue still returns the oldest entry until the queue is empty. |
| ServerV2.SubmitAll | servidor_v2.c:189-209 | A producer's accepted orders, with no interleaving, grow the FIFO by exactly the reference stream. The counter rises by the number of orders. |
| AuditCadence.StreamCadence | servidor_v2.c:167-181 | Starting from count c, n client orders yield exactly (c+n)/10 - c/10 audits. Nothing else is added besides the n requests. |
| AuditCadence.StreamIdsConsecutive | servidor_v2.c:153-175 | Request and audit ids in the stream are consecutive, starting at the counter's value. |
| HeadTailRing.Start | servidor.c:27-28 | A zeroed buffer with head == tail is the empty FIFO. |
| HeadTailRing.EmptyIffNoContents | servidor.c:71-73 | `inicio_fila == fim_fila` holds exactly when the abstract FIFO is empty. |
| HeadTailRing.Take | servidor.c:76-77 | On a non-empty ring, returns the entry at the head (the oldest) and leaves the FIFO without it. |
| HeadTailRing.HeadAdvance | servidor_final.c:94-95 | Advancing `inicio_fila` by one mod 50 on a non-empty ring drops the oldest entry. |
| HeadTailRing.PushEffect | servidor.c:99-104 | `Push` writes at `fim_fila` and advances it mod 50; this raises the count by one mod 50. With room, it appends the entry to the FIFO. |
| HeadTailRing.Admit | servidor.c:99-111 | The counter rises by one, and the ids advance by one, or by two when an audit is due. With room, the FIFO gains the request with the current id, followed, at every multiple of 10, by an audit with the next id whose other fields are stale. |
| HeadTailRing.AdmitKeepsIds | servidor_final.c:119-131 | With room, the queued entries stay dispatchable and keep strictly increasing ids below the next id. |
| HeadTailRing.AdmitOverflow | servidor.c:104-110 | Without room, the count after admitting is the pending entries plus those written, minus 50. Pending requests are lost. |
| HeadTailRing.OverflowLosesQueue | servidor_final.c:124-131 | Concrete case: with 49 requests pending, one more deposit leaves the ring looking empty. |
| ServerBasic.Start | servidor.c:25-31 | The initial globals meet the invariant, with an empty FIFO. |
| ServerBasic.Submit | servidor.c:93-116 | The counter rises by one and the ids by the entries written. The ring grows by the reference chunk for that order: the request whole with the current id, plus, when an audit is due, an entry matching the audit's id and operation. The invariant is kept. |
| ServerBasic.SubmitEntries | servidor.c:99-111 | Spelled out per case: the request alone joins the FIFO. Or, when the new count is a multiple of 10, the request is followed directly by an entry with the next id and operation 3. |
| ServerBasic.WorkerStep | servidor.c:66-87 | With the ring non-empty, the worker removes the oldest entry and the ledger becomes that request applied. |
| ServerBasic.SubmitAll | servidor.c:119-133 | A producer's orders grow the FIFO by the reference stream: earlier entries are untouched, each client request is queued whole (id, operation, accounts, amount), and each audit matches on id and operation (its other fields are stale). |
| ServerBasic.SubmitAllKeepsFirstOrder | servidor.c:99-104 | Submitted to an empty ring, the first order is the oldest entry, whole, with the id the server handed it. |
| ServerFinal.Start | servidor_final.c:28-33 | The initial globals meet the invariant: empty FIFO, `encerrar` clear. |
| ServerFinal.Submit | servidor_final.c:110-138 | With `encerrar` set, nothing changes (queue, ids, counter). Otherwise the ring grows by the reference chunk for the order, as in servidor.c, and the ids advance by the entries written. The flag is never changed. |
| ServerFinal.SubmitEntries | servidor_final.c:119-131 | Before `encerrar`: the request alone joins the FIFO. Or, at every multiple of 10, the request is followed directly by an entry with the next id and operation 3. |
| ServerFinal.Take | servidor_final.c:71-96 | Returns nothing exactly when `encerrar` is set and the ring is empty. Otherwise returns the oldest entry and removes it, even after `encerrar`. |
| ServerFinal.WorkerStep | servidor_final.c:69-106 | The worker exits exactly when `encerrar` is set and the ring is empty. Otherwise it applies the oldest request to the ledger. Flag and counters are unchanged. |
| ServerFinal.RunWorker | servidor_final.c:70-88 | Once `encerrar` is set, a worker draining alone consumes every entry still queued, in order, before it exits. The final ledger is those requests applied in order. |
| ServerFinal.EncerrarGates | servidor_final.c:163-165 | `Encerrar` (the flag update of `temporizador`, servidor_final.c:163-164) changes nothing else, keeps the invariant, and is idempotent. Afterwards submissions leave the state untouched, and workers still take queued entries until the ring is empty. |
| ServerFinal.SubmitAll | servidor_final.c:145-157 | Before `encerrar`, a producer's orders grow the FIFO by the reference stream: earlier entries untouched, client requests queued whole, audits matching on id and operation. |
| AuditCadence.RunStep | servidor.c:119-133 | The chunk of one order, then the stream of the rest, with counters advanced in step, is the stream of the whole run. This is the induction step of the head/tail `SubmitAll`s. |
| AuditCadence.RunStepExact | servidor_v2.c:189-209 | The same step for a queue that holds the stream's entries exactly, as the v2 queue does. |
| AuditCadence.GrowsByCompose | servidor_final.c:119-131 | A queue that grows by one chunk of entries and then by another has grown by the two chunks in order, with every client entry exact and every audit matching on id and operation. |

## Findings

| source | as written | input that shows it | evidently intended | confidence | as-written member | corrected member |
|---|---|---|---|---|---|---|
| servidor.c:99-110 | `adicionar_requisicao` writes at `fim_fila` and advances it with no capacity check | 49 requests pending (`inicio_fila` 0, `fim_fila` 49), then one more deposit: `fim_fila` wraps to 0 and the ring reads as empty | a producer waits for room, as `enfileirar` does in servidor_v2.c, so no pending request is lost | high; not executed | HeadTailRing.OverflowLosesQueue | ServerBasic.Submit |
| servidor_final.c:119-131 | same unchecked write, and the injected audit can overrun the head as well | 48 requests pending and a 10th request: its audit makes `fim_fila` catch up with `inicio_fila` | as above | high; not executed | HeadTailRing.AdmitOverflow | ServerFinal.Submit |

The corrected members require room for the new entries (one, or two when an
audit is due). This is the state in which a blocking wait for space would
have returned. Under that condition they prove that the FIFO grows by
exactly the new entries.

## Left out

- Threads, mutexes and condition variables are not modelled. Each locked
  region is one atomic function or method, except for the worker step
  described below. A blocking wait is a precondition. No interleaving or
  liveness is proved.
- ServerV2.Submit: the three critical sections of `adicionar_requisicao`
  run one after another. The only interleaving modelled is shutdown being
  raised before the audit enqueue. Other producers running between the
  sections could leave id gaps, or put ids into the queue out of order.
  The ascending-ids invariant and the "audit directly follows" guarantee
  hold only for the sequential composition.
  So with an audit due and the queue one slot short of full, the model
  requires room for both entries up front, whereas the C enqueues the
  request and then waits for a worker to free a slot for the audit.
- Amounts are `int` cents, not C `float`, so rounding is not modelled.
  Conservation holds exactly in the model.
- `printf` output is not modelled; outcomes are returned as `Report`
  values. The `sleep` pacing is omitted.
- The random client threads, `main`, thread creation and joining, and the
  timer's sleep are left out. Client arguments appear only as the
  `ClientOrder` shape that `SubmitAll` assumes.
- `id_contador` and `contador_operacoes` are C `int`. Their 32-bit
  overflow is not modelled.
- Account ids are not validated by the code. The model requires valid ids
  for deposits and transfers instead of reporting an error.
- ServerBasic.Submit: it requires room that `servidor.c:99-111` never
  checks; HeadTailRing.Admit models the case without room (see Findings).
- ServerFinal.Submit: with `encerrar` clear it requires room that
  `servidor_final.c:119-131` never checks; HeadTailRing.Admit models the
  case without room (see Findings).
- ServerV2.WorkerStep, ServerBasic.WorkerStep and ServerFinal.WorkerStep
  join the take (under the queue mutex) and the dispatch (under
  `mutex_contas`) into one atomic step. ServerV2.RunWorker and
  ServerFinal.RunWorker model one worker draining the queue alone. With
  several workers, a later request can reach the ledger before an earlier
  one, so the ledger's order is not FIFO: a 1500.00 transfer out of
  account 0 followed by a 600.00 deposit into it ends at 1600.00 in order,
  but at 100.00 when the deposit is applied first. Only the total, as
  stated by `Dispatch.ApplyAllConserves`, is independent of the order.
- In `servidor.c` a worker never exits, so the model has only its
  single step.
- Clients read the shutdown flags without holding the lock. This race is
  not modelled.
