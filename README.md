# Banco Sincronizado — a verified model of the ledger

The repository simulates a bank of 100 accounts that 100 worker threads
move money between. Its core is the class `Banco`. It holds the balances in
the array `cuentas`, and it has three operations:

* the constructor fills every account with 2000;
* `transferencia(origen, destino, cantidad)` waits while the source holds
  less than `cantidad`, then debits the source, credits the destination and
  reads the total;
* `getSaldoTotal()` adds up the balances in a loop.

This project models that class sequentially, in `banco.dfy` (module
`BancoSincronizado`). The class `Banco` keeps its array (`const cuentas:
array<real>`). `Transferencia` updates it in place. `SaldoTotal` sums it with
the source's accumulator loop. The lock serializes each check of the guard
with the transfer that follows it. `await` releases the lock, so a waiting
call becomes a series of such steps, one per check. A whole concurrent run is
then a sequence of such steps in the order the lock admitted them (`Run`).

The `while (cuentas[cuentaOrigen] < cantidad) await()` guard is modelled as
one check of its condition. An underfunded call ends in the outcome `Espera`
("still waiting"), and the balances are left exactly as they were. A funded
call ends in `Completada(saldoTotal)`, which carries the total that the
source reads after both the debit and the credit.

The properties proved:

* conservation of the total, for one transfer and for any serialized run;
* the exact effect of a transfer between distinct accounts;
* a self-transfer changes nothing;
* the guard keeps balances non-negative;
* the ledger is built with 100 × 2000 = 200000;
* every reachable state totals 200000 and, for non-negative amounts, has no negative balance.

## Model

| member | source | states |
|---|---|---|
| BancoSincronizado.Banco.constructor | BancoSincronizado.java:28-34 | the array is fresh with exactly 100 entries, every entry is 2000, and their sum is 200000 |
| BancoSincronizado.Banco.SaldoTotal | BancoSincronizado.java:64-75 | the value returned is the left-to-right sum of all balances; the method changes nothing |
| BancoSincronizado.Banco.Transferencia | BancoSincronizado.java:37-61 | it waits (and changes nothing) exactly when the source holds less than the amount; otherwise the new balances are the debit-then-credit of the old ones; the total is unchanged and the total it reports equals the total before the call |
| BancoSincronizado.Transferred | BancoSincronizado.java:49-51 | debit of the source, then credit of the destination on the debited array; the number of accounts is unchanged (its meaning is given by the lemmas below) |
| BancoSincronizado.Step | BancoSincronizado.java:41-51 | one guarded attempt: no change while the source is underfunded, the transfer otherwise; the number of accounts is unchanged |
| BancoSincronizado.Run | BancoSincronizado.java:37-61 | the attempts applied one after another in the order the lock admitted them; the number of accounts is unchanged |
| BancoSincronizado.SumUniform | BancoSincronizado.java:31-33 | n accounts that all hold v hold n × v in total |
| BancoSincronizado.InitialTotal | BancoSincronizado.java:29-33 | the freshly built ledger totals 100 × 2000 = 200000 |
| BancoSincronizado.SumUpdate | BancoSincronizado.java:49 | overwriting one balance changes the total by exactly the new value minus the old one |
| BancoSincronizado.SumDebitCredit | BancoSincronizado.java:49-51 | a debit of c followed by a credit of c on the debited array leaves the total unchanged, also when both hit the same entry |
| BancoSincronizado.TransferConservesSum | BancoSincronizado.java:49-51 | a completed transfer leaves the sum of all balances unchanged |
| BancoSincronizado.TransferEffect | BancoSincronizado.java:49-51 | between distinct accounts the source decreases by exactly the amount, the destination increases by exactly the amount, and every other balance is unchanged |
| BancoSincronizado.SelfTransferNoOp | BancoSincronizado.java:49-51 | a transfer from an account to itself leaves the whole array unchanged |
| BancoSincronizado.StepConservesSum | BancoSincronizado.java:41-51 | an attempt, waiting or completed, leaves the total unchanged |
| BancoSincronizado.StepKeepsNonNegative | BancoSincronizado.java:41-49 | for a non-negative amount, a non-negative source stays non-negative, and a ledger without negative balances stays so |
| BancoSincronizado.RunConservesSum | BancoSincronizado.java:37-61 | any sequence of attempts, in any order the lock admits them, leaves the total unchanged |
| BancoSincronizado.Reachable | BancoSincronizado.java:28-61 | every state reached from the constructor's balances by any admitted sequence of in-range attempts with non-negative amounts totals 200000 and has no negative balance |
| BancoSincronizado.RunKeepsNonNegative | BancoSincronizado.java:41-49 | any sequence of attempts with non-negative amounts keeps a ledger without negative balances free of them |

## Left out

- The `ReentrantLock` and its `Condition` (`lock`, `unlock`, `await`, `signalAll`): each lock-held stretch (one check of the guard, plus the debit and credit when it passes) is taken as atomic. `await` releases the lock and takes it back before the guard is checked again, so a waiting call is a series of such stretches, and a concurrent run is modelled as the sequence in which the lock admitted them.
- Waiting itself: `Transferencia` models one check of the guard. A call that ends in `Espera` stands for a thread that is still suspended, and its later re-check is a later call. Liveness (that a waiting call eventually completes) is not modelled.
- `InterruptedException` while waiting: cancellation is not modelled. A cancelled wait changes nothing, as `Espera` does.
- The console output (`System.out.println` and both `printf` calls). Only the value that the second `printf` reads from `getSaldoTotal()` is kept, as the payload of `Completada`.
- `BancoSincronizado.main` and `EjecucionTransferencias`: thread creation, `Math.random()` choices and `Thread.sleep`. They only call the ledger. Their ranges show up as follows. The destination range [0, 100) becomes the index preconditions of `Transferencia` and the `EnRango` condition that `Run` requires. The amount range [0, 2000) shows up only as the non-negative amounts assumed by `StepKeepsNonNegative`, `RunKeepsNonNegative` and `Reachable`; its upper bound 2000 appears nowhere.
- IEEE-754 `double` arithmetic: balances are exact reals, so rounding and NaN are not modelled. With doubles, `-=` and `+=` need not conserve the total bit for bit.
- Out-of-range account indices: these are preconditions of `Transferencia`. In Java they throw `ArrayIndexOutOfBoundsException`. An out-of-range `cuentaDestino` throws only after the source has been debited, and that debit is not undone. This path is not modelled.
- A non-blocking variant (skipping an underfunded transfer) does not exist in the source; it would end in the same state as `Espera`.
- `Transferencia` accepts a negative amount, as the Java method does. Non-negativity of balances is proved only for non-negative amounts.
