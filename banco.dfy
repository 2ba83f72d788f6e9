/** A sequential model of the shared ledger `Banco`: a fixed array of one
    hundred account balances, filled with 2000 each, on which a transfer
    debits one account and credits another once the source holds enough
    money, and whose total is computed by an accumulator loop.

    Balances are mathematical reals: the rounding of Java's `double` is
    abstracted away.  The lock and its condition are not modelled.  What the
    lock serializes is each stretch it is held for: one check of the guard,
    together with the debit and credit that follow when it passes.  Waiting
    releases the lock, so a waiting call is a series of such stretches, and a
    run of the concurrent program is the sequence of stretches in the order
    the lock admitted them. */
module BancoSincronizado {

  /** Number of accounts, fixed when the ledger is built. */
  const NumCuentas: nat := 100

  /** Balance every account starts with. */
  const SaldoInicial: real := 2000.0

  // ---------------------------------------------------------------------
  // Specification of the balances as a sequence
  // ---------------------------------------------------------------------

  /** Left-to-right sum of the balances, in the order the accumulator loop
      of the total adds them. */
  function Sum(s: seq<real>): real
  {
    if |s| == 0 then 0.0 else Sum(s[..|s| - 1]) + s[|s| - 1]
  }

  ghost predicate AllNonNegative(s: seq<real>)
  {
    forall k :: 0 <= k < |s| ==> s[k] >= 0.0
  }

  /** The two updates of a completed transfer, in the source's order: the
      destination is credited after the source was debited, so a
      self-transfer credits the already debited balance. */
  function Transferred(s: seq<real>, origen: int, destino: int, cantidad: real): (r: seq<real>)
    requires 0 <= origen < |s| && 0 <= destino < |s|
    ensures |r| == |s|
  {
    var debitada := s[origen := s[origen] - cantidad];
    debitada[destino := debitada[destino] + cantidad]
  }

  /** One lock-held stretch of a transfer: while the source is underfunded the
      caller waits and nothing changes; otherwise the transfer happens. */
  function Step(s: seq<real>, origen: int, destino: int, cantidad: real): (r: seq<real>)
    requires 0 <= origen < |s| && 0 <= destino < |s|
    ensures |r| == |s|
  {
    if s[origen] < cantidad then s else Transferred(s, origen, destino, cantidad)
  }

  /** A transfer request as the workers issue it. */
  datatype Solicitud = Solicitud(origen: int, destino: int, cantidad: real)

  predicate EnRango(t: Solicitud, n: nat)
  {
    0 <= t.origen < n && 0 <= t.destino < n
  }

  /** The balances after the lock has admitted the attempts `ts` one after
      the other, whatever interleaving of the workers produced that order. */
  function Run(s: seq<real>, ts: seq<Solicitud>): (r: seq<real>)
    requires forall i :: 0 <= i < |ts| ==> EnRango(ts[i], |s|)
    ensures |r| == |s|
    decreases |ts|
  {
    if |ts| == 0 then s
    else
      var t := ts[0];
      assert EnRango(t, |s|);
      Run(Step(s, t.origen, t.destino, t.cantidad), ts[1..])
  }

  // ---------------------------------------------------------------------
  // Properties of the specification
  // ---------------------------------------------------------------------

  /** A ledger whose n accounts all hold v holds n * v in total. */
  lemma {:induction false} SumUniform(n: nat, v: real)
    ensures Sum(seq(n, _ => v)) == n as real * v
  {
    if n > 0 {
      var s := seq(n, _ => v);
      assert s[..n - 1] == seq(n - 1, _ => v);
      SumUniform(n - 1, v);
    }
  }

  /** Overwriting one balance changes the total by exactly the difference. */
  lemma {:induction false} SumUpdate(s: seq<real>, i: int, v: real)
    requires 0 <= i < |s|
    ensures Sum(s[i := v]) == Sum(s) - s[i] + v
  {
    var t := s[i := v];
    if i == |s| - 1 {
      assert t[..|s| - 1] == s[..|s| - 1];
    } else {
      assert t[..|s| - 1] == s[..|s| - 1][i := v];
      SumUpdate(s[..|s| - 1], i, v);
    }
  }

  /** Debiting c from one entry and then crediting c to a (possibly the
      same) entry of the result cancel in the total. */
  lemma SumDebitCredit(s: seq<real>, o: int, d: int, c: real)
    requires 0 <= o < |s| && 0 <= d < |s|
    ensures Sum(s[o := s[o] - c][d := s[o := s[o] - c][d] + c]) == Sum(s)
  {
    var t := s[o := s[o] - c];
    SumUpdate(s, o, s[o] - c);
    SumUpdate(t, d, t[d] + c);
  }

  /** A completed transfer moves money and neither creates nor destroys it. */
  lemma TransferConservesSum(s: seq<real>, origen: int, destino: int, cantidad: real)
    requires 0 <= origen < |s| && 0 <= destino < |s|
    ensures Sum(Transferred(s, origen, destino, cantidad)) == Sum(s)
  {
    SumDebitCredit(s, origen, destino, cantidad);
  }

  /** Between two distinct accounts the source loses exactly the amount, the
      destination gains exactly the amount, and no other balance moves. */
  lemma TransferEffect(s: seq<real>, origen: int, destino: int, cantidad: real)
    requires 0 <= origen < |s| && 0 <= destino < |s| && origen != destino
    ensures Transferred(s, origen, destino, cantidad)[origen] == s[origen] - cantidad
    ensures Transferred(s, origen, destino, cantidad)[destino] == s[destino] + cantidad
    ensures forall k :: 0 <= k < |s| && k != origen && k != destino ==>
              Transferred(s, origen, destino, cantidad)[k] == s[k]
  {
  }

  /** A transfer from an account to itself leaves every balance as it was. */
  lemma SelfTransferNoOp(s: seq<real>, k: int, cantidad: real)
    requires 0 <= k < |s|
    ensures Transferred(s, k, k, cantidad) == s
  {
    var r := Transferred(s, k, k, cantidad);
    assert forall j :: 0 <= j < |s| ==> r[j] == s[j];
  }

  /** An attempt, waiting or completed, leaves the total unchanged. */
  lemma StepConservesSum(s: seq<real>, origen: int, destino: int, cantidad: real)
    requires 0 <= origen < |s| && 0 <= destino < |s|
    ensures Sum(Step(s, origen, destino, cantidad)) == Sum(s)
  {
    if s[origen] >= cantidad {
      TransferConservesSum(s, origen, destino, cantidad);
    }
  }

  /** The guard keeps a non-negative source from going negative, and keeps a
      ledger with no negative balance free of negative balances, for any
      non-negative amount. */
  lemma StepKeepsNonNegative(s: seq<real>, origen: int, destino: int, cantidad: real)
    requires 0 <= origen < |s| && 0 <= destino < |s| && cantidad >= 0.0
    ensures s[origen] >= 0.0 ==> Step(s, origen, destino, cantidad)[origen] >= 0.0
    ensures AllNonNegative(s) ==> AllNonNegative(Step(s, origen, destino, cantidad))
  {
  }

  /** Conservation over any order in which the lock admits the attempts. */
  lemma {:induction false} RunConservesSum(s: seq<real>, ts: seq<Solicitud>)
    requires forall i :: 0 <= i < |ts| ==> EnRango(ts[i], |s|)
    ensures Sum(Run(s, ts)) == Sum(s)
    decreases |ts|
  {
    if |ts| > 0 {
      var t := ts[0];
      var s' := Step(s, t.origen, t.destino, t.cantidad);
      StepConservesSum(s, t.origen, t.destino, t.cantidad);
      RunConservesSum(s', ts[1..]);
    }
  }

  /** No sequence of attempts with non-negative amounts makes a balance
      negative when none was negative to begin with. */
  lemma {:induction false} RunKeepsNonNegative(s: seq<real>, ts: seq<Solicitud>)
    requires forall i :: 0 <= i < |ts| ==> EnRango(ts[i], |s|) && ts[i].cantidad >= 0.0
    requires AllNonNegative(s)
    ensures AllNonNegative(Run(s, ts))
    decreases |ts|
  {
    if |ts| > 0 {
      var t := ts[0];
      var s' := Step(s, t.origen, t.destino, t.cantidad);
      StepKeepsNonNegative(s, t.origen, t.destino, t.cantidad);
      RunKeepsNonNegative(s', ts[1..]);
    }
  }

  /** The ledger as built holds 100 * 2000 in total. */
  lemma InitialTotal()
    ensures Sum(seq(NumCuentas, _ => SaldoInicial)) == 200000.0
  {
    SumUniform(NumCuentas, SaldoInicial);
  }

  /** Every state the ledger reaches from its initial balances, through any
      order of admitted attempts in range with non-negative amounts, totals
      200000 and has no negative balance. */
  lemma Reachable(ts: seq<Solicitud>)
    requires forall i :: 0 <= i < |ts| ==> EnRango(ts[i], NumCuentas) && ts[i].cantidad >= 0.0
    ensures Sum(Run(seq(NumCuentas, _ => SaldoInicial), ts)) == 200000.0
    ensures AllNonNegative(Run(seq(NumCuentas, _ => SaldoInicial), ts))
  {
    var inicial := seq(NumCuentas, _ => SaldoInicial);
    InitialTotal();
    RunConservesSum(inicial, ts);
    RunKeepsNonNegative(inicial, ts);
  }

  // ---------------------------------------------------------------------
  // The ledger
  // ---------------------------------------------------------------------

  /** What one call of `Transferencia` comes to: the call is still waiting
      on its guard with nothing changed, or it completed and reports the
      total it read after the debit and the credit. */
  datatype Resultado = Espera | Completada(saldoTotal: real)

  class Banco {
    /** The balances; the array itself is never replaced. */
    const cuentas: array<real>

    ghost predicate Valid()
      reads this
    {
      cuentas.Length == NumCuentas
    }

    /** Opens the hundred accounts with the initial balance each. */
    constructor ()
      ensures Valid() && fresh(cuentas)
      ensures cuentas[..] == seq(NumCuentas, _ => SaldoInicial)
      ensures Sum(cuentas[..]) == 200000.0
    {
      cuentas := new real[NumCuentas];
      new;
      var i := 0;
      while i < cuentas.Length
        invariant 0 <= i <= cuentas.Length
        invariant forall k :: 0 <= k < i ==> cuentas[k] == SaldoInicial
      {
        cuentas[i] := SaldoInicial;
        i := i + 1;
      }
      assert cuentas[..] == seq(NumCuentas, _ => SaldoInicial);
      InitialTotal();
    }

    /** The sum of all balances, accumulated left to right; nothing changes. */
    method SaldoTotal() returns (total: real)
      ensures total == Sum(cuentas[..])
    {
      total := 0.0;
      var i := 0;
      while i < cuentas.Length
        invariant 0 <= i <= cuentas.Length
        invariant total == Sum(cuentas[..i])
      {
        assert cuentas[..i + 1][..i] == cuentas[..i];
        total := total + cuentas[i];
        i := i + 1;
      }
      assert cuentas[..i] == cuentas[..];
    }

    /** One lock-held stretch of an attempt at moving `cantidad` from `origen` to `destino`.
        While the source holds less than the amount the call waits and the
        balances stay as they are; otherwise the source is debited, the
        destination credited, and the total read afterwards is reported. */
    method Transferencia(origen: int, destino: int, cantidad: real) returns (r: Resultado)
      requires Valid()
      requires 0 <= origen < NumCuentas && 0 <= destino < NumCuentas
      modifies cuentas
      ensures r.Espera? <==> old(cuentas[origen]) < cantidad
      ensures cuentas[..] == Step(old(cuentas[..]), origen, destino, cantidad)
      ensures Sum(cuentas[..]) == old(Sum(cuentas[..]))
      ensures r.Completada? ==> r.saldoTotal == old(Sum(cuentas[..]))
    {
      if cuentas[origen] < cantidad {
        return Espera;
      }
      cuentas[origen] := cuentas[origen] - cantidad;
      cuentas[destino] := cuentas[destino] + cantidad;
      var total := SaldoTotal();
      TransferConservesSum(old(cuentas[..]), origen, destino, cantidad);
      r := Completada(total);
    }
  }
}
