/**
 What a transaction pays for gas, on every path it can take.
 */
module Gas {
  import opened Prelude

  datatype GasOperation = TransferGas | PublishGas(size: nat) | ExecuteGas(complexity: nat)

  function Units(op: GasOperation): nat {
    match op
    case TransferGas => 100
    case PublishGas(size) => 500 + size
    case ExecuteGas(complexity) => 200 + complexity * 10
  }

  /** What the body of an execution does: a native call, a VM run that reports its gas, or an early error. */
  datatype Work = NativeWork | VmWork(used: nat) | EarlyError

  datatype GasTerms = GasTerms(op: GasOperation, limit: nat, price: nat)

  /** Cost and gas units of an execution that returns a changeset. */
  function ExecutionCharge(g: GasTerms, balance: nat, accessOk: bool, work: Work): Option<(nat, nat)> {
    var units := Units(g.op);
    var base := Min(units * g.price, U64_MAX);
    if units > g.limit || g.limit * g.price > U64_MAX || !accessOk then None
    else if g.limit * g.price > 0 && balance < g.limit * g.price then Some((Min(base, balance), units))
    else
      match work
      case NativeWork => Some((base, units))
      case VmWork(used) =>
        var charged := Max(used, units);
        if charged > g.limit || charged * g.price > U64_MAX then None else Some((charged * g.price, charged))
      case EarlyError => None
  }

  /** Cost and gas units of a transaction that failed before it returned a changeset. */
  function FailureCharge(g: GasTerms, balance: nat, race: bool): Option<(nat, nat)> {
    var units := Min(Units(g.op), g.limit);
    if units * g.price > U64_MAX then None
    else Some((if race then 0 else Min(units * g.price, balance), units))
  }

  function GasCharge(g: GasTerms, balance: nat, accessOk: bool, work: Work, race: bool): Option<(nat, nat)> {
    var executed := ExecutionCharge(g, balance, accessOk, work);
    if executed.Some? then executed else FailureCharge(g, balance, race)
  }

  lemma ScaledUnits(units: nat, limit: nat, price: nat)
    requires units <= limit
    ensures units * price <= limit * price
  {
  }

  /** On every path, what is charged is within the sender's balance and within limit times price. */
  lemma ChargeIsWithinMeans(g: GasTerms, balance: nat, accessOk: bool, work: Work, race: bool)
    requires GasCharge(g, balance, accessOk, work, race).Some?
    ensures var (cost, units) := GasCharge(g, balance, accessOk, work, race).value;
            cost <= balance && cost <= g.limit * g.price && units <= g.limit
  {
    var executed := ExecutionCharge(g, balance, accessOk, work);
    ScaledUnits(Min(Units(g.op), g.limit), g.limit, g.price);
    if executed.Some? {
      ScaledUnits(executed.value.1, g.limit, g.price);
    }
  }

  /** An executed native call pays its units times the price: the saturating product never saturates. */
  lemma NativeChargeIsExact(g: GasTerms, balance: nat)
    requires ExecutionCharge(g, balance, true, NativeWork).Some? && balance >= g.limit * g.price
    ensures ExecutionCharge(g, balance, true, NativeWork) == Some((Units(g.op) * g.price, Units(g.op)))
  {
    ScaledUnits(Units(g.op), g.limit, g.price);
  }

  /** The whole gas budget is affordable and representable, and the base units are within the limit. */
  ghost predicate Budgeted(g: GasTerms, balance: nat) {
    Units(g.op) <= g.limit && g.limit * g.price <= U64_MAX && balance >= g.limit * g.price
  }

  /**
   A budgeted VM run pays for the units it used, and at least for the base units; it is charged
   exactly when it stayed within the limit, and no product overflows on the way.
   */
  lemma VmChargeIsExact(g: GasTerms, balance: nat, used: nat)
    requires Budgeted(g, balance)
    ensures used > g.limit ==> ExecutionCharge(g, balance, true, VmWork(used)) == None
    ensures Units(g.op) <= used <= g.limit ==>
              ExecutionCharge(g, balance, true, VmWork(used)) == Some((used * g.price, used))
    ensures used <= Units(g.op) ==>
              ExecutionCharge(g, balance, true, VmWork(used)) == Some((Units(g.op) * g.price, Units(g.op)))
  {
    ScaledUnits(Units(g.op), g.limit, g.price);
    if used <= g.limit {
      ScaledUnits(used, g.limit, g.price);
    }
  }

  /**
   A sender who cannot pay the budget pays for the base units, or all there is, whatever the
   call would have done; so no call is executed on credit.
   */
  lemma ShortfallChargeIsExact(g: GasTerms, balance: nat, work: Work)
    requires Units(g.op) <= g.limit && balance < g.limit * g.price <= U64_MAX
    ensures var r := ExecutionCharge(g, balance, true, work);
            && r.Some? && r.value.1 == Units(g.op)
            && (balance >= Units(g.op) * g.price ==> r.value.0 == Units(g.op) * g.price)
            && (balance < Units(g.op) * g.price ==> r.value.0 == balance)
  {
    ScaledUnits(Units(g.op), g.limit, g.price);
  }

  /** Nothing is charged by the execution exactly when its terms, its inputs or its run are refused. */
  lemma ExecutionIsRefusedIff(g: GasTerms, balance: nat, accessOk: bool, work: Work)
    ensures ExecutionCharge(g, balance, accessOk, work).None? <==>
            || Units(g.op) > g.limit || g.limit * g.price > U64_MAX || !accessOk
            || (balance >= g.limit * g.price && (work.EarlyError? || (work.VmWork? && work.used > g.limit)))
  {
    if Units(g.op) <= g.limit {
      ScaledUnits(Units(g.op), g.limit, g.price);
    }
    if work.VmWork? && work.used <= g.limit {
      ScaledUnits(work.used, g.limit, g.price);
    }
  }

  /**
   A failure pays for the base units up to the limit, or all there is. It is free exactly when
   it is a race over an object version, or nothing could be charged.
   */
  lemma FailureChargeIsExact(g: GasTerms, balance: nat, race: bool, units: nat)
    requires units <= Units(g.op) && units <= g.limit && (units == Units(g.op) || units == g.limit)
    ensures FailureCharge(g, balance, race).None? <==> units * g.price > U64_MAX
    ensures units * g.price <= U64_MAX ==>
              var (cost, charged) := FailureCharge(g, balance, race).value;
              && charged == units
              && (!race && balance >= units * g.price ==> cost == units * g.price)
              && (!race && balance < units * g.price ==> cost == balance)
              && (cost == 0 <==> race || balance == 0 || g.price == 0 || g.limit == 0)
  {
    assert Units(g.op) >= 100;
    NoFreeUnits(units, g.price);
  }

  lemma NoFreeUnits(units: nat, price: nat)
    ensures units * price == 0 <==> units == 0 || price == 0
  {
  }
}
