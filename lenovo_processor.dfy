/**
 * The Lenovo processor: each row's SU type is priced from a fixed table of SU charges, and the
 * Lenovo charge is the row's SU hours times that price.
 */
module LenovoProcessor {
  import opened Wrappers
  import opened Records

  /** SU charge per SU type; every other type is charged nothing. */
  const SU_CHARGE_MAP: map<string, real> :=
    map["OpenShift GPUA100SXM4" := 1.0,
        "OpenStack GPUA100SXM4" := 1.0,
        "OpenStack GPUH100" := 2.74,
        "BM GPUH100" := 2.74]

  /** `SU_CHARGE_MAP.get(su_type, 0)`; a missing SU type is not a key either. */
  function SuCharge(suType: Option<string>): real {
    if suType.Some? && suType.value in SU_CHARGE_MAP then SU_CHARGE_MAP[suType.value] else 0.0
  }

  /** Hours times price; missing hours give a missing charge. */
  function Charge(suHours: Option<real>, suCharge: real): Option<real> {
    if suHours.Some? then Some(suHours.value * suCharge) else None
  }

  /** The record set after pricing: only the two new columns differ. */
  function LenovoCharges(rows: seq<Row>): (r: seq<Row>)
    ensures |r| == |rows|
    ensures forall i :: 0 <= i < |rows| ==>
              r[i] == rows[i].(suCharge := r[i].suCharge, charge := r[i].charge)
    ensures forall i :: 0 <= i < |rows| ==>
              r[i].suCharge == Some(SuCharge(rows[i].suType))
    ensures forall i :: 0 <= i < |rows| ==>
              (r[i].charge.Some? <==> rows[i].suHours.Some?)
    ensures forall i :: 0 <= i < |rows| && rows[i].suHours.Some? ==>
              r[i].charge.value == rows[i].suHours.value * r[i].suCharge.value
  {
    seq(|rows|, i requires 0 <= i < |rows| =>
      var c := SuCharge(rows[i].suType);
      rows[i].(suCharge := Some(c), charge := Charge(rows[i].suHours, c)))
  }

  /** The charge is never negative, and a type outside the table costs nothing. */
  lemma ChargeBounds(rows: seq<Row>, i: int)
    requires 0 <= i < |rows|
    requires rows[i].suHours.Some? && rows[i].suHours.value >= 0.0
    ensures 0.0 <= LenovoCharges(rows)[i].charge.value <= 2.74 * rows[i].suHours.value
    ensures (rows[i].suType.None? || rows[i].suType.value !in SU_CHARGE_MAP) ==>
              LenovoCharges(rows)[i].charge == Some(0.0)
  {
    var t := rows[i].suType;
    assert 0.0 <= SuCharge(t) <= 2.74;
  }

  /** An H100 hour costs 2.74 times an A100 hour. */
  lemma H100CostsMoreThanA100(h: real)
    ensures SuCharge(Some("OpenStack GPUH100")) * h == 2.74 * (SuCharge(Some("OpenStack GPUA100SXM4")) * h)
    ensures SuCharge(Some("BM GPUH100")) == SuCharge(Some("OpenStack GPUH100"))
  {
  }

  class LenovoProcessor {
    var data: seq<Row>

    constructor(data: seq<Row>)
      ensures this.data == data
    {
      this.data := data;
    }

    /** `_process`: add the "SU Charge" column, then the "Charge" column. */
    method Process()
      modifies this
      ensures data == LenovoCharges(old(data))
    {
      data := LenovoCharges(data);
    }
  }
}
