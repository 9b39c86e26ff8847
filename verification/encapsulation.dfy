/**
 The `ElectricalVehicle` and `Tesla` classes of
 Encapsulation/tempCodeRunnerFile.cpp as values. A `Tesla` holds its
 `ElectricalVehicle` part in `base`; the inherited members act on that part.
 */
module Encapsulation {
  import opened Int32

  /** The charge level `charge` never goes above. */
  const FullCharge: int32 := 100

  datatype ElectricalVehicle = ElectricalVehicle(brand: string, batteryPercentage: int32)

  datatype Tesla = Tesla(base: ElectricalVehicle, autoP: bool)

  function Min(a: int, b: int): int {
    if a <= b then a else b
  }

  function GetBrand(v: ElectricalVehicle): string {
    v.brand
  }

  function GetBatteryPercentage(v: ElectricalVehicle): int32 {
    v.batteryPercentage
  }

  /** Writes the brand and nothing else. */
  function SetBrand(v: ElectricalVehicle, value: string): (r: ElectricalVehicle)
    ensures GetBrand(r) == value
    ensures GetBatteryPercentage(r) == GetBatteryPercentage(v)
  {
    v.(brand := value)
  }

  /** Writes the battery level and nothing else. */
  function SetBatteryPercentage(v: ElectricalVehicle, value: int32): (r: ElectricalVehicle)
    ensures GetBatteryPercentage(r) == value
    ensures GetBrand(r) == GetBrand(v)
  {
    v.(batteryPercentage := value)
  }

  /**
   The constructor: fields as default-initialised (an empty brand, a battery
   level that is overwritten before anyone reads it), then both setters.
   */
  function NewElectricalVehicle(brandVal: string, batteryPercentage: int32): (r: ElectricalVehicle)
    ensures GetBrand(r) == brandVal
    ensures GetBatteryPercentage(r) == batteryPercentage
  {
    SetBatteryPercentage(SetBrand(ElectricalVehicle("", 0), brandVal), batteryPercentage)
  }

  /**
   `charge` adds `val` and saturates at 100 from above only. The C++ sum
   `batteryPercentage + val` is undefined on `int` overflow, so it must fit.
   */
  function Charge(v: ElectricalVehicle, val: int32): (r: ElectricalVehicle)
    requires InRange(v.batteryPercentage as int + val as int)
    ensures GetBatteryPercentage(r) as int == Min(GetBatteryPercentage(v) as int + val as int, FullCharge as int)
    ensures GetBatteryPercentage(r) <= FullCharge
    ensures GetBrand(r) == GetBrand(v)
  {
    var sum := v.batteryPercentage + val;
    v.(batteryPercentage := if sum > FullCharge then FullCharge else sum)
  }

  /** The `Tesla` constructor: the vehicle part exactly as `ElectricalVehicle(b, bat)` builds it, plus the autopilot flag. */
  function NewTesla(b: string, bat: int32, autoP: bool): (t: Tesla)
    ensures t.base == NewElectricalVehicle(b, bat)
    ensures GetBrand(t.base) == b && GetBatteryPercentage(t.base) == bat
    ensures t.autoP == autoP
  {
    Tesla(NewElectricalVehicle(b, bat), autoP)
  }

  // ---------------------------------------------------------------------------
  // Properties of charge
  // ---------------------------------------------------------------------------

  /** Below the cap, `charge` adds exactly `val`, negative or not: there is no lower clamp. */
  lemma ChargeBelowCapAdds(v: ElectricalVehicle, val: int32)
    requires InRange(v.batteryPercentage as int + val as int)
    requires v.batteryPercentage as int + val as int <= FullCharge as int
    ensures Charge(v, val).batteryPercentage as int == v.batteryPercentage as int + val as int
  {
  }

  /** A negative charge drives the battery below zero. */
  lemma ChargeHasNoLowerClamp()
    ensures Charge(ElectricalVehicle("BMW", 10), -30).batteryPercentage == -20
  {
  }

  /** From a level of at most 100, a non-negative charge never lowers the battery. */
  lemma ChargeMonotone(v: ElectricalVehicle, val: int32)
    requires v.batteryPercentage <= FullCharge && val >= 0
    requires InRange(v.batteryPercentage as int + val as int)
    ensures v.batteryPercentage <= Charge(v, val).batteryPercentage
  {
  }

  /** A full battery stays full under any non-negative charge. */
  lemma ChargeFullIsFixedPoint(v: ElectricalVehicle, val: int32)
    requires v.batteryPercentage == FullCharge && val >= 0
    requires InRange(FullCharge as int + val as int)
    ensures Charge(v, val) == v
  {
  }

  /** Charging is idempotent at the cap: once a charge reaches 100, charging again by any non-negative amount changes nothing. */
  lemma ChargeSaturates(v: ElectricalVehicle, val: int32, more: int32)
    requires InRange(v.batteryPercentage as int + val as int)
    requires v.batteryPercentage as int + val as int >= FullCharge as int && more >= 0
    requires InRange(FullCharge as int + more as int)
    ensures Charge(Charge(v, val), more) == Charge(v, val)
  {
  }

  /**
   A charge by any `a` followed by a non-negative charge `b` equals one
   charge by `a + b`, from any level, including levels above 100.
   */
  lemma ChargeComposes(v: ElectricalVehicle, a: int32, b: int32)
    requires b >= 0
    requires InRange(v.batteryPercentage as int + a as int)
    requires InRange(a as int + b as int)
    requires InRange(v.batteryPercentage as int + a as int + b as int)
    ensures InRange(Charge(v, a).batteryPercentage as int + b as int)
    ensures Charge(Charge(v, a), b) == Charge(v, a + b)
  {
  }

  /** The only heap object of `main`: `new Tesla("Tesla", 20, false)` reports brand "Tesla" and battery 20. */
  lemma TeslaScenario()
    ensures GetBrand(NewTesla("Tesla", 20, false).base) == "Tesla"
    ensures GetBatteryPercentage(NewTesla("Tesla", 20, false).base) == 20
    ensures !NewTesla("Tesla", 20, false).autoP
  {
  }
}
