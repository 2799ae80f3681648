/**
 * One row of the yearly per-state crime table loaded from the CSV.
 * Every numeric cell may be missing (NaN), which pandas' `sum` skips.
 */
module Records {
  import opened Wrappers

  /** The crime-count columns (`crime_columns`). */
  datatype Crime =
    | ViolentCrime | Homicide | RapeLegacy | RapeRevised | Robbery
    | AggravatedAssault | PropertyCrime | Burglary | Larceny | MotorVehicleTheft

  datatype CrimeRecord = CrimeRecord(
    year: int,
    stateAbbr: Option<string>,   // null on aggregate rows such as the national total
    stateName: Option<string>,
    population: Option<int>,
    violentCrime: Option<int>,
    homicide: Option<int>,
    rapeLegacy: Option<int>,
    rapeRevised: Option<int>,
    robbery: Option<int>,
    aggravatedAssault: Option<int>,
    propertyCrime: Option<int>,
    burglary: Option<int>,
    larceny: Option<int>,
    motorVehicleTheft: Option<int>)
  {
    /** The cell `row[c]` of one crime-count column. */
    function Count(c: Crime): Option<int> {
      match c
      case ViolentCrime => violentCrime
      case Homicide => homicide
      case RapeLegacy => rapeLegacy
      case RapeRevised => rapeRevised
      case Robbery => robbery
      case AggravatedAssault => aggravatedAssault
      case PropertyCrime => propertyCrime
      case Burglary => burglary
      case Larceny => larceny
      case MotorVehicleTheft => motorVehicleTheft
    }
  }
}
