/** The records a parser hands over and the machines `normalize` turns them into. */
module Inventory {
  import opened Options

  /** The numeric cells of a record, already coerced to canonical units. */
  datatype Hardware = Hardware(
    cpu: nat, memoryGib: real, disksGib: seq<real>, cpuUtilPct: Option<real>, memUtilPct: Option<real>)

  datatype Record = Record(
    name: Option<string>, uuid: Option<string>, os: Option<string>, ips: seq<string>, hardware: Hardware)

  datatype NormalizedVM = NormalizedVM(
    vmName: string, sourceUuid: Option<string>, os: Option<string>, ipAddresses: seq<string>, hardware: Hardware)
  {
    function TotalDiskGib(): real {
      RoundCents(Total(hardware.disksGib))
    }
  }

  function Total(xs: seq<real>): real {
    if xs == [] then 0.0 else xs[0] + Total(xs[1..])
  }

  /** `round(x, 2)`: halves go to the even neighbour. */
  function RoundCents(x: real): real {
    var cents := (x * 100.0).Floor;
    var rest := x * 100.0 - cents as real;
    (if rest > 0.5 || (rest == 0.5 && cents % 2 == 1) then cents + 1 else cents) as real / 100.0
  }


  /** c hundredths, no further from x than half of one, and even if exactly half away. */
  ghost predicate NearestCents(c: int, x: real) {
    && -0.5 <= x * 100.0 - c as real <= 0.5
    && (x * 100.0 - c as real == 0.5 || x * 100.0 - c as real == -0.5 ==> c % 2 == 0)
  }

  lemma RoundsToNearest(x: real) returns (c: int)
    ensures RoundCents(x) == c as real / 100.0 && NearestCents(c, x)
  {
    var cents := (x * 100.0).Floor;
    var rest := x * 100.0 - cents as real;
    c := if rest > 0.5 || (rest == 0.5 && cents % 2 == 1) then cents + 1 else cents;
  }
}
