/**
  Device classes by viewport width: a descending chain of thresholds, the
  first one the width reaches deciding the class.
*/
module Device {
  import opened Wrappers
  import Win

  /** `Device`, largest screens first. */
  datatype Device = Laptop4K | LaptopL | LaptopS | Tablet | MobileL | MobileM | MobileS

  /** A class's position in declaration order. */
  function Rank(d: Device): nat {
    match d
    case Laptop4K => 0
    case LaptopL => 1
    case LaptopS => 2
    case Tablet => 3
    case MobileL => 4
    case MobileM => 5
    case MobileS => 6
  }

  /** The widths at which each class from `Laptop4K` to `MobileM` begins. */
  const Thresholds: seq<real> := [2560.0, 1440.0, 1024.0, 768.0, 425.0, 375.0]

  /** The guarded match inside `use_device`: one half-open band per class. */
  function Classify(w: real): (d: Device)
    ensures d == Laptop4K <==> w >= 2560.0
    ensures d == LaptopL <==> 1440.0 <= w < 2560.0
    ensures d == LaptopS <==> 1024.0 <= w < 1440.0
    ensures d == Tablet <==> 768.0 <= w < 1024.0
    ensures d == MobileL <==> 425.0 <= w < 768.0
    ensures d == MobileM <==> 375.0 <= w < 425.0
    ensures d == MobileS <==> w < 375.0
  {
    if w >= 2560.0 then Laptop4K
    else if w >= 1440.0 then LaptopL
    else if w >= 1024.0 then LaptopS
    else if w >= 768.0 then Tablet
    else if w >= 425.0 then MobileL
    else if w >= 375.0 then MobileM
    else MobileS
  }

  /** How many of `ts` lie above `w`. */
  function Above(w: real, ts: seq<real>): (n: nat)
    ensures n <= |ts|
  {
    if ts == [] then 0 else (if ts[0] > w then 1 else 0) + Above(w, ts[1..])
  }

  /** Over a descending list, the thresholds above `w` form a prefix: those
      before position `Above(w, ts)` lie above it, the rest do not. */
  lemma {:induction false} AbovePrefix(w: real, ts: seq<real>)
    requires forall i, j :: 0 <= i < j < |ts| ==> ts[i] > ts[j]
    ensures forall i :: 0 <= i < |ts| ==> (ts[i] > w <==> i < Above(w, ts))
  {
    if ts != [] {
      AbovePrefix(w, ts[1..]);
      if ts[0] <= w && |ts| > 1 {
        assert ts[1..][0] == ts[1] < ts[0];
      }
    }
  }

  /** The class of a width is the one whose rank counts the thresholds above it. */
  lemma ClassifyCountsThresholds(w: real)
    ensures Rank(Classify(w)) == Above(w, Thresholds)
  {
    var ts := Thresholds;
    assert forall i, j :: 0 <= i < j < |ts| ==> ts[i] > ts[j];
    AbovePrefix(w, ts);
    assert ts[0] == 2560.0 && ts[1] == 1440.0 && ts[2] == 1024.0;
    assert ts[3] == 768.0 && ts[4] == 425.0 && ts[5] == 375.0;
  }

  /** A wider viewport never gets a class later in declaration order. */
  lemma ClassifyMonotone(v: real, w: real)
    requires v <= w
    ensures Rank(Classify(w)) <= Rank(Classify(v))
  {
  }

  /** `use_device` for one reading of the inner-width signal: no width yet gives
      `None`, a failed reading passes its error through, a width is classified. */
  function UseDevice(innerW: Option<Result<real, Win.Error>>): (r: Option<Result<Device, Win.Error>>)
    ensures innerW.None? <==> r.None?
    ensures innerW.Some? && innerW.value.Err? ==> r == Some(Err(innerW.value.error))
    ensures innerW.Some? && innerW.value.Ok? ==> r == Some(Ok(Classify(innerW.value.value)))
  {
    match innerW
    case None => None
    case Some(Err(e)) => Some(Err(e))
    case Some(Ok(w)) => Some(Ok(Classify(w)))
  }
}
