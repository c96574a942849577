/** Capacity scoring (src/compute/capacity.rs, src/compute/status.rs), over the reals. */
module Capacity {
  import opened Wrappers

  datatype DeviceType = Server | Desktop | Laptop | Mobile | Embedded

  datatype Profile = Profile(deviceType: DeviceType, cpuCores: nat, ramTotalMb: nat)

  datatype Thermal = Nominal | Warm | Throttling | Critical

  datatype Status = Status(
    cpuUsage: real, ramUsedMb: nat, ramAvailableMb: nat, thermal: Thermal, latencyMs: Option<nat>)

  datatype Reservation = Reservation(cpuReserved: real, ramReservedMb: nat)

  datatype EffectiveCapacity = EffectiveCapacity(cpuScore: real, ramAvailableMb: nat, composite: real)

  const ZERO_CAPACITY := EffectiveCapacity(0.0, 0, 0.0)

  const UNKNOWN_STATUS := Status(0.0, 0, 0, Nominal, None)

  function PenaltyFactor(t: Thermal): real {
    match t
    case Nominal => 1.0
    case Warm => 0.85
    case Throttling => 0.4
    case Critical => 0.0
  }

  function ForDevice(d: DeviceType): Reservation {
    match d
    case Server => Reservation(0.05, 512)
    case Desktop => Reservation(0.20, 2048)
    case Laptop => Reservation(0.30, 2048)
    case Mobile => Reservation(0.40, 1024)
    case Embedded => Reservation(0.10, 256)
  }

  function MinReal(x: real, y: real): real { if x < y then x else y }

  function MaxReal(x: real, y: real): real { if x < y then y else x }

  function Clamp(x: real, lo: real, hi: real): real { MinReal(MaxReal(x, lo), hi) }

  /** A reservation chosen by the user; the processor share is clamped. */
  function Custom(cpuReserved: real, ramReservedMb: nat): Reservation {
    Reservation(Clamp(cpuReserved, 0.0, 0.95), ramReservedMb)
  }

  function CpuScore(status: Status, reservation: Reservation): real {
    MaxReal(1.0 - reservation.cpuReserved - status.cpuUsage, 0.0)
  }

  function FreeRam(status: Status, reservation: Reservation): nat {
    Max(status.ramAvailableMb - reservation.ramReservedMb, 0)
  }

  function RamScore(profile: Profile, status: Status, reservation: Reservation): real {
    FreeRam(status, reservation) as real / Max(profile.ramTotalMb, 1) as real
  }

  function RawComposite(profile: Profile, status: Status, reservation: Reservation): real {
    Clamp(0.6 * CpuScore(status, reservation) + 0.4 * RamScore(profile, status, reservation), 0.0, 1.0)
  }

  /** What latency leaves of the score: half of it at one second and beyond. */
  function LatencyFactor(latencyMs: Option<nat>): real {
    if latencyMs.None? then 1.0 else 1.0 - MinReal(latencyMs.value as real / 2000.0, 0.5)
  }

  function Compute(profile: Profile, status: Status, reservation: Reservation): EffectiveCapacity {
    EffectiveCapacity(
      CpuScore(status, reservation),
      FreeRam(status, reservation),
      RawComposite(profile, status, reservation) * PenaltyFactor(status.thermal) * LatencyFactor(status.latencyMs))
  }

  // ---------------------------------------------------------------- properties

  lemma ProductMonotone(x: real, x': real, y: real, y': real)
    requires 0.0 <= x <= x' && 0.0 <= y <= y'
    ensures 0.0 <= x * y <= x' * y'
  {
    assert x * y <= x' * y;
    assert x' * y <= x' * y';
  }

  /** Three factors, each no larger than its counterpart. */
  lemma FactorsMonotone(x: real, x': real, y: real, y': real, z: real, z': real)
    requires 0.0 <= x <= x' && 0.0 <= y <= y' && 0.0 <= z <= z'
    ensures 0.0 <= x * y * z <= x' * y' * z'
  {
    ProductMonotone(x, x', y, y');
    ProductMonotone(x * y, x' * y', z, z');
  }

  /** The composite is a fraction, whatever the inputs, even a processor reported busier than full. */
  lemma CompositeIsFraction(profile: Profile, status: Status, reservation: Reservation)
    ensures 0.0 <= Compute(profile, status, reservation).composite <= 1.0
  {
    FactorsMonotone(RawComposite(profile, status, reservation), 1.0, PenaltyFactor(status.thermal), 1.0,
                    LatencyFactor(status.latencyMs), 1.0);
  }

  predicate CoolerOrEqual(t: Thermal, t': Thermal) {
    match t
    case Nominal => true
    case Warm => !t'.Nominal?
    case Throttling => t'.Throttling? || t'.Critical?
    case Critical => t'.Critical?
  }

  function Latency(s: Status): nat { if s.latencyMs.None? then 0 else s.latencyMs.value }

  /** The first status is at least as favourable in every respect: idler, freer, cooler and nearer. */
  predicate AtLeastAsFavourable(s: Status, s': Status) {
    && s.cpuUsage <= s'.cpuUsage
    && s.ramAvailableMb >= s'.ramAvailableMb
    && CoolerOrEqual(s.thermal, s'.thermal)
    && Latency(s) <= Latency(s')
  }

  predicate ReservesNoMore(r: Reservation, r': Reservation) {
    r.cpuReserved <= r'.cpuReserved && r.ramReservedMb <= r'.ramReservedMb
  }

  lemma QuotientMonotone(x: real, x': real, d: real)
    requires x <= x' && d > 0.0
    ensures x / d <= x' / d
  {
  }

  lemma RawMonotone(profile: Profile, s: Status, s': Status, r: Reservation, r': Reservation)
    requires AtLeastAsFavourable(s, s') && ReservesNoMore(r, r')
    ensures RawComposite(profile, s', r') <= RawComposite(profile, s, r)
  {
    QuotientMonotone(FreeRam(s', r') as real, FreeRam(s, r) as real, Max(profile.ramTotalMb, 1) as real);
  }

  lemma LatencyMonotone(s: Status, s': Status)
    requires Latency(s) <= Latency(s')
    ensures 0.5 <= LatencyFactor(s'.latencyMs) <= LatencyFactor(s.latencyMs) <= 1.0
  {
    QuotientMonotone(Latency(s) as real, Latency(s') as real, 2000.0);
  }

  /** The score as a product of three factors. */
  lemma Factors(profile: Profile, s: Status, r: Reservation, score: real) returns (raw: real, heat: real, near: real)
    requires score == Compute(profile, s, r).composite
    ensures score == raw * heat * near
    ensures raw == RawComposite(profile, s, r) && heat == PenaltyFactor(s.thermal) && near == LatencyFactor(s.latencyMs)
  {
    raw, heat, near := RawComposite(profile, s, r), PenaltyFactor(s.thermal), LatencyFactor(s.latencyMs);
  }

  lemma OrderedFactors(
    profile: Profile, s: Status, s': Status, r: Reservation, r': Reservation, score: real, score': real)
    returns (raw: real, raw': real, heat: real, heat': real, near: real, near': real)
    requires AtLeastAsFavourable(s, s') && ReservesNoMore(r, r')
    requires score == Compute(profile, s, r).composite && score' == Compute(profile, s', r').composite
    ensures score == raw * heat * near && score' == raw' * heat' * near'
    ensures 0.0 <= raw' <= raw && 0.0 <= heat' <= heat && 0.0 <= near' <= near
  {
    raw, heat, near := Factors(profile, s, r, score);
    raw', heat', near' := Factors(profile, s', r', score');
    RawMonotone(profile, s, s', r, r');
    LatencyMonotone(s, s');
  }

  /** The score never rises with processor use, latency, heat or reservations, and never falls with free memory. */
  lemma CompositeMonotone(profile: Profile, s: Status, s': Status, r: Reservation, r': Reservation)
    requires AtLeastAsFavourable(s, s') && ReservesNoMore(r, r')
    ensures Compute(profile, s, r).composite >= Compute(profile, s', r').composite
  {
    var (score, score') := (Compute(profile, s, r).composite, Compute(profile, s', r').composite);
    var raw, raw', heat, heat', near, near' := OrderedFactors(profile, s, s', r, r', score, score');
    ScoresByFactors(score', score, raw', raw, heat', heat, near', near);
  }

  lemma ScoresByFactors(c: real, c': real, x: real, x': real, y: real, y': real, z: real, z': real)
    requires c == x * y * z && c' == x' * y' * z'
    requires 0.0 <= x <= x' && 0.0 <= y <= y' && 0.0 <= z <= z'
    ensures c <= c'
  {
    FactorsMonotone(x, x', y, y', z, z');
  }

  // ---------------------------------------------------------------- what each input costs

  lemma ProductRegroups(raw: real, heat: real, near: real)
    ensures raw * heat * near == heat * (raw * 1.0 * near) && raw * heat * near == near * (raw * heat * 1.0)
  {
  }

  /** Of the score when cool, a warm device keeps 85%, a throttling one 40% and a critical one nothing. */
  lemma HeatCosts(profile: Profile, status: Status, r: Reservation)
    ensures var (score, cool) :=
              (Compute(profile, status, r).composite, Compute(profile, status.(thermal := Nominal), r).composite);
            && (status.thermal.Warm? ==> score == 0.85 * cool)
            && (status.thermal.Throttling? ==> score == 0.4 * cool)
            && (status.thermal.Critical? ==> score == 0.0)
  {
    ProductRegroups(RawComposite(profile, status, r), PenaltyFactor(status.thermal), LatencyFactor(status.latencyMs));
  }

  /** Every millisecond of latency, up to a second, costs a two-thousandth of the score: a second halves it. */
  lemma LatencyCosts(profile: Profile, status: Status, r: Reservation, ms: nat)
    requires status.latencyMs == Some(ms)
    ensures var (score, near) :=
              (Compute(profile, status, r).composite, Compute(profile, status.(latencyMs := None), r).composite);
            && (ms >= 1000 ==> score == near / 2.0)
            && (ms < 1000 ==> score == near - near * ms as real / 2000.0)
  {
    var (raw, heat) := (RawComposite(profile, status, r), PenaltyFactor(status.thermal));
    ProductRegroups(raw, heat, LatencyFactor(status.latencyMs));
    LatencyFactorAt(ms);
    LatencyShare(raw * heat * 1.0, ms as real);
  }

  lemma LatencyFactorAt(ms: nat)
    ensures LatencyFactor(Some(ms)) == if ms >= 1000 then 0.5 else 1.0 - ms as real / 2000.0
  {
    if ms >= 1000 {
      QuotientMonotone(1000.0, ms as real, 2000.0);
    } else {
      QuotientMonotone(ms as real, 1000.0, 2000.0);
    }
  }

  lemma LatencyShare(score: real, ms: real)
    ensures (1.0 - ms / 2000.0) * score == score - score * ms / 2000.0
  {
  }

  /** Without a reservation, an idle processor alone is worth 0.6 and free memory alone 0.4, each in proportion. */
  lemma WorthOfEach(profile: Profile, status: Status)
    requires Plausible(profile, status) && status.cpuUsage <= 1.0
    requires status.thermal.Nominal? && status.latencyMs.None?
    ensures status.ramAvailableMb == 0 ==>
              Compute(profile, status, Reservation(0.0, 0)).composite == 0.6 - 0.6 * status.cpuUsage
    ensures status.cpuUsage == 1.0 ==>
              Compute(profile, status, Reservation(0.0, 0)).composite
              == 0.4 * (status.ramAvailableMb as real / Max(profile.ramTotalMb, 1) as real)
  {
    var total := Max(profile.ramTotalMb, 1) as real;
    RamScoreAtMostOne(profile, status, Reservation(0.0, 0));
    QuotientMonotone(0.0, status.ramAvailableMb as real, total);
    assert 0.0 / total == 0.0;
  }

  lemma RamScoreAtMostOne(profile: Profile, status: Status, reservation: Reservation)
    requires status.ramAvailableMb <= Max(profile.ramTotalMb, 1)
    ensures RamScore(profile, status, reservation) <= 1.0
  {
    var total := Max(profile.ramTotalMb, 1) as real;
    QuotientMonotone(FreeRam(status, reservation) as real, total, total);
    SelfQuotient(total);
  }

  lemma SelfQuotient(d: real)
    requires d > 0.0
    ensures d / d == 1.0
  {
  }

  /** The user's headroom: score and offered memory stay within what the reservation leaves. */
  lemma ReservationCapsScore(profile: Profile, status: Status, reservation: Reservation)
    requires 0.0 <= status.cpuUsage && reservation.cpuReserved <= 1.0
    requires status.ramAvailableMb <= Max(profile.ramTotalMb, 1)
    ensures Compute(profile, status, reservation).cpuScore <= 1.0 - reservation.cpuReserved
    ensures Compute(profile, status, reservation).composite <= 1.0 - 0.6 * reservation.cpuReserved
    ensures var offered := Compute(profile, status, reservation).ramAvailableMb;
            offered == Max(status.ramAvailableMb - reservation.ramReservedMb, 0)
  {
    RamScoreAtMostOne(profile, status, reservation);
    var score := Compute(profile, status, reservation).composite;
    var raw, heat, near := Factors(profile, status, reservation, score);
    ScoresByFactors(score, raw, raw, raw, heat, 1.0, near, 1.0);
    assert raw <= 0.6 * CpuScore(status, reservation) + 0.4 * RamScore(profile, status, reservation);
  }

  // ---------------------------------------------------------------- the ceiling

  /** What a sensor can report: no negative processor use, and no more free memory than there is. */
  predicate Plausible(profile: Profile, status: Status) {
    0.0 <= status.cpuUsage && status.ramAvailableMb <= Max(profile.ramTotalMb, 1)
  }

  /** No plausible status takes the composite above the processor share that is not reserved. */
  ghost predicate CeilingHolds(profile: Profile, r: Reservation) {
    forall status :: Plausible(profile, status) ==> Compute(profile, status, r).composite <= 1.0 - r.cpuReserved
  }

  /** The most favourable plausible status. */
  function Idle(profile: Profile): Status {
    Status(0.0, 0, Max(profile.ramTotalMb, 1), Nominal, None)
  }

  /** An idle node's memory score is at most the unreserved share exactly when that share of memory is reserved. */
  lemma IdleRamScore(profile: Profile, r: Reservation)
    requires 0.0 <= r.cpuReserved <= 1.0
    ensures RamScore(profile, Idle(profile), r) <= 1.0
    ensures RamScore(profile, Idle(profile), r) <= 1.0 - r.cpuReserved
       <==> r.cpuReserved * Max(profile.ramTotalMb, 1) as real <= r.ramReservedMb as real
  {
    var total := Max(profile.ramTotalMb, 1) as real;
    var free := FreeRam(Idle(profile), r) as real;
    RamScoreAtMostOne(profile, Idle(profile), r);
    QuotientAtMost(free, total, 1.0 - r.cpuReserved);
    assert (1.0 - r.cpuReserved) * total == total - r.cpuReserved * total;
    ScaleDown(r.cpuReserved, total);
  }

  lemma QuotientAtMost(x: real, d: real, bound: real)
    requires d > 0.0
    ensures x / d <= bound <==> x <= bound * d
  {
    if x <= bound * d {
      QuotientMonotone(x, bound * d, d);
      assert bound * d / d == bound;
    } else {
      assert x == x / d * d;
    }
  }

  lemma ScaleDown(share: real, amount: real)
    requires 0.0 <= share <= 1.0 && amount >= 0.0
    ensures 0.0 <= share * amount <= amount
  {
    assert share * amount <= 1.0 * amount;
  }

  lemma IdleIsMostFavourable(profile: Profile, status: Status)
    requires Plausible(profile, status)
    ensures AtLeastAsFavourable(Idle(profile), status)
  {
  }

  /**
   The composite never exceeds the unreserved processor share, for any plausible status, if and only if at
   least the same share of the memory is reserved as of the processor.
   */
  lemma CeilingNeedsMemory(profile: Profile, r: Reservation)
    requires 0.0 <= r.cpuReserved <= 1.0
    ensures CeilingHolds(profile, r)
       <==> r.cpuReserved * Max(profile.ramTotalMb, 1) as real <= r.ramReservedMb as real
  {
    IdleRamScore(profile, r);
    var score := Compute(profile, Idle(profile), r).composite;
    assert score <= 1.0 - r.cpuReserved <==> RamScore(profile, Idle(profile), r) <= 1.0 - r.cpuReserved;
    forall status | Plausible(profile, status)
      ensures Compute(profile, status, r).composite <= score
    {
      IdleIsMostFavourable(profile, status);
      CompositeMonotone(profile, Idle(profile), status, r, r);
    }
    assert Plausible(profile, Idle(profile));
  }

  /** The highest processor score of a device type, and the memory in MiB up to which its ceiling holds. */
  function Headroom(d: DeviceType): (real, nat) {
    match d
    case Server => (0.95, 10240)
    case Desktop => (0.80, 10240)
    case Laptop => (0.70, 6826)
    case Mobile => (0.60, 2560)
    case Embedded => (0.90, 2560)
  }

  /**
   For each type of device: the processor score it reaches when idle and never exceeds, and up to how much memory
   that is also a ceiling for the composite, under every plausible status.
   */
  lemma DeviceHeadroom(profile: Profile)
    ensures var (r, (best, limit)) := (ForDevice(profile.deviceType), Headroom(profile.deviceType));
            && (forall status: Status :: 0.0 <= status.cpuUsage ==> Compute(profile, status, r).cpuScore <= best)
            && Compute(profile, Idle(profile), r).cpuScore == best
            && (CeilingHolds(profile, r) <==> profile.ramTotalMb <= limit)
  {
    CeilingNeedsMemory(profile, ForDevice(profile.deviceType));
  }

  /**
   A Desktop's processor score never exceeds 0.80, the documented ceiling; its composite stays below it, for
   every plausible status, if and only if the Desktop has at most 10 GiB of memory.
   */
  lemma DesktopHeadroom(profile: Profile)
    requires profile.deviceType == Desktop
    ensures forall status: Status :: 0.0 <= status.cpuUsage ==>
              Compute(profile, status, ForDevice(profile.deviceType)).cpuScore <= 0.80
    ensures CeilingHolds(profile, ForDevice(profile.deviceType)) <==> profile.ramTotalMb <= 10240
  {
    CeilingNeedsMemory(profile, ForDevice(Desktop));
  }

  /** An idle Desktop with 200 GiB of free memory is above the documented ceiling. */
  lemma DesktopAboveCeiling()
    ensures Compute(Profile(Desktop, 8, 204800), Status(0.0, 0, 204800, Nominal, None), ForDevice(Desktop)).composite
         == 0.876
  {
    assert RamScore(Profile(Desktop, 8, 204800), Status(0.0, 0, 204800, Nominal, None), ForDevice(Desktop)) == 0.99;
  }

  /** A custom reservation is never more than 95% of the processor, and keeps its ceiling on the same terms. */
  lemma CustomHeadroom(profile: Profile, cpuReserved: real, ramReservedMb: nat)
    ensures var r := Custom(cpuReserved, ramReservedMb);
            && 0.0 <= r.cpuReserved <= 0.95
            && (0.0 <= cpuReserved <= 0.95 ==> r.cpuReserved == cpuReserved)
            && (CeilingHolds(profile, r)
                <==> r.cpuReserved * Max(profile.ramTotalMb, 1) as real <= ramReservedMb as real)
  {
    CeilingNeedsMemory(profile, Custom(cpuReserved, ramReservedMb));
  }
}
