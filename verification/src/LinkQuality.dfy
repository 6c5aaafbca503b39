/** Link-quality bookkeeping (src/esb/esb_transport.c): a shift register of retried sends
  * with a cached popcount, a smoothed attempt count, and what is derived from them. */
module LinkQuality {
  import opened Modulo

  // ---- The window as a number and as a history ----

  function Pow2(n: nat): (p: nat)
    ensures p >= 1
  {
    if n == 0 then 1 else 2 * Pow2(n - 1)
  }

  function Bit(b: bool): nat {
    if b then 1 else 0
  }

  /** The register holding these events, the latest in the lowest bit. */
  function Value(bits: seq<bool>): nat {
    if bits == [] then 0 else 2 * Value(bits[..|bits| - 1]) + Bit(bits[|bits| - 1])
  }

  /** How many of these events were retried or failed. */
  function Ones(bits: seq<bool>): (n: nat)
    ensures n <= |bits|
  {
    if bits == [] then 0 else Ones(bits[..|bits| - 1]) + Bit(bits[|bits| - 1])
  }

  function Popcount(w: nat): nat {
    if w == 0 then 0 else w % 2 + Popcount(w / 2)
  }

  /** The last `size` events; before that many have happened, the register reads as if
    * clean ones had. */
  function Recent(history: seq<bool>, size: nat): (bits: seq<bool>)
    ensures |bits| == size
  {
    if |history| >= size then history[|history| - size..]
    else seq(size - |history|, _ => false) + history
  }

  lemma {:induction false} ValueBelow(bits: seq<bool>)
    ensures Value(bits) < Pow2(|bits|)
  {
    if bits != [] {
      ValueBelow(bits[..|bits| - 1]);
    }
  }

  /** A register is its early events, shifted, and its late ones. */
  lemma {:induction false} ValueConcat(early: seq<bool>, late: seq<bool>)
    ensures Value(early + late) == Value(early) * Pow2(|late|) + Value(late)
    decreases |late|
  {
    if late == [] {
      assert early + late == early;
    } else {
      var front, all := late[..|late| - 1], early + late;
      ValueConcat(early, front);
      assert all[..|all| - 1] == early + front;
      Doubled(Value(early), Pow2(|front|));
    }
  }

  lemma Doubled(x: nat, p: nat)
    ensures x * (2 * p) == 2 * (x * p)
  {
  }

  /** The first event of the register is its top bit. */
  lemma ValueSplit(bits: seq<bool>)
    requires bits != []
    ensures Value(bits) == (if bits[0] then Pow2(|bits| - 1) else 0) + Value(bits[1..])
  {
    hide Value, Pow2;
    assert bits == [bits[0]] + bits[1..];
    ValueConcat([bits[0]], bits[1..]);
    ValueOfOne(bits[0]);
    if bits[0] {
      assert 1 * Pow2(|bits| - 1) == Pow2(|bits| - 1);
    }
  }

  lemma ValueOfOne(b: bool)
    ensures Value([b]) == Bit(b)
  {
    assert Value([b][..0]) == 0;
  }

  lemma {:induction false} OnesSplit(bits: seq<bool>)
    requires bits != []
    ensures Ones(bits) == Bit(bits[0]) + Ones(bits[1..])
  {
    if |bits| > 1 {
      var front := bits[..|bits| - 1];
      OnesSplit(front);
      assert front[1..] == bits[1..][..|bits| - 2];
    } else {
      assert bits[..0] == [] && bits[1..] == [];
      assert Ones(bits[..0]) == 0 && Ones(bits[1..]) == 0;
    }
  }

  lemma {:induction false} PopcountIsOnes(bits: seq<bool>)
    ensures Popcount(Value(bits)) == Ones(bits)
  {
    if bits != [] {
      var front, b := bits[..|bits| - 1], Bit(bits[|bits| - 1]);
      PopcountIsOnes(front);
      DivModUnique(Value(bits), Value(front), b, 2);
    }
  }

  lemma RecentPush(history: seq<bool>, size: nat, b: bool)
    requires size > 0
    ensures Recent(history + [b], size) == Recent(history, size)[1..] + [b]
  {
    var before, after := Recent(history, size), Recent(history + [b], size);
    forall i | 0 <= i < size ensures after[i] == (before[1..] + [b])[i] {
      RecentAt(history, size, i);
      RecentAt(history + [b], size, i);
      if i < size - 1 {
        RecentAt(history, size, i + 1);
      }
    }
  }

  /** Entry i of the register is the event `size - i` places before now, or clean. */
  lemma RecentAt(history: seq<bool>, size: nat, i: nat)
    requires i < size
    ensures var at := |history| - size + i;
      Recent(history, size)[i] == if at >= 0 then history[at] else false
  {
  }

  /** Shifting the register by one event: the top bit falls out, the popcount follows. */
  lemma Shifted(bits: seq<bool>, b: bool)
    requires bits != []
    ensures (2 * Value(bits) + Bit(b)) % Pow2(|bits|) == Value(bits[1..] + [b])
    ensures Value(bits) / Pow2(|bits| - 1) == Bit(bits[0])
    ensures Ones(bits[1..] + [b]) == Ones(bits) - Bit(bits[0]) + Bit(b)
  {
    hide Pow2, Value, Ones;
    var rest := bits[1..];
    ValueSplit(bits);
    OnesSplit(bits);
    ValueBelow(rest);
    Pushed(rest, b);
    ShiftedOut(Value(bits), bits[0], Value(rest), Pow2(|rest|), Bit(b), Pow2(|bits|));
  }

  lemma Pushed(bits: seq<bool>, b: bool)
    ensures Value(bits + [b]) == 2 * Value(bits) + Bit(b) && Ones(bits + [b]) == Ones(bits) + Bit(b)
    ensures Pow2(|bits| + 1) == 2 * Pow2(|bits|)
  {
    assert (bits + [b])[..|bits|] == bits;
  }

  lemma ShiftedOut(v: nat, top: bool, low: nat, half: nat, bit: nat, size: nat)
    requires low < half && bit <= 1 && size == 2 * half && v == (if top then half else 0) + low
    ensures (2 * v + bit) % size == 2 * low + bit && v / half == Bit(top)
  {
    DivModUnique(v, Bit(top), low, half);
    DivModUnique(2 * v + bit, Bit(top), 2 * low + bit, size);
  }

  /** The low k bits of the register are its last k events. */
  lemma LowBits(bits: seq<bool>, k: nat)
    requires k <= |bits|
    ensures Value(bits) % Pow2(k) == Value(bits[|bits| - k..])
  {
    hide Value, Pow2;
    var early, late := bits[..|bits| - k], bits[|bits| - k..];
    assert bits == early + late;
    ValueConcat(early, late);
    ValueBelow(late);
    DivModUnique(Value(bits), Value(early), Value(late), Pow2(k));
  }

  // ---- Smoothed attempts ----

  /** One step of the floor EWMA, in tenths of an attempt. */
  function Smoothed(ewma: nat, attempts: nat): nat {
    (7 * ewma + 10 * attempts) / 8
  }

  function SmoothedOver(ewma: nat, attempts: seq<nat>): nat {
    if attempts == [] then ewma else Smoothed(SmoothedOver(ewma, attempts[..|attempts| - 1]), attempts[|attempts| - 1])
  }

  lemma SmoothedPush(ewma: nat, attempts: seq<nat>, a: nat)
    ensures SmoothedOver(ewma, attempts + [a]) == Smoothed(SmoothedOver(ewma, attempts), a)
  {
    assert (attempts + [a])[..|attempts|] == attempts;
  }

  /** With at most 16 attempts a send, the average stays between 1 and 16 attempts. */
  lemma {:induction false} SmoothedInRange(ewma: nat, attempts: seq<nat>)
    requires 10 <= ewma <= 160 && forall i :: 0 <= i < |attempts| ==> 1 <= attempts[i] <= 16
    ensures 10 <= SmoothedOver(ewma, attempts) <= 160
  {
    if attempts != [] {
      SmoothedInRange(ewma, attempts[..|attempts| - 1]);
    }
  }

  ghost predicate InBand(ewma: nat, a: nat) {
    10 * a - 7 <= ewma <= 10 * a
  }

  /** A constant attempt count: every value in the band is a fixed point, and outside it
    * each step gets strictly closer without overshooting. */
  lemma SmoothedStep(ewma: nat, a: nat)
    ensures InBand(ewma, a) <==> Smoothed(ewma, a) == ewma
    ensures ewma < 10 * a - 7 ==> ewma < Smoothed(ewma, a) <= 10 * a
    ensures ewma > 10 * a ==> 10 * a <= Smoothed(ewma, a) < ewma
  {
  }

  function Repeat(a: nat, n: nat): seq<nat> {
    seq(n, _ => a)
  }

  function Off(ewma: nat, a: nat): nat {
    if ewma < 10 * a then 10 * a - ewma else ewma - 10 * a
  }

  /** After as many steps as it was tenths away, the average is in the band for good. */
  lemma {:induction false} SmoothedSettles(ewma: nat, a: nat, n: nat)
    ensures InBand(SmoothedOver(ewma, Repeat(a, n)), a) || Off(SmoothedOver(ewma, Repeat(a, n)), a) + n <= Off(ewma, a)
    ensures n >= Off(ewma, a) ==> InBand(SmoothedOver(ewma, Repeat(a, n)), a)
  {
    if n > 0 {
      SmoothedSettles(ewma, a, n - 1);
      assert Repeat(a, n)[..n - 1] == Repeat(a, n - 1);
      SmoothedStep(SmoothedOver(ewma, Repeat(a, n - 1)), a);
    }
  }

  // ---- The adaptive retransmit count ----

  datatype Config = Config(window: nat, threshold: nat, rearm: nat, fast: nat,
                           ewmaLow: nat, ewmaHigh: nat, countMin: nat, countMax: nat)

  ghost predicate Sane(cfg: Config) {
    8 <= cfg.window <= 32 && cfg.countMin <= cfg.countMax
  }

  /** The part x / span of a range, rounded down. */
  function Part(x: nat, range: nat, span: nat): (p: nat)
    requires span > 0
  {
    MulNonNegative(x, range);
    QuotientMonotone(0, x * range, span);
    x * range / span
  }

  lemma PartMonotone(x: nat, y: nat, range: nat, span: nat)
    requires x <= y <= span && span > 0
    ensures Part(x, range, span) <= Part(y, range, span) <= range
  {
    MulNonNegative(y - x, range);
    MulNonNegative(span - y, range);
    MulDistributes(y, x, range);
    MulDistributes(span, y, range);
    MulNonNegative(x, range);
    QuotientMonotone(x * range, y * range, span);
    assert span * range == range * span;
    QuotientMonotone(y * range, range * span, span);
    DivModUnique(range * span, range, 0, span);
  }

  /** `adaptive_retry_target` */
  function Target(cfg: Config, ewma: nat): (target: nat)
    requires cfg.countMin <= cfg.countMax
  {
    if ewma <= cfg.ewmaLow then cfg.countMin
    else if ewma >= cfg.ewmaHigh then cfg.countMax
    else cfg.countMin + Part(ewma - cfg.ewmaLow, cfg.countMax - cfg.countMin, cfg.ewmaHigh - cfg.ewmaLow)
  }

  /** The target stays in its range and never drops when the average rises. */
  lemma TargetMonotone(cfg: Config, e: nat, f: nat)
    requires cfg.countMin <= cfg.countMax && e <= f
    ensures cfg.countMin <= Target(cfg, e) <= Target(cfg, f) <= cfg.countMax
  {
    hide Part;
    var span, range := cfg.ewmaHigh - cfg.ewmaLow, cfg.countMax - cfg.countMin;
    if cfg.ewmaLow < f < cfg.ewmaHigh {
      PartMonotone(f - cfg.ewmaLow, span, range, span);
    }
    if cfg.ewmaLow < e < cfg.ewmaHigh {
      PartMonotone(e - cfg.ewmaLow, if f < cfg.ewmaHigh then f - cfg.ewmaLow else span, range, span);
    }
  }

  /** The target is the two ends outside the interpolation range, and inside it the count that
    * divides the range of counts as the average divides its own, rounded down. */
  lemma TargetExactly(cfg: Config, e: nat)
    requires cfg.countMin <= cfg.countMax
    ensures e <= cfg.ewmaLow ==> Target(cfg, e) == cfg.countMin
    ensures cfg.ewmaLow < e && cfg.ewmaHigh <= e ==> Target(cfg, e) == cfg.countMax
    ensures cfg.ewmaLow < e < cfg.ewmaHigh ==>
      var above, span := Target(cfg, e) - cfg.countMin, cfg.ewmaHigh - cfg.ewmaLow;
      above * span <= (e - cfg.ewmaLow) * (cfg.countMax - cfg.countMin) < (above + 1) * span
  {
    if cfg.ewmaLow < e < cfg.ewmaHigh {
      var x, range, span := e - cfg.ewmaLow, cfg.countMax - cfg.countMin, cfg.ewmaHigh - cfg.ewmaLow;
      var p := Part(x, range, span);
      DivModDecompose(x * range, span);
      MulDistributes(p + 1, p, span);
      assert (p + 1) * span == p * span + span;
    }
  }

  lemma QuotientMonotone(a: nat, b: nat, n: nat)
    requires a <= b && n > 0
    ensures 0 <= a / n <= b / n
  {
    DivModDecompose(a, n);
    DivModDecompose(b, n);
    var p, q := a / n, b / n;
    MulDistributes(p, q, n);
    if p > q {
      MulAtLeast(p - q, n);
    }
  }

  // ---- The state ----

  class Scoreboard {
    const cfg: Config
    var window: nat
    var count: nat
    var ewma: nat
    var armed: bool

    // counted events since the last hop, oldest first, and delivered attempts
    ghost var history: seq<bool>
    ghost var delivered: seq<nat>

    ghost predicate Valid()
      reads this
    {
      && Sane(cfg)
      && window == Value(Recent(history, cfg.window)) && count == Ones(Recent(history, cfg.window))
      && ewma == SmoothedOver(10, delivered)
    }

    constructor (cfg: Config)
      requires Sane(cfg)
      ensures Valid() && history == [] && delivered == [] && !armed && this.cfg == cfg
    {
      this.cfg, window, count, ewma, armed := cfg, 0, 0, 10, false;
      history, delivered := [], [];
      new;
      CleanStart(cfg.window);
    }

    /** The part of `esb_transport_set_channel` that wipes link history. */
    method Wipe()
      requires Valid()
      modifies this
      ensures Valid() && history == [] && delivered == [] && !armed
    {
      window, count, ewma, armed := 0, 0, 10, false;
      history, delivered := [], [];
      CleanStart(cfg.window);
    }

    /** `link_quality_shift_window` */
    method ShiftWindow(retry: bool)
      requires Valid()
      modifies this`window, this`count, this`history
      ensures Valid() && history == old(history) + [retry]
      ensures count == Popcount(window)
    {
      ghost var bits := Recent(history, cfg.window);
      Shifted(bits, retry);
      RecentPush(history, cfg.window, retry);
      ValueBelow(bits);
      var dropped := window / Pow2(cfg.window - 1) != 0;
      window := (2 * window + Bit(retry)) % Pow2(cfg.window);
      if retry && !dropped {
        count := count + 1;
      } else if !retry && dropped {
        count := count - 1;
      }
      history := history + [retry];
      PopcountIsOnes(Recent(history, cfg.window));
    }

    /** The link-quality part of the TX_SUCCESS event. `fire` asks for a cooperative hop: at
      * least `threshold` of the last `window` counted sends were retried, or `fast` of the
      * last eight, and the trigger had been re-armed. */
    method OnSuccess(attempts: nat, wasNoack: bool) returns (fire: bool)
      requires Valid()
      modifies this
      ensures Valid()
      ensures wasNoack ==> history == old(history) && delivered == old(delivered) && armed == old(armed) && !fire
      ensures !wasNoack ==> history == old(history) + [attempts > 1] && delivered == old(delivered) + [attempts]
      ensures fire == (!wasNoack && !old(armed)
        && (Ones(Recent(history, cfg.window)) >= cfg.threshold || Ones(Recent(history, 8)) >= cfg.fast))
      ensures !wasNoack ==> armed == if old(armed) then Ones(Recent(history, cfg.window)) > cfg.rearm else fire
    {
      hide Value, Ones, Recent, SmoothedOver;
      fire := false;
      if wasNoack {
        return;
      }
      Record(attempts, attempts > 1);
      if armed {
        if count <= cfg.rearm {
          armed := false;
        }
      } else {
        var inLastEight := FastCount();
        fire := count >= cfg.threshold || inLastEight >= cfg.fast;
        if fire {
          armed := true;
        }
      }
    }

    /** Popcount of the low byte. */
    method FastCount() returns (n: nat)
      requires Valid()
      ensures n == Ones(Recent(history, 8))
    {
      hide Value, Ones, Recent, Popcount;
      LowBits(Recent(history, cfg.window), 8);
      RecentSuffix(history, cfg.window, 8);
      PopcountIsOnes(Recent(history, 8));
      assert Pow2(8) == 256;
      n := Popcount(window % 256);
    }

    /** `link_quality_record` */
    method Record(attempts: nat, retry: bool)
      requires Valid()
      modifies this`window, this`count, this`history, this`ewma, this`delivered
      ensures Valid() && history == old(history) + [retry] && delivered == old(delivered) + [attempts]
    {
      hide Value, Ones, Recent, Pow2, Popcount, Smoothed, SmoothedOver;
      SmoothedPush(10, delivered, attempts);
      ShiftWindow(retry);
      ewma := Smoothed(ewma, attempts);
      delivered := delivered + [attempts];
    }

    /** The link-quality part of the TX_FAILED event: the window only. */
    method OnFailed()
      requires Valid()
      modifies this`window, this`count, this`history
      ensures Valid() && history == old(history) + [true]
    {
      ShiftWindow(true);
    }
  }

  lemma {:induction false} CleanStart(size: nat)
    ensures Value(Recent([], size)) == 0 && Ones(Recent([], size)) == 0
  {
    if size > 0 {
      CleanStart(size - 1);
      assert Recent([], size)[..size - 1] == Recent([], size - 1);
    }
  }

  lemma RecentSuffix(history: seq<bool>, size: nat, k: nat)
    requires k <= size
    ensures Recent(history, size)[size - k..] == Recent(history, k)
  {
  }
}
