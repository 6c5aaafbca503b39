/** Payloads handed to the transport (include/zmk_esb/protocol.h) and the facts
  * about one that `esb_transport_send` records in the per-send rings. */
module Packets {

  datatype Axis = DX | DY | SX | SY

  /** Relative pointer and scroll motion of one mouse report. */
  datatype Motion = Motion(dx: int, dy: int, sx: int, sy: int) {
    predicate Still() { dx == 0 && dy == 0 && sx == 0 && sy == 0 }

    function On(axis: Axis): int {
      match axis
      case DX => dx
      case DY => dy
      case SX => sx
      case SY => sy
    }

    function Plus(m: Motion): Motion {
      Motion(dx + m.dx, dy + m.dy, sx + m.sx, sy + m.sy)
    }

    function Minus(m: Motion): Motion {
      Motion(dx - m.dx, dy - m.dy, sx - m.sx, sy - m.sy)
    }

    /** Each axis clamped to a signed 16-bit field. */
    function Clamp(): (c: Motion)
      ensures c.InRange()
      ensures InRange() ==> c == this
    {
      Motion(Sat16(dx), Sat16(dy), Sat16(sx), Sat16(sy))
    }

    predicate InRange() {
      -0x8000 <= dx < 0x8000 && -0x8000 <= dy < 0x8000 && -0x8000 <= sx < 0x8000 && -0x8000 <= sy < 0x8000
    }
  }

  const STILL := Motion(0, 0, 0, 0)

  function Sat16(v: int): int {
    if v > 0x7FFF then 0x7FFF else if v < -0x8000 then -0x8000 else v
  }

  /** Modifier masks and button masks are the sets of their bit numbers. */
  datatype Report =
    | Keyboard(mods: set<nat>, keys: seq<nat>)
    | Consumer(keys: seq<nat>)
    | Mouse(buttons: set<nat>, motion: Motion)

  /** A HID report packet, or any other packet by its type byte. */
  datatype Payload = Hid(report: Report) | Control(code: nat)

  datatype Kind = NoKind | KB | CONS | MOUSE

  const PKT_BEACON := 0x01
  const PKT_PAIR_RESP := 0x03
  const PKT_DISCONNECT := 0x07
  const PKT_SHELL_STOP := 0x09
  const PKT_SHELL_DATA := 0x0A
  const PKT_SHELL_POLL := 0x0B
  const PKT_VERIFY_REQ := 0x10
  const PKT_HOP_PROPOSAL := 0x14
  const PKT_IDLE := 0x17
  const PKT_HOP_OFFER := 0x18

  predicate IsShell(p: Payload) {
    p.Control? && p.code in {PKT_SHELL_DATA, PKT_SHELL_POLL, PKT_SHELL_STOP}
  }

  /** Packets sent at the elevated retransmit count. */
  predicate IsCritical(p: Payload) {
    p.Control? && p.code in {PKT_BEACON, PKT_PAIR_RESP, PKT_DISCONNECT, PKT_VERIFY_REQ,
                             PKT_HOP_PROPOSAL, PKT_HOP_OFFER, PKT_IDLE}
  }

  predicate IsMouse(p: Payload) { p.Hid? && p.report.Mouse? }

  function ReportKind(p: Payload): Kind {
    match p
    case Hid(Keyboard(_, _)) => KB
    case Hid(Consumer(_)) => CONS
    case Hid(Mouse(_, _)) => MOUSE
    case Control(_) => NoKind
  }

  function MotionOf(p: Payload): Motion {
    if IsMouse(p) then p.report.motion else STILL
  }

  /** The state a report conveys: a mouse report's motion is an increment, not state. */
  function StateOf(p: Payload): Payload {
    if IsMouse(p) then p.(report := p.report.(motion := STILL)) else p
  }

  function WithMotion(p: Payload, m: Motion): Payload
    requires IsMouse(p)
  {
    p.(report := p.report.(motion := m))
  }

  /** Build options and Kconfig values the transport depends on. */
  datatype Config = Config(
    fifoSize: nat,
    hidNoack: bool,
    criticalCount: nat,
    pointerCount: nat,
    inflightCap: nat,
    refundStaleMs: nat,
    postQuietMs: nat)

  /** Slot of the motion ring. */
  datatype MotionRecord = MotionRecord(motion: Motion, overrode: bool, kind: Kind)

  predicate Noack(cfg: Config, p: Payload) { cfg.hidNoack && IsMouse(p) }

  function KindOf(cfg: Config, p: Payload): Kind {
    if Noack(cfg, p) then NoKind else ReportKind(p)
  }

  /** Motion without a button runs at the lowered retransmit count. */
  predicate LowersRetransmit(cfg: Config, p: Payload) {
    IsMouse(p) && !MotionOf(p).Still() && p.report.buttons == {} && !Noack(cfg, p)
  }

  function RecordOf(cfg: Config, p: Payload): MotionRecord {
    MotionRecord(MotionOf(p), LowersRetransmit(cfg, p), KindOf(cfg, p))
  }

  predicate Overrides(cfg: Config, p: Payload) {
    IsCritical(p) || LowersRetransmit(cfg, p)
  }
}
