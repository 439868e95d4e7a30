/** How the interlock proxy cuts the client's byte stream into commands, and which of
    them it lets through. */
module ProxyFraming {
  import opened Points

  newtype Byte = n: int | 0 <= n < 0x100

  type Bytes = seq<Byte>

  const PING: Byte := 0x3f
  const PREPARE: Byte := 0x70
  const STOP: Byte := 0x73
  const CLEAR: Byte := 0x63
  const VERSION: Byte := 0x76
  const BEGIN: Byte := 0x62
  const UPDATE: Byte := 0x75
  const POINT_RATE: Byte := 0x71
  const DATA: Byte := 0x64
  const ESTOP: Byte := 0x00
  const ESTOP_ALT: Byte := 0xff

  const MIN_RATE := 1_000
  const MAX_RATE := 30_000
  const POINT_BYTES := 18

  /** A little-endian 16-bit word. */
  function Word16(b: Bytes, at: nat): (w: nat)
    requires at + 2 <= |b|
    ensures w < 0x1_0000
  {
    b[at] as nat + 0x100 * b[at + 1] as nat
  }

  function Word32(b: Bytes, at: nat): nat
    requires at + 4 <= |b|
  {
    Word16(b, at) + 0x1_0000 * Word16(b, at + 2)
  }

  // ---- Cutting ------------------------------------------------------------------------------

  datatype Length = NeedMore | Known(n: nat) | UnknownOp(op: Byte)

  predicate SingleByte(op: Byte) {
    op == PING || op == PREPARE || op == STOP || op == CLEAR || op == VERSION
    || op == ESTOP || op == ESTOP_ALT
  }

  /** Length of the command at the start of `buf`. */
  function CmdLen(buf: Bytes): Length {
    if buf == [] then NeedMore
    else if SingleByte(buf[0]) then Known(1)
    else if buf[0] == BEGIN || buf[0] == UPDATE then Known(7)
    else if buf[0] == POINT_RATE then Known(5)
    else if buf[0] == DATA then
      if |buf| < 3 then NeedMore else Known(3 + Word16(buf, 1) * POINT_BYTES)
    else UnknownOp(buf[0])
  }

  /** Once known, the length does not depend on what follows. */
  lemma CmdLenStable(a: Bytes, b: Bytes)
    requires !CmdLen(a).NeedMore?
    ensures CmdLen(a + b) == CmdLen(a)
    ensures CmdLen(a).Known? ==> CmdLen(a).n > 0
  {
  }

  // ---- The safety predicate --------------------------------------------------------------------

  function RateOf(cmd: Bytes): Option<nat>
    requires cmd != []
  {
    if (cmd[0] == BEGIN || cmd[0] == UPDATE) && |cmd| >= 7 then Some(Word32(cmd, 3))
    else if cmd[0] == POINT_RATE && |cmd| >= 5 then Some(Word32(cmd, 1))
    else None
  }

  /** Off centre by more than one count, as a signed 16-bit coordinate. */
  predicate OffCentre(w: nat)
    requires w < 0x1_0000
  {
    var signed := if w < 0x8000 then w else w - 0x1_0000;
    (if signed < 0 then -signed else signed) > 1
  }

  /** Any of words `k..9` of the point at `at` is set. */
  predicate AnyWordSet(cmd: Bytes, at: nat, k: nat)
    requires at + POINT_BYTES <= |cmd| && k <= 9
    decreases 9 - k
  {
    k < 9 && (Word16(cmd, at + 2 * k) != 0 || AnyWordSet(cmd, at, k + 1))
  }

  /** The point whose bytes start at `at` is not a blanked centre point. */
  predicate BadPoint(cmd: Bytes, at: nat)
    requires at + POINT_BYTES <= |cmd|
  {
    || Word16(cmd, at) != 0 || AnyWordSet(cmd, at, 3)
    || OffCentre(Word16(cmd, at + 2)) || OffCentre(Word16(cmd, at + 4))
  }

  /** Some whole point from `at` on is bad. */
  predicate BadPointFrom(cmd: Bytes, at: nat)
    decreases |cmd| - at
  {
    at + POINT_BYTES <= |cmd| && (BadPoint(cmd, at) || BadPointFrom(cmd, at + POINT_BYTES))
  }

  /** The proxy refuses to forward the command. */
  predicate Unsafe(cmd: Bytes)
    requires cmd != []
  {
    if cmd[0] == BEGIN || cmd[0] == UPDATE || cmd[0] == POINT_RATE then
      var rate := RateOf(cmd);
      rate.Some? &&
        (!(MIN_RATE <= rate.value <= MAX_RATE)
         || (cmd[0] != POINT_RATE && (cmd[1] != 0 || cmd[2] != 0)))
    else cmd[0] == DATA && BadPointFrom(cmd, 3)
  }

  /** What a whole command has to be to reach the device: every point of it blanked and
      within one count of the centre, every rate in range, every low-water mark zero. */
  predicate Harmless(cmd: Bytes)
    requires cmd != [] && CmdLen(cmd) == Known(|cmd|)
  {
    && (cmd[0] == BEGIN || cmd[0] == UPDATE ==>
          cmd[1] == 0 && cmd[2] == 0 && MIN_RATE <= Word32(cmd, 3) <= MAX_RATE)
    && (cmd[0] == POINT_RATE ==> MIN_RATE <= Word32(cmd, 1) <= MAX_RATE)
    && (cmd[0] == DATA ==>
          forall i :: 0 <= i < Word16(cmd, 1) ==> BlankedCentre(cmd, 3 + i * POINT_BYTES))
  }

  /** Word by word: control, x, y, three colours, intensity and two user words. */
  predicate BlankedCentre(cmd: Bytes, at: nat) {
    && at + POINT_BYTES <= |cmd|
    && Word16(cmd, at) == 0
    && Word16(cmd, at + 2) in {0, 1, 0xffff} && Word16(cmd, at + 4) in {0, 1, 0xffff}
    && (forall k :: 3 <= k < 9 ==> Word16(cmd, at + 2 * k) == 0)
  }

  lemma BadPointMeans(cmd: Bytes, at: nat)
    requires at + POINT_BYTES <= |cmd|
    ensures BadPoint(cmd, at) <==> !BlankedCentre(cmd, at)
  {
    assert AnyWordSet(cmd, at, 3) <==> exists k :: 3 <= k < 9 && Word16(cmd, at + 2 * k) != 0 by {
      AnyWordMeans(cmd, at, 3);
    }
  }

  lemma {:induction false} AnyWordMeans(cmd: Bytes, at: nat, k: nat)
    requires at + POINT_BYTES <= |cmd| && k <= 9
    ensures AnyWordSet(cmd, at, k) <==> exists j :: k <= j < 9 && Word16(cmd, at + 2 * j) != 0
    decreases 9 - k
  {
    if k < 9 {
      AnyWordMeans(cmd, at, k + 1);
      if Word16(cmd, at + 2 * k) != 0 {
        assert k <= k < 9;
      }
    }
  }

  lemma {:induction false} BadPointFromMeans(cmd: Bytes, count: nat, i: nat)
    requires |cmd| == 3 + count * POINT_BYTES && i <= count
    ensures BadPointFrom(cmd, 3 + i * POINT_BYTES)
       <==> exists k :: i <= k < count && !BlankedCentre(cmd, 3 + k * POINT_BYTES)
    decreases count - i
  {
    if i < count {
      BadPointFromMeans(cmd, count, i + 1);
      BadPointMeans(cmd, 3 + i * POINT_BYTES);
      assert 3 + (i + 1) * POINT_BYTES == 3 + i * POINT_BYTES + POINT_BYTES;
      if BadPoint(cmd, 3 + i * POINT_BYTES) {
        assert !BlankedCentre(cmd, 3 + i * POINT_BYTES);
      }
    }
  }

  /** On whole commands the proxy refuses exactly what is not harmless. */
  lemma UnsafeMeans(cmd: Bytes)
    requires cmd != [] && CmdLen(cmd) == Known(|cmd|)
    ensures Unsafe(cmd) <==> !Harmless(cmd)
  {
    if cmd[0] == DATA {
      var count := Word16(cmd, 1);
      BadPointFromMeans(cmd, count, 0);
      if Unsafe(cmd) {
        var k :| 0 <= k < count && !BlankedCentre(cmd, 3 + k * POINT_BYTES);
      }
    }
  }

  // ---- The decision at the head of the buffer ---------------------------------------------------

  datatype Verdict = Going | RefusedOp(op: Byte) | RefusedCmd(cmd: Bytes)

  /** Wait for more bytes, take the first `n` as a command, or refuse. */
  datatype Cut = Wait | Take(n: nat) | Refuse(verdict: Verdict)

  function CutAt(buf: Bytes): Cut {
    match CmdLen(buf)
    case NeedMore => Wait
    case UnknownOp(op) => Refuse(RefusedOp(op))
    case Known(n) =>
      if |buf| < n then Wait
      else if Unsafe(buf[..n]) then Refuse(RefusedCmd(buf[..n]))
      else Take(n)
  }

  /** A whole, harmless command. */
  predicate Forwardable(cmd: Bytes) {
    cmd != [] && CmdLen(cmd) == Known(|cmd|) && Harmless(cmd)
  }

  lemma WholeCommand(buf: Bytes, n: nat)
    requires CmdLen(buf) == Known(n) && n <= |buf|
    ensures 0 < n && CmdLen(buf[..n]) == Known(n)
  {
  }

  /** A decision stands whatever bytes follow. */
  lemma CutStable(a: Bytes, b: Bytes)
    requires CutAt(a) != Wait
    ensures CutAt(a + b) == CutAt(a)
  {
    CmdLenStable(a, b);
    if CmdLen(a).Known? {
      assert (a + b)[..CmdLen(a).n] == a[..CmdLen(a).n];
    }
  }

  /** What is taken is whole and harmless, what is refused as a command is not harmless. */
  lemma CutMeans(buf: Bytes)
    ensures CutAt(buf).Take? ==> 0 < CutAt(buf).n <= |buf| && Forwardable(buf[..CutAt(buf).n])
    ensures CutAt(buf).Refuse? && CutAt(buf).verdict.RefusedCmd? ==>
              var cmd := CutAt(buf).verdict.cmd;
              cmd != [] && CmdLen(cmd) == Known(|cmd|) && !Harmless(cmd) && cmd <= buf
    ensures CutAt(buf).Refuse? ==> !CutAt(buf).verdict.Going?
  {
    if CmdLen(buf).Known? && CmdLen(buf).n <= |buf| {
      WholeCommand(buf, CmdLen(buf).n);
      UnsafeMeans(buf[..CmdLen(buf).n]);
    }
  }
}
