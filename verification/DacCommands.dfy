/** The Ether Dream commands and their bytes on the wire
    (src/protocols/ether_dream/protocol.rs): an opcode, then little-endian words. */
module DacCommands {
  import opened Points
  import opened ProxyFraming

  type Word = n: int | 0 <= n < 0x1_0000

  type SignedWord = n: int | -0x8000 <= n < 0x8000

  type LongWord = n: int | 0 <= n < 0x1_0000_0000

  datatype DacPoint = DacPoint(
    control: Word,
    x: SignedWord,
    y: SignedWord,
    r: Word,
    g: Word,
    b: Word,
    i: Word,
    u1: Word,
    u2: Word)

  datatype Command =
    | PrepareStream
    | Begin(lowWaterMark: Word, pointRate: LongWord)
    | Update(lowWaterMark: Word, pointRate: LongWord)
    | PointRate(rate: LongWord)
    | Data(points: seq<DacPoint>)
    | Stop
    | EmergencyStop
    | EmergencyStopAlt
    | ClearEmergencyStop
    | Ping
    | Version

  function StartByte(c: Command): Byte {
    match c
    case PrepareStream => 0x70
    case Begin(_, _) => 0x62
    case Update(_, _) => 0x75
    case PointRate(_) => 0x71
    case Data(_) => 0x64
    case Stop => 0x73
    case EmergencyStop => 0x00
    case EmergencyStopAlt => 0xff
    case ClearEmergencyStop => 0x63
    case Ping => 0x3f
    case Version => 0x76
  }

  // ---- Writing ------------------------------------------------------------------------------------

  /** Two's complement. */
  function Unsigned(n: SignedWord): Word {
    if n < 0 then n + 0x1_0000 else n
  }

  function Signed(w: Word): SignedWord {
    if w < 0x8000 then w else w - 0x1_0000
  }

  /** Low word first. */
  function Halves(n: LongWord): seq<Word> {
    [n % 0x1_0000, n / 0x1_0000]
  }

  function PointWords(p: DacPoint): (words: seq<Word>)
    ensures |words| == 9
  {
    [p.control, Unsigned(p.x), Unsigned(p.y), p.r, p.g, p.b, p.i, p.u1, p.u2]
  }

  function AllWords(points: seq<DacPoint>): (words: seq<Word>)
    ensures |words| == 9 * |points|
  {
    if points == [] then [] else AllWords(points[..|points| - 1]) + PointWords(points[|points| - 1])
  }

  /** The words that follow the opcode. */
  function Payload(c: Command): seq<Word>
    requires Writable(c)
  {
    match c
    case Begin(mark, rate) => [mark] + Halves(rate)
    case Update(mark, rate) => [mark] + Halves(rate)
    case PointRate(rate) => Halves(rate)
    case Data(points) => [|points|] + AllWords(points)
    case _ => []
  }

  /** Low byte first. */
  function WordBytes(words: seq<Word>): (bytes: Bytes)
    ensures |bytes| == 2 * |words|
  {
    if words == [] then []
    else
      var w := words[|words| - 1];
      WordBytes(words[..|words| - 1]) + [(w % 0x100) as Byte, (w / 0x100) as Byte]
  }

  /** More points than a 16-bit count can say are an error. */
  predicate Writable(c: Command) {
    c.Data? ==> |c.points| <= 0xffff
  }

  function Encode(c: Command): (bytes: Bytes)
    requires Writable(c)
    ensures bytes != [] && bytes[0] == StartByte(c)
  {
    [StartByte(c)] + WordBytes(Payload(c))
  }

  // ---- Reading ------------------------------------------------------------------------------------

  function ReadPoint(b: Bytes, at: nat): DacPoint
    requires at + 18 <= |b|
  {
    DacPoint(Word16(b, at), Signed(Word16(b, at + 2)), Signed(Word16(b, at + 4)),
             Word16(b, at + 6), Word16(b, at + 8), Word16(b, at + 10), Word16(b, at + 12),
             Word16(b, at + 14), Word16(b, at + 16))
  }

  /** Point `i` of a data command. */
  function PointAt(b: Bytes, i: nat): DacPoint
    requires 3 + 18 * (i + 1) <= |b|
  {
    ReadPoint(b, 3 + 18 * i)
  }

  function ReadPoints(b: Bytes, n: nat): seq<DacPoint>
    requires 3 + 18 * n <= |b|
  {
    if n == 0 then [] else ReadPoints(b, n - 1) + [PointAt(b, n - 1)]
  }

  /** What the bytes of one command say to the reader of its opcode. Both e-stop opcodes
      read as the same command. */
  function Decode(b: Bytes): Option<Command> {
    if b == [] then None
    else if b[0] == 0x70 then Some(PrepareStream)
    else if b[0] == 0x73 then Some(Stop)
    else if b[0] == 0x00 || b[0] == 0xff then Some(EmergencyStop)
    else if b[0] == 0x63 then Some(ClearEmergencyStop)
    else if b[0] == 0x3f then Some(Ping)
    else if b[0] == 0x76 then Some(Version)
    else if b[0] == 0x62 && |b| >= 7 then Some(Begin(Word16(b, 1), Word32(b, 3)))
    else if b[0] == 0x75 && |b| >= 7 then Some(Update(Word16(b, 1), Word32(b, 3)))
    else if b[0] == 0x71 && |b| >= 5 then Some(PointRate(Word32(b, 1)))
    else if b[0] == 0x64 && |b| >= 3 && |b| >= 3 + 18 * Word16(b, 1) then Some(Data(ReadPoints(b, Word16(b, 1))))
    else None
  }

  // ---- Reading what was written ---------------------------------------------------------------------

  lemma BytesOfWord(w: Word)
    ensures (w % 0x100) as Byte as nat + 0x100 * ((w / 0x100) as Byte as nat) == w
  {
  }

  lemma {:induction false} WordAt(words: seq<Word>, k: nat)
    requires k < |words|
    ensures Word16(WordBytes(words), 2 * k) == words[k]
    decreases |words|
  {
    var last := |words| - 1;
    if k < last {
      WordAt(words[..last], k);
      assert WordBytes(words)[2 * k] == WordBytes(words[..last])[2 * k];
      assert WordBytes(words)[2 * k + 1] == WordBytes(words[..last])[2 * k + 1];
    } else {
      BytesOfWord(words[k]);
    }
  }

  /** Behind the opcode. */
  lemma PayloadAt(c: Command, k: nat)
    requires Writable(c) && k < |Payload(c)|
    ensures |Encode(c)| == 1 + 2 * |Payload(c)|
    ensures Word16(Encode(c), 1 + 2 * k) == Payload(c)[k]
  {
    WordAt(Payload(c), k);
    assert Encode(c)[1 + 2 * k] == WordBytes(Payload(c))[2 * k];
    assert Encode(c)[2 + 2 * k] == WordBytes(Payload(c))[2 * k + 1];
  }

  lemma RateAt(c: Command, k: nat, rate: LongWord)
    requires Writable(c) && k + 2 <= |Payload(c)|
    requires Payload(c)[k] == rate % 0x1_0000 && Payload(c)[k + 1] == rate / 0x1_0000
    ensures 1 + 2 * k + 4 <= |Encode(c)|
    ensures Word32(Encode(c), 1 + 2 * k) == rate
  {
    PayloadAt(c, k);
    PayloadAt(c, k + 1);
  }

  lemma {:induction false} PointWordAt(points: seq<DacPoint>, i: nat, k: nat)
    requires i < |points| && k < 9
    ensures 9 * i + k < 9 * |points| && AllWords(points)[9 * i + k] == PointWords(points[i])[k]
    decreases |points|
  {
    var last := |points| - 1;
    if i < last {
      PointWordAt(points[..last], i, k);
      assert AllWords(points)[9 * i + k] == AllWords(points[..last])[9 * i + k];
    }
  }

  /** Word `k` of point `i`, whose bytes start at `at`. */
  lemma DataWordAt(points: seq<DacPoint>, i: nat, at: nat, k: nat)
    requires |points| <= 0xffff && i < |points| && at == 3 + 18 * i && k < 9
    ensures at + 18 <= |Encode(Data(points))|
    ensures Word16(Encode(Data(points)), at + 2 * k) == PointWords(points[i])[k]
  {
    PointWordAt(points, i, k);
    var c := Data(points);
    assert Payload(c)[1 + 9 * i + k] == AllWords(points)[9 * i + k];
    PayloadAt(c, 1 + 9 * i + k);
    assert 1 + 2 * (1 + 9 * i + k) == at + 2 * k;
  }

  /** The nine words from `at` on are those of the point. */
  predicate HoldsPoint(b: Bytes, at: nat, p: DacPoint) {
    at + 18 <= |b| && forall k :: 0 <= k < 9 ==> Word16(b, at + 2 * k) == PointWords(p)[k]
  }

  lemma DataHoldsPoint(points: seq<DacPoint>, i: nat, at: nat)
    requires |points| <= 0xffff && i < |points| && at == 3 + 18 * i
    ensures HoldsPoint(Encode(Data(points)), at, points[i])
  {
    DataWordAt(points, i, at, 0);
    forall k | 0 <= k < 9
      ensures Word16(Encode(Data(points)), at + 2 * k) == PointWords(points[i])[k]
    {
      DataWordAt(points, i, at, k);
    }
  }

  lemma ReadsPoint(b: Bytes, i: nat, at: nat, p: DacPoint)
    requires at == 3 + 18 * i && HoldsPoint(b, at, p)
    ensures 3 + 18 * (i + 1) <= |b| && PointAt(b, i) == p
  {
    var words := PointWords(p);
    assert Word16(b, at + 2 * 0) == words[0] && Word16(b, at + 2 * 1) == words[1] && Word16(b, at + 2 * 2) == words[2];
    assert Word16(b, at + 2 * 3) == words[3] && Word16(b, at + 2 * 4) == words[4] && Word16(b, at + 2 * 5) == words[5];
    assert Word16(b, at + 2 * 6) == words[6] && Word16(b, at + 2 * 7) == words[7] && Word16(b, at + 2 * 8) == words[8];
  }

  lemma DataReadsPoint(points: seq<DacPoint>, i: nat, b: Bytes)
    requires |points| <= 0xffff && i < |points| && b == Encode(Data(points))
    ensures 3 + 18 * (i + 1) <= |b| && PointAt(b, i) == points[i]
  {
    DataHoldsPoint(points, i, 3 + 18 * i);
    ReadsPoint(b, i, 3 + 18 * i, points[i]);
  }

  lemma DataLength(points: seq<DacPoint>)
    requires |points| <= 0xffff
    ensures |Encode(Data(points))| == 3 + 18 * |points| && Word16(Encode(Data(points)), 1) == |points|
  {
    PayloadAt(Data(points), 0);
  }

  lemma {:induction false} ReadsPoints(b: Bytes, points: seq<DacPoint>, n: nat)
    requires |b| == 3 + 18 * |points| && n <= |points|
    requires forall i :: 0 <= i < |points| ==> PointAt(b, i) == points[i]
    ensures ReadPoints(b, n) == points[..n]
    decreases n
  {
    if n > 0 {
      ReadsPoints(b, points, n - 1);
      assert points[..n] == points[..n - 1] + [points[n - 1]];
    }
  }

  lemma DecodesPoints(b: Bytes, points: seq<DacPoint>)
    requires b != [] && b[0] == 0x64 && |b| == 3 + 18 * |points| && Word16(b, 1) == |points|
    requires forall i :: 0 <= i < |points| ==> PointAt(b, i) == points[i]
    ensures Decode(b) == Some(Data(points))
  {
    ReadsPoints(b, points, |points|);
    assert points[..|points|] == points;
  }

  lemma DecodesData(points: seq<DacPoint>)
    requires |points| <= 0xffff
    ensures Decode(Encode(Data(points))) == Some(Data(points))
  {
    DataLength(points);
    forall i | 0 <= i < |points|
      ensures PointAt(Encode(Data(points)), i) == points[i]
    {
      DataReadsPoint(points, i, Encode(Data(points)));
    }
    DecodesPoints(Encode(Data(points)), points);
  }

  /** What was written is read back, the alternative e-stop as the e-stop. */
  lemma DecodesWhatWasEncoded(c: Command)
    requires Writable(c)
    ensures Decode(Encode(c)) == Some(if c == EmergencyStopAlt then EmergencyStop else c)
  {
    match c
    case Begin(mark, rate) =>
      PayloadAt(c, 0);
      RateAt(c, 1, rate);
    case Update(mark, rate) =>
      PayloadAt(c, 0);
      RateAt(c, 1, rate);
    case PointRate(rate) =>
      RateAt(c, 0, rate);
    case Data(points) =>
      DecodesData(points);
    case _ =>
  }
}
