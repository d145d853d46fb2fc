/** The checksum routines that rewrite an IPv4 packet inside an intermediate buffer
    (sections 3.1 of RFC 791 and RFC 793, RFC 792, RFC 768). */
module Checksums {
  import opened OnesComplement

  const MAX_ETHER_FRAME := 1514
  const ETHER_HEADER := 14
  const IP_SUM := ETHER_HEADER + 10
  const IP_SRC := ETHER_HEADER + 12
  const IP_DST := ETHER_HEADER + 16
  const IP_MIN_HEADER := 20

  /** The contents of `m_IBuffer`. */
  type Frame = f: seq<Byte> | |f| == MAX_ETHER_FRAME witness seq(MAX_ETHER_FRAME, _ => 0)

  function HeaderLength(f: Frame): (len: nat)
    ensures len <= 60 && len % 4 == 0
  {
    f[ETHER_HEADER] % 16 * 4
  }

  function TotalLength(f: Frame): Word {
    WordAt(f, ETHER_HEADER + 2)
  }

  function Protocol(f: Frame): Byte {
    f[ETHER_HEADER + 9]
  }

  /** The protocols with a checksum over their whole segment. */
  datatype Transport = Icmp | Tcp | Udp {
    function Number(): Byte {
      match this case Icmp => 1 case Tcp => 6 case Udp => 17
    }

    /** Where the checksum field lies in the protocol's header. */
    function FieldOffset(): nat {
      match this case Icmp => 2 case Tcp => 16 case Udp => 6
    }

    function MinHeader(): nat {
      match this case Icmp => 8 case Tcp => 20 case Udp => 8
    }

    predicate HasPseudoHeader() {
      !Icmp?
    }
  }

  /** The datagram lies inside the frame, and is not shorter than its header but by one byte: then
      no routine reads or writes outside the frame. */
  predicate DatagramFits(f: Frame) {
    HeaderLength(f) <= TotalLength(f) + 1 && ETHER_HEADER + TotalLength(f) <= MAX_ETHER_FRAME
  }

  /** A well-formed packet of protocol `t`: a whole IP header and a whole transport header. */
  predicate WellFormed(t: Transport, f: Frame) {
    && DatagramFits(f)
    && Protocol(f) == t.Number()
    && IP_MIN_HEADER <= HeaderLength(f)
    && HeaderLength(f) + t.MinHeader() <= TotalLength(f)
  }

  function SegmentStart(f: Frame): nat {
    ETHER_HEADER + HeaderLength(f)
  }

  /** The length of the segment; in 32-bit arithmetic, a negative one wraps around. */
  function SegmentLength(f: Frame): (len: DWord)
    ensures len as int == (TotalLength(f) - HeaderLength(f)) % 0x1_0000_0000
  {
    if HeaderLength(f) <= TotalLength(f) then TotalLength(f) - HeaderLength(f)
    else TotalLength(f) - HeaderLength(f) + 0x1_0000_0000
  }

  /** The number of 16-bit words in a segment of `len` bytes, the last one padded if `len` is odd; the
      padded length wraps around in 32 bits. */
  function Words(len: DWord): (n: nat)
    ensures 2 * n == (len + len % 2) % 0x1_0000_0000
  {
    if len == 0xFFFF_FFFF then 0 else (len + 1) / 2
  }

  /** The low 16 bits. */
  function LowWord(len: DWord): (low: Word)
    ensures low as int == len % 0x1_0000
  {
    if len < 0x1_0000 then len else len % 0x1_0000
  }

  function FieldAt(t: Transport, f: Frame): (at: nat)
    ensures at + 1 < MAX_ETHER_FRAME
  {
    SegmentStart(f) + t.FieldOffset()
  }

  /** The byte that follows the datagram is zero when its length is odd. */
  function Padded(f: Frame): Frame
    requires DatagramFits(f)
  {
    if SegmentLength(f) % 2 == 1 then f[ETHER_HEADER + TotalLength(f) := 0] else f
  }

  function StoreWord(f: Frame, at: nat, w: Word): Frame
    requires at + 1 < MAX_ETHER_FRAME
  {
    f[at := w / 0x100][at + 1 := w % 0x100]
  }

  /** The pseudo-header: both addresses, the protocol number and the segment's length. */
  function PseudoSum(t: Transport, f: Frame, len: DWord): nat {
    if t.HasPseudoHeader() then WordSum(f, IP_SRC, 4) + t.Number() + LowWord(len) else 0
  }

  /** The sum over a zero-padded segment of `len` bytes at `start`. */
  function SegmentSum(t: Transport, f: Frame, start: nat, len: DWord): nat
    requires start + 2 * Words(len) <= MAX_ETHER_FRAME
  {
    WordSum(f, start, Words(len)) + PseudoSum(t, f, len)
  }

  /** What a receiver adds up. */
  function ReceiverSum(t: Transport, f: Frame): nat
    requires DatagramFits(f)
  {
    SegmentSum(t, Padded(f), SegmentStart(f), SegmentLength(f))
  }

  /** The padded frame with `w` in the checksum field. */
  function WithField(t: Transport, f: Frame, w: Word): Frame
    requires DatagramFits(f)
  {
    StoreWord(Padded(f), FieldAt(t, f), w)
  }

  /** The frame as it is summed: padding and checksum field cleared. */
  function Cleared(t: Transport, f: Frame): Frame
    requires DatagramFits(f)
  {
    WithField(t, f, 0)
  }

  function ClearedSum(t: Transport, f: Frame): nat
    requires DatagramFits(f)
  {
    SegmentSum(t, Cleared(t, f), SegmentStart(f), SegmentLength(f))
  }

  /** The whole effect of a transport routine on the frame. */
  function Recalculated(t: Transport, f: Frame): Frame
    requires Protocol(f) == t.Number() ==> DatagramFits(f)
  {
    if Protocol(f) != t.Number() then f
    else StoreWord(Cleared(t, f), FieldAt(t, f), ALL_ONES - Residue(ClearedSum(t, f)))
  }

  function IpHeaderSum(f: Frame): nat {
    WordSum(f, ETHER_HEADER, HeaderLength(f) / 2)
  }

  /** The whole effect of the IP header routine on the frame. */
  function IpRecalculated(f: Frame): Frame {
    var g := StoreWord(f, IP_SUM, 0);
    StoreWord(g, IP_SUM, ALL_ONES - Residue(IpHeaderSum(g)))
  }

  // ----- the routines -----

  /** The summing loop shared by the routines: words are built from two bytes and added to a
      32-bit accumulator. */
  method SumWords(buffer: array<Byte>, start: nat, len: DWord) returns (sum: DWord)
    requires Words(len) <= 0x8000 && start + 2 * Words(len) <= buffer.Length
    ensures sum == WordSum(buffer[..], start, Words(len))
  {
    var padd := if len / 2 * 2 != len then 1 else 0;
    var i := 0;
    sum := 0;
    var end := (len + padd) % 0x1_0000_0000;
    ghost var n := 0;
    while i < end
      invariant i == 2 * n && n <= Words(len)
      invariant sum == WordSum(buffer[..], start, n)
      decreases end - i
    {
      var word16: Word := WordAt(buffer[..], start + i);
      WordSumBound(buffer[..], start, n + 1);
      sum := Add32(sum, word16);
      i, n := i + 2, n + 1;
    }
  }

  method WriteWord(buffer: array<Byte>, at: nat, w: Word)
    requires buffer.Length == MAX_ETHER_FRAME && at + 1 < MAX_ETHER_FRAME
    modifies buffer
    ensures buffer[..] == StoreWord(old(buffer[..]), at, w)
  {
    buffer[at] := w / 0x100;
    buffer[at + 1] := w % 0x100;
  }

  /** The low half of `~sum` in 32 bits. */
  function Complement(sum: Word): (c: Word)
    ensures c == ALL_ONES - sum
  {
    (0xFFFF_FFFF - sum as int) % 0x1_0000
  }

  method RecalculateIPChecksum(buffer: array<Byte>)
    requires buffer.Length == MAX_ETHER_FRAME
    modifies buffer
    ensures buffer[..] == IpRecalculated(old(buffer[..]))
  {
    WriteWord(buffer, IP_SUM, 0);
    var sum := SumWords(buffer, ETHER_HEADER, HeaderLength(buffer[..]));
    var folded := FoldCarries(sum);
    WriteWord(buffer, IP_SUM, Complement(folded));
  }

  /** The part the three transport routines share before they sum: the odd length is padded
      and the field cleared. */
  method PadAndClear(t: Transport, buffer: array<Byte>) returns (start: nat, len: DWord)
    requires buffer.Length == MAX_ETHER_FRAME && DatagramFits(buffer[..])
    modifies buffer
    ensures start == SegmentStart(old(buffer[..])) && len == SegmentLength(old(buffer[..]))
    ensures buffer[..] == Cleared(t, old(buffer[..]))
  {
    start := ETHER_HEADER + HeaderLength(buffer[..]);
    len := (TotalLength(buffer[..]) - HeaderLength(buffer[..])) % 0x1_0000_0000;
    if len / 2 * 2 != len {
      var padding := (len + HeaderLength(buffer[..]) + ETHER_HEADER) % 0x1_0000_0000;
      assert padding == ETHER_HEADER + TotalLength(buffer[..]);
      buffer[padding] := 0;
    }
    WriteWord(buffer, start + t.FieldOffset(), 0);
  }

  method RecalculateICMPChecksum(buffer: array<Byte>)
    requires buffer.Length == MAX_ETHER_FRAME
    requires Protocol(buffer[..]) == Icmp.Number() ==> DatagramFits(buffer[..])
    modifies buffer
    ensures buffer[..] == Recalculated(Icmp, old(buffer[..]))
  {
    if Protocol(buffer[..]) != 1 {
      return;
    }
    var start, len := PadAndClear(Icmp, buffer);
    var sum := SumWords(buffer, start, len);
    var folded := FoldCarries(sum);
    WriteWord(buffer, start + 2, Complement(folded));
  }

  /** Adds the pseudo-header to the accumulator, in 32-bit arithmetic. */
  method AddPseudoHeader(buffer: array<Byte>, partial: DWord, protocol: Byte, len: DWord) returns (sum: DWord)
    requires buffer.Length == MAX_ETHER_FRAME
    requires partial <= 0x8000 * ALL_ONES
    ensures sum == partial + WordSum(buffer[..], IP_SRC, 4) + protocol + LowWord(len)
  {
    var f := buffer[..];
    var src1, src2, dst1, dst2 := WordAt(f, IP_SRC), WordAt(f, IP_SRC + 2), WordAt(f, IP_DST), WordAt(f, IP_DST + 2);
    PseudoWords(f);
    sum := Add32(Add32(partial, src1), src2);
    sum := Add32(Add32(sum, dst1), dst2);
    sum := Add32(sum, protocol + len % 0x1_0000);
  }

  lemma PseudoWords(f: Frame)
    ensures WordSum(f, IP_SRC, 4)
         == WordAt(f, IP_SRC) + WordAt(f, IP_SRC + 2) + WordAt(f, IP_DST) + WordAt(f, IP_DST + 2)
  {
    assert WordSum(f, IP_SRC, 1) == WordSum(f, IP_SRC, 0) + WordAt(f, IP_SRC);
    assert WordSum(f, IP_SRC, 2) == WordSum(f, IP_SRC, 1) + WordAt(f, IP_SRC + 2);
    assert WordSum(f, IP_SRC, 3) == WordSum(f, IP_SRC, 2) + WordAt(f, IP_DST);
    assert WordSum(f, IP_SRC, 4) == WordSum(f, IP_SRC, 3) + WordAt(f, IP_DST + 2);
  }

  method RecalculateTCPChecksum(buffer: array<Byte>)
    requires buffer.Length == MAX_ETHER_FRAME
    requires Protocol(buffer[..]) == Tcp.Number() ==> DatagramFits(buffer[..])
    modifies buffer
    ensures buffer[..] == Recalculated(Tcp, old(buffer[..]))
  {
    if Protocol(buffer[..]) != 6 {
      return;
    }
    var start, len := PadAndClear(Tcp, buffer);
    var sum := SumWords(buffer, start, len);
    WordSumBound(buffer[..], start, Words(len));
    sum := AddPseudoHeader(buffer, sum, 6, len);
    var folded := FoldCarries(sum);
    WriteWord(buffer, start + 16, Complement(folded));
  }

  method RecalculateUDPChecksum(buffer: array<Byte>)
    requires buffer.Length == MAX_ETHER_FRAME
    requires Protocol(buffer[..]) == Udp.Number() ==> DatagramFits(buffer[..])
    modifies buffer
    ensures buffer[..] == Recalculated(Udp, old(buffer[..]))
  {
    if Protocol(buffer[..]) != 17 {
      return;
    }
    var start, len := PadAndClear(Udp, buffer);
    var sum := SumWords(buffer, start, len);
    WordSumBound(buffer[..], start, Words(len));
    sum := AddPseudoHeader(buffer, sum, 17, len);
    var folded := FoldCarries(sum);
    WriteWord(buffer, start + 6, Complement(folded));
  }

  // ----- when the routines stay inside the frame -----

  /** The offset of the padding byte, in 32-bit arithmetic. */
  function PaddingAt(f: Frame): DWord {
    (SegmentLength(f) + HeaderLength(f) + ETHER_HEADER) % 0x1_0000_0000
  }

  /** The padding byte, if one is written, and every pair of bytes that the summing loop reads lie
      inside the frame. */
  predicate StaysInside(f: Frame) {
    && (SegmentLength(f) % 2 == 1 ==> PaddingAt(f) < MAX_ETHER_FRAME)
    && (forall j | 0 <= j < Words(SegmentLength(f)) :: SegmentStart(f) + 2 * j + 1 < MAX_ETHER_FRAME)
  }

  /** They do so for exactly the datagrams that fit: the frame's size is even, so that the padding of
      an odd datagram has room; and a datagram that is one byte shorter than its header has a length
      that the padding wraps around to zero. */
  lemma StaysInsideIff(f: Frame)
    ensures StaysInside(f) <==> DatagramFits(f)
  {
    var words := Words(SegmentLength(f));
    if StaysInside(f) && words > 0 {
      assert SegmentStart(f) + 2 * (words - 1) + 1 < MAX_ETHER_FRAME;
    }
  }

  // ----- what the routines are for -----

  /** The 16-bit field that a routine stores. */
  function Field(t: Transport, f: Frame): Word {
    WordAt(f, FieldAt(t, f))
  }

  /** Two frames that agree but for the word at `k`. */
  predicate DifferOnlyAt(f: Frame, g: Frame, k: nat) {
    forall i | 0 <= i < MAX_ETHER_FRAME && i != k && i != k + 1 :: f[i] == g[i]
  }

  lemma StoredWord(f: Frame, at: nat, w: Word)
    requires at + 1 < MAX_ETHER_FRAME
    ensures WordAt(StoreWord(f, at, w), at) == w
    ensures forall i | 0 <= i < MAX_ETHER_FRAME && i != at && i != at + 1 :: StoreWord(f, at, w)[i] == f[i]
  {
  }

  /** A routine changes its two checksum bytes and, for an odd length, the one byte after the
      datagram, which becomes zero; a packet of another protocol is left alone. */
  lemma OnlyFieldAndPaddingChange(t: Transport, f: Frame)
    requires Protocol(f) == t.Number() ==> DatagramFits(f)
    ensures Protocol(f) != t.Number() ==> Recalculated(t, f) == f
    ensures Protocol(f) == t.Number() ==>
      forall i | 0 <= i < MAX_ETHER_FRAME && i != FieldAt(t, f) && i != FieldAt(t, f) + 1 ::
        Recalculated(t, f)[i] ==
          if i == ETHER_HEADER + TotalLength(f) && SegmentLength(f) % 2 == 1 then 0 else f[i]
  {
  }

  /** The headers a well-formed packet is read by survive the rewriting. */
  lemma HeadersKept(t: Transport, f: Frame, w: Word)
    requires WellFormed(t, f)
    ensures forall i | 0 <= i < ETHER_HEADER + IP_MIN_HEADER :: WithField(t, f, w)[i] == f[i]
    ensures WellFormed(t, WithField(t, f, w))
    ensures Padded(WithField(t, f, w)) == WithField(t, f, w)
    ensures FieldAt(t, WithField(t, f, w)) == FieldAt(t, f)
    ensures SegmentStart(WithField(t, f, w)) == SegmentStart(f) && SegmentLength(WithField(t, f, w)) == SegmentLength(f)
  {
    var g := WithField(t, f, w);
    assert FieldAt(t, f) + 1 < ETHER_HEADER + TotalLength(f);
    assert HeaderLength(g) == HeaderLength(f) && TotalLength(g) == TotalLength(f);
    assert Padded(g) == g;
  }

  /** Writing the field moves the sum by exactly what is written. */
  lemma FieldCounts(t: Transport, f: Frame, w: Word)
    requires WellFormed(t, f)
    ensures DatagramFits(WithField(t, f, w))
    ensures ReceiverSum(t, WithField(t, f, w)) == ClearedSum(t, f) + w
  {
    HeadersKept(t, f, w);
    FieldWritten(t, f, w);
  }

  lemma FieldWritten(t: Transport, f: Frame, w: Word)
    requires WellFormed(t, f)
    ensures SegmentSum(t, WithField(t, f, w), SegmentStart(f), SegmentLength(f)) == ClearedSum(t, f) + w
  {
    StoredWord(Padded(f), FieldAt(t, f), w);
    StoredWord(Padded(f), FieldAt(t, f), 0);
    WordReplaced(t, Cleared(t, f), WithField(t, f, w), SegmentStart(f), SegmentLength(f), t.FieldOffset() / 2);
  }

  /** Replacing a word of the segment moves the sum by the difference. */
  lemma WordReplaced(t: Transport, c: Frame, d: Frame, start: nat, len: DWord, j: nat)
    requires IP_DST + 4 <= start && start + 2 * Words(len) <= MAX_ETHER_FRAME && j < Words(len)
    requires DifferOnlyAt(c, d, start + 2 * j)
    ensures SegmentSum(t, d, start, len)
         == SegmentSum(t, c, start, len) - WordAt(c, start + 2 * j) + WordAt(d, start + 2 * j)
  {
    WordSumReplace(c, d, start, Words(len), j);
    WordSumSame(c, d, IP_SRC, 4);
  }

  /** Every well-formed ICMP, TCP and UDP packet verifies at the receiver afterwards: the one's
      complement sum of its zero-padded segment, with the pseudo-header for TCP and UDP, is
      all ones. */
  lemma RecalculatedVerifies(t: Transport, f: Frame)
    requires WellFormed(t, f)
    ensures WellFormed(t, Recalculated(t, f))
    ensures Residue(ReceiverSum(t, Recalculated(t, f))) == ALL_ONES
  {
    var w := ALL_ONES - Residue(ClearedSum(t, f));
    HeadersKept(t, f, w);
    FieldCounts(t, f, w);
    assert Recalculated(t, f) == WithField(t, f, w);
    ComplementVerifies(ClearedSum(t, f));
  }

  /** The routines are the identity on what they have produced. */
  lemma RecalculatedIdempotent(t: Transport, f: Frame)
    requires WellFormed(t, f)
    ensures WellFormed(t, Recalculated(t, f))
    ensures Recalculated(t, Recalculated(t, f)) == Recalculated(t, f)
  {
    var w := ALL_ONES - Residue(ClearedSum(t, f));
    HeadersKept(t, f, w);
    assert Recalculated(t, f) == WithField(t, f, w);
    StoredTwice(Padded(f), FieldAt(t, f), w, 0);
    assert Cleared(t, Recalculated(t, f)) == Cleared(t, f);
  }

  /** What was in the field before does not matter. */
  lemma OldFieldIrrelevant(t: Transport, f: Frame, w: Word)
    requires WellFormed(t, f)
    ensures WellFormed(t, StoreWord(f, FieldAt(t, f), w))
    ensures Recalculated(t, StoreWord(f, FieldAt(t, f), w)) == Recalculated(t, f)
  {
    OldFieldKeepsHeaders(t, f, w);
    StoredTwice(Padded(f), FieldAt(t, f), w, 0);
  }

  lemma OldFieldKeepsHeaders(t: Transport, f: Frame, w: Word)
    requires WellFormed(t, f)
    ensures var g := StoreWord(f, FieldAt(t, f), w);
            && WellFormed(t, g) && FieldAt(t, g) == FieldAt(t, f)
            && SegmentStart(g) == SegmentStart(f) && SegmentLength(g) == SegmentLength(f)
            && Padded(g) == StoreWord(Padded(f), FieldAt(t, f), w)
  {
    var g := StoreWord(f, FieldAt(t, f), w);
    assert FieldAt(t, f) + 1 < ETHER_HEADER + TotalLength(f);
    assert g[ETHER_HEADER] == f[ETHER_HEADER] && g[ETHER_HEADER + 9] == f[ETHER_HEADER + 9];
    assert g[ETHER_HEADER + 2] == f[ETHER_HEADER + 2] && g[ETHER_HEADER + 3] == f[ETHER_HEADER + 3];
    assert HeaderLength(g) == HeaderLength(f) && TotalLength(g) == TotalLength(f) && Protocol(g) == Protocol(f);
    assert Padded(g) == StoreWord(Padded(f), FieldAt(t, f), w);
  }

  /** The later of two words stored in one place stays. */
  lemma StoredTwice(f: Frame, at: nat, v: Word, w: Word)
    requires at + 1 < MAX_ETHER_FRAME
    ensures StoreWord(StoreWord(f, at, v), at, w) == StoreWord(f, at, w)
  {
  }

  lemma StoredField(t: Transport, f: Frame)
    requires WellFormed(t, f)
    ensures Field(t, Recalculated(t, f)) == ALL_ONES - Residue(ClearedSum(t, f))
  {
    var w := ALL_ONES - Residue(ClearedSum(t, f));
    HeadersKept(t, f, w);
    StoredWord(Cleared(t, f), FieldAt(t, f), w);
    assert Recalculated(t, f) == WithField(t, f, w);
  }

  /** When the stored field is zero: exactly when the non-zero sum is a multiple of 65535. The
      substitution of all ones that RFC 768 asks of UDP is never made. */
  lemma StoredFieldZero(t: Transport, f: Frame)
    requires WellFormed(t, f)
    ensures Field(t, Recalculated(t, f)) == 0 <==> ClearedSum(t, f) != 0 && ClearedSum(t, f) % ALL_ONES == 0
    ensures Field(t, Recalculated(t, f)) == ALL_ONES <==> ClearedSum(t, f) == 0
    ensures t.HasPseudoHeader() ==> Field(t, Recalculated(t, f)) != ALL_ONES
  {
    StoredField(t, f);
    ResidueAllOnes(ClearedSum(t, f));
  }

  /** The words a routine adds up: aligned words of its segment other than the field, and for
      TCP and UDP the four address words. */
  predicate Summed(t: Transport, f: Frame, k: nat)
    requires DatagramFits(f)
  {
    || (exists j :: 0 <= j < Words(SegmentLength(f)) && k == SegmentStart(f) + 2 * j && k != FieldAt(t, f))
    || (t.HasPseudoHeader() && exists j :: 0 <= j < 4 && k == IP_SRC + 2 * j)
  }

  lemma ClearedDifferOnlyAt(t: Transport, f: Frame, g: Frame, k: nat)
    requires WellFormed(t, f) && Summed(t, f, k) && DifferOnlyAt(f, g, k)
    ensures WellFormed(t, g) && SegmentStart(g) == SegmentStart(f) && SegmentLength(g) == SegmentLength(f)
    ensures DifferOnlyAt(Cleared(t, f), Cleared(t, g), k)
  {
    assert k >= IP_SRC;
    assert HeaderLength(f) == HeaderLength(g) && TotalLength(f) == TotalLength(g) && Protocol(f) == Protocol(g);
  }

  /** A word of the segment or of the addresses counts once in the sum. */
  lemma SummedWordCounts(t: Transport, c: Frame, d: Frame, start: nat, len: DWord, k: nat)
    requires IP_DST + 4 <= start && start + 2 * Words(len) <= MAX_ETHER_FRAME
    requires DifferOnlyAt(c, d, k) && k + 1 < MAX_ETHER_FRAME
    requires (exists j :: 0 <= j < Words(len) && k == start + 2 * j)
          || (t.HasPseudoHeader() && exists j :: 0 <= j < 4 && k == IP_SRC + 2 * j)
    ensures WordAt(c, k) + (if t.HasPseudoHeader() then 1 else 0) <= SegmentSum(t, c, start, len)
    ensures SegmentSum(t, d, start, len) == SegmentSum(t, c, start, len) - WordAt(c, k) + WordAt(d, k)
  {
    if j :| 0 <= j < Words(len) && k == start + 2 * j {
      WordReplaced(t, c, d, start, len, j);
      SummedWordBelow(c, start, Words(len), j);
    } else {
      var j :| 0 <= j < 4 && k == IP_SRC + 2 * j;
      WordSumReplace(c, d, IP_SRC, 4, j);
      WordSumSame(c, d, start, Words(len));
      SummedWordBelow(c, IP_SRC, 4, j);
    }
  }

  /** One word is at most the whole sum. */
  lemma {:induction false} SummedWordBelow(b: seq<Byte>, start: nat, n: nat, k: nat)
    requires start + 2 * n <= |b| && k < n
    ensures WordAt(b, start + 2 * k) <= WordSum(b, start, n)
  {
    if k < n - 1 {
      SummedWordBelow(b, start, n - 1, k);
    }
  }

  lemma ClearedSumMoves(t: Transport, f: Frame, g: Frame, k: nat)
    requires WellFormed(t, f) && Summed(t, f, k) && DifferOnlyAt(f, g, k)
    ensures WellFormed(t, g) && k + 1 < MAX_ETHER_FRAME
    ensures var v, w := WordAt(Cleared(t, f), k), WordAt(Cleared(t, g), k);
            && v + (if t.HasPseudoHeader() then 1 else 0) <= ClearedSum(t, f)
            && ClearedSum(t, g) == ClearedSum(t, f) - v + w
  {
    ClearedDifferOnlyAt(t, f, g, k);
    SummedWordCounts(t, Cleared(t, f), Cleared(t, g), SegmentStart(f), SegmentLength(f), k);
  }

  /** Exactly when a change of one summed word goes unnoticed: when the words are the two
      representations of zero and something else in the sum is not zero. For TCP and UDP the
      pseudo-header sees to the latter. */
  lemma OneWordChange(t: Transport, f: Frame, g: Frame, k: nat)
    requires WellFormed(t, f) && Summed(t, f, k) && DifferOnlyAt(f, g, k)
    ensures WellFormed(t, g) && k + 1 < MAX_ETHER_FRAME
    ensures var v, w := WordAt(Cleared(t, f), k), WordAt(Cleared(t, g), k);
            (Field(t, Recalculated(t, f)) == Field(t, Recalculated(t, g)))
            <==> (v == w || (BothZeros(v, w) && (t.HasPseudoHeader() || ClearedSum(t, f) > v)))
  {
    ClearedSumMoves(t, f, g, k);
    StoredField(t, f);
    StoredField(t, g);
    ComplementsSeparate(ClearedSum(t, f), WordAt(Cleared(t, f), k), WordAt(Cleared(t, g), k));
  }

  lemma ComplementsSeparate(sum: nat, v: Word, w: Word)
    requires v <= sum
    ensures ALL_ONES - Residue(sum) == ALL_ONES - Residue(sum - v + w)
       <==> v == w || (BothZeros(v, w) && sum > v)
  {
    ResidueSeparates(sum - v, v, w);
  }

  const UNSUBSTITUTED_START := ETHER_HEADER + IP_MIN_HEADER

  /** A UDP packet that goes out with a zero checksum: version 4, 28 bytes from 255.222.0.0 with a
      UDP length of 8, whose sum is 65535. RFC 768 has such a packet carry all ones. */
  function UnsubstitutedPacket(): Frame {
    seq(MAX_ETHER_FRAME, i =>
      if i == ETHER_HEADER then 0x45 else if i == ETHER_HEADER + 3 then 28
      else if i == ETHER_HEADER + 9 then 17
      else if i == IP_SRC then 0xFF else if i == IP_SRC + 1 then 0xDE
      else if i == UNSUBSTITUTED_START + 5 then 8 else 0)
  }

  lemma AllOnesNotSubstituted()
    ensures WellFormed(Udp, UnsubstitutedPacket())
    ensures var f := UnsubstitutedPacket();
            SegmentStart(f) == UNSUBSTITUTED_START && WordAt(f, UNSUBSTITUTED_START + 4) == SegmentLength(f) == 8
    ensures ClearedSum(Udp, UnsubstitutedPacket()) == ALL_ONES
    ensures Field(Udp, Recalculated(Udp, UnsubstitutedPacket())) == 0
  {
    UnsubstitutedIsClear();
    UnsubstitutedWords();
    PseudoWords(UnsubstitutedPacket());
    StoredField(Udp, UnsubstitutedPacket());
  }

  /** Its field is zero and its length even, so that clearing changes nothing. */
  lemma UnsubstitutedIsClear()
    ensures var f := UnsubstitutedPacket();
            && WellFormed(Udp, f) && Cleared(Udp, f) == f
            && SegmentStart(f) == UNSUBSTITUTED_START && SegmentLength(f) == 8
  {
    var f := UnsubstitutedPacket();
    assert HeaderLength(f) == 20 && TotalLength(f) == 28;
    assert f[FieldAt(Udp, f)] == f[FieldAt(Udp, f) + 1] == 0;
  }

  /** Of the packet's segment only the length is not zero. */
  lemma UnsubstitutedWords()
    ensures WordSum(UnsubstitutedPacket(), UNSUBSTITUTED_START, 4) == 8
  {
    var f, start := UnsubstitutedPacket(), UNSUBSTITUTED_START;
    ZeroWords(f, start, 2);
    assert WordSum(f, start, 3) == WordSum(f, start, 2) + WordAt(f, start + 4);
    assert WordSum(f, start, 4) == WordSum(f, start, 3) + WordAt(f, start + 6);
  }

  lemma {:induction false} ZeroWords(b: seq<Byte>, start: nat, n: nat)
    requires start + 2 * n <= |b|
    requires forall i | start <= i < start + 2 * n :: b[i] == 0
    ensures WordSum(b, start, n) == 0
  {
    if n > 0 {
      ZeroWords(b, start, n - 1);
    }
  }

  // ----- the IP header -----

  /** The IP header verifies after its routine, which changes only the header's checksum field,
      whatever that held, and is idempotent. */
  lemma IpRecalculatedVerifies(f: Frame)
    requires IP_MIN_HEADER <= HeaderLength(f)
    ensures Residue(IpHeaderSum(IpRecalculated(f))) == ALL_ONES
  {
    var g := StoreWord(f, IP_SUM, 0);
    var w := ALL_ONES - Residue(IpHeaderSum(g));
    var h := StoreWord(g, IP_SUM, w);
    StoredWord(g, IP_SUM, w);
    StoredWord(f, IP_SUM, 0);
    assert HeaderLength(h) == HeaderLength(g) == HeaderLength(f);
    assert IP_SUM == ETHER_HEADER + 2 * 5;
    WordSumReplace(g, h, ETHER_HEADER, HeaderLength(f) / 2, 5);
    ComplementVerifies(IpHeaderSum(g));
  }

  lemma IpRecalculatedStable(f: Frame, w: Word)
    ensures forall i | 0 <= i < MAX_ETHER_FRAME && i != IP_SUM && i != IP_SUM + 1 :: IpRecalculated(f)[i] == f[i]
    ensures IpRecalculated(IpRecalculated(f)) == IpRecalculated(f)
    ensures IpRecalculated(StoreWord(f, IP_SUM, w)) == IpRecalculated(f)
  {
    assert StoreWord(IpRecalculated(f), IP_SUM, 0) == StoreWord(f, IP_SUM, 0);
    assert StoreWord(StoreWord(f, IP_SUM, w), IP_SUM, 0) == StoreWord(f, IP_SUM, 0);
  }

  // ----- the same on the wire, by offsets and numbers -----

  /** What the frame's bytes say: protocol, header length and total length of a datagram inside it. */
  predicate OnTheWire(f: Frame, protocol: nat, header: nat, total: nat) {
    && f[23] as int == protocol
    && header == 4 * (f[14] as int % 16) && total == 0x100 * f[16] as int + f[17] as int
    && 20 <= header <= total && 14 + total <= 1514
  }

  /** An odd segment is followed by a zero byte, for which an even frame has room. */
  function WirePadded(f: Frame, header: nat, total: nat): Frame
    requires header <= total && 14 + total <= 1514
  {
    if (total - header) % 2 == 1 && 14 + total < 1514 then f[14 + total := 0] else f
  }

  lemma ReadFromTheWire(f: Frame, protocol: nat, header: nat, total: nat)
    requires OnTheWire(f, protocol, header, total)
    ensures DatagramFits(f) && Protocol(f) == protocol && HeaderLength(f) == header && TotalLength(f) == total
    ensures SegmentStart(f) == 14 + header && SegmentLength(f) == total - header
    ensures Padded(f) == WirePadded(f, header, total)
  {
  }

  lemma SumOnTheWire(t: Transport, g: Frame, header: nat, total: nat)
    requires OnTheWire(g, t.Number(), header, total)
    ensures ReceiverSum(t, g) ==
      WordSum(WirePadded(g, header, total), 14 + header, (total - header + 1) / 2) + PseudoSum(t, g, total - header)
  {
    ReadFromTheWire(g, t.Number(), header, total);
    WordSumSame(Padded(g), g, IP_SRC, 4);
  }

  lemma VerifiesOnTheWire(t: Transport, f: Frame, header: nat, total: nat)
    requires OnTheWire(f, t.Number(), header, total) && header + t.MinHeader() <= total
    ensures var g := Recalculated(t, f);
            && OnTheWire(g, t.Number(), header, total)
            && Residue(WordSum(WirePadded(g, header, total), 14 + header, (total - header + 1) / 2)
                       + PseudoSum(t, g, total - header)) == ALL_ONES
  {
    var g := Recalculated(t, f);
    ReadFromTheWire(f, t.Number(), header, total);
    StaysOnTheWire(t, f, header, total);
    RecalculatedVerifies(t, f);
    SumOnTheWire(t, g, header, total);
  }

  lemma StaysOnTheWire(t: Transport, f: Frame, header: nat, total: nat)
    requires OnTheWire(f, t.Number(), header, total) && header + t.MinHeader() <= total
    requires Protocol(f) == t.Number() && DatagramFits(f)
    ensures OnTheWire(Recalculated(t, f), t.Number(), header, total)
  {
    HeadersKept(t, f, ALL_ONES - Residue(ClearedSum(t, f)));
    assert forall i | 0 <= i < ETHER_HEADER + IP_MIN_HEADER :: Recalculated(t, f)[i] == f[i];
  }

  lemma ChangedOnTheWire(t: Transport, f: Frame, header: nat, total: nat)
    requires OnTheWire(f, t.Number(), header, total) && header + t.MinHeader() <= total
    ensures forall i | 0 <= i < 1514 && i != 14 + header + t.FieldOffset() && i != 14 + header + t.FieldOffset() + 1 ::
      Recalculated(t, f)[i] == WirePadded(f, header, total)[i]
  {
    ReadFromTheWire(f, t.Number(), header, total);
    OnlyFieldAndPaddingChange(t, f);
  }

  /** TCP: segment, four address words, protocol 6 and length add up to all ones, and only bytes 16 and 17
      of the TCP header and an odd segment's padding change. */
  lemma TcpOnTheWire(f: Frame, header: nat, total: nat)
    requires OnTheWire(f, 6, header, total) && header + 20 <= total
    ensures var g := Recalculated(Tcp, f);
            && Residue(
                 WordSum(WirePadded(g, header, total), 14 + header, (total - header + 1) / 2)
                 + WordAt(g, 26) + WordAt(g, 28) + WordAt(g, 30) + WordAt(g, 32) + 6 + (total - header)) == 0xFFFF
            && forall i | 0 <= i < 1514 && i != 14 + header + 16 && i != 14 + header + 17 ::
                 g[i] == WirePadded(f, header, total)[i]
  {
    VerifiesOnTheWire(Tcp, f, header, total);
    PseudoWords(Recalculated(Tcp, f));
    ChangedOnTheWire(Tcp, f, header, total);
  }

  /** UDP: the same with protocol 17, and bytes 6 and 7 of the UDP header. */
  lemma UdpOnTheWire(f: Frame, header: nat, total: nat)
    requires OnTheWire(f, 17, header, total) && header + 8 <= total
    ensures var g := Recalculated(Udp, f);
            && Residue(
                 WordSum(WirePadded(g, header, total), 14 + header, (total - header + 1) / 2)
                 + WordAt(g, 26) + WordAt(g, 28) + WordAt(g, 30) + WordAt(g, 32) + 17 + (total - header)) == 0xFFFF
            && forall i | 0 <= i < 1514 && i != 14 + header + 6 && i != 14 + header + 7 ::
                 g[i] == WirePadded(f, header, total)[i]
  {
    VerifiesOnTheWire(Udp, f, header, total);
    PseudoWords(Recalculated(Udp, f));
    ChangedOnTheWire(Udp, f, header, total);
  }

  /** ICMP: the segment alone, and bytes 2 and 3 of the ICMP header. */
  lemma IcmpOnTheWire(f: Frame, header: nat, total: nat)
    requires OnTheWire(f, 1, header, total) && header + 8 <= total
    ensures var g := Recalculated(Icmp, f);
            && Residue(WordSum(WirePadded(g, header, total), 14 + header, (total - header + 1) / 2)) == 0xFFFF
            && forall i | 0 <= i < 1514 && i != 14 + header + 2 && i != 14 + header + 3 ::
                 g[i] == WirePadded(f, header, total)[i]
  {
    VerifiesOnTheWire(Icmp, f, header, total);
    ChangedOnTheWire(Icmp, f, header, total);
  }

  /** IP: the header's words add up to all ones, and only bytes 10 and 11 of it change. */
  lemma IpOnTheWire(f: Frame)
    requires 20 <= 4 * (f[14] as int % 16)
    ensures Residue(WordSum(IpRecalculated(f), 14, 2 * (f[14] as int % 16))) == 0xFFFF
    ensures forall i | 0 <= i < 1514 && i != 24 && i != 25 :: IpRecalculated(f)[i] == f[i]
  {
    IpRecalculatedVerifies(f);
    IpRecalculatedStable(f, 0);
  }
}
