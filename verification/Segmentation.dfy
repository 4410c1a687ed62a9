/** Cutting point lists into frames: the batch loops of interrogation, counter call, active
    upload and the custom calls, and the payload of the custom word frames. */
module Segmentation {
  import opened Iec104

  const UINT32: nat := 0x1_0000_0000
  const INT32: int := 0x8000_0000

  const GI_MAX_YX_PER_FRAME := 80
  const ACTIVE_MAX_YX_PER_FRAME := 60
  const ACTIVE_MAX_SOE_PER_FRAME := 20
  const GI_MAX_YC_SCALED_PER_FRAME := 80
  const GI_MAX_YC_SHORT_PER_FRAME := 48
  const ACTIVE_MAX_YC_TIME_SCALED_PER_FRAME := 18
  const ACTIVE_MAX_YC_TIME_SHORT_PER_FRAME := 16
  const CI_MAX_DD_PER_FRAME := 48
  const MAX_WORDS_PER_FRAME := 116

  /** The octets the information objects of one ASDU may take: the 253 octets that section 5
      of IEC 60870-5-104 leaves for an APDU after its length field, less four control octets
      and a six-octet data unit identifier. */
  const OBJECT_OCTETS := 243

  datatype Point = Point(ioa: nat, iecType: int, cot: int, value: int)

  /** The loops.  The custom ones walk a range of addresses. */
  datatype Loop =
    | GiYx | GiYc | Counters
    | ActiveYx | ActiveSoe | ActiveYc
    | Words(start: int, end: int) | Dynagram(start: int, end: int)

  predicate Ranged(loop: Loop) { loop.Words? || loop.Dynagram? }

  /** Addresses are 32-bit words and range bounds are ints. */
  predicate InWidth(loop: Loop, points: seq<Point>) {
    && (forall i :: 0 <= i < |points| ==> points[i].ioa < UINT32)
    && (Ranged(loop) ==> -INT32 <= loop.start < INT32 && -INT32 <= loop.end < INT32)
  }

  /** The cast of an address to int. */
  function Signed(ioa: nat): int { if ioa < INT32 then ioa else ioa - UINT32 }

  predicate Selected(loop: Loop, p: Point) {
    Ranged(loop) ==> loop.start <= Signed(p.ioa) <= loop.end
  }

  function MaxBatch(loop: Loop, first: Point): (n: nat)
    ensures n > 0
  {
    match loop
    case GiYx => GI_MAX_YX_PER_FRAME
    case GiYc => if first.iecType == M_ME_NB_1 then GI_MAX_YC_SCALED_PER_FRAME else GI_MAX_YC_SHORT_PER_FRAME
    case Counters => CI_MAX_DD_PER_FRAME
    case ActiveYx => ACTIVE_MAX_YX_PER_FRAME
    case ActiveSoe => ACTIVE_MAX_SOE_PER_FRAME
    case ActiveYc =>
      if first.iecType == M_ME_NC_1 then ACTIVE_MAX_YC_TIME_SHORT_PER_FRAME
      else ACTIVE_MAX_YC_TIME_SCALED_PER_FRAME
    case _ => MAX_WORDS_PER_FRAME
  }

  /** One address per frame, the others following from it. */
  predicate IsSequence(loop: Loop) { !loop.ActiveYx? && !loop.ActiveSoe? && !loop.ActiveYc? }

  /** Point `next` may be the element at `offset` of the frame that `first` begins. */
  predicate Joins(loop: Loop, first: Point, next: Point, offset: nat) {
    && (IsSequence(loop) ==> next.ioa == (first.ioa + offset) % UINT32)
    && (loop.GiYc? || loop.ActiveYc? ==> next.iecType == first.iecType)
    && (loop.ActiveYc? ==> next.cot == first.cot)
    && (Ranged(loop) ==> Signed(next.ioa) <= loop.end)
  }

  // ---- the frames ---------------------------------------------------------------------------

  /** The length of the frame that begins at i, grown from n. */
  function Batch(loop: Loop, points: seq<Point>, i: nat, n: nat): (r: nat)
    requires i < |points| && 1 <= n <= |points| - i
    ensures n <= r <= |points| - i
    decreases |points| - n
  {
    if i + n < |points| && n < MaxBatch(loop, points[i]) && Joins(loop, points[i], points[i + n], n)
    then Batch(loop, points, i, n + 1)
    else n
  }

  function Frames(loop: Loop, points: seq<Point>, i: nat): seq<seq<Point>>
    requires i <= |points|
    decreases |points| - i
  {
    if i == |points| then []
    else if !Selected(loop, points[i]) then Frames(loop, points, i + 1)
    else
      var n := Batch(loop, points, i, 1);
      [points[i..i + n]] + Frames(loop, points, i + n)
  }

  function Firsts(frames: seq<seq<Point>>, n: nat): seq<seq<Point>> {
    if |frames| <= n then frames else frames[..n]
  }

  /** The loop itself; the client is active for the first `alive` frames. */
  method Send(loop: Loop, points: seq<Point>, alive: nat) returns (frames: seq<seq<Point>>)
    ensures frames == Firsts(Frames(loop, points, 0), alive)
  {
    frames := [];
    ghost var all := Frames(loop, points, 0);
    var i := 0;
    while i < |points| && |frames| < alive
      invariant 0 <= i <= |points| && |frames| <= alive
      invariant all == frames + Frames(loop, points, i)
      decreases |points| - i
    {
      if !Selected(loop, points[i]) {
        i := i + 1;
        continue;
      }
      var batch := NextBatch(loop, points, i);
      NextFrame(loop, points, i, all, frames);
      frames := frames + [points[i..i + batch]];
      i := i + batch;
    }
  }

  lemma {:induction false} NextFrame(loop: Loop, points: seq<Point>, i: nat, all: seq<seq<Point>>, before: seq<seq<Point>>)
    requires i < |points| && Selected(loop, points[i]) && all == before + Frames(loop, points, i)
    ensures var n := Batch(loop, points, i, 1);
            all == before + [points[i..i + n]] + Frames(loop, points, i + n)
  {
  }

  /** The inner loop: how far the frame that begins at i goes. */
  method NextBatch(loop: Loop, points: seq<Point>, i: nat) returns (batch: nat)
    requires i < |points|
    ensures batch == Batch(loop, points, i, 1)
  {
    batch := 1;
    while i + batch < |points| && batch < MaxBatch(loop, points[i])
          && Joins(loop, points[i], points[i + batch], batch)
      invariant 1 <= batch <= |points| - i
      invariant Batch(loop, points, i, 1) == Batch(loop, points, i, batch)
    {
      batch := batch + 1;
    }
  }

  // ---- what the frames hold ------------------------------------------------------------------

  function Chosen(loop: Loop, points: seq<Point>, i: nat): seq<Point>
    requires i <= |points|
    decreases |points| - i
  {
    if i == |points| then []
    else if Selected(loop, points[i]) then [points[i]] + Chosen(loop, points, i + 1)
    else Chosen(loop, points, i + 1)
  }

  function Flat(frames: seq<seq<Point>>): seq<Point> {
    if frames == [] then [] else frames[0] + Flat(frames[1..])
  }

  /** A frame is what the rules of its loop allow. */
  ghost predicate FrameOk(loop: Loop, frame: seq<Point>) {
    && 0 < |frame| <= MaxBatch(loop, frame[0])
    && forall k :: 0 <= k < |frame| ==> frame[k].ioa < UINT32 && Joins(loop, frame[0], frame[k], k)
  }

  lemma {:induction false} BatchJoins(loop: Loop, points: seq<Point>, i: nat, n: nat, k: nat)
    requires i < |points| && 1 <= n <= |points| - i && n <= k < Batch(loop, points, i, n)
    ensures k < MaxBatch(loop, points[i]) && Joins(loop, points[i], points[i + k], k)
    decreases |points| - n
  {
    if n < k {
      BatchJoins(loop, points, i, n + 1, k);
    }
  }

  lemma {:induction false} BatchMax(loop: Loop, points: seq<Point>, i: nat, n: nat)
    requires i < |points| && 1 <= n <= |points| - i && n <= MaxBatch(loop, points[i])
    ensures Batch(loop, points, i, n) <= MaxBatch(loop, points[i])
    decreases |points| - n
  {
    if Batch(loop, points, i, n) != n {
      BatchMax(loop, points, i, n + 1);
    }
  }

  /** A frame ends only at the end of the list, at its limit, or before a point that does not
      fit: no frame is shorter than it could be. */
  lemma {:induction false} BatchStops(loop: Loop, points: seq<Point>, i: nat, n: nat)
    requires i < |points| && 1 <= n <= |points| - i && n <= MaxBatch(loop, points[i])
    ensures var r := Batch(loop, points, i, n);
            i + r == |points| || r == MaxBatch(loop, points[i]) || !Joins(loop, points[i], points[i + r], r)
    decreases |points| - n
  {
    BatchMax(loop, points, i, n);
    if Batch(loop, points, i, n) != n {
      BatchStops(loop, points, i, n + 1);
    }
  }

  lemma {:induction false} FirstFrame(loop: Loop, points: seq<Point>, i: nat)
    requires InWidth(loop, points) && i < |points| && Selected(loop, points[i])
    ensures FrameOk(loop, points[i..i + Batch(loop, points, i, 1)])
  {
    var n := Batch(loop, points, i, 1);
    var frame := points[i..i + n];
    BatchMax(loop, points, i, 1);
    forall k | 0 <= k < n ensures frame[k].ioa < UINT32 && Joins(loop, frame[0], frame[k], k) {
      assert frame[k] == points[i + k];
      if k > 0 {
        BatchJoins(loop, points, i, 1, k);
      }
    }
  }

  /** The top of the signed addresses: the next address is below every range but the one that
      begins at the bottom. */
  const TOP: nat := 0x7fff_ffff

  /** The range does not let a frame cross the top. */
  predicate Uncrossed(loop: Loop) { Ranged(loop) ==> loop.end < TOP || loop.start == -INT32 }

  /** Neither does it, nor is there a selected point at the top. */
  predicate Level(loop: Loop, points: seq<Point>) {
    Uncrossed(loop) || forall i :: 0 <= i < |points| ==> !(Selected(loop, points[i]) && points[i].ioa == TOP)
  }

  lemma {:induction false} NextSigned(first: nat, prev: nat, next: nat, k: nat)
    requires first < UINT32 && prev < UINT32 && 0 < k <= MAX_WORDS_PER_FRAME
    requires Signed(prev) == Signed(first) + k - 1 && prev != TOP && next == (first + k) % UINT32
    ensures Signed(next) == Signed(first) + k
  {
  }

  /** A point in a frame that begins with a selected one is selected: ranges are walked upwards. */
  lemma {:induction false} BatchSelected(loop: Loop, points: seq<Point>, i: nat, k: nat)
    requires InWidth(loop, points) && Level(loop, points) && i < |points| && Selected(loop, points[i])
    requires k < Batch(loop, points, i, 1)
    ensures Selected(loop, points[i + k])
    ensures Ranged(loop) && loop.start != -INT32 ==> Signed(points[i + k].ioa) == Signed(points[i].ioa) + k
    decreases k
  {
    if k > 0 {
      BatchSelected(loop, points, i, k - 1);
      BatchJoins(loop, points, i, 1, k);
      if Ranged(loop) && loop.start != -INT32 {
        assert points[i + k - 1].ioa != TOP;
        NextSigned(points[i].ioa, points[i + k - 1].ioa, points[i + k].ioa, k);
      }
    }
  }

  lemma {:induction false} ConsSlice(points: seq<Point>, i: nat, n: nat, rest: seq<Point>)
    requires 0 < n && i + n <= |points|
    ensures [points[i]] + (points[i + 1..i + n] + rest) == points[i..i + n] + rest
  {
  }

  /** A run of chosen points is chosen whole. */
  lemma {:induction false} ChosenRun(loop: Loop, points: seq<Point>, i: nat, n: nat)
    requires i + n <= |points| && forall k :: i <= k < i + n ==> Selected(loop, points[k])
    ensures Chosen(loop, points, i) == points[i..i + n] + Chosen(loop, points, i + n)
    decreases n
  {
    if n == 0 {
      assert points[i..i + n] == [];
    } else {
      ChosenRun(loop, points, i + 1, n - 1);
      ConsSlice(points, i, n, Chosen(loop, points, i + n));
    }
  }

  lemma {:induction false} FrameChosen(loop: Loop, points: seq<Point>, i: nat)
    requires InWidth(loop, points) && Level(loop, points) && i < |points| && Selected(loop, points[i])
    ensures var n := Batch(loop, points, i, 1);
            Chosen(loop, points, i) == points[i..i + n] + Chosen(loop, points, i + n)
  {
    var n := Batch(loop, points, i, 1);
    forall k | i <= k < i + n ensures Selected(loop, points[k]) {
      BatchSelected(loop, points, i, k - i);
    }
    ChosenRun(loop, points, i, n);
  }

  lemma {:induction false} FlatCons(frame: seq<Point>, rest: seq<seq<Point>>)
    ensures Flat([frame] + rest) == frame + Flat(rest)
  {
  }

  /** The frames hold exactly the selected points, in order. */
  lemma {:induction false} FramesCover(loop: Loop, points: seq<Point>, i: nat)
    requires InWidth(loop, points) && Level(loop, points) && i <= |points|
    ensures Flat(Frames(loop, points, i)) == Chosen(loop, points, i)
    decreases |points| - i
  {
    if i < |points| {
      if !Selected(loop, points[i]) {
        FramesCover(loop, points, i + 1);
      } else {
        var n := Batch(loop, points, i, 1);
        FrameChosen(loop, points, i);
        FramesCover(loop, points, i + n);
        FlatCons(points[i..i + n], Frames(loop, points, i + n));
      }
    }
  }

  /** Two points on either side of the top go into one frame, though only the first is selected. */
  lemma {:induction false} TopCrossed(loop: Loop)
    requires Ranged(loop) && InWidth(loop, []) && !Uncrossed(loop)
    ensures var points := [Point(TOP, 0, 0, 0), Point(TOP + 1, 0, 0, 0)];
            InWidth(loop, points) && Flat(Frames(loop, points, 0)) == points && Chosen(loop, points, 0) == points[..1]
  {
    var points := [Point(TOP, 0, 0, 0), Point(TOP + 1, 0, 0, 0)];
    assert Batch(loop, points, 0, 2) == 2 && Joins(loop, points[0], points[1], 1);
    assert points[0..2] == points;
    FlatCons(points, []);
    assert Chosen(loop, points, 1) == [];
  }

  /** The frames hold exactly the selected points for every list of points, if and only if the
      range ends below the top of the signed addresses or begins at their bottom. */
  lemma {:induction false} CoverIff(loop: Loop)
    requires InWidth(loop, [])
    ensures (forall points :: InWidth(loop, points) ==> Flat(Frames(loop, points, 0)) == Chosen(loop, points, 0))
            <==> Uncrossed(loop)
  {
    if Uncrossed(loop) {
      forall points | InWidth(loop, points) ensures Flat(Frames(loop, points, 0)) == Chosen(loop, points, 0) {
        FramesCover(loop, points, 0);
      }
    } else {
      TopCrossed(loop);
    }
  }

  /** Every frame obeys the rules of its loop. */
  lemma {:induction false} FramesObey(loop: Loop, points: seq<Point>, i: nat, f: nat)
    requires InWidth(loop, points) && i <= |points| && f < |Frames(loop, points, i)|
    ensures FrameOk(loop, Frames(loop, points, i)[f])
    decreases |points| - i
  {
    if !Selected(loop, points[i]) {
      FramesObey(loop, points, i + 1, f);
    } else if f == 0 {
      FirstFrame(loop, points, i);
    } else {
      FramesObey(loop, points, i + Batch(loop, points, i, 1), f - 1);
    }
  }

  /** In a sequence frame of any of the loops, element k has address first + k. */
  lemma {:induction false} SequenceAddresses(loop: Loop, points: seq<Point>, f: nat, k: nat)
    requires InWidth(loop, points) && IsSequence(loop)
    requires f < |Frames(loop, points, 0)| && k < |Frames(loop, points, 0)[f]|
    ensures var frame := Frames(loop, points, 0)[f]; frame[k].ioa == (frame[0].ioa + k) % UINT32
  {
    FramesObey(loop, points, 0, f);
  }

  // ---- sizes ------------------------------------------------------------------------------------

  /** The octets of one element without its address: value and quality, and seven of time. */
  function ElementOctets(loop: Loop, iecType: int): nat {
    match loop
    case GiYx => 1
    case GiYc => if iecType == M_ME_NA_1 || iecType == M_ME_NB_1 then 3 else 5
    case Counters => 5
    case ActiveYx => 1
    case ActiveSoe => 8
    case ActiveYc => if iecType == M_ME_NA_1 || iecType == M_ME_NB_1 then 10 else 12
    case _ => 2
  }

  function FrameOctets(loop: Loop, frame: seq<Point>): nat
    requires frame != []
  {
    var element := ElementOctets(loop, frame[0].iecType);
    if IsSequence(loop) then 3 + |frame| * element + (if loop.Dynagram? then 7 else 0)
    else |frame| * (3 + element)
  }

  /** The values of the measured-value type that the configuration knows. */
  predicate KnownType(iecType: int) { iecType == M_ME_NA_1 || iecType == M_ME_NB_1 || iecType == M_ME_NC_1 }

  /** Every frame fits into one ASDU.  The one exception is outside the three known types: the
      active upload counts such a value as short when it fills a frame and writes it long. */
  lemma {:induction false} FrameFits(loop: Loop, frame: seq<Point>)
    requires FrameOk(loop, frame)
    ensures FrameOctets(loop, frame) <= OBJECT_OCTETS <==>
            (loop.ActiveYc? ==> KnownType(frame[0].iecType) || |frame| <= ACTIVE_MAX_YC_TIME_SHORT_PER_FRAME)
  {
  }

  /** The batch limits cannot be raised: a full frame of scaled or short values or of counters
      leaves no room for another element. */
  lemma {:induction false} LimitsTight(loop: Loop, frame: seq<Point>)
    requires FrameOk(loop, frame) && |frame| == MaxBatch(loop, frame[0])
    requires loop.Counters? || (loop.GiYc? && (frame[0].iecType == M_ME_NB_1 || frame[0].iecType == M_ME_NC_1))
    ensures FrameOctets(loop, frame) + ElementOctets(loop, frame[0].iecType) > OBJECT_OCTETS
  {
  }

  // ---- the payload of a word frame ----------------------------------------------------------------

  type Octet = x: int | 0 <= x < 256

  const TIME_OCTETS := 7

  /** append_ioa_le and append_word_le. */
  function IoaOctets(ioa: nat): seq<Octet> { [ioa % 256, ioa / 256 % 256, ioa / 65536 % 256] }
  function WordOctets(value: int): seq<Octet> { [value % 65536 % 256, value % 65536 / 256] }

  function WordsOctets(frame: seq<Point>): (r: seq<Octet>)
    ensures |r| == 2 * |frame|
  {
    if frame == [] then []
    else WordsOctets(frame[..|frame| - 1]) + WordOctets(frame[|frame| - 1].value)
  }

  method AppendWord(buffer: array<Octet>, offset: nat, value: int) returns (next: nat)
    requires offset + 2 <= buffer.Length
    modifies buffer
    ensures next == offset + 2
    ensures buffer[..next] == old(buffer[..offset]) + WordOctets(value)
  {
    var word := value % 65536;
    buffer[offset] := word % 256;
    buffer[offset + 1] := word / 256;
    next := offset + 2;
  }

  method AppendIoa(buffer: array<Octet>, ioa: nat) returns (next: nat)
    requires 3 <= buffer.Length
    modifies buffer
    ensures next == 3 && buffer[..next] == IoaOctets(ioa)
  {
    buffer[0] := ioa % 256;
    buffer[1] := ioa / 256 % 256;
    buffer[2] := ioa / 65536 % 256;
    next := 3;
  }

  /** The payload that send_custom_dynagram_frame (with a time) and the other word senders
      (without one) build in a buffer of this size. */
  method BuildPayload(frame: seq<Point>, time: seq<Octet>) returns (payload: seq<Octet>)
    requires 0 < |frame| <= MAX_WORDS_PER_FRAME && (|time| == 0 || |time| == TIME_OCTETS)
    ensures payload == IoaOctets(frame[0].ioa) + WordsOctets(frame) + time
    ensures |payload| == 3 + 2 * |frame| + |time| <= OBJECT_OCTETS
  {
    var buffer := new Octet[3 + MAX_WORDS_PER_FRAME * 2 + TIME_OCTETS](_ => 0);
    var offset := AppendIoa(buffer, frame[0].ioa);
    for i := 0 to |frame|
      invariant offset == 3 + 2 * i && buffer[..offset] == IoaOctets(frame[0].ioa) + WordsOctets(frame[..i])
    {
      offset := AppendWord(buffer, offset, frame[i].value);
      assert frame[..i + 1][..i] == frame[..i];
    }
    assert frame[..|frame|] == frame;
    payload := buffer[..offset] + time;
  }

  function ReadIoa(payload: seq<Octet>): nat
    requires |payload| >= 3
  {
    var a: int, b: int, c: int := payload[0], payload[1], payload[2];
    a + 256 * b + 65536 * c
  }

  function WordOf(octets: seq<Octet>, i: nat): nat
    requires i + 1 < |octets|
  {
    var low: int, high: int := octets[i], octets[i + 1];
    low + 256 * high
  }

  function ReadWord(payload: seq<Octet>, k: nat): nat
    requires 3 + 2 * k + 1 < |payload|
  {
    WordOf(payload, 3 + 2 * k)
  }

  lemma {:induction false} WordsAt(frame: seq<Point>, k: nat)
    requires k < |frame|
    ensures WordOf(WordsOctets(frame), 2 * k) == frame[k].value % 65536
    decreases |frame|
  {
    if k < |frame| - 1 {
      WordsAt(frame[..|frame| - 1], k);
    }
  }

  /** Addresses on the wire have three octets. */
  const ADDRESSES: nat := 0x100_0000

  lemma {:induction false} Octets(ioa: nat)
    ensures ioa == ioa % 256 + 256 * (ioa / 256 % 256) + 65536 * (ioa / 65536 % 256) + ADDRESSES * (ioa / 65536 / 256)
  {
    var rest := ioa / 256;
    assert ioa / 65536 == rest / 256;
  }

  lemma {:induction false} OverTop(low: nat, top: nat)
    requires low < ADDRESSES
    ensures (low + ADDRESSES * top) % ADDRESSES == low
  {
  }

  lemma {:induction false} ThreeOctets(ioa: nat)
    ensures ReadIoa(IoaOctets(ioa)) == ioa % ADDRESSES
  {
    Octets(ioa);
    OverTop(ReadIoa(IoaOctets(ioa)), ioa / 65536 / 256);
  }

  lemma {:induction false} ReadBack(head: seq<Octet>, words: seq<Octet>, time: seq<Octet>, k: nat)
    requires |head| == 3 && 2 * k + 1 < |words|
    ensures var payload := head + words + time;
            ReadIoa(payload) == ReadIoa(head) && ReadWord(payload, k) == WordOf(words, 2 * k)
  {
  }

  /** Below the top of the address space, element k has address first + k. */
  lemma {:induction false} AddressesAscend(loop: Loop, frame: seq<Point>, k: nat)
    requires FrameOk(loop, frame) && IsSequence(loop) && k < |frame| && frame[0].ioa + |frame| <= UINT32
    ensures frame[k].ioa == frame[0].ioa + k
  {
  }

  lemma {:induction false} PayloadReads(frame: seq<Point>, time: seq<Octet>, k: nat)
    requires k < |frame| && frame[0].ioa < ADDRESSES
    ensures var payload := IoaOctets(frame[0].ioa) + WordsOctets(frame) + time;
            ReadIoa(payload) == frame[0].ioa && ReadWord(payload, k) == frame[k].value % 65536
  {
    ReadBack(IoaOctets(frame[0].ioa), WordsOctets(frame), time, k);
    ThreeOctets(frame[0].ioa);
    WordsAt(frame, k);
  }

  /** Reading a payload back: the first address, and so all of them, and the low 16 bits of
      every value, for addresses of three octets. */
  lemma {:induction false} PayloadRoundTrip(loop: Loop, frame: seq<Point>, time: seq<Octet>, k: nat)
    requires Ranged(loop) && FrameOk(loop, frame) && k < |frame|
    requires frame[0].ioa + |frame| <= ADDRESSES
    ensures var payload := IoaOctets(frame[0].ioa) + WordsOctets(frame) + time;
            && ReadIoa(payload) + k == frame[k].ioa
            && ReadWord(payload, k) == frame[k].value % 65536
  {
    AddressesAscend(loop, frame, k);
    PayloadReads(frame, time, k);
  }

  // ---- what a master receives -------------------------------------------------------------------

  /** One information object as a master reads it: where the loop does not go by the type or
      the cause of a point, they are those of the call and not the point's. */
  datatype Object = Object(ioa: nat, value: int, iecType: int, cot: int)

  /** One ASDU: type and cause once, one address in a sequence and else one each, the values. */
  datatype Asdu = Asdu(sequence: bool, iecType: int, cot: int, addresses: seq<seq<Octet>>, values: seq<int>)

  function TypeOf(loop: Loop, p: Point): int { if loop.GiYc? || loop.ActiveYc? then p.iecType else 0 }
  function CauseOf(loop: Loop, p: Point): int { if loop.ActiveYc? then p.cot else 0 }
  function ValueOf(loop: Loop, p: Point): int { if Ranged(loop) then p.value % 65536 else p.value }

  function Meant(loop: Loop, p: Point): Object {
    Object(p.ioa, ValueOf(loop, p), TypeOf(loop, p), CauseOf(loop, p))
  }

  function MeantAll(loop: Loop, points: seq<Point>): seq<Object> {
    seq(|points|, k requires 0 <= k < |points| => Meant(loop, points[k]))
  }

  function Encode(loop: Loop, frame: seq<Point>): Asdu
    requires frame != []
  {
    Asdu(IsSequence(loop), TypeOf(loop, frame[0]), CauseOf(loop, frame[0]),
         if IsSequence(loop) then [IoaOctets(frame[0].ioa)]
         else seq(|frame|, k requires 0 <= k < |frame| => IoaOctets(frame[k].ioa)),
         seq(|frame|, k requires 0 <= k < |frame| => ValueOf(loop, frame[k])))
  }

  predicate WellFormed(a: Asdu) {
    && (if a.sequence then |a.addresses| == 1 else |a.addresses| == |a.values|)
    && forall k :: 0 <= k < |a.addresses| ==> |a.addresses[k]| == 3
  }

  /** A master counts the addresses of a sequence up from the first. */
  function Decode(a: Asdu): seq<Object>
    requires WellFormed(a)
  {
    seq(|a.values|, k requires 0 <= k < |a.values| =>
      Object(if a.sequence then (ReadIoa(a.addresses[0]) + k) % ADDRESSES else ReadIoa(a.addresses[k]),
             a.values[k], a.iecType, a.cot))
  }

  function Received(loop: Loop, frames: seq<seq<Point>>): seq<Object> {
    if frames == [] then []
    else if frames[0] == [] then Received(loop, frames[1..])
    else Decode(Encode(loop, frames[0])) + Received(loop, frames[1..])
  }

  /** A point with the address that three octets leave of its own. */
  function Cut(p: Point): Point { p.(ioa := p.ioa % ADDRESSES) }

  function CutAll(points: seq<Point>): seq<Point> {
    seq(|points|, k requires 0 <= k < |points| => Cut(points[k]))
  }

  lemma {:induction false} CountUp(first: nat, k: nat)
    ensures (first % ADDRESSES + k) % ADDRESSES == (first + k) % UINT32 % ADDRESSES
  {
  }

  lemma {:induction false} ObjectReceived(loop: Loop, frame: seq<Point>, k: nat)
    requires FrameOk(loop, frame) && k < |frame|
    ensures Decode(Encode(loop, frame))[k] == Meant(loop, Cut(frame[k]))
  {
    assert Joins(loop, frame[0], frame[k], k);
    ThreeOctets(frame[0].ioa);
    ThreeOctets(frame[k].ioa);
    CountUp(frame[0].ioa, k);
  }

  lemma {:induction false} FrameReceived(loop: Loop, frame: seq<Point>)
    requires FrameOk(loop, frame)
    ensures Decode(Encode(loop, frame)) == MeantAll(loop, CutAll(frame))
  {
    var got := Decode(Encode(loop, frame));
    forall k | 0 <= k < |frame| ensures got[k] == Meant(loop, Cut(frame[k])) {
      ObjectReceived(loop, frame, k);
    }
  }

  lemma {:induction false} MeantConcat(loop: Loop, a: seq<Point>, b: seq<Point>)
    ensures MeantAll(loop, CutAll(a + b)) == MeantAll(loop, CutAll(a)) + MeantAll(loop, CutAll(b))
  {
  }

  lemma {:induction false} FramesReceived(loop: Loop, frames: seq<seq<Point>>)
    requires forall f :: 0 <= f < |frames| ==> FrameOk(loop, frames[f])
    ensures Received(loop, frames) == MeantAll(loop, CutAll(Flat(frames)))
    decreases |frames|
  {
    if frames != [] {
      FrameReceived(loop, frames[0]);
      FramesReceived(loop, frames[1..]);
      MeantConcat(loop, frames[0], Flat(frames[1..]));
    }
  }

  lemma {:induction false} CutIff(loop: Loop, points: seq<Point>)
    ensures MeantAll(loop, CutAll(points)) == MeantAll(loop, points) <==>
            forall k :: 0 <= k < |points| ==> points[k].ioa < ADDRESSES
  {
    var got, meant := MeantAll(loop, CutAll(points)), MeantAll(loop, points);
    forall k | 0 <= k < |points| ensures got[k] == meant[k] <==> points[k].ioa < ADDRESSES {
    }
    if got == meant {
      forall k | 0 <= k < |points| ensures points[k].ioa < ADDRESSES {
        assert got[k] == meant[k];
      }
    }
  }

  lemma {:induction false} CutBelow(loop: Loop, points: seq<Point>)
    ensures forall k :: 0 <= k < |MeantAll(loop, CutAll(points))| ==> MeantAll(loop, CutAll(points))[k].ioa < ADDRESSES
  {
  }

  lemma {:induction false} ChosenLevel(loop: Loop, points: seq<Point>, i: nat)
    requires i <= |points|
    requires forall k :: 0 <= k < |Chosen(loop, points, i)| ==> Chosen(loop, points, i)[k].ioa < ADDRESSES
    ensures forall k :: i <= k < |points| && Selected(loop, points[k]) ==> points[k].ioa < ADDRESSES
    decreases |points| - i
  {
    if i < |points| {
      var rest := Chosen(loop, points, i + 1);
      if Selected(loop, points[i]) {
        var all := Chosen(loop, points, i);
        assert all[0] == points[i];
        forall k | 0 <= k < |rest| ensures rest[k].ioa < ADDRESSES {
          assert all[k + 1] == rest[k];
        }
      } else {
        assert Chosen(loop, points, i) == rest;
      }
      ChosenLevel(loop, points, i + 1);
    }
  }

  /** The round trip: a master that decodes the frames of a loop gets the selected points, all,
      in order and with their own addresses, values, types and causes, if and only if every
      selected address has at most three octets. */
  lemma {:induction false} ReceivedIff(loop: Loop, points: seq<Point>)
    requires InWidth(loop, points)
    ensures var chosen := Chosen(loop, points, 0);
            Received(loop, Frames(loop, points, 0)) == MeantAll(loop, chosen) <==>
            forall k :: 0 <= k < |chosen| ==> chosen[k].ioa < ADDRESSES
  {
    var frames, chosen := Frames(loop, points, 0), Chosen(loop, points, 0);
    forall f | 0 <= f < |frames| ensures FrameOk(loop, frames[f]) {
      FramesObey(loop, points, 0, f);
    }
    FramesReceived(loop, frames);
    if k :| 0 <= k < |chosen| && chosen[k].ioa >= ADDRESSES {
      assert MeantAll(loop, chosen)[k].ioa >= ADDRESSES;
      CutBelow(loop, Flat(frames));
    } else {
      ChosenLevel(loop, points, 0);
      FramesCover(loop, points, 0);
      CutIff(loop, chosen);
    }
  }
}
