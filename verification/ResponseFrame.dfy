/**
  The self-describing response frame: a frame states its own length, so encoding
  searches for a length that agrees with its numeral. The bounded writer refuses
  whatever would pass the cap.
 */
module ResponseFrame {
  import opened Wrappers
  import opened Text
  import opened Accounting

  type Bytes = seq<int>

  // ---------- numerals ----------

  function Digits(n: nat): nat {
    |Decimal(n)|
  }

  /** A numeral has `k` digits exactly when its number lies between the powers of ten around it. */
  lemma {:induction false} DigitsBetweenPowers(n: nat)
    ensures Digits(n) >= 1 && n < Pow10(Digits(n))
    ensures n >= 10 ==> Pow10(Digits(n) - 1) <= n
    ensures n < 10 ==> Digits(n) == 1
  {
    if n >= 10 {
      DigitsBetweenPowers(n / 10);
    }
  }

  lemma {:induction false} DigitsMonotone(a: nat, b: nat)
    requires a <= b
    ensures Digits(a) <= Digits(b)
  {
    if a >= 10 {
      DigitsMonotone(a / 10, b / 10);
    }
  }

  lemma {:induction false} Pow10Monotone(a: nat, b: nat)
    requires a <= b
    ensures Pow10(a) <= Pow10(b)
  {
    if a < b {
      Pow10Monotone(a, b - 1);
    }
  }

  /** More digits than decades: `Digits(n) < n` from two digits on. */
  lemma {:induction false} DigitsAreFew(n: nat)
    ensures n >= 10 ==> 9 * Pow10(Digits(n) - 1) >= Digits(n)
    ensures n >= 10 ==> Digits(n) >= 2
  {
    if n >= 10 {
      DigitsAreFew(n / 10);
      DigitsBetweenPowers(n / 10);
      assert Digits(n) == Digits(n / 10) + 1;
      assert Pow10(1) == 10 * Pow10(0);
    }
  }

  // ---------- the search for the length ----------

  /** The length of a frame whose fixed part has `fixed` bytes and which states `advertised`. */
  function FrameLength(fixed: nat, advertised: nat): nat {
    fixed + Digits(advertised)
  }

  function Advertised(fixed: nat, k: nat): nat {
    if k == 0 then 0 else FrameLength(fixed, Advertised(fixed, k - 1))
  }

  predicate Agrees(fixed: nat, length: nat) {
    length == FrameLength(fixed, length)
  }

  ghost predicate LeastAgreement(fixed: nat, length: nat) {
    Agrees(fixed, length) && forall other: nat :: Agrees(fixed, other) ==> length <= other
  }

  lemma {:induction false} AdvertisedGrows(fixed: nat, k: nat)
    ensures Advertised(fixed, k) <= Advertised(fixed, k + 1)
  {
    if k > 0 {
      AdvertisedGrows(fixed, k - 1);
      DigitsMonotone(Advertised(fixed, k - 1), Advertised(fixed, k));
    }
  }

  /** The search never passes a length that agrees. */
  lemma {:induction false} AdvertisedBelow(fixed: nat, k: nat, length: nat)
    requires Agrees(fixed, length)
    ensures Advertised(fixed, k) <= length
  {
    if k > 0 {
      AdvertisedBelow(fixed, k - 1, length);
      DigitsMonotone(Advertised(fixed, k - 1), length);
    }
  }

  /** Adding fewer than nine tens of the leading decade raises the number of digits by at most one. */
  lemma DigitsStep(a: nat, b: nat)
    requires 10 <= a <= b <= a + Digits(a)
    ensures Digits(b) <= Digits(a) + 1
    ensures Digits(b) == Digits(a) + 1 ==> Digits(b + 1) == Digits(b)
  {
    var d := Digits(a);
    DigitsBetweenPowers(a);
    DigitsBetweenPowers(b);
    DigitsBetweenPowers(b + 1);
    DigitsMonotone(b, b + 1);
    DigitsAreFew(a);
    assert Pow10(d) == 10 * Pow10(d - 1) && Pow10(d + 1) == 10 * Pow10(d);
    assert b + 1 < Pow10(d + 1);
    if Digits(b) > d + 1 {
      Pow10Monotone(d + 1, Digits(b) - 1);
    }
    if Digits(b + 1) > d + 1 {
      Pow10Monotone(d + 1, Digits(b + 1) - 1);
    }
  }

  /** The fourth encoding states the length of the third: whatever the fixed part, four encodings are enough. */
  lemma FourEncodingsSuffice(fixed: nat)
    ensures Advertised(fixed, 4) == Advertised(fixed, 3)
    ensures LeastAgreement(fixed, Advertised(fixed, 3))
  {
    var one, two, three := fixed + 1, Advertised(fixed, 2), Advertised(fixed, 3);
    assert Advertised(fixed, 1) == one && two == fixed + Digits(one) && three == fixed + Digits(two);
    AdvertisedGrows(fixed, 1);
    AdvertisedGrows(fixed, 2);
    if one >= 10 {
      DigitsStep(one, two);
    }
    assert Agrees(fixed, three);
    forall other: nat | Agrees(fixed, other) ensures three <= other {
      AdvertisedBelow(fixed, 3, other);
    }
  }

  // ---------- the bounded writer ----------

  function Flatten(chunks: seq<Bytes>): Bytes {
    if chunks == [] then [] else Flatten(chunks[..|chunks| - 1]) + chunks[|chunks| - 1]
  }

  lemma {:induction false} FlattenGrows(chunks: seq<Bytes>, i: nat)
    requires i <= |chunks|
    ensures |Flatten(chunks[..i])| <= |Flatten(chunks)|
    decreases |chunks|
  {
    if i < |chunks| {
      FlattenGrows(chunks[..|chunks| - 1], i);
      assert chunks[..|chunks| - 1][..i] == chunks[..i];
    } else {
      assert chunks[..i] == chunks;
    }
  }

  class LimitedWriter {
    var bytes: Bytes
    const limit: nat

    constructor (limit: nat)
      ensures bytes == [] && this.limit == limit
    {
      bytes, this.limit := [], limit;
    }

    /** A chunk is taken whole or refused whole. */
    method Write(chunk: Bytes) returns (ok: bool)
      modifies this`bytes
      ensures ok <==> |old(bytes)| + |chunk| <= limit
      ensures bytes == if ok then old(bytes) + chunk else old(bytes)
    {
      var next := |bytes| + |chunk|;
      if next > limit {
        return false;
      }
      bytes := bytes + chunk;
      return true;
    }
  }

  /** Serialization into the writer succeeds exactly when the whole text fits the limit. */
  method SerializeLimited(chunks: seq<Bytes>, limit: nat) returns (r: Option<Bytes>)
    ensures r == if |Flatten(chunks)| <= limit then Some(Flatten(chunks)) else None
  {
    var writer := new LimitedWriter(limit);
    for i := 0 to |chunks|
      invariant fresh(writer) && writer.limit == limit
      invariant writer.bytes == Flatten(chunks[..i]) && |writer.bytes| <= limit
    {
      assert chunks[..i + 1][..i] == chunks[..i];
      FlattenGrows(chunks, i + 1);
      var ok := writer.Write(chunks[i]);
      if !ok {
        return None;
      }
    }
    assert chunks[..|chunks|] == chunks;
    return Some(writer.bytes);
  }

  // ---------- the frame ----------

  const NEWLINE: int := 10

  datatype EncodeError = UnsafeGeneration | WorkRejected | TooLarge | NoFixedPoint

  /** The writes before and after the length numeral of one envelope. */
  datatype Envelope = Envelope(head: seq<Bytes>, tail: seq<Bytes>)

  function NumeralBytes(n: nat): Bytes {
    var s := Decimal(n);
    seq(|s|, i requires 0 <= i < |s| => s[i] as int)
  }

  function Chunks(e: Envelope, advertised: nat): seq<Bytes> {
    e.head + [NumeralBytes(advertised)] + e.tail
  }

  function Frame(e: Envelope, advertised: nat): Bytes {
    Flatten(Chunks(e, advertised)) + [NEWLINE]
  }

  /** Everything but the numeral. */
  function Fixed(e: Envelope): nat {
    |Flatten(e.head)| + |Flatten(e.tail)| + 1
  }

  lemma {:induction false} FlattenAppend(a: seq<Bytes>, b: seq<Bytes>)
    ensures |Flatten(a + b)| == |Flatten(a)| + |Flatten(b)|
    decreases |b|
  {
    if b == [] {
      assert a + b == a;
    } else {
      var last := |b| - 1;
      assert (a + b)[..|a + b| - 1] == a + b[..last];
      FlattenAppend(a, b[..last]);
    }
  }

  lemma FrameHasLength(e: Envelope, advertised: nat)
    ensures |Frame(e, advertised)| == FrameLength(Fixed(e), advertised)
  {
    var numeral := [NumeralBytes(advertised)];
    FlattenAppend(e.head, numeral);
    FlattenAppend(e.head + numeral, e.tail);
    assert numeral[..0] == [] && Flatten(numeral) == [] + NumeralBytes(advertised);
  }

  /** `WorkCounters::from_work` and `encode_frame` for one advertised length. */
  method EncodeFrame(e: Envelope, work: WorkCounts, advertised: nat) returns (r: Result<Bytes, EncodeError>)
    ensures r == if CheckWork(work).Failure? then Failure(WorkRejected)
                 else if advertised > MAX_RESPONSE_FRAME_BYTES
                   || |Frame(e, advertised)| > MAX_RESPONSE_FRAME_BYTES then Failure(TooLarge)
                 else Success(Frame(e, advertised))
  {
    if CheckWork(work).Failure? {
      return Failure(WorkRejected);
    }
    if advertised > MAX_RESPONSE_FRAME_BYTES {
      return Failure(TooLarge);
    }
    var text := SerializeLimited(Chunks(e, advertised), MAX_RESPONSE_FRAME_BYTES - 1);
    if text.None? {
      return Failure(TooLarge);
    }
    return Success(text.value + [NEWLINE]);
  }

  // ---------- what a frame says ----------

  /** The chunks one after the other, read from the front. */
  function Joined(chunks: seq<Bytes>): Bytes {
    if chunks == [] then [] else chunks[0] + Joined(chunks[1..])
  }

  lemma {:induction false} JoinedSnoc(chunks: seq<Bytes>, last: Bytes)
    ensures Joined(chunks + [last]) == Joined(chunks) + last
  {
    if chunks != [] {
      JoinedSnoc(chunks[1..], last);
      assert (chunks + [last])[1..] == chunks[1..] + [last];
    }
  }

  lemma {:induction false} FlattenIsJoined(chunks: seq<Bytes>)
    ensures Flatten(chunks) == Joined(chunks)
  {
    if chunks != [] {
      var front, last := chunks[..|chunks| - 1], chunks[|chunks| - 1];
      FlattenIsJoined(front);
      JoinedSnoc(front, last);
      assert chunks == front + [last];
    }
  }

  lemma {:induction false} JoinedConcat(a: seq<Bytes>, b: seq<Bytes>)
    ensures Joined(a + b) == Joined(a) + Joined(b)
  {
    if a == [] {
      assert a + b == b;
    } else {
      JoinedConcat(a[1..], b);
      assert (a + b)[1..] == a[1..] + b;
    }
  }

  /** The bytes of an ASCII text. */
  predicate IsAscii(bytes: Bytes, s: string) {
    |bytes| == |s| && forall i :: 0 <= i < |s| ==> bytes[i] == s[i] as int
  }

  /** The envelope's text around the decimal numeral of `stated`, and one newline. */
  ghost predicate States(e: Envelope, frame: Bytes, stated: nat) {
    exists numeral, digits ::
      Spells(numeral, stated) && IsAscii(digits, numeral) && frame == Joined(e.head) + digits + Joined(e.tail) + [10]
  }

  lemma FrameStates(e: Envelope, frame: Bytes, stated: nat)
    ensures States(e, frame, stated) <==> frame == Frame(e, stated)
  {
    hide Spells, Flatten, Joined, Decimal;
    var s, own := Decimal(stated), NumeralBytes(stated);
    DecimalSpells(stated, s);
    assert IsAscii(own, s);
    FlattenIsJoined(Chunks(e, stated));
    JoinedConcat(e.head + [own], e.tail);
    JoinedSnoc(e.head, own);
    if States(e, frame, stated) {
      var numeral, digits :| Spells(numeral, stated) && IsAscii(digits, numeral)
        && frame == Joined(e.head) + digits + Joined(e.tail) + [10];
      DecimalSpells(stated, numeral);
      assert digits == own;
    }
  }

  /** The frame states its own length. */
  ghost predicate SelfStated(e: Envelope, frame: Bytes) {
    States(e, frame, |frame|)
  }

  /** Lengths that agree are the lengths of frames that state themselves, so the least agreement is the shortest such frame. */
  lemma ShortestFrame(e: Envelope, frame: Bytes)
    ensures SelfStated(e, frame) <==> Agrees(Fixed(e), |frame|) && frame == Frame(e, |frame|)
    ensures SelfStated(e, frame) && LeastAgreement(Fixed(e), |frame|) ==>
      forall other :: SelfStated(e, other) ==> |frame| <= |other|
  {
    hide Frame, Fixed, States;
    FrameStates(e, frame, |frame|);
    FrameHasLength(e, |frame|);
    forall other | SelfStated(e, other) ensures Agrees(Fixed(e), |other|) {
      FrameStates(e, other, |other|);
      FrameHasLength(e, |other|);
    }
  }

  lemma NoShortFrame(e: Envelope, cap: nat)
    ensures (exists length: nat :: length <= cap && Agrees(Fixed(e), length))
      <==> exists frame :: SelfStated(e, frame) && |frame| <= cap
  {
    hide Frame, Fixed, States, SelfStated;
    if length: nat :| length <= cap && Agrees(Fixed(e), length) {
      FrameHasLength(e, length);
      ShortestFrame(e, Frame(e, length));
      assert SelfStated(e, Frame(e, length));
    }
    if frame :| SelfStated(e, frame) && |frame| <= cap {
      ShortestFrame(e, frame);
    }
  }

  /**
    `encode_success`: with a safe generation and acceptable work it succeeds
    exactly when some length that agrees with its own numeral fits the cap, and
    then the frame has the least such length. The loop never runs dry.
   */
  method EncodeSuccess(e: Envelope, generation: nat, work: WorkCounts) returns (r: Result<Bytes, EncodeError>)
    ensures generation > JSON_SAFE_INTEGER_MAX ==> r == Failure(UnsafeGeneration)
    ensures generation <= JSON_SAFE_INTEGER_MAX && CheckWork(work).Failure? ==> r == Failure(WorkRejected)
    ensures generation <= JSON_SAFE_INTEGER_MAX && CheckWork(work).Success? ==>
              if exists length: nat :: length <= MAX_RESPONSE_FRAME_BYTES && Agrees(Fixed(e), length)
              then r.Success? && LeastAgreement(Fixed(e), |r.value|) && r.value == Frame(e, |r.value|)
              else r == Failure(TooLarge)
    ensures r.Success? ==> |r.value| <= MAX_RESPONSE_FRAME_BYTES
    ensures r.Success? ==> SelfStated(e, r.value) && forall other :: SelfStated(e, other) ==> |r.value| <= |other|
    ensures generation <= JSON_SAFE_INTEGER_MAX && CheckWork(work).Success? ==>
              (r.Success? <==> exists frame :: SelfStated(e, frame) && |frame| <= MAX_RESPONSE_FRAME_BYTES)
  {
    if generation > JSON_SAFE_INTEGER_MAX {
      return Failure(UnsafeGeneration);
    }
    hide CheckWork, Frame, Fixed, States, SelfStated;
    var advertised := 0;
    FourEncodingsSuffice(Fixed(e));
    NoShortFrame(e, MAX_RESPONSE_FRAME_BYTES);
    for attempt := 0 to 8
      invariant attempt <= 3 && advertised == Advertised(Fixed(e), attempt) <= MAX_RESPONSE_FRAME_BYTES
      invariant attempt > 0 ==> CheckWork(work).Success?
    {
      SearchBounds(Fixed(e), attempt);
      FrameHasLength(e, advertised);
      var bytes :- EncodeFrame(e, work, advertised);
      if |bytes| == advertised {
        ShortestFrame(e, bytes);
        return Success(bytes);
      }
      advertised := |bytes|;
    }
    assert false;
  }

  /** What one attempt tells about every length that agrees. */
  lemma SearchBounds(fixed: nat, attempt: nat)
    ensures Advertised(fixed, attempt + 1) == FrameLength(fixed, Advertised(fixed, attempt))
    ensures forall length: nat :: Agrees(fixed, length) ==> Advertised(fixed, attempt + 1) <= length
  {
    forall length: nat | Agrees(fixed, length) ensures Advertised(fixed, attempt + 1) <= length {
      AdvertisedBelow(fixed, attempt + 1, length);
    }
  }
}
