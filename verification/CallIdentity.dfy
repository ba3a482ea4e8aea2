/** Call identities and journal locators: what is hashed, and the text of a sequence number. */
module CallIdentity {
  import opened ByteStrings

  const MAX_UINT32 := 0xFFFF_FFFF
  const MAX_UINT64 := 0xFFFF_FFFF_FFFF_FFFF
  const MAX_INT64 := 0x7FFF_FFFF_FFFF_FFFF

  // ---------- fixed-width numbers ----------

  function Pow256(width: nat): (p: nat)
    ensures p > 0
  {
    if width == 0 then 1 else 256 * Pow256(width - 1)
  }

  // binary.BigEndian.PutUint32 and PutUint64: n modulo 256 to the width.
  function BigEndian(n: nat, width: nat): (r: Bytes)
    ensures |r| == width
  {
    if width == 0 then [] else BigEndian(n / 256, width - 1) + [n % 256]
  }

  lemma {:induction false} BigEndianInjective(m: nat, n: nat, width: nat)
    requires m < Pow256(width) && n < Pow256(width)
    requires BigEndian(m, width) == BigEndian(n, width)
    ensures m == n
  {
    if width > 0 {
      var a, b := BigEndian(m, width), BigEndian(n, width);
      assert a[..width - 1] == BigEndian(m / 256, width - 1) && b[..width - 1] == BigEndian(n / 256, width - 1);
      assert a[width - 1] == m % 256 && b[width - 1] == n % 256;
      BigEndianInjective(m / 256, n / 256, width - 1);
    }
  }

  lemma Widths()
    ensures Pow256(4) == MAX_UINT32 + 1 && Pow256(8) == MAX_UINT64 + 1
  {
    assert Pow256(4) == 0x1_0000_0000;
    assert Pow256(8) == 256 * 256 * 256 * 256 * Pow256(4);
  }

  // ---------- length-prefixed strings ----------

  predicate Short(value: Bytes) {
    |value| <= MAX_UINT32
  }

  // writeBytes: a four-byte length, then the bytes.
  function Prefixed(value: Bytes): Bytes {
    BigEndian(|value|, 4) + value
  }

  // Nothing that follows can blur where a prefixed string ends.
  lemma PrefixedSplits(a: Bytes, restA: Bytes, b: Bytes, restB: Bytes)
    requires Short(a) && Short(b)
    requires Prefixed(a) + restA == Prefixed(b) + restB
    ensures a == b && restA == restB
  {
    var x, y := Prefixed(a) + restA, Prefixed(b) + restB;
    assert x[..4] == BigEndian(|a|, 4) && y[..4] == BigEndian(|b|, 4);
    Widths();
    BigEndianInjective(|a|, |b|, 4);
    assert x[4..4 + |a|] == a && y[4..4 + |a|] == b;
    assert x[4 + |a|..] == restA && y[4 + |a|..] == restB;
  }

  lemma SplitAt(a: Bytes, restA: Bytes, b: Bytes, restB: Bytes)
    requires |a| == |b| && a + restA == b + restB
    ensures a == b && restA == restB
  {
    assert (a + restA)[..|a|] == a && (b + restB)[..|a|] == b;
    assert (a + restA)[|a|..] == restA && (b + restB)[|a|..] == restB;
  }

  // ---------- sequence numbers as text ----------

  predicate Digit(b: Byte) {
    48 <= b <= 57
  }

  predicate Digits(text: Bytes) {
    forall k :: 0 <= k < |text| ==> Digit(text[k])
  }

  // The number a text of digits stands for.
  function Numeral(text: Bytes): nat
    requires Digits(text)
  {
    if text == [] then 0 else 10 * Numeral(text[..|text| - 1]) + (text[|text| - 1] - 48)
  }

  // parseSequence: anything but the digits of a 64-bit number reads as 0.
  function Sequence(text: Bytes): nat {
    if Digits(text) && Numeral(text) <= MAX_UINT64 then Numeral(text) else 0
  }

  lemma {:induction false} NumeralGrows(text: Bytes, k: nat)
    requires Digits(text) && k <= |text|
    ensures Numeral(text[..k]) <= Numeral(text)
    decreases |text| - k
  {
    if k < |text| {
      NumeralGrows(text, k + 1);
      assert text[..k + 1][..k] == text[..k];
    } else {
      assert text[..k] == text;
    }
  }

  method ParseSequence(text: Bytes) returns (result: nat)
    ensures result == Sequence(text) && result <= MAX_UINT64
  {
    result := 0;
    for k := 0 to |text|
      invariant Digits(text[..k]) && result == Numeral(text[..k]) <= MAX_UINT64
    {
      var digit := text[k];
      assert text[..k + 1][..k] == text[..k];
      if digit < 48 || digit > 57 || result > (MAX_UINT64 - (digit - 48)) / 10 {
        Rejected(text, k);
        return 0;
      }
      result := result * 10 + (digit - 48);
    }
    assert text[..|text|] == text;
  }

  // A digit that is none, or one too many for 64 bits, spoils the whole text.
  lemma Rejected(text: Bytes, k: nat)
    requires k < |text| && Digits(text[..k])
    requires !Digit(text[k]) || Numeral(text[..k]) > (MAX_UINT64 - (text[k] - 48)) / 10
    ensures Sequence(text) == 0
  {
    if Digits(text) {
      assert text[..k + 1][..k] == text[..k];
      NumeralGrows(text, k + 1);
    }
  }

  // strconv.FormatUint(n, 10)
  function Decimal(n: nat): Bytes {
    if n < 10 then [48 + n] else Decimal(n / 10) + [48 + n % 10]
  }

  lemma {:induction false} DecimalReadsBack(n: nat)
    ensures Digits(Decimal(n)) && Numeral(Decimal(n)) == n
  {
    if n < 10 {
      assert Decimal(n)[..0] == [];
    } else {
      DecimalReadsBack(n / 10);
      assert Decimal(n)[..|Decimal(n)| - 1] == Decimal(n / 10);
    }
  }

  // Every 64-bit sequence number survives being written as text.
  lemma SequenceRoundTrip(n: nat)
    requires n <= MAX_UINT64
    ensures Sequence(Decimal(n)) == n
  {
    DecimalReadsBack(n);
  }

  // ---------- call identities ----------

  datatype Basis = Unspecified | ClientRequest | Request | EventSequence | Fallback

  // Alias: text for the provider's identities, locator for the journal's.
  datatype Alias = Alias(text: Bytes, locator: Bytes)

  const CALL_HEADER: Bytes := [97, 103, 101, 110, 116, 109, 101, 116, 114, 121, 45, 99, 97, 108, 108, 45, 105, 100, 45, 118, 49, 0]

  function SessionPart(session: Bytes): Bytes {
    if session == [] then [0] else [1] + Prefixed(session)
  }

  function AliasPart(basis: Basis, alias: Alias): Bytes {
    match basis
    case ClientRequest => [1] + Prefixed(alias.text)
    case Request => [2] + Prefixed(alias.text)
    case EventSequence => [3] + BigEndian(Sequence(alias.text), 8)
    case Fallback => [4] + Prefixed(alias.locator)
    case Unspecified => [0]
  }

  // What CallID hashes.
  function Preimage(source: Bytes, session: Bytes, basis: Basis, alias: Alias): Bytes {
    CALL_HEADER + (Prefixed(source) + (SessionPart(session) + AliasPart(basis, alias)))
  }

  lemma SessionSplits(a: Bytes, restA: Bytes, b: Bytes, restB: Bytes)
    requires Short(a) && Short(b)
    requires SessionPart(a) + restA == SessionPart(b) + restB
    ensures a == b && restA == restB
  {
    SessionFlag(a, restA);
    SessionFlag(b, restB);
    if a != [] {
      PrefixedSplits(a, restA, b, restB);
    }
  }

  lemma SessionFlag(session: Bytes, rest: Bytes)
    ensures (SessionPart(session) + rest)[0] == if session == [] then 0 else 1
    ensures (SessionPart(session) + rest)[1..] == if session == [] then rest else Prefixed(session) + rest
  {
    if session != [] {
      assert SessionPart(session) + rest == [1] + (Prefixed(session) + rest);
    }
  }

  // The part of an alias its basis looks at.
  predicate SameAlias(basis: Basis, a: Alias, b: Alias) {
    match basis
    case ClientRequest => a.text == b.text
    case Request => a.text == b.text
    case EventSequence => Sequence(a.text) == Sequence(b.text)
    case Fallback => a.locator == b.locator
    case Unspecified => true
  }

  lemma PrefixedInjective(a: Bytes, b: Bytes)
    requires Short(a) && Short(b) && Prefixed(a) == Prefixed(b)
    ensures a == b
  {
    assert Prefixed(a) + [] == Prefixed(a) && Prefixed(b) + [] == Prefixed(b);
    PrefixedSplits(a, [], b, []);
  }

  // What is written of an alias fits its four-byte length.
  predicate Fits(basis: Basis, a: Alias) {
    match basis
    case ClientRequest => Short(a.text)
    case Request => Short(a.text)
    case Fallback => Short(a.locator)
    case EventSequence => true
    case Unspecified => true
  }

  lemma AliasPartSplits(basisA: Basis, a: Alias, basisB: Basis, b: Alias)
    requires Fits(basisA, a) && Fits(basisB, b)
    requires AliasPart(basisA, a) == AliasPart(basisB, b)
    ensures basisA == basisB && SameAlias(basisA, a, b)
  {
    assert AliasPart(basisA, a)[0] == AliasPart(basisB, b)[0];
    assert AliasPart(basisA, a)[1..] == AliasPart(basisB, b)[1..];
    match basisA
    case ClientRequest => PrefixedInjective(a.text, b.text);
    case Request => PrefixedInjective(a.text, b.text);
    case EventSequence => Widths(); BigEndianInjective(Sequence(a.text), Sequence(b.text), 8);
    case Fallback => PrefixedInjective(a.locator, b.locator);
    case Unspecified =>
  }

  // Two calls share a preimage only if everything their identity is made of agrees.
  lemma PreimageInjective(sourceA: Bytes, sessionA: Bytes, basisA: Basis, a: Alias,
                          sourceB: Bytes, sessionB: Bytes, basisB: Basis, b: Alias)
    requires Short(sourceA) && Short(sessionA) && Fits(basisA, a)
    requires Short(sourceB) && Short(sessionB) && Fits(basisB, b)
    requires Preimage(sourceA, sessionA, basisA, a) == Preimage(sourceB, sessionB, basisB, b)
    ensures sourceA == sourceB && sessionA == sessionB && basisA == basisB && SameAlias(basisA, a, b)
  {
    var restA, restB := SessionPart(sessionA) + AliasPart(basisA, a), SessionPart(sessionB) + AliasPart(basisB, b);
    SplitAt(CALL_HEADER, Prefixed(sourceA) + restA, CALL_HEADER, Prefixed(sourceB) + restB);
    PrefixedSplits(sourceA, restA, sourceB, restB);
    SessionSplits(sessionA, AliasPart(basisA, a), sessionB, AliasPart(basisB, b));
    AliasPartSplits(basisA, a, basisB, b);
  }

  // ---------- journal locators ----------

  datatype Result<T> = Ok(value: T) | Err

  const LOCATOR_HEADER: Bytes := [97, 103, 101, 110, 116, 109, 101, 116, 114, 121, 45, 106, 111, 117, 114, 110, 97, 108,
                                  45, 108, 111, 99, 97, 116, 111, 114, 45, 118, 49, 0]

  // EncodeJournalLocator
  function JournalLocator(source: Bytes, signal: Bytes, payload: Bytes, occurrence: int, ordinal: int): Result<Bytes> {
    if |payload| != 32 then Err
    else if occurrence < 0 || ordinal < 0 then Err
    else Ok(LOCATOR_HEADER + (Prefixed(source) + (Prefixed(signal) + (payload + (BigEndian(occurrence, 8) + BigEndian(ordinal, 8))))))
  }

  // Records at different places of the journal have different locators.
  lemma LocatorInjective(sourceA: Bytes, signalA: Bytes, payloadA: Bytes, occurrenceA: int, ordinalA: int,
                         sourceB: Bytes, signalB: Bytes, payloadB: Bytes, occurrenceB: int, ordinalB: int)
    requires Short(sourceA) && Short(signalA) && occurrenceA <= MAX_INT64 && ordinalA <= MAX_INT64
    requires Short(sourceB) && Short(signalB) && occurrenceB <= MAX_INT64 && ordinalB <= MAX_INT64
    requires JournalLocator(sourceA, signalA, payloadA, occurrenceA, ordinalA).Ok?
    requires JournalLocator(sourceA, signalA, payloadA, occurrenceA, ordinalA) ==
             JournalLocator(sourceB, signalB, payloadB, occurrenceB, ordinalB)
    ensures sourceA == sourceB && signalA == signalB && payloadA == payloadB
    ensures occurrenceA == occurrenceB && ordinalA == ordinalB
  {
    var a, b := BigEndian(occurrenceA, 8) + BigEndian(ordinalA, 8), BigEndian(occurrenceB, 8) + BigEndian(ordinalB, 8);
    SplitAt(LOCATOR_HEADER, Prefixed(sourceA) + (Prefixed(signalA) + (payloadA + a)),
            LOCATOR_HEADER, Prefixed(sourceB) + (Prefixed(signalB) + (payloadB + b)));
    PrefixedSplits(sourceA, Prefixed(signalA) + (payloadA + a), sourceB, Prefixed(signalB) + (payloadB + b));
    PrefixedSplits(signalA, payloadA + a, signalB, payloadB + b);
    SplitAt(payloadA, a, payloadB, b);
    SplitAt(BigEndian(occurrenceA, 8), BigEndian(ordinalA, 8), BigEndian(occurrenceB, 8), BigEndian(ordinalB, 8));
    Widths();
    BigEndianInjective(occurrenceA, occurrenceB, 8);
    BigEndianInjective(ordinalA, ordinalB, 8);
  }
}
