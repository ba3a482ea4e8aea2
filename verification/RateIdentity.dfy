/** What identifies a rate. */
module RateIdentity {
  import opened ByteStrings
  import opened CallIdentity
  import opened Cost

  const HEADER: Bytes := [97, 103, 101, 110, 116, 109, 101, 116, 114, 121, 45, 114, 97, 116, 101, 45, 105, 100, 45, 118, 49, 0]
  // max_input_tokens_inclusive=
  const CONDITION: Bytes := [109, 97, 120, 95, 105, 110, 112, 117, 116, 95, 116, 111, 107, 101, 110, 115, 95, 105, 110, 99, 108,
                             117, 115, 105, 118, 101, 61]

  // strconv.FormatInt(n, 10)
  function Integer(n: int): Bytes {
    if n < 0 then [45] + Decimal(-n) else Decimal(n)
  }

  function ConditionText(limit: Option<int>): Bytes {
    CONDITION + if limit.None? then [42] else Integer(limit.value)
  }

  function Fields(fields: seq<Bytes>): Bytes {
    if fields == [] then [] else Prefixed(fields[0]) + Fields(fields[1..])
  }

  // CanonicalIDBytes; time is how an instant is written.
  function CanonicalIDBytes(provider: Bytes, model: Bytes, mode: Bytes, limit: Option<int>, time: Bytes): Bytes {
    HEADER + Fields([provider, model, mode, ConditionText(limit), time])
  }

  lemma IntegerInjective(m: int, n: int)
    requires Integer(m) == Integer(n)
    ensures m == n
  {
    Sign(m);
    Sign(n);
    if m < 0 {
      assert Integer(m)[1..] == Decimal(-m) && Integer(n)[1..] == Decimal(-n);
      DecimalReadsBack(-m);
      DecimalReadsBack(-n);
    } else {
      DecimalReadsBack(m);
      DecimalReadsBack(n);
    }
  }

  lemma Sign(n: int)
    ensures Integer(n) != [] && (Integer(n)[0] == 45 <==> n < 0)
  {
    if n >= 0 {
      NotEmpty(n);
    }
  }

  lemma NotEmpty(n: nat)
    ensures Decimal(n) != [] && Digit(Decimal(n)[0])
  {
    DecimalReadsBack(n);
  }

  lemma ConditionInjective(a: Option<int>, b: Option<int>)
    requires ConditionText(a) == ConditionText(b)
    ensures a == b
  {
    assert ConditionText(a)[|CONDITION|..] == if a.None? then [42] else Integer(a.value);
    assert ConditionText(b)[|CONDITION|..] == if b.None? then [42] else Integer(b.value);
    if a.Some? && b.Some? {
      IntegerInjective(a.value, b.value);
    } else if a.Some? || b.Some? {
      NotStar(if a.Some? then a.value else b.value);
    }
  }

  lemma NotStar(n: int)
    ensures Integer(n) != [42]
  {
    if n >= 0 {
      NotEmpty(n);
    }
  }

  lemma {:induction false} FieldsInjective(a: seq<Bytes>, b: seq<Bytes>)
    requires |a| == |b| && Fields(a) == Fields(b)
    requires forall k :: 0 <= k < |a| ==> Short(a[k]) && Short(b[k])
    ensures a == b
    decreases |a|
  {
    if a != [] {
      PrefixedSplits(a[0], Fields(a[1..]), b[0], Fields(b[1..]));
      FieldsInjective(a[1..], b[1..]);
      assert a == [a[0]] + a[1..] && b == [b[0]] + b[1..];
    }
  }

  // The bytes hashed into a rate's id determine its provider, model, mode, condition and written start.
  lemma RateIdInjective(providerA: Bytes, modelA: Bytes, modeA: Bytes, limitA: Option<int>, timeA: Bytes,
                        providerB: Bytes, modelB: Bytes, modeB: Bytes, limitB: Option<int>, timeB: Bytes)
    requires Short(providerA) && Short(modelA) && Short(modeA) && Short(ConditionText(limitA)) && Short(timeA)
    requires Short(providerB) && Short(modelB) && Short(modeB) && Short(ConditionText(limitB)) && Short(timeB)
    requires CanonicalIDBytes(providerA, modelA, modeA, limitA, timeA) == CanonicalIDBytes(providerB, modelB, modeB, limitB, timeB)
    ensures providerA == providerB && modelA == modelB && modeA == modeB && limitA == limitB && timeA == timeB
  {
    var a, b := [providerA, modelA, modeA, ConditionText(limitA), timeA], [providerB, modelB, modeB, ConditionText(limitB), timeB];
    SplitAt(HEADER, Fields(a), HEADER, Fields(b));
    FieldsInjective(a, b);
    assert a[0] == b[0] && a[1] == b[1] && a[2] == b[2] && a[3] == b[3] && a[4] == b[4];
    ConditionInjective(limitA, limitB);
  }
}
