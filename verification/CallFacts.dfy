/** The evidence of Claude calls, and what a set of it says together. */
module CallFacts {
  import opened ByteStrings
  import opened CallIdentity

  datatype Option<+T> = None | Some(value: T)

  // One counter of a token usage; zero counts as reported only when marked present.
  datatype Counter = Counter(value: int, present: bool)

  datatype Facts = Facts(model: Bytes, mode: Bytes, occurredAt: int,
                         input: Counter, output: Counter, cacheRead: Counter, cacheWrite: Counter, reasoning: Counter)

  datatype IdentityAlias = IdentityAlias(basis: Basis, value: Bytes, sequence: nat)

  datatype AmountState = Valid | Invalid | Absent

  datatype Evidence = Evidence(activity: Bytes, session: Bytes, locator: Bytes, aliases: seq<IdentityAlias>,
                               filterAt: int, facts: Facts, amount: Option<int>, amountState: AmountState)

  datatype Fact = Model | Mode | OccurredAt | Input | Output | CacheRead | CacheWrite | Reasoning

  datatype Value = Text(text: Bytes) | Number(number: int)

  const FACTS := [Model, Mode, OccurredAt, Input, Output, CacheRead, CacheWrite, Reasoning]

  function Counted(c: Counter): Option<Value> {
    if c.value != 0 || c.present then Some(Number(c.value)) else None
  }

  function Named(name: Bytes): Option<Value> {
    if name != [] then Some(Text(name)) else None
  }

  // The value facts report for a fact, if they report one.
  function Reported(facts: Facts, fact: Fact): Option<Value> {
    match fact
    case Model => Named(facts.model)
    case Mode => Named(facts.mode)
    case OccurredAt => if facts.occurredAt != 0 then Some(Number(facts.occurredAt)) else None
    case Input => Counted(facts.input)
    case Output => Counted(facts.output)
    case CacheRead => Counted(facts.cacheRead)
    case CacheWrite => Counted(facts.cacheWrite)
    case Reasoning => Counted(facts.reasoning)
  }

  // ---------- what a set of evidence says ----------

  ghost predicate Reports(x: Evidence, fact: Fact, v: Value) {
    Reported(x.facts, fact) == Some(v)
  }

  ghost predicate Disagree(members: set<Evidence>, fact: Fact) {
    exists x, y :: x in members && y in members && Reported(x.facts, fact).Some? && Reported(y.facts, fact).Some? &&
                   Reported(x.facts, fact) != Reported(y.facts, fact)
  }

  ghost predicate Conflicting(members: set<Evidence>) {
    exists fact :: Disagree(members, fact)
  }

  // v is what the members say about a fact: someone reports it, and nobody reports another value.
  ghost predicate Says(members: set<Evidence>, fact: Fact, v: Option<Value>) {
    match v
    case Some(value) => (exists x :: x in members && Reports(x, fact, value)) && !Disagree(members, fact)
    case None => Disagree(members, fact) || forall x :: x in members ==> Reported(x.facts, fact).None?
  }

  predicate Plain(c: Counter) {
    c.present ==> c.value == 0
  }

  predicate PlainFacts(f: Facts) {
    Plain(f.input) && Plain(f.output) && Plain(f.cacheRead) && Plain(f.cacheWrite) && Plain(f.reasoning)
  }

  // The facts agree with what the members say, and mark only zeros as present.
  ghost predicate Reconciled(members: set<Evidence>, facts: Facts) {
    PlainFacts(facts) && forall fact :: Says(members, fact, Reported(facts, fact))
  }

  lemma SaidOnce(members: set<Evidence>, f: Facts, g: Facts, fact: Fact)
    requires Reconciled(members, f) && Reconciled(members, g)
    ensures Reported(f, fact) == Reported(g, fact)
  {
  }

  lemma ReconciledUnique(members: set<Evidence>, f: Facts, g: Facts)
    requires Reconciled(members, f) && Reconciled(members, g)
    ensures f == g
  {
    assert Named(f.model) == Named(g.model) by { SaidOnce(members, f, g, Model); }
    assert Named(f.mode) == Named(g.mode) by { SaidOnce(members, f, g, Mode); }
    assert f.occurredAt == g.occurredAt by { SaidOnce(members, f, g, OccurredAt); }
    assert Counted(f.input) == Counted(g.input) by { SaidOnce(members, f, g, Input); }
    assert Counted(f.output) == Counted(g.output) by { SaidOnce(members, f, g, Output); }
    assert Counted(f.cacheRead) == Counted(g.cacheRead) by { SaidOnce(members, f, g, CacheRead); }
    assert Counted(f.cacheWrite) == Counted(g.cacheWrite) by { SaidOnce(members, f, g, CacheWrite); }
    assert Counted(f.reasoning) == Counted(g.reasoning) by { SaidOnce(members, f, g, Reasoning); }
  }

  // ---------- provider amounts ----------

  datatype Attribution = Unavailable(reason: Reason) | ProviderReported(amount: int)
  datatype Reason = ConflictingEvidence | InvalidAmount

  ghost predicate Offers(x: Evidence, amount: int) {
    x.amountState.Valid? && x.amount == Some(amount)
  }

  ghost predicate Spoiled(x: Evidence) {
    x.amountState.Invalid? || (x.amountState.Valid? && x.amount.None?)
  }

  ghost predicate TwoAmounts(members: set<Evidence>) {
    exists x, y :: x in members && y in members && x.amountState.Valid? && y.amountState.Valid? &&
                   x.amount.Some? && y.amount.Some? && x.amount != y.amount
  }

  // A price is kept exactly when every fact agrees, no amount is invalid, and one single amount is offered.
  ghost predicate Attributed(members: set<Evidence>, a: Attribution) {
    match a
    case ProviderReported(amount) =>
      !Conflicting(members) && !TwoAmounts(members) && (forall x :: x in members ==> !Spoiled(x)) &&
      exists x :: x in members && Offers(x, amount)
    case Unavailable(ConflictingEvidence) => Conflicting(members) || TwoAmounts(members)
    case Unavailable(InvalidAmount) =>
      !Conflicting(members) && !TwoAmounts(members) &&
      ((exists x :: x in members && Spoiled(x)) || forall x, amount :: x in members ==> !Offers(x, amount))
  }

  lemma AttributedUnique(members: set<Evidence>, a: Attribution, b: Attribution)
    requires Attributed(members, a) && Attributed(members, b)
    ensures a == b
  {
    if a.ProviderReported? && b.ProviderReported? {
      var x :| x in members && Offers(x, a.amount);
      var y :| y in members && Offers(y, b.amount);
    }
  }

  // ---------- the loops ----------

  function Elements(xs: seq<Evidence>): set<Evidence> {
    set x | x in xs
  }

  // The values reported for a fact.
  function Values(members: set<Evidence>, fact: Fact): set<Value> {
    set x | x in members && Reported(x.facts, fact).Some? :: Reported(x.facts, fact).value
  }

  // One of the sets the loops of conflictingClaudeFacts and reconcileClaudeFacts fill.
  method Collect(evidence: seq<Evidence>, fact: Fact) returns (values: set<Value>)
    ensures values == Values(Elements(evidence), fact)
  {
    values := {};
    for k := 0 to |evidence|
      invariant values == Values(Elements(evidence[..k]), fact)
    {
      var reported := Reported(evidence[k].facts, fact);
      if reported.Some? {
        values := values + {reported.value};
      }
    }
    assert evidence[..|evidence|] == evidence;
  }

  lemma Many<T>(s: set<T>)
    ensures |s| > 1 <==> exists a, b :: a in s && b in s && a != b
    ensures |s| == 1 <==> exists a :: a in s && s == {a}
  {
    if s != {} {
      var a :| a in s;
      if s != {a} {
        assert s - {a} != {};
        var b :| b in s - {a};
        assert s == {a, b} + (s - {a, b});
      }
    }
  }

  lemma ValueKept(members: set<Evidence>, fact: Fact, x: Evidence)
    requires x in members
    ensures Reported(x.facts, fact).Some? ==> Reported(x.facts, fact).value in Values(members, fact)
  {}

  lemma TwoOf<T>(s: set<T>) returns (a: T, b: T)
    requires |s| > 1
    ensures a in s && b in s && a != b
  {
    Many(s);
    a, b :| a in s && b in s && a != b;
  }

  // Any element: the only one where this is called.
  method Pick<T>(s: set<T>) returns (x: T)
    requires s != {}
    ensures x in s
  {
    x :| x in s;
  }

  lemma ManyValues(members: set<Evidence>, fact: Fact)
    ensures |Values(members, fact)| > 1 <==> Disagree(members, fact)
  {
    var values := Values(members, fact);
    Many(values);
    if Disagree(members, fact) {
      var x, y :| x in members && y in members && Reported(x.facts, fact).Some? && Reported(y.facts, fact).Some? &&
                  Reported(x.facts, fact) != Reported(y.facts, fact);
      ValueKept(members, fact, x);
      ValueKept(members, fact, y);
    }
    if |values| > 1 {
      var v, w :| v in values && w in values && v != w;
      var x :| x in members && Reported(x.facts, fact).Some? && Reported(x.facts, fact).value == v;
      var y :| y in members && Reported(y.facts, fact).Some? && Reported(y.facts, fact).value == w;
    }
  }

  method ConflictingClaudeFacts(evidence: seq<Evidence>) returns (conflicting: bool)
    ensures conflicting <==> Conflicting(Elements(evidence))
  {
    conflicting := false;
    for k := 0 to |FACTS|
      invariant conflicting <==> exists i :: 0 <= i < k && Disagree(Elements(evidence), FACTS[i])
    {
      var values := Collect(evidence, FACTS[k]);
      ManyValues(Elements(evidence), FACTS[k]);
      conflicting := conflicting || |values| > 1;
    }
    EveryFact(Elements(evidence));
  }

  function Position(fact: Fact): (i: nat)
    ensures i < |FACTS| && FACTS[i] == fact
  {
    match fact case Model => 0 case Mode => 1 case OccurredAt => 2 case Input => 3
               case Output => 4 case CacheRead => 5 case CacheWrite => 6 case Reasoning => 7
  }

  lemma EveryFact(members: set<Evidence>)
    ensures Conflicting(members) <==> exists i :: 0 <= i < |FACTS| && Disagree(members, FACTS[i])
  {
    if Conflicting(members) {
      var fact :| Disagree(members, fact);
      assert Disagree(members, FACTS[Position(fact)]);
    }
  }

  // soleString, soleTime and soleInt64
  method Sole(evidence: seq<Evidence>, fact: Fact) returns (v: Option<Value>)
    ensures Says(Elements(evidence), fact, v)
  {
    var values := Collect(evidence, fact);
    SoleSays(Elements(evidence), fact);
    if |values| == 1 {
      var value :| value in values;
      v := Some(value);
    } else {
      v := None;
    }
  }

  lemma SoleSays(members: set<Evidence>, fact: Fact)
    ensures |Values(members, fact)| == 1 ==> forall v :: v in Values(members, fact) ==> Says(members, fact, Some(v))
    ensures |Values(members, fact)| != 1 ==> Says(members, fact, None)
  {
    var values := Values(members, fact);
    ManyValues(members, fact);
    if |values| == 1 {
      forall v | v in values ensures Says(members, fact, Some(v)) {
        var x :| x in members && Reported(x.facts, fact).Some? && Reported(x.facts, fact).value == v;
        assert Reports(x, fact, v);
      }
    } else if |values| == 0 {
      forall x | x in members ensures Reported(x.facts, fact).None? {
        ValueKept(members, fact, x);
      }
    }
  }

  function CounterOf(v: Option<Value>): (c: Counter)
    ensures Plain(c) && (v.None? || v.value.Number? ==> Counted(c) == v)
  {
    if v.Some? && v.value.Number? then Counter(v.value.number, v.value.number == 0) else Counter(0, false)
  }

  // Every fact is named or counted as its kind says.
  lemma Kinds(members: set<Evidence>, fact: Fact, v: Option<Value>)
    requires Says(members, fact, v) && v.Some?
    ensures fact.Model? || fact.Mode? ==> v.value.Text? && v.value.text != []
    ensures !fact.Model? && !fact.Mode? ==> v.value.Number?
    ensures fact.OccurredAt? ==> v.value.number != 0
  {
    var x :| x in members && Reports(x, fact, v.value);
  }

  method SoleName(evidence: seq<Evidence>, fact: Fact) returns (name: Bytes)
    requires fact.Model? || fact.Mode?
    ensures Says(Elements(evidence), fact, Named(name))
  {
    var v := Sole(evidence, fact);
    if v.Some? {
      Kinds(Elements(evidence), fact, v);
      name := v.value.text;
    } else {
      name := [];
    }
  }

  method SoleTime(evidence: seq<Evidence>) returns (t: int)
    ensures Says(Elements(evidence), OccurredAt, if t != 0 then Some(Number(t)) else None)
  {
    var v := Sole(evidence, OccurredAt);
    if v.Some? {
      Kinds(Elements(evidence), OccurredAt, v);
      t := v.value.number;
    } else {
      t := 0;
    }
  }

  method SoleCount(evidence: seq<Evidence>, fact: Fact) returns (c: Counter)
    requires !fact.Model? && !fact.Mode? && !fact.OccurredAt?
    ensures Plain(c) && Says(Elements(evidence), fact, Counted(c))
  {
    var v := Sole(evidence, fact);
    if v.Some? {
      Kinds(Elements(evidence), fact, v);
    }
    c := CounterOf(v);
  }

  method ReconcileClaudeFacts(evidence: seq<Evidence>) returns (facts: Facts)
    ensures Reconciled(Elements(evidence), facts)
  {
    var model := SoleName(evidence, Model);
    var mode := SoleName(evidence, Mode);
    var occurredAt := SoleTime(evidence);
    var input := SoleCount(evidence, Input);
    var output := SoleCount(evidence, Output);
    var cacheRead := SoleCount(evidence, CacheRead);
    var cacheWrite := SoleCount(evidence, CacheWrite);
    var reasoning := SoleCount(evidence, Reasoning);
    facts := Facts(model, mode, occurredAt, input, output, cacheRead, cacheWrite, reasoning);
    ReconciledFrom(Elements(evidence), facts);
  }

  // The facts that are names or times; v is the report f gives.
  lemma NamesSaid(members: set<Evidence>, f: Facts, fact: Fact, v: Option<Value>)
    requires v == Reported(f, fact) && (fact.Model? || fact.Mode? || fact.OccurredAt?)
    requires Says(members, Model, Named(f.model)) && Says(members, Mode, Named(f.mode))
    requires Says(members, OccurredAt, if f.occurredAt != 0 then Some(Number(f.occurredAt)) else None)
    ensures Says(members, fact, v)
  {
    match fact case Model => case Mode => case OccurredAt =>
  }

  // The facts that are counters.
  lemma CountersSaid(members: set<Evidence>, f: Facts, fact: Fact, v: Option<Value>)
    requires v == Reported(f, fact) && !fact.Model? && !fact.Mode? && !fact.OccurredAt?
    requires Says(members, Input, Counted(f.input)) && Says(members, Output, Counted(f.output))
    requires Says(members, CacheRead, Counted(f.cacheRead)) && Says(members, CacheWrite, Counted(f.cacheWrite))
    requires Says(members, Reasoning, Counted(f.reasoning))
    ensures Says(members, fact, v)
  {
    match fact case Input => case Output => case CacheRead => case CacheWrite => case Reasoning =>
  }

  lemma ReconciledFrom(members: set<Evidence>, f: Facts)
    requires PlainFacts(f)
    requires Says(members, Model, Named(f.model)) && Says(members, Mode, Named(f.mode))
    requires Says(members, OccurredAt, if f.occurredAt != 0 then Some(Number(f.occurredAt)) else None)
    requires Says(members, Input, Counted(f.input)) && Says(members, Output, Counted(f.output))
    requires Says(members, CacheRead, Counted(f.cacheRead)) && Says(members, CacheWrite, Counted(f.cacheWrite))
    requires Says(members, Reasoning, Counted(f.reasoning))
    ensures Reconciled(members, f)
  {
    forall fact ensures Says(members, fact, Reported(f, fact)) {
      if fact.Model? || fact.Mode? || fact.OccurredAt? {
        NamesSaid(members, f, fact, Reported(f, fact));
      } else {
        CountersSaid(members, f, fact, Reported(f, fact));
      }
    }
  }

  // The amounts offered, and whether a member spoils them.
  ghost predicate Gathered(xs: seq<Evidence>, amounts: set<int>, invalid: bool) {
    && (forall amount :: amount in amounts <==> exists x :: x in xs && Offers(x, amount))
    && (invalid <==> exists x :: x in xs && Spoiled(x))
  }

  lemma GatheredNext(xs: seq<Evidence>, x: Evidence, amounts: set<int>, invalid: bool)
    requires Gathered(xs, amounts, invalid)
    ensures Gathered(xs + [x], if x.amountState.Valid? && x.amount.Some? then amounts + {x.amount.value} else amounts,
                     invalid || Spoiled(x))
  {
    var amounts' := if x.amountState.Valid? && x.amount.Some? then amounts + {x.amount.value} else amounts;
    forall amount ensures amount in amounts' <==> exists y :: y in xs + [x] && Offers(y, amount) {
      if amount in amounts {
        var y :| y in xs && Offers(y, amount);
        assert y in xs + [x];
      } else if amount in amounts' {
        assert x in xs + [x] && Offers(x, amount);
      }
    }
    if invalid {
      var y :| y in xs && Spoiled(y);
      assert y in xs + [x];
    }
    assert x in xs + [x];
  }

  lemma TwoGathered(xs: seq<Evidence>, amounts: set<int>, invalid: bool)
    requires Gathered(xs, amounts, invalid)
    ensures |amounts| > 1 <==> TwoAmounts(Elements(xs))
  {
    Many(amounts);
    if |amounts| > 1 {
      var a, b := TwoOf(amounts);
      var x :| x in xs && Offers(x, a);
      var y :| y in xs && Offers(y, b);
      assert x in Elements(xs) && y in Elements(xs);
    }
    if TwoAmounts(Elements(xs)) {
      var x, y :| x in Elements(xs) && y in Elements(xs) && x.amountState.Valid? && y.amountState.Valid? &&
                  x.amount.Some? && y.amount.Some? && x.amount != y.amount;
      assert Offers(x, x.amount.value) && Offers(y, y.amount.value);
      assert x.amount.value in amounts && y.amount.value in amounts;
    }
  }

  lemma AttributedFrom(xs: seq<Evidence>, amounts: set<int>, invalid: bool, a: Attribution)
    requires Gathered(xs, amounts, invalid) && !Conflicting(Elements(xs)) && !TwoAmounts(Elements(xs))
    requires a.Unavailable? ==> a.reason.InvalidAmount? && (invalid || amounts == {})
    requires a.ProviderReported? ==> !invalid && a.amount in amounts
    ensures Attributed(Elements(xs), a)
  {
    if a.ProviderReported? {
      var x :| x in xs && Offers(x, a.amount);
      assert x in Elements(xs);
    } else if invalid {
      var x :| x in xs && Spoiled(x);
      assert x in Elements(xs);
    } else {
      forall x, amount | x in Elements(xs) ensures !Offers(x, amount) {
        assert x in xs && amount !in amounts;
      }
    }
  }

  method ReconcileClaudeAttribution(evidence: seq<Evidence>) returns (a: Attribution)
    ensures Attributed(Elements(evidence), a)
  {
    var conflicting := ConflictingClaudeFacts(evidence);
    if conflicting {
      return Unavailable(ConflictingEvidence);
    }
    var amounts, invalid := GatherAmounts(evidence);
    TwoGathered(evidence, amounts, invalid);
    if |amounts| > 1 {
      return Unavailable(ConflictingEvidence);
    }
    if invalid || |amounts| == 0 {
      a := Unavailable(InvalidAmount);
    } else {
      var amount := Pick(amounts);
      a := ProviderReported(amount);
    }
    AttributedFrom(evidence, amounts, invalid, a);
  }

  method GatherAmounts(evidence: seq<Evidence>) returns (amounts: set<int>, invalid: bool)
    ensures Gathered(evidence, amounts, invalid)
  {
    amounts, invalid := {}, false;
    for k := 0 to |evidence|
      invariant Gathered(evidence[..k], amounts, invalid)
    {
      assert evidence[..k + 1] == evidence[..k] + [evidence[k]];
      GatheredNext(evidence[..k], evidence[k], amounts, invalid);
      match evidence[k].amountState
      case Valid =>
        if evidence[k].amount.None? {
          invalid := true;
        } else {
          amounts := amounts + {evidence[k].amount.value};
        }
      case Invalid => invalid := true;
      case Absent =>
    }
    assert evidence[..|evidence|] == evidence;
  }
}
