/** src/services/rules/evaluate-subject.ts and five-value-result.ts: the findings that gate an approval. */
module Rules {

  type Name = nat // a type name, id, field path or JSON text, compared for equality only

  datatype Verification = Unverified | Verified | RejectedFact

  datatype Fact = Fact(subjectType: Name, subjectId: Name, fieldPath: Name, candidateValue: Name,
                       confidence: real, status: Verification)

  datatype RuleResult = Pass | FailResult | Incomplete | Ambiguous | ExpertReviewRequired

  datatype Finding = RequiredFields | Conflict(field: Name) | LowConfidence(field: Name) {
    function Result(): RuleResult {
      match this
      case RequiredFields => Incomplete
      case Conflict(_) => Ambiguous
      case LowConfidence(_) => ExpertReviewRequired
    }
  }

  const LOW_CONFIDENCE_THRESHOLD := 0.7

  // ---------------------------------------------------------------- what the health of a field means

  ghost predicate Conflicting(facts: seq<Fact>, subjectType: Name, subjectId: Name, field: Name) {
    exists i, j :: 0 <= i < |facts| && 0 <= j < |facts|
                   && IsVerified(facts[i], subjectType, subjectId, field)
                   && IsVerified(facts[j], subjectType, subjectId, field)
                   && facts[i].candidateValue != facts[j].candidateValue
  }

  ghost predicate OnlyLowConfidence(facts: seq<Fact>, subjectType: Name, subjectId: Name, field: Name) {
    && (forall i | 0 <= i < |facts| :: !IsVerified(facts[i], subjectType, subjectId, field))
    && (exists i :: 0 <= i < |facts| && IsAbout(facts[i], subjectType, subjectId, field)
                    && facts[i].status == Unverified && facts[i].confidence < 0.7)
  }

  predicate IsAbout(fact: Fact, subjectType: Name, subjectId: Name, field: Name) {
    fact.subjectType == subjectType && fact.subjectId == subjectId && fact.fieldPath == field
  }

  predicate IsVerified(fact: Fact, subjectType: Name, subjectId: Name, field: Name) {
    IsAbout(fact, subjectType, subjectId, field) && fact.status == Verified
  }

  predicate IsDoubtful(fact: Fact) {
    fact.status == Unverified && fact.confidence < LOW_CONFIDENCE_THRESHOLD
  }

  ghost predicate Healthy(facts: seq<Fact>, subjectType: Name, subjectId: Name) {
    forall field :: !Conflicting(facts, subjectType, subjectId, field)
      && !OnlyLowConfidence(facts, subjectType, subjectId, field)
  }

  // ---------------------------------------------------------------- the grouping

  function Relevant(facts: seq<Fact>, subjectType: Name, subjectId: Name): seq<Fact> {
    if facts == [] then []
    else
      var front, last := Relevant(facts[..|facts| - 1], subjectType, subjectId), facts[|facts| - 1];
      if last.subjectType == subjectType && last.subjectId == subjectId then front + [last] else front
  }

  function OfField(facts: seq<Fact>, field: Name): seq<Fact> {
    if facts == [] then []
    else
      var front, last := OfField(facts[..|facts| - 1], field), facts[|facts| - 1];
      if last.fieldPath == field then front + [last] else front
  }

  // the field paths in order of first appearance, as a JavaScript Map lists its keys
  function FieldsInOrder(facts: seq<Fact>): seq<Name> {
    if facts == [] then []
    else
      var front, last := FieldsInOrder(facts[..|facts| - 1]), facts[|facts| - 1];
      if last.fieldPath in front then front else front + [last.fieldPath]
  }

  function VerifiedValues(group: seq<Fact>): set<Name> {
    set i | 0 <= i < |group| && group[i].status == Verified :: group[i].candidateValue
  }

  function FieldFindings(field: Name, group: seq<Fact>): seq<Finding> {
    var values := VerifiedValues(group);
    if |values| > 1 then [Conflict(field)]
    else if values == {} && exists i :: 0 <= i < |group| && IsDoubtful(group[i]) then [LowConfidence(field)]
    else []
  }

  function HealthOf(fields: seq<Name>, relevant: seq<Fact>): seq<Finding> {
    if fields == [] then []
    else
      var last := fields[|fields| - 1];
      HealthOf(fields[..|fields| - 1], relevant) + FieldFindings(last, OfField(relevant, last))
  }

  function HealthFindings(facts: seq<Fact>, subjectType: Name, subjectId: Name): seq<Finding> {
    var relevant := Relevant(facts, subjectType, subjectId);
    HealthOf(FieldsInOrder(relevant), relevant)
  }

  lemma {:induction false} FieldsDistinct(facts: seq<Fact>)
    ensures forall i, j | 0 <= i < j < |FieldsInOrder(facts)| :: FieldsInOrder(facts)[i] != FieldsInOrder(facts)[j]
    ensures forall f :: f in FieldsInOrder(facts) <==> exists i :: 0 <= i < |facts| && facts[i].fieldPath == f
  {
    if facts != [] {
      var front := facts[..|facts| - 1];
      FieldsDistinct(front);
      forall i | 0 <= i < |facts| ensures facts[i].fieldPath in FieldsInOrder(facts) {
        if i < |front| {
          assert front[i].fieldPath in FieldsInOrder(front);
        }
      }
      forall f | f in FieldsInOrder(front) ensures exists i :: 0 <= i < |facts| && facts[i].fieldPath == f {
        var i :| 0 <= i < |front| && front[i].fieldPath == f;
        assert facts[i].fieldPath == f;
      }
      assert facts[|facts| - 1].fieldPath in FieldsInOrder(facts);
    }
  }

  ghost predicate Grouped(order: seq<Name>, byField: map<Name, seq<Fact>>, facts: seq<Fact>) {
    && order == FieldsInOrder(facts)
    && (forall f :: f in byField <==> f in order)
    && (forall f :: OfField(facts, f) == if f in byField then byField[f] else [])
  }

  // the field turns up among the facts before the other one does
  ghost predicate AppearsBefore(facts: seq<Fact>, field: Name, other: Name) {
    exists p :: 0 <= p < |facts| && facts[p].fieldPath == field && forall q | 0 <= q <= p :: facts[q].fieldPath != other
  }

  lemma AppearsStill(facts: seq<Fact>, fact: Fact, field: Name, other: Name)
    requires AppearsBefore(facts, field, other)
    ensures AppearsBefore(facts + [fact], field, other)
  {
    var p :| 0 <= p < |facts| && facts[p].fieldPath == field && forall q | 0 <= q <= p :: facts[q].fieldPath != other;
    assert (facts + [fact])[p].fieldPath == field;
  }

  /** The fields are listed in the order in which they first appear. */
  lemma {:induction false} FieldsByAppearance(facts: seq<Fact>, i: nat, j: nat)
    requires i < j < |FieldsInOrder(facts)|
    ensures AppearsBefore(facts, FieldsInOrder(facts)[i], FieldsInOrder(facts)[j])
  {
    var front, last := facts[..|facts| - 1], facts[|facts| - 1];
    var fields, field, other := FieldsInOrder(front), FieldsInOrder(facts)[i], FieldsInOrder(facts)[j];
    assert facts == front + [last];
    if j < |fields| {
      FieldsByAppearance(front, i, j);
      AppearsStill(front, last, field, other);
    } else {
      FieldsDistinct(front);
      assert field in fields && other !in fields;
      var p :| 0 <= p < |front| && front[p].fieldPath == field;
      assert facts[p].fieldPath == field;
      assert forall q | 0 <= q <= p :: facts[q] == front[q] && front[q].fieldPath in fields;
    }
  }

  // the first loop: a Map from field path to its facts, in order of first appearance
  method GroupByField(relevant: seq<Fact>) returns (order: seq<Name>, byField: map<Name, seq<Fact>>)
    ensures Grouped(order, byField, relevant)
  {
    order, byField := [], map[];
    for i := 0 to |relevant|
      invariant Grouped(order, byField, relevant[..i])
    {
      var fact := relevant[i];
      var group := if fact.fieldPath in byField then byField[fact.fieldPath] else [];
      assert relevant[..i + 1][..i] == relevant[..i];
      if fact.fieldPath !in byField {
        order := order + [fact.fieldPath];
      }
      byField := byField[fact.fieldPath := group + [fact]];
    }
    assert relevant[..|relevant|] == relevant;
  }

  function IsBlocking(r: RuleResult): bool {
    r == Ambiguous || r == ExpertReviewRequired
  }

  function Blocking(findings: seq<Finding>): seq<Finding> {
    if findings == [] then []
    else
      var last := findings[|findings| - 1];
      Blocking(findings[..|findings| - 1]) + (if IsBlocking(last.Result()) then [last] else [])
  }

  // assertNoBlockingFindings does not throw
  predicate NoBlockingFindings(findings: seq<Finding>) {
    Blocking(findings) == []
  }

  function Evaluate(requiredMissing: bool, facts: seq<Fact>, subjectType: Name, subjectId: Name): seq<Finding> {
    (if requiredMissing then [RequiredFields] else []) + HealthFindings(facts, subjectType, subjectId)
  }

  // ---------------------------------------------------------------- the gate means what it should

  lemma {:induction false} BlockingConcat(a: seq<Finding>, b: seq<Finding>)
    ensures Blocking(a + b) == Blocking(a) + Blocking(b)
  {
    if b == [] {
      assert a + b == a;
    } else {
      BlockingConcat(a, b[..|b| - 1]);
      assert (a + b)[..|a + b| - 1] == a + b[..|b| - 1];
    }
  }

  lemma OneBlocks(field: Name, group: seq<Fact>)
    ensures Blocking(FieldFindings(field, group)) == FieldFindings(field, group)
  {
    var own := FieldFindings(field, group);
    if own != [] {
      assert own[..0] == [];
    }
  }

  predicate NoneFinds(fields: seq<Name>, relevant: seq<Fact>) {
    forall i | 0 <= i < |fields| :: FieldFindings(fields[i], OfField(relevant, fields[i])) == []
  }

  lemma NoneFindsLast(fields: seq<Name>, last: Name, relevant: seq<Fact>)
    ensures NoneFinds(fields + [last], relevant)
            <==> NoneFinds(fields, relevant) && FieldFindings(last, OfField(relevant, last)) == []
  {
    hide FieldFindings, OfField;
    var all := fields + [last];
    assert all[|fields|] == last;
    assert forall i | 0 <= i < |fields| :: all[i] == fields[i];
  }

  lemma HealthOfLast(fields: seq<Name>, last: Name, relevant: seq<Fact>)
    ensures HealthOf(fields + [last], relevant)
            == HealthOf(fields, relevant) + FieldFindings(last, OfField(relevant, last))
  {
    hide FieldFindings, OfField;
    assert (fields + [last])[..|fields|] == fields;
  }

  lemma NoFieldsBlockNothing(relevant: seq<Fact>)
    ensures NoBlockingFindings(HealthOf([], relevant)) && NoneFinds([], relevant)
  {
  }

  lemma {:induction false} HealthBlocks(fields: seq<Name>, relevant: seq<Fact>)
    ensures NoBlockingFindings(HealthOf(fields, relevant)) <==> NoneFinds(fields, relevant)
  {
    hide Blocking, HealthOf, NoneFinds;
    if fields == [] {
      NoFieldsBlockNothing(relevant);
    } else {
      var front, last := fields[..|fields| - 1], fields[|fields| - 1];
      HealthBlocks(front, relevant);
      HealthBlocksLast(front, last, relevant);
      assert fields == front + [last];
    }
  }

  lemma HealthBlocksLast(front: seq<Name>, last: Name, relevant: seq<Fact>)
    requires NoBlockingFindings(HealthOf(front, relevant)) <==> NoneFinds(front, relevant)
    ensures NoBlockingFindings(HealthOf(front + [last], relevant)) <==> NoneFinds(front + [last], relevant)
  {
    hide HealthOf, FieldFindings, OfField, Blocking, NoneFinds;
    var own := FieldFindings(last, OfField(relevant, last));
    NoneFindsLast(front, last, relevant);
    HealthOfLast(front, last, relevant);
    BlockingConcat(HealthOf(front, relevant), own);
    OneBlocks(last, OfField(relevant, last));
  }

  lemma {:induction false} RelevantMembers(facts: seq<Fact>, subjectType: Name, subjectId: Name)
    ensures forall f ::
              (f in Relevant(facts, subjectType, subjectId)
               <==> f in facts && f.subjectType == subjectType && f.subjectId == subjectId)
  {
    if facts != [] {
      RelevantMembers(facts[..|facts| - 1], subjectType, subjectId);
      assert facts == facts[..|facts| - 1] + [facts[|facts| - 1]];
    }
  }

  lemma {:induction false} OfFieldMembers(facts: seq<Fact>, field: Name)
    ensures forall f :: f in OfField(facts, field) <==> f in facts && f.fieldPath == field
  {
    if facts != [] {
      OfFieldMembers(facts[..|facts| - 1], field);
      assert facts == facts[..|facts| - 1] + [facts[|facts| - 1]];
    }
  }

  lemma TwoElements(s: set<Name>)
    ensures |s| > 1 <==> exists a, b :: a in s && b in s && a != b
  {
    if |s| > 1 {
      var a :| a in s;
      assert |s - {a}| == |s| - 1;
      var b :| b in s - {a};
    } else if a, b :| a in s && b in s && a != b {
      assert {a, b} <= s;
      SubsetSize({a, b}, s);
    }
  }

  lemma {:induction false} SubsetSize(a: set<Name>, b: set<Name>)
    requires a <= b
    ensures |a| <= |b|
  {
    if a != {} {
      var x :| x in a;
      SubsetSize(a - {x}, b - {x});
    }
  }

  lemma GroupMembers(facts: seq<Fact>, subjectType: Name, subjectId: Name, field: Name)
    ensures forall f ::
              (f in OfField(Relevant(facts, subjectType, subjectId), field)
               <==> f in facts && IsAbout(f, subjectType, subjectId, field))
  {
    RelevantMembers(facts, subjectType, subjectId);
    OfFieldMembers(Relevant(facts, subjectType, subjectId), field);
  }

  lemma ConflictIffTwoValues(facts: seq<Fact>, subjectType: Name, subjectId: Name, field: Name)
    ensures |VerifiedValues(OfField(Relevant(facts, subjectType, subjectId), field))| > 1
       <==> Conflicting(facts, subjectType, subjectId, field)
  {
    var group := OfField(Relevant(facts, subjectType, subjectId), field);
    GroupMembers(facts, subjectType, subjectId, field);
    TwoElements(VerifiedValues(group));
    if Conflicting(facts, subjectType, subjectId, field) {
      var i, j :| 0 <= i < |facts| && 0 <= j < |facts|
                  && IsVerified(facts[i], subjectType, subjectId, field)
                  && IsVerified(facts[j], subjectType, subjectId, field)
                  && facts[i].candidateValue != facts[j].candidateValue;
      assert facts[i] in group && facts[j] in group;
      assert facts[i].candidateValue in VerifiedValues(group) && facts[j].candidateValue in VerifiedValues(group);
    }
    if a, b :| a in VerifiedValues(group) && b in VerifiedValues(group) && a != b {
      var k :| 0 <= k < |group| && group[k].status == Verified && group[k].candidateValue == a;
      var l :| 0 <= l < |group| && group[l].status == Verified && group[l].candidateValue == b;
      assert group[k] in facts && group[l] in facts;
    }
  }

  predicate Doubtful(group: seq<Fact>) {
    VerifiedValues(group) == {} && exists i :: 0 <= i < |group| && IsDoubtful(group[i])
  }

  lemma LowConfidenceIff(facts: seq<Fact>, subjectType: Name, subjectId: Name, field: Name)
    ensures Doubtful(OfField(Relevant(facts, subjectType, subjectId), field))
            <==> OnlyLowConfidence(facts, subjectType, subjectId, field)
  {
    var group := OfField(Relevant(facts, subjectType, subjectId), field);
    GroupMembers(facts, subjectType, subjectId, field);
    forall i | 0 <= i < |facts| && IsVerified(facts[i], subjectType, subjectId, field)
      ensures facts[i].candidateValue in VerifiedValues(group)
    {
      assert facts[i] in group;
    }
    forall k | 0 <= k < |group| ensures exists i :: 0 <= i < |facts| && facts[i] == group[k] {
      assert group[k] in facts;
    }
    if i :| 0 <= i < |facts| && IsAbout(facts[i], subjectType, subjectId, field) && IsDoubtful(facts[i]) {
      assert facts[i] in group;
    }
  }

  lemma FieldListedIff(facts: seq<Fact>, field: Name)
    ensures field in FieldsInOrder(facts) <==> OfField(facts, field) != []
  {
    FieldsDistinct(facts);
    OfFieldMembers(facts, field);
    if i :| 0 <= i < |facts| && facts[i].fieldPath == field {
      assert facts[i] in OfField(facts, field);
    }
    if OfField(facts, field) != [] {
      assert OfField(facts, field)[0] in OfField(facts, field);
    }
  }

  lemma FieldVerdict(facts: seq<Fact>, subjectType: Name, subjectId: Name, field: Name)
    ensures FieldFindings(field, OfField(Relevant(facts, subjectType, subjectId), field)) == []
       <==> (!Conflicting(facts, subjectType, subjectId, field)
             && !OnlyLowConfidence(facts, subjectType, subjectId, field))
  {
    ConflictIffTwoValues(facts, subjectType, subjectId, field);
    LowConfidenceIff(facts, subjectType, subjectId, field);
  }

  lemma AllFieldsVerdict(facts: seq<Fact>, subjectType: Name, subjectId: Name)
    ensures NoBlockingFindings(HealthFindings(facts, subjectType, subjectId))
            <==> Healthy(facts, subjectType, subjectId)
  {
    var relevant := Relevant(facts, subjectType, subjectId);
    var fields := FieldsInOrder(relevant);
    HealthBlocks(fields, relevant);
    if NoBlockingFindings(HealthFindings(facts, subjectType, subjectId)) {
      forall field
        ensures !Conflicting(facts, subjectType, subjectId, field)
        ensures !OnlyLowConfidence(facts, subjectType, subjectId, field)
      {
        FieldVerdict(facts, subjectType, subjectId, field);
        FieldListedIff(relevant, field);
      }
    }
    if Healthy(facts, subjectType, subjectId) {
      forall i | 0 <= i < |fields| ensures FieldFindings(fields[i], OfField(relevant, fields[i])) == [] {
        FieldVerdict(facts, subjectType, subjectId, fields[i]);
      }
    }
  }

  /** The gate opens exactly when no field of the subject has conflicting verified values and none
      has only low-confidence unverified ones; missing required fields never close it. */
  lemma GateIffHealthy(requiredMissing: bool, facts: seq<Fact>, subjectType: Name, subjectId: Name)
    ensures NoBlockingFindings(Evaluate(requiredMissing, facts, subjectType, subjectId))
            <==> Healthy(facts, subjectType, subjectId)
  {
    var required := if requiredMissing then [RequiredFields] else [];
    BlockingConcat(required, HealthFindings(facts, subjectType, subjectId));
    assert Blocking(required) == [] by { if requiredMissing { assert required[..0] == []; } }
    AllFieldsVerdict(facts, subjectType, subjectId);
  }

  // ---------------------------------------------------------------- which findings there are, and in which order

  // a conflict where verified values differ, low confidence where doubtful ones are all there is
  ghost predicate IsCalledFor(f: Finding, facts: seq<Fact>, subjectType: Name, subjectId: Name) {
    match f
    case RequiredFields => false
    case Conflict(field) => Conflicting(facts, subjectType, subjectId, field)
    case LowConfidence(field) => OnlyLowConfidence(facts, subjectType, subjectId, field)
  }

  // one field of the subject turns up among the facts before the other does
  ghost predicate SubjectFieldBefore(facts: seq<Fact>, subjectType: Name, subjectId: Name, field: Name, other: Name) {
    exists p :: && 0 <= p < |facts| && IsAbout(facts[p], subjectType, subjectId, field)
                && forall q | 0 <= q <= p :: !IsAbout(facts[q], subjectType, subjectId, other)
  }

  lemma {:induction false} RelevantInOrder(facts: seq<Fact>, subjectType: Name, subjectId: Name, field: Name,
                                           other: Name)
    requires AppearsBefore(Relevant(facts, subjectType, subjectId), field, other)
    ensures SubjectFieldBefore(facts, subjectType, subjectId, field, other)
  {
    var front, last := facts[..|facts| - 1], facts[|facts| - 1];
    var relevant := Relevant(front, subjectType, subjectId);
    assert facts == front + [last];
    if AppearsBefore(relevant, field, other) {
      RelevantInOrder(front, subjectType, subjectId, field, other);
      SubjectFieldStill(front, last, subjectType, subjectId, field, other);
    } else {
      LastAppears(relevant, last, field, other);
      RelevantMembers(front, subjectType, subjectId);
      forall q | 0 <= q < |front| ensures !IsAbout(front[q], subjectType, subjectId, other) {
        assert front[q] in front;
        assert forall f | f in relevant :: f.fieldPath != other;
      }
      assert facts[|front|] == last;
    }
  }

  lemma SubjectFieldStill(facts: seq<Fact>, fact: Fact, subjectType: Name, subjectId: Name, field: Name, other: Name)
    requires SubjectFieldBefore(facts, subjectType, subjectId, field, other)
    ensures SubjectFieldBefore(facts + [fact], subjectType, subjectId, field, other)
  {
    var p :| && 0 <= p < |facts| && IsAbout(facts[p], subjectType, subjectId, field)
             && forall q | 0 <= q <= p :: !IsAbout(facts[q], subjectType, subjectId, other);
    assert (facts + [fact])[p] == facts[p];
  }

  // what appears first with the last fact appears in it
  lemma LastAppears(facts: seq<Fact>, fact: Fact, field: Name, other: Name)
    requires AppearsBefore(facts + [fact], field, other) && !AppearsBefore(facts, field, other)
    ensures fact.fieldPath == field && fact.fieldPath != other
    ensures forall q | 0 <= q < |facts| :: facts[q].fieldPath != other
  {
    var all := facts + [fact];
    var p :| 0 <= p < |all| && all[p].fieldPath == field && forall q | 0 <= q <= p :: all[q].fieldPath != other;
    assert forall q | 0 <= q < |facts| :: all[q] == facts[q];
  }

  lemma OneFieldFindings(facts: seq<Fact>, subjectType: Name, subjectId: Name, field: Name, f: Finding)
    ensures f in FieldFindings(field, OfField(Relevant(facts, subjectType, subjectId), field))
            <==> f != RequiredFields && f.field == field && IsCalledFor(f, facts, subjectType, subjectId)
  {
    ConflictIffTwoValues(facts, subjectType, subjectId, field);
    LowConfidenceIff(facts, subjectType, subjectId, field);
    hide OfField, Relevant, VerifiedValues, IsDoubtful;
    ConflictIsVerified(facts, subjectType, subjectId, field);
  }

  // the two kinds exclude each other
  lemma ConflictIsVerified(facts: seq<Fact>, subjectType: Name, subjectId: Name, field: Name)
    ensures !Conflicting(facts, subjectType, subjectId, field)
            || !OnlyLowConfidence(facts, subjectType, subjectId, field)
  {
  }

  // the findings are those of the single fields
  lemma {:induction false} HealthMembers(fields: seq<Name>, relevant: seq<Fact>)
    ensures forall f ::
              (f in HealthOf(fields, relevant)
               <==> exists i :: 0 <= i < |fields| && f in FieldFindings(fields[i], OfField(relevant, fields[i])))
  {
    hide FieldFindings, OfField;
    if fields != [] {
      var front, last := fields[..|fields| - 1], fields[|fields| - 1];
      HealthMembers(front, relevant);
      forall f ensures f in HealthOf(fields, relevant)
        <==> exists i :: 0 <= i < |fields| && f in FieldFindings(fields[i], OfField(relevant, fields[i]))
      {
        if f in HealthOf(front, relevant) {
          var i :| 0 <= i < |front| && f in FieldFindings(front[i], OfField(relevant, front[i]));
          assert fields[i] == front[i];
        }
        if i :| 0 <= i < |fields| && f in FieldFindings(fields[i], OfField(relevant, fields[i])) {
          if i < |front| {
            assert front[i] == fields[i];
          }
        }
      }
    }
  }

  lemma FindingIs(facts: seq<Fact>, subjectType: Name, subjectId: Name, f: Finding)
    ensures f in HealthFindings(facts, subjectType, subjectId) <==> IsCalledFor(f, facts, subjectType, subjectId)
  {
    hide FieldFindings, IsCalledFor, HealthOf;
    var relevant := Relevant(facts, subjectType, subjectId);
    var fields := FieldsInOrder(relevant);
    HealthMembers(fields, relevant);
    if f in HealthFindings(facts, subjectType, subjectId) {
      var i :| 0 <= i < |fields| && f in FieldFindings(fields[i], OfField(relevant, fields[i]));
      OneFieldFindings(facts, subjectType, subjectId, fields[i], f);
    }
    if IsCalledFor(f, facts, subjectType, subjectId) {
      NotRequired(f, facts, subjectType, subjectId);
      OneFieldFindings(facts, subjectType, subjectId, f.field, f);
      NoFactsNoFindings(f.field);
      FieldListedIff(relevant, f.field);
      var i :| 0 <= i < |fields| && fields[i] == f.field;
    }
  }

  lemma FindingsAre(facts: seq<Fact>, subjectType: Name, subjectId: Name)
    ensures forall f ::
              f in HealthFindings(facts, subjectType, subjectId) <==> IsCalledFor(f, facts, subjectType, subjectId)
  {
    forall f
      ensures f in HealthFindings(facts, subjectType, subjectId) <==> IsCalledFor(f, facts, subjectType, subjectId)
    {
      FindingIs(facts, subjectType, subjectId, f);
    }
  }

  lemma NotRequired(f: Finding, facts: seq<Fact>, subjectType: Name, subjectId: Name)
    requires IsCalledFor(f, facts, subjectType, subjectId)
    ensures f != RequiredFields
  {
  }

  lemma NoFactsNoFindings(field: Name)
    ensures FieldFindings(field, []) == []
  {
  }

  lemma {:induction false} HealthInOrder(fields: seq<Name>, relevant: seq<Fact>, i: nat, j: nat)
    requires forall k, l | 0 <= k < l < |fields| :: AppearsBefore(relevant, fields[k], fields[l])
    requires i < j < |HealthOf(fields, relevant)|
    ensures var all := HealthOf(fields, relevant);
            && all[i] != RequiredFields && all[j] != RequiredFields
            && AppearsBefore(relevant, all[i].field, all[j].field)
  {
    hide AppearsBefore, OfField;
    var front, last := fields[..|fields| - 1], fields[|fields| - 1];
    var before, own := HealthOf(front, relevant), FieldFindings(last, OfField(relevant, last));
    OneFinding(last, OfField(relevant, last));
    if j < |before| {
      HealthInOrder(front, relevant, i, j);
    } else {
      HealthMembers(front, relevant);
      assert before[i] in before;
      var k :| 0 <= k < |front| && before[i] in FieldFindings(front[k], OfField(relevant, front[k]));
      OneFinding(front[k], OfField(relevant, front[k]));
      assert fields[k] == front[k];
    }
  }

  lemma OneFinding(field: Name, group: seq<Fact>)
    ensures |FieldFindings(field, group)| <= 1
    ensures forall f | f in FieldFindings(field, group) :: f != RequiredFields && f.field == field
  {
  }

  lemma FindingsInOrder(facts: seq<Fact>, subjectType: Name, subjectId: Name)
    ensures var all := HealthFindings(facts, subjectType, subjectId);
            && (forall i | 0 <= i < |all| :: all[i] != RequiredFields)
            && forall i, j | 0 <= i < j < |all| ::
                 SubjectFieldBefore(facts, subjectType, subjectId, all[i].field, all[j].field)
  {
    hide AppearsBefore, SubjectFieldBefore, FieldsInOrder, HealthOf, IsCalledFor, Relevant;
    var relevant := Relevant(facts, subjectType, subjectId);
    var fields := FieldsInOrder(relevant);
    forall k, l | 0 <= k < l < |fields| ensures AppearsBefore(relevant, fields[k], fields[l]) {
      FieldsByAppearance(relevant, k, l);
    }
    var all := HealthFindings(facts, subjectType, subjectId);
    forall i | 0 <= i < |all| ensures all[i] != RequiredFields {
      assert all[i] in all;
      FindingIs(facts, subjectType, subjectId, all[i]);
      NotRequired(all[i], facts, subjectType, subjectId);
    }
    forall i, j | 0 <= i < j < |all|
      ensures SubjectFieldBefore(facts, subjectType, subjectId, all[i].field, all[j].field)
    {
      HealthInOrder(fields, relevant, i, j);
      RelevantInOrder(facts, subjectType, subjectId, all[i].field, all[j].field);
    }
  }

  /** checkFactAssertionHealth: group the subject's facts by field, then judge each group. */
  method CheckFactAssertionHealth(facts: seq<Fact>, subjectType: Name, subjectId: Name) returns (findings: seq<Finding>)
    ensures findings == HealthFindings(facts, subjectType, subjectId)
    ensures forall f :: f in findings <==> IsCalledFor(f, facts, subjectType, subjectId)
    ensures forall f | f in findings :: f.Result() == if f.Conflict? then Ambiguous else ExpertReviewRequired
    ensures forall i, j | 0 <= i < j < |findings| ::
              && findings[i] != RequiredFields && findings[j] != RequiredFields
              && SubjectFieldBefore(facts, subjectType, subjectId, findings[i].field, findings[j].field)
  {
    var relevant := Relevant(facts, subjectType, subjectId);
    var order, byField := GroupByField(relevant);
    findings := [];
    for i := 0 to |order|
      invariant findings == HealthOf(order[..i], relevant)
    {
      var field := order[i];
      var group := byField[field];
      assert group == OfField(relevant, field);
      assert order[..i + 1][..i] == order[..i];
      var distinctVerifiedValues := VerifiedValues(group);
      if |distinctVerifiedValues| > 1 {
        findings := findings + [Conflict(field)];
        continue;
      }
      if distinctVerifiedValues == {} {
        if exists k :: 0 <= k < |group| && IsDoubtful(group[k]) {
          findings := findings + [LowConfidence(field)];
        }
      }
    }
    assert order[..|order|] == order;
    FindingsAre(facts, subjectType, subjectId);
    FindingsInOrder(facts, subjectType, subjectId);
  }
}
