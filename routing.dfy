/**
 * Claim routing (src/route_claim.py): an ordered list of five rules over the
 * extracted fields and the missing-field list, the first that applies wins.
 */
module Routing {
  import opened Wrappers
  import opened Strings
  import opened FieldMaps

  datatype Route = ManualReview | Investigation | SpecialistQueue | FastTrack

  /** The `recommendedRoute` string of each route. */
  function RouteName(r: Route): string {
    match r
    case ManualReview => "Manual Review"
    case Investigation => "Investigation"
    case SpecialistQueue => "Specialist Queue"
    case FastTrack => "Fast-track"
  }

  /** Distinct routes carry distinct names, so the name alone identifies the route. */
  lemma RouteNameInjective(a: Route, b: Route)
    ensures RouteName(a) == RouteName(b) <==> a == b
  {
    if a != b {
      assert |RouteName(a)| != |RouteName(b)| || RouteName(a)[0] != RouteName(b)[0];
    }
  }

  /** The dict `determine_route` returns: a route and its reasoning. */
  datatype Decision = Decision(route: Route, reasoning: string)

  /** The one failure of `determine_route`: a `description` stored as `None`
      makes `.lower()` raise. */
  datatype RouteError = DescriptionIsNone

  const FraudKeywords: seq<string> := ["fraud", "staged", "inconsistent"]

  /** Damage strictly below this amount is fast-tracked. */
  const FastTrackThreshold: int := 25000

  /** The first keyword, in list order, that occurs in `text`. */
  function FirstKeyword(text: string, keywords: seq<string>): (r: Option<string>)
    ensures r.None? <==> forall i :: 0 <= i < |keywords| ==> !Contains(text, keywords[i])
    ensures r.Some? ==> exists i :: 0 <= i < |keywords| && keywords[i] == r.value && Contains(text, r.value) &&
                          forall j :: 0 <= j < i ==> !Contains(text, keywords[j])
  {
    if keywords == [] then None
    else if Contains(text, keywords[0]) then Some(keywords[0])
    else
      var r := FirstKeyword(text, keywords[1..]);
      assert forall i :: 1 <= i < |keywords| ==> keywords[i] == keywords[1..][i - 1];
      assert r.Some? ==> exists i :: 0 <= i < |keywords| && keywords[i] == r.value && Contains(text, r.value) &&
                          forall j :: 0 <= j < i ==> !Contains(text, keywords[j]) by {
        if r.Some? {
          var i :| 0 <= i < |keywords| - 1 && keywords[1..][i] == r.value && Contains(text, r.value) &&
                   forall j :: 0 <= j < i ==> !Contains(text, keywords[1..][j]);
          assert keywords[i + 1] == r.value;
        }
      }
      r
  }

  /** `fields.get("description", "")`: the empty string when the key is
      absent; `None` when the key holds `None`, on which `.lower()` raises. */
  function DescriptionText(fields: FieldMap): (r: Option<string>)
    ensures r.None? <==> Lookup(fields, "description") == Some(None)
    ensures "description" !in Keys(fields) ==> r == Some("")
  {
    match Lookup(fields, "description")
    case None => Some("")
    case Some(v) => v
  }

  /** The damage amount rule 4 compares: present only when `estimatedDamage`
      is a non-empty string that `int()` accepts once its commas are removed. */
  function DamageAmount(fields: FieldMap): (r: Option<int>)
    ensures r.Some? ==> Get(fields, "estimatedDamage").Some? && Get(fields, "estimatedDamage").value != ""
    ensures r.Some? ==> |RemoveChar(Get(fields, "estimatedDamage").value, ',')| > 0
  {
    var damage := Get(fields, "estimatedDamage");
    if damage.Some? && damage.value != "" then ParseInt(RemoveChar(damage.value, ',')) else None
  }

  /** `determine_route(fields, missing_fields)`. */
  function DetermineRoute(fields: FieldMap, missing: seq<string>): (r: Result<Decision, RouteError>)
    ensures r.Err? <==> missing == [] && Lookup(fields, "description") == Some(None)
    ensures r.Ok? && r.value.route == FastTrack ==>
      DamageAmount(fields).Some? && DamageAmount(fields).value < FastTrackThreshold
  {
    if |missing| > 0 then
      Ok(Decision(ManualReview, "Mandatory fields missing: " + Join(missing, ", ")))
    else
      match DescriptionText(fields)
      case None => Err(DescriptionIsNone)
      case Some(description) =>
        match FirstKeyword(Lower(description), FraudKeywords)
        case Some(keyword) => Ok(Decision(Investigation, "Fraud keyword detected: " + keyword))
        case None =>
          if Get(fields, "claimType") == Some("injury") then
            Ok(Decision(SpecialistQueue, "Injury claim requires specialist"))
          else
            var amount := DamageAmount(fields);
            if amount.Some? && amount.value < FastTrackThreshold then
              Ok(Decision(FastTrack, "Damage below fast-track threshold"))
            else
              Ok(Decision(ManualReview, "Default routing applied"))
  }

  // ---------------------------------------------------------------------
  // The five rules
  // ---------------------------------------------------------------------

  /** Rule 1 dominates: any missing field sends the claim to manual review,
      naming the fields joined by commas, whatever the fields hold. */
  lemma MissingFieldsFirst(fields: FieldMap, missing: seq<string>)
    requires missing != []
    ensures DetermineRoute(fields, missing) ==
      Ok(Decision(ManualReview, "Mandatory fields missing: " + Join(missing, ", ")))
  {
  }

  /** Rule 2: with nothing missing, the claim goes to investigation exactly
      when the lower-cased description contains a fraud keyword, and the
      reasoning names the first keyword of the list that occurs, not the
      first one in the text. */
  lemma FraudKeywordRule(fields: FieldMap, description: string)
    requires DescriptionText(fields) == Some(description)
    ensures var r := DetermineRoute(fields, []);
      r.Ok? && r.value.route == Investigation <==>
        exists i :: 0 <= i < |FraudKeywords| && Contains(Lower(description), FraudKeywords[i])
    ensures var r := DetermineRoute(fields, []);
      r.Ok? && r.value.route == Investigation ==>
        exists i :: 0 <= i < |FraudKeywords| && Contains(Lower(description), FraudKeywords[i]) &&
          r.value.reasoning == "Fraud keyword detected: " + FraudKeywords[i] &&
          forall j :: 0 <= j < i ==> !Contains(Lower(description), FraudKeywords[j])
  {
  }

  /** Rule 3: with nothing missing and no fraud keyword, the claim goes to the
      specialist queue exactly when `claimType` is exactly `"injury"`. */
  lemma InjuryRule(fields: FieldMap, description: string)
    requires DescriptionText(fields) == Some(description)
    requires forall i :: 0 <= i < |FraudKeywords| ==> !Contains(Lower(description), FraudKeywords[i])
    ensures var r := DetermineRoute(fields, []);
      r.Ok? && (r.value.route == SpecialistQueue <==> Get(fields, "claimType") == Some("injury"))
  {
  }

  /** Rule 4: fast-track exactly when nothing is missing, the description is
      a string with no fraud keyword, the claim type is not `"injury"`, and
      the damage parses to an amount below the threshold. */
  lemma FastTrackIff(fields: FieldMap, missing: seq<string>)
    ensures var r := DetermineRoute(fields, missing);
      r.Ok? && r.value.route == FastTrack <==>
        && missing == []
        && DescriptionText(fields).Some?
        && (forall i :: 0 <= i < |FraudKeywords| ==> !Contains(Lower(DescriptionText(fields).value), FraudKeywords[i]))
        && Get(fields, "claimType") != Some("injury")
        && DamageAmount(fields).Some?
        && DamageAmount(fields).value < FastTrackThreshold
  {
  }

  /** Rule 5: when the first four do not apply, and in particular when the
      damage is absent, does not parse, or is at least the threshold, the
      claim falls through to manual review with the default reasoning. */
  lemma DefaultRule(fields: FieldMap, description: string)
    requires DescriptionText(fields) == Some(description)
    requires forall i :: 0 <= i < |FraudKeywords| ==> !Contains(Lower(description), FraudKeywords[i])
    requires Get(fields, "claimType") != Some("injury")
    requires DamageAmount(fields).None? || DamageAmount(fields).value >= FastTrackThreshold
    ensures DetermineRoute(fields, []) == Ok(Decision(ManualReview, "Default routing applied"))
  {
  }

  /** A damage of commas only, such as `",,,"`, leaves an empty string that
      `int()` rejects: no amount, so no fast-track. */
  lemma CommasOnlyNoAmount(fields: FieldMap, d: string)
    requires Get(fields, "estimatedDamage") == Some(d)
    requires d != "" && forall i :: 0 <= i < |d| ==> d[i] == ','
    ensures DamageAmount(fields) == None
  {
    RemoveOnly(d, ',');
    assert IntTrim([]) == [];
  }

  // ---------------------------------------------------------------------
  // Worked claims: all mandatory fields present
  // ---------------------------------------------------------------------

  /** With no keyword in the lower-cased text, `FirstKeyword` finds none. */
  lemma NoFraudKeyword(d: string)
    requires forall i :: 0 <= i < |FraudKeywords| ==> !Contains(Lower(d), FraudKeywords[i])
    ensures FirstKeyword(Lower(d), FraudKeywords) == None
  {
  }

  /** `"minor fender bender"` holds none of the fraud keywords: it has no
      `'a'` (in `"fraud"`) and no `'s'` (in `"staged"` and `"inconsistent"`). */
  lemma FenderBenderNoWord(d: string)
    requires d == "minor fender bender"
    ensures forall i :: 0 <= i < |FraudKeywords| ==> !Contains(d, FraudKeywords[i])
  {
    assert 'a' !in d && 's' !in d;
    if Contains(d, FraudKeywords[0]) {
      ContainedChar(d, FraudKeywords[0], 2);
    }
    if Contains(d, FraudKeywords[1]) {
      ContainedChar(d, FraudKeywords[1], 0);
    }
    if Contains(d, FraudKeywords[2]) {
      ContainedChar(d, FraudKeywords[2], 5);
    }
  }

  /** `"minor fender bender"` is already lower case. */
  lemma FenderBenderLower(d: string)
    requires d == "minor fender bender"
    ensures Lower(d) == d
  {
    assert Lower("minor fender bender") == "minor fender bender";
  }

  /** So no fraud keyword is found in it. */
  lemma FenderBenderNoKeyword(d: string)
    requires d == "minor fender bender"
    ensures FirstKeyword(Lower(d), FraudKeywords) == None
  {
    FenderBenderLower(d);
    FenderBenderNoWord(d);
    NoFraudKeyword(d);
  }

  /** Five digits, read one at a time. */
  lemma FiveDigits(ds: string)
    requires |ds| == 5 && forall i :: 0 <= i < 5 ==> IsDigit(ds[i])
    ensures DigitsValue(ds) == 10000 * DigitValue(ds[0]) + 1000 * DigitValue(ds[1]) +
      100 * DigitValue(ds[2]) + 10 * DigitValue(ds[3]) + DigitValue(ds[4])
  {
    assert ds[..0] == [];
    DigitsValuePrefix(ds, 0);
    var v1 := DigitValue(ds[0]);
    assert DigitsValue(ds[..1]) == v1;
    DigitsValuePrefix(ds, 1);
    var v2 := 10 * v1 + DigitValue(ds[1]);
    assert DigitsValue(ds[..2]) == v2;
    DigitsValuePrefix(ds, 2);
    var v3 := 10 * v2 + DigitValue(ds[2]);
    assert DigitsValue(ds[..3]) == v3;
    DigitsValuePrefix(ds, 3);
    var v4 := 10 * v3 + DigitValue(ds[3]);
    assert DigitsValue(ds[..4]) == v4;
    DigitsValuePrefix(ds, 4);
    assert ds[..5] == ds;
    assert DigitsValue(ds) == 10 * v4 + DigitValue(ds[4]);
  }

  /** A damage string whose commas removed leave digits parses to their value. */
  lemma DamageParses(fields: FieldMap, e: string, digits: string)
    requires Get(fields, "estimatedDamage") == Some(e) && e != ""
    requires RemoveChar(e, ',') == digits && 1 <= |digits| <= MaxStrDigits
    requires forall i :: 0 <= i < |digits| ==> IsDigit(digits[i])
    ensures DamageAmount(fields) == Some(DigitsValue(digits))
  {
    ParseDigits(digits);
  }

  /** `"12,500"` and `"50,000"` lose their commas. */
  lemma ExampleCommasRemoved(a: string, b: string)
    requires a == "12,500" && b == "50,000"
    ensures RemoveChar(a, ',') == "12500" && RemoveChar(b, ',') == "50000"
  {
    assert a == "12" + [','] + "500";
    RemoveSingle("12", "500", ',');
    assert b == "50" + [','] + "000";
    RemoveSingle("50", "000", ',');
  }

  /** The digits of 12500 and of 50000. */
  lemma ExampleDigits(a: string, b: string)
    requires a == "12500" && b == "50000"
    ensures (forall i :: 0 <= i < |a| ==> IsDigit(a[i])) && DigitsValue(a) == 12500
    ensures (forall i :: 0 <= i < |b| ==> IsDigit(b[i])) && DigitsValue(b) == 50000
  {
    FiveDigits(a);
    FiveDigits(b);
  }

  /** A damage of more digits than `int()` converts, such as `"0" * 4300 + "1"`,
      yields no amount: the `ValueError` is swallowed and rule 4 does not apply. */
  lemma OverlongDamageNoAmount(fields: FieldMap, e: string)
    requires Get(fields, "estimatedDamage") == Some(e)
    requires |e| > MaxStrDigits && forall i :: 0 <= i < |e| ==> IsDigit(e[i])
    ensures DamageAmount(fields) == None
  {
    assert ',' !in e;
    RemoveAbsent(e, ',');
    TooManyDigits(e);
  }

  /** `"12,500"` reads as 12500. */
  lemma Damage12500(fields: FieldMap, e: string)
    requires Get(fields, "estimatedDamage") == Some(e) && e == "12,500"
    ensures DamageAmount(fields) == Some(12500)
  {
    ExampleCommasRemoved(e, "50,000");
    ExampleDigits(RemoveChar(e, ','), "50000");
    DamageParses(fields, e, RemoveChar(e, ','));
  }

  /** `"50,000"` reads as 50000. */
  lemma Damage50000(fields: FieldMap, e: string)
    requires Get(fields, "estimatedDamage") == Some(e) && e == "50,000"
    ensures DamageAmount(fields) == Some(50000)
  {
    ExampleCommasRemoved("12,500", e);
    ExampleDigits("12500", RemoveChar(e, ','));
    DamageParses(fields, e, RemoveChar(e, ','));
  }

  /** A minor fender bender, a vehicle claim, damage `"12,500"`: fast-track. */
  lemma FenderBenderFastTrack(fields: FieldMap, d: string, e: string)
    requires DescriptionText(fields) == Some(d) && d == "minor fender bender"
    requires Get(fields, "claimType") == Some("vehicle")
    requires Get(fields, "estimatedDamage") == Some(e) && e == "12,500"
    ensures DetermineRoute(fields, []) == Ok(Decision(FastTrack, "Damage below fast-track threshold"))
  {
    FenderBenderNoKeyword(d);
    Damage12500(fields, e);
  }

  /** The same claim with damage `"50,000"`: at or over the threshold, so the
      default manual review. */
  lemma FenderBenderOverThreshold(fields: FieldMap, d: string, e: string)
    requires DescriptionText(fields) == Some(d) && d == "minor fender bender"
    requires Get(fields, "claimType") == Some("vehicle")
    requires Get(fields, "estimatedDamage") == Some(e) && e == "50,000"
    ensures DetermineRoute(fields, []) == Ok(Decision(ManualReview, "Default routing applied"))
  {
    FenderBenderNoKeyword(d);
    Damage50000(fields, e);
  }

  /** The same claim typed `"injury"`: the specialist queue, whatever the damage. */
  lemma FenderBenderInjury(fields: FieldMap, d: string)
    requires DescriptionText(fields) == Some(d) && d == "minor fender bender"
    requires Get(fields, "claimType") == Some("injury")
    ensures DetermineRoute(fields, []) == Ok(Decision(SpecialistQueue, "Injury claim requires specialist"))
  {
    FenderBenderNoKeyword(d);
  }

  /** `"driver reported inconsistent statements"` is already lower case. */
  lemma InconsistentLower(d: string)
    requires d == "driver reported inconsistent statements"
    ensures Lower(d) == d
  {
    assert Lower("driver reported inconsistent statements") == "driver reported inconsistent statements";
  }

  /** It has no `'f'`, so no `"fraud"`. */
  lemma InconsistentNoFraud(d: string)
    requires d == "driver reported inconsistent statements"
    ensures !Contains(d, FraudKeywords[0])
  {
    assert 'f' !in d;
    if Contains(d, FraudKeywords[0]) {
      ContainedChar(d, FraudKeywords[0], 0);
    }
  }

  /** It has no `'g'`, so no `"staged"`. */
  lemma InconsistentNoStaged(d: string)
    requires d == "driver reported inconsistent statements"
    ensures !Contains(d, FraudKeywords[1])
  {
    assert 'g' !in d;
    if Contains(d, FraudKeywords[1]) {
      ContainedChar(d, FraudKeywords[1], 3);
    }
  }

  /** It holds `"inconsistent"`. */
  lemma InconsistentHolds(d: string)
    requires d == "driver reported inconsistent statements"
    ensures Contains(d, FraudKeywords[2])
  {
    assert d == "driver reported " + FraudKeywords[2] + " statements";
    ContainsMiddle("driver reported ", FraudKeywords[2], " statements");
  }

  /** A text holding only the last keyword names that one. */
  lemma OnlyLastKeyword(text: string)
    requires !Contains(text, FraudKeywords[0]) && !Contains(text, FraudKeywords[1])
    requires Contains(text, FraudKeywords[2])
    ensures FirstKeyword(text, FraudKeywords) == Some("inconsistent")
  {
    assert FraudKeywords[1..][1..] == [FraudKeywords[2]];
  }

  /** The first keyword found is the one the reasoning names. */
  lemma KeywordNamed(fields: FieldMap, description: string, keyword: string)
    requires DescriptionText(fields) == Some(description)
    requires FirstKeyword(Lower(description), FraudKeywords) == Some(keyword)
    ensures DetermineRoute(fields, []) == Ok(Decision(Investigation, "Fraud keyword detected: " + keyword))
  {
  }

  /** A description reporting inconsistent statements: investigation, naming
      `"inconsistent"`, the one keyword it holds. */
  lemma InconsistentStatements(fields: FieldMap, d: string)
    requires DescriptionText(fields) == Some(d) && d == "driver reported inconsistent statements"
    ensures DetermineRoute(fields, []) == Ok(Decision(Investigation, "Fraud keyword detected: " + "inconsistent"))
  {
    InconsistentLower(d);
    InconsistentNoFraud(d);
    InconsistentNoStaged(d);
    InconsistentHolds(d);
    OnlyLastKeyword(Lower(d));
    KeywordNamed(fields, d, "inconsistent");
  }
}
