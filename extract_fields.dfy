/**
 * Field extraction and missing-field analysis for FNOL text
 * (src/extract_fields.py): the label-word validator, the first-valid-wins
 * search over a field's ordered patterns, the 16-key field map with its two
 * post-processed keys, and the list of mandatory fields left as `None`.
 */
module FieldExtraction {
  import opened Wrappers
  import opened Strings
  import opened Regex
  import opened FieldMaps

  /** Words whose presence in an upper-cased value marks it as form-label text. */
  const LabelWords: seq<string> := [
    "CONTACT", "INSURED", "ADDRESS", "LOCATION", "DESCRIPTION", "LOSS", "DATE",
    "PHONE", "EMAIL", "LINE OF BUSINESS", "REPORT NUMBER", "POLICE", "VEHICLE",
    "OWNER", "DRIVER", "PRIMARY", "SECONDARY", "CITY", "STATE", "ZIP", "COUNTRY",
    "ACORD", "SCHEDULE", "REMARKS"
  ]

  /** Fields whose absence does not send a claim to manual review. */
  const OptionalFields: seq<string> := [
    "effectiveDates", "timeOfLoss", "thirdParties", "contactDetails", "assetType", "attachments"
  ]

  /** Some label word occurs in `u`. */
  predicate ContainsLabelWord(u: string) {
    exists w :: w in LabelWords && Contains(u, w)
  }

  /** `is_valid_value`: rejects `None`, blank text, all-upper-case text, text
      containing a label word once upper-cased, and text shorter than three
      characters, in that order, all on the stripped value. */
  function IsValidValue(value: Option<string>): (ok: bool)
    ensures ok ==> value.Some? && |Strip(value.value)| >= 3
  {
    if value.None? then false
    else
      var s := Strip(value.value);
      if s == "" then false
      else if IsUpper(s) then false
      else if ContainsLabelWord(Upper(s)) then false
      else if |s| < 3 then false
      else true
  }

  /** `is_valid_value` as the source runs it: the tests one after the other,
      the label words scanned in list order. */
  method ValidateValue(value: Option<string>) returns (ok: bool)
    ensures ok == IsValidValue(value)
  {
    if value.None? {
      return false;
    }
    var s := Strip(value.value);
    if s == "" || IsUpper(s) {
      return false;
    }
    var u := Upper(s);
    for i := 0 to |LabelWords|
      invariant forall j :: 0 <= j < i ==> !Contains(u, LabelWords[j])
    {
      if Contains(u, LabelWords[i]) {
        return false;
      }
    }
    return |s| >= 3;
  }

  /** The validator accepts exactly the values that pass all five tests. */
  lemma IsValidValueIff(v: Option<string>)
    ensures IsValidValue(v) <==>
      && v.Some?
      && Strip(v.value) != ""
      && !IsUpper(Strip(v.value))
      && (forall w :: w in LabelWords ==> !Contains(Upper(Strip(v.value)), w))
      && |Strip(v.value)| >= 3
  {
  }

  /** Any value whose upper-cased, stripped form contains a label word is rejected. */
  lemma LabelWordRejected(v: string, w: string)
    requires w in LabelWords && Contains(Upper(Strip(v)), w)
    ensures !IsValidValue(Some(v))
  {
  }

  /** A value that is stripped and contains a label word once upper-cased is rejected. */
  lemma StrippedLabelRejected(s: string, w: string)
    requires Strip(s) == s && w in LabelWords && Contains(Upper(s), w)
    ensures !IsValidValue(Some(s))
  {
  }

  /** The `assetType` default `"vehicle"` does not pass the validator:
      upper-cased it is the label word `"VEHICLE"`. */
  lemma VehicleRejected(v: string)
    requires v == "vehicle"
    ensures !IsValidValue(Some(v))
  {
    StripNoSpace(v);
    assert Upper(v) == "VEHICLE";
    assert Contains("VEHICLE", "VEHICLE");
    StrippedLabelRejected(v, "VEHICLE");
  }

  /** A stripped, all-upper-case value is rejected. */
  lemma StrippedUpperRejected(s: string)
    requires Strip(s) == s && IsUpper(s)
    ensures !IsValidValue(Some(s))
  {
  }

  /** An all-upper-case identifier such as a policy number `"ABC-123"` is rejected. */
  lemma UpperIdentifierRejected(id: string)
    requires id == "ABC-123"
    ensures !IsValidValue(Some(id))
  {
    StripNoSpace(id);
    assert IsLetter(id[0]);
    StrippedUpperRejected(id);
  }

  /** Every character is a digit or a comma: the shape of `[0-9,]+` captures. */
  predicate DigitsAndCommas(s: string) {
    forall i :: 0 <= i < |s| ==> IsDigit(s[i]) || s[i] == ','
  }

  /** Every label word starts with a letter. */
  lemma LabelWordsStartWithLetter()
    ensures forall w :: w in LabelWords ==> |w| > 0 && IsLetter(w[0])
  {
    assert forall i :: 0 <= i < |LabelWords| ==> |LabelWords[i]| > 0 && IsLetter(LabelWords[i][0]);
  }

  /** No label word occurs in a string without letters. */
  lemma NoLabelWordWithoutLetters(u: string)
    requires forall i :: 0 <= i < |u| ==> !IsLetter(u[i])
    ensures !ContainsLabelWord(u)
  {
    if ContainsLabelWord(u) {
      var w :| w in LabelWords && Contains(u, w);
      LabelWordsStartWithLetter();
      NoLetterNoWord(u, w);
    }
  }

  /** A stripped value that passes the upper-case, label-word and length tests is accepted. */
  lemma StrippedAccepted(s: string)
    requires Strip(s) == s && !IsUpper(s) && !ContainsLabelWord(Upper(s)) && |s| >= 3
    ensures IsValidValue(Some(s))
  {
  }

  /** Digits and commas: nothing to strip, nothing to upper-case, no letter. */
  lemma DigitsAndCommasShape(s: string)
    requires DigitsAndCommas(s)
    ensures Strip(s) == s && Upper(s) == s && !IsUpper(s)
    ensures forall i :: 0 <= i < |s| ==> !IsLetter(s[i])
  {
    StripNoSpace(s);
  }

  /** A string of digits and commas of length at least three is accepted,
      whatever its digits: `",,,"` and `"12,500"` alike. */
  lemma DigitsAndCommasAccepted(s: string)
    requires DigitsAndCommas(s) && |s| >= 3
    ensures IsValidValue(Some(s))
  {
    DigitsAndCommasShape(s);
    NoLabelWordWithoutLetters(s);
    StrippedAccepted(s);
  }

  /** The two digits-and-commas examples. */
  lemma CommaExamplesAccepted(a: string, b: string)
    requires a == ",,," && b == "12,500"
    ensures IsValidValue(Some(a)) && IsValidValue(Some(b))
  {
    DigitsAndCommasAccepted(a);
    DigitsAndCommasAccepted(b);
  }

  // ---------------------------------------------------------------------
  // Pattern search
  // ---------------------------------------------------------------------

  /** `re.search(pattern, text, re.IGNORECASE)` followed by `.group(1)`:
      the captured text of the leftmost match, or `None` when nothing matches.
      `Regex.Search` is one such function. */
  type Searcher = (Pattern, string) -> Option<string>

  /** The stripped capture of pattern `p`, before validation. */
  function Candidate(search: Searcher, text: string, p: Pattern): (r: Option<string>)
    ensures r.None? <==> search(p, text).None?
    ensures r.Some? ==> Strip(r.value) == r.value
  {
    match search(p, text)
    case Some(g) => StripIdempotent(g); Some(Strip(g))
    case None => None
  }

  /** The candidate of the first pattern, in list order, whose candidate is
      valid; `None` when there is none. */
  function FirstValid(search: Searcher, text: string, patterns: seq<Pattern>): (r: Option<string>)
    ensures r.Some? ==> IsValidValue(r) && Strip(r.value) == r.value
  {
    if patterns == [] then None
    else
      var c := Candidate(search, text, patterns[0]);
      if IsValidValue(c) then c else FirstValid(search, text, patterns[1..])
  }

  /** A returned value is valid, already stripped, and is the stripped
      capture of one of the patterns. */
  lemma {:induction false} FirstValidSound(search: Searcher, text: string, patterns: seq<Pattern>)
    ensures var r := FirstValid(search, text, patterns);
      r.Some? ==> IsValidValue(r) && Strip(r.value) == r.value &&
                  exists k :: 0 <= k < |patterns| && Candidate(search, text, patterns[k]) == r
  {
    if patterns != [] {
      var c := Candidate(search, text, patterns[0]);
      if IsValidValue(c) {
        StripIdempotent(search(patterns[0], text).value);
        assert Candidate(search, text, patterns[0]) == c;
      } else {
        FirstValidSound(search, text, patterns[1..]);
        var r := FirstValid(search, text, patterns[1..]);
        if r.Some? {
          var k :| 0 <= k < |patterns| - 1 && Candidate(search, text, patterns[1..][k]) == r;
          assert patterns[1..][k] == patterns[k + 1];
        }
      }
    }
  }

  /** First valid wins: the result is the candidate of pattern `k` whenever
      that candidate is valid and no earlier pattern's is. */
  lemma {:induction false} FirstValidAt(search: Searcher, text: string, patterns: seq<Pattern>, k: nat)
    requires k < |patterns|
    requires IsValidValue(Candidate(search, text, patterns[k]))
    requires forall j :: 0 <= j < k ==> !IsValidValue(Candidate(search, text, patterns[j]))
    ensures FirstValid(search, text, patterns) == Candidate(search, text, patterns[k])
  {
    if k > 0 {
      assert !IsValidValue(Candidate(search, text, patterns[0]));
      forall j | 0 <= j < k - 1 ensures !IsValidValue(Candidate(search, text, patterns[1..][j])) {
        assert patterns[1..][j] == patterns[j + 1];
      }
      FirstValidAt(search, text, patterns[1..], k - 1);
    }
  }

  /** The result is `None` exactly when no pattern yields a valid candidate. */
  lemma {:induction false} FirstValidNone(search: Searcher, text: string, patterns: seq<Pattern>)
    ensures FirstValid(search, text, patterns).None? <==>
            forall j :: 0 <= j < |patterns| ==> !IsValidValue(Candidate(search, text, patterns[j]))
  {
    if patterns != [] {
      FirstValidNone(search, text, patterns[1..]);
      assert forall j :: 1 <= j < |patterns| ==> patterns[j] == patterns[1..][j - 1];
    }
  }

  /** `extract_regex_patterns`: each pattern is searched once, in order, and
      the first stripped capture that validates is returned. */
  method ExtractRegexPatterns(search: Searcher, text: string, patterns: seq<Pattern>)
    returns (r: Option<string>)
    ensures r == FirstValid(search, text, patterns)
  {
    for i := 0 to |patterns|
      invariant FirstValid(search, text, patterns) == FirstValid(search, text, patterns[i..])
    {
      assert patterns[i..][1..] == patterns[i + 1..];
      var m := search(patterns[i], text);
      if m.Some? {
        var value := Strip(m.value);
        var ok := ValidateValue(Some(value));
        if ok {
          return Some(value);
        }
      }
    }
    return None;
  }

  // ---------------------------------------------------------------------
  // The field catalogue
  // ---------------------------------------------------------------------

  const PolicyNumberPatterns: seq<Pattern> :=
    [Pattern("POLICY NUMBER", false, AlnumDash), Pattern("Policy Number", false, AlnumDash)]
  const PolicyholderNamePatterns: seq<Pattern> :=
    [Pattern("NAME OF INSURED", false, AnyButNewline), Pattern("Policyholder Name", false, AnyButNewline)]
  const EffectiveDatesPatterns: seq<Pattern> :=
    [Pattern("Effective Dates", false, AnyButNewline)]
  const DateOfLossPatterns: seq<Pattern> :=
    [Pattern("DATE OF LOSS", false, DigitDash), Pattern("Date of Loss", false, DigitDash)]
  const TimeOfLossPatterns: seq<Pattern> :=
    [Pattern("TIME OF LOSS", false, AnyButNewline), Pattern("Time of Loss", false, AnyButNewline)]
  const LocationPatterns: seq<Pattern> :=
    [Pattern("LOCATION OF LOSS", false, AnyButNewline), Pattern("Location of Loss", false, AnyButNewline)]
  const DescriptionPatterns: seq<Pattern> :=
    [Pattern("DESCRIPTION OF ACCIDENT", false, AnyButNewline), Pattern("Description of Accident", false, AnyButNewline)]
  const ClaimantPatterns: seq<Pattern> :=
    [Pattern("CLAIMANT NAME", false, AnyButNewline), Pattern("Claimant Name", false, AnyButNewline),
     Pattern("NAME OF INSURED", false, AnyButNewline)]
  const ThirdPartiesPatterns: seq<Pattern> :=
    [Pattern("Third Parties", false, AnyButNewline)]
  const ContactDetailsPatterns: seq<Pattern> :=
    [Pattern("PHONE", false, AnyButNewline), Pattern("EMAIL", false, AnyButNewline)]
  const AssetIdPatterns: seq<Pattern> :=
    [Pattern("VIN", false, Alnum), Pattern("Asset ID", false, AnyButNewline)]
  const AssetTypePatterns: seq<Pattern> :=
    [Pattern("Asset Type", false, AnyButNewline)]
  const EstimatedDamagePatterns: seq<Pattern> :=
    [Pattern("ESTIMATE AMOUNT", true, DigitComma), Pattern("Estimated Damage Amount", false, DigitComma)]
  const ClaimTypePatterns: seq<Pattern> :=
    [Pattern("CLAIM TYPE", false, AnyButNewline), Pattern("Claim Type", false, AnyButNewline)]
  const InitialEstimatePatterns: seq<Pattern> :=
    [Pattern("Initial Estimate", false, DigitComma)]
  const AttachmentsPatterns: seq<Pattern> :=
    [Pattern("Attachments", false, AnyButNewline)]

  /** The 16 keys of every extracted field map, in insertion order. */
  const FieldKeys: seq<string> := [
    "policyNumber", "policyholderName", "effectiveDates", "dateOfLoss", "timeOfLoss",
    "location", "description", "claimant", "thirdParties", "contactDetails", "assetID",
    "assetType", "estimatedDamage", "claimType", "initialEstimate", "attachments"
  ]

  /** No two of the 16 keys are equal: they differ in length or first letter. */
  lemma FieldKeysDistinct()
    ensures forall i, j :: 0 <= i < j < |FieldKeys| ==> FieldKeys[i] != FieldKeys[j]
  {
    assert forall i, j :: 0 <= i < j < |FieldKeys| ==>
      |FieldKeys[i]| != |FieldKeys[j]| || FieldKeys[i][0] != FieldKeys[j][0];
  }

  /** Policy information. */
  function PolicyInformation(search: Searcher, text: string): (fields: FieldMap)
    ensures Keys(fields) == FieldKeys[..3]
  {
    [ ("policyNumber", FirstValid(search, text, PolicyNumberPatterns)),
      ("policyholderName", FirstValid(search, text, PolicyholderNamePatterns)),
      ("effectiveDates", FirstValid(search, text, EffectiveDatesPatterns)) ]
  }

  /** Incident information. */
  function IncidentInformation(search: Searcher, text: string): (fields: FieldMap)
    ensures Keys(fields) == FieldKeys[3..7]
  {
    [ ("dateOfLoss", FirstValid(search, text, DateOfLossPatterns)),
      ("timeOfLoss", FirstValid(search, text, TimeOfLossPatterns)),
      ("location", FirstValid(search, text, LocationPatterns)),
      ("description", FirstValid(search, text, DescriptionPatterns)) ]
  }

  /** Involved parties. */
  function InvolvedParties(search: Searcher, text: string): (fields: FieldMap)
    ensures Keys(fields) == FieldKeys[7..10]
  {
    [ ("claimant", FirstValid(search, text, ClaimantPatterns)),
      ("thirdParties", FirstValid(search, text, ThirdPartiesPatterns)),
      ("contactDetails", FirstValid(search, text, ContactDetailsPatterns)) ]
  }

  /** Asset details; `assetType` defaults to `"vehicle"`. */
  function AssetDetails(search: Searcher, text: string): (fields: FieldMap)
    ensures Keys(fields) == FieldKeys[10..13]
  {
    [ ("assetID", FirstValid(search, text, AssetIdPatterns)),
      ("assetType", Some(FirstValid(search, text, AssetTypePatterns).GetOr("vehicle"))),
      ("estimatedDamage", FirstValid(search, text, EstimatedDamagePatterns)) ]
  }

  /** Other mandatory fields; `initialEstimate` falls back to the value already stored under `estimatedDamage`. */
  function OtherMandatoryFields(search: Searcher, text: string, estimatedDamage: Option<string>): (fields: FieldMap)
    ensures Keys(fields) == FieldKeys[13..]
  {
    var initialEstimate := FirstValid(search, text, InitialEstimatePatterns);
    [ ("claimType", FirstValid(search, text, ClaimTypePatterns)),
      ("initialEstimate", if initialEstimate.Some? then initialEstimate else estimatedDamage),
      ("attachments", FirstValid(search, text, AttachmentsPatterns)) ]
  }

  /** The field map `extract_fields` builds from `text`: the 16 keys in their
      fixed order, each with the first valid value of its own patterns, except
      that `assetType` falls back to `"vehicle"` and `initialEstimate` to the
      value of `estimatedDamage`. */
  function FieldsOf(search: Searcher, text: string): (fields: FieldMap)
    ensures Keys(fields) == FieldKeys
  {
    var policy := PolicyInformation(search, text);
    var incident := IncidentInformation(search, text);
    var parties := InvolvedParties(search, text);
    var assets := AssetDetails(search, text);
    // the value stored under "estimatedDamage" (`StoredDamage`)
    var other := OtherMandatoryFields(search, text, FirstValid(search, text, EstimatedDamagePatterns));
    KeysAppend(policy, incident);
    KeysAppend(policy + incident, parties);
    KeysAppend(policy + incident + parties, assets);
    KeysAppend(policy + incident + parties + assets, other);
    assert FieldKeys == FieldKeys[..3] + FieldKeys[3..7] + FieldKeys[7..10] + FieldKeys[10..13] + FieldKeys[13..];
    policy + incident + parties + assets + other
  }

  /** Storing the entries of `FieldsOf` one by one into an empty dict yields
      exactly those entries: every store adds a new key at the end. */
  lemma FieldsOfAreStores(search: Searcher, text: string)
    ensures DistinctKeys(FieldsOf(search, text))
    ensures StoreAll([], FieldsOf(search, text)) == FieldsOf(search, text)
  {
    var fields := FieldsOf(search, text);
    FieldKeysDistinct();
    DistinctKeysOf(fields, FieldKeys);
    assert [] + fields == fields;
    StoreAllFresh([], fields);
  }

  /** The stores of one section of `extract_fields`, appended in order. */
  method ExtractPolicyInformation(search: Searcher, text: string) returns (fields: FieldMap)
    ensures fields == PolicyInformation(search, text)
  {
    fields := [];
    var policyNumber := ExtractRegexPatterns(search, text, PolicyNumberPatterns);
    fields := fields + [("policyNumber", policyNumber)];
    var policyholderName := ExtractRegexPatterns(search, text, PolicyholderNamePatterns);
    fields := fields + [("policyholderName", policyholderName)];
    var effectiveDates := ExtractRegexPatterns(search, text, EffectiveDatesPatterns);
    fields := fields + [("effectiveDates", effectiveDates)];
  }

  method ExtractIncidentInformation(search: Searcher, text: string) returns (fields: FieldMap)
    ensures fields == IncidentInformation(search, text)
  {
    fields := [];
    var dateOfLoss := ExtractRegexPatterns(search, text, DateOfLossPatterns);
    fields := fields + [("dateOfLoss", dateOfLoss)];
    var timeOfLoss := ExtractRegexPatterns(search, text, TimeOfLossPatterns);
    fields := fields + [("timeOfLoss", timeOfLoss)];
    var location := ExtractRegexPatterns(search, text, LocationPatterns);
    fields := fields + [("location", location)];
    var description := ExtractRegexPatterns(search, text, DescriptionPatterns);
    fields := fields + [("description", description)];
  }

  method ExtractInvolvedParties(search: Searcher, text: string) returns (fields: FieldMap)
    ensures fields == InvolvedParties(search, text)
  {
    fields := [];
    var claimant := ExtractRegexPatterns(search, text, ClaimantPatterns);
    fields := fields + [("claimant", claimant)];
    var thirdParties := ExtractRegexPatterns(search, text, ThirdPartiesPatterns);
    fields := fields + [("thirdParties", thirdParties)];
    var contactDetails := ExtractRegexPatterns(search, text, ContactDetailsPatterns);
    fields := fields + [("contactDetails", contactDetails)];
  }

  method ExtractAssetDetails(search: Searcher, text: string) returns (fields: FieldMap)
    ensures fields == AssetDetails(search, text)
  {
    fields := [];
    var assetId := ExtractRegexPatterns(search, text, AssetIdPatterns);
    fields := fields + [("assetID", assetId)];
    var assetType := ExtractRegexPatterns(search, text, AssetTypePatterns);
    if assetType.None? {
      assetType := Some("vehicle");
    }
    fields := fields + [("assetType", assetType)];
    var estimatedDamage := ExtractRegexPatterns(search, text, EstimatedDamagePatterns);
    fields := fields + [("estimatedDamage", estimatedDamage)];
  }

  method ExtractOtherMandatoryFields(search: Searcher, text: string, estimatedDamage: Option<string>) returns (fields: FieldMap)
    ensures fields == OtherMandatoryFields(search, text, estimatedDamage)
  {
    fields := [];
    var claimType := ExtractRegexPatterns(search, text, ClaimTypePatterns);
    fields := fields + [("claimType", claimType)];
    var initialEstimate := ExtractRegexPatterns(search, text, InitialEstimatePatterns);
    if initialEstimate.None? {
      initialEstimate := estimatedDamage;
    }
    fields := fields + [("initialEstimate", initialEstimate)];
    var attachments := ExtractRegexPatterns(search, text, AttachmentsPatterns);
    fields := fields + [("attachments", attachments)];
  }

  /** After the first four sections, `fields["estimatedDamage"]` is the value
      the asset section stored. */
  lemma StoredDamage(search: Searcher, text: string, fields: FieldMap)
    requires fields == PolicyInformation(search, text) + IncidentInformation(search, text) +
      InvolvedParties(search, text) + AssetDetails(search, text)
    ensures Get(fields, "estimatedDamage") == FirstValid(search, text, EstimatedDamagePatterns)
  {
    assert fields[12] == ("estimatedDamage", FirstValid(search, text, EstimatedDamagePatterns));
    assert forall i :: 0 <= i < 12 ==> fields[i].0 != "estimatedDamage";
    LookupFirst(fields, 12);
  }

  /** `extract_fields`: stores each key into an initially empty map, section
      by section in the source's order. Every key is stored once and never
      before (the keys are distinct, `FieldKeysDistinct`), so each store
      appends an entry, as a Python dict keeps insertion order. */
  method ExtractFields(search: Searcher, text: string) returns (fields: FieldMap)
    ensures fields == FieldsOf(search, text)
  {
    fields := ExtractPolicyInformation(search, text);
    var incident := ExtractIncidentInformation(search, text);
    fields := fields + incident;
    var parties := ExtractInvolvedParties(search, text);
    fields := fields + parties;
    var assets := ExtractAssetDetails(search, text);
    fields := fields + assets;
    // `initialEstimate` falls back to the value stored under "estimatedDamage"
    StoredDamage(search, text, fields);
    var other := ExtractOtherMandatoryFields(search, text, Get(fields, "estimatedDamage"));
    fields := fields + other;
  }

  /** Reading key `FieldKeys[i]` back with `dict.get` finds the `i`-th entry's value. */
  lemma FieldsOfGet(search: Searcher, text: string, i: nat)
    requires i < |FieldKeys|
    ensures Get(FieldsOf(search, text), FieldKeys[i]) == FieldsOf(search, text)[i].1
  {
    var fields := FieldsOf(search, text);
    FieldsOfAreStores(search, text);
    LookupAt(fields, i);
  }

  /** `assetType` is never `None`: it is the validated `Asset Type` value, or
      `"vehicle"` when there is none, a value the validator itself would
      reject, so the two cases cannot be confused. */
  lemma AssetTypeDefault(search: Searcher, text: string)
    ensures var r := FirstValid(search, text, AssetTypePatterns);
      Get(FieldsOf(search, text), "assetType") == Some(if r.Some? then r.value else "vehicle")
    ensures FirstValid(search, text, AssetTypePatterns).Some? ==>
      FirstValid(search, text, AssetTypePatterns).value != "vehicle"
  {
    FieldsOfGet(search, text, 11);
    var r := FirstValid(search, text, AssetTypePatterns);
    if r.Some? {
      FirstValidSound(search, text, AssetTypePatterns);
      if r.value == "vehicle" {
        VehicleRejected(r.value);
      }
    }
  }

  /** `initialEstimate` is its own validated value when there is one and
      otherwise whatever `estimatedDamage` holds, `None` included. */
  lemma InitialEstimateFallback(search: Searcher, text: string)
    ensures var r := FirstValid(search, text, InitialEstimatePatterns);
      Get(FieldsOf(search, text), "initialEstimate") ==
        if r.Some? then r else Get(FieldsOf(search, text), "estimatedDamage")
  {
    FieldsOfGet(search, text, 12);
    FieldsOfGet(search, text, 14);
  }

  /** With the concrete engine, a `[0-9,]+` capture is left unchanged by the
      strip and is valid exactly when it has at least three characters: the
      validator's label and upper-case tests never reject digits and commas. */
  lemma CommaCaptureValid(p: Pattern, text: string)
    requires p.capture == DigitComma
    ensures Candidate(Search, text, p) == Search(p, text)
    ensures Search(p, text).Some? ==> DigitsAndCommas(Search(p, text).value)
    ensures IsValidValue(Candidate(Search, text, p)) <==>
            Search(p, text).Some? && |Search(p, text).value| >= 3
  {
    var g := Search(p, text);
    if g.Some? {
      assert DigitsAndCommas(g.value);
      DigitsAndCommasShape(g.value);
      if |g.value| >= 3 {
        DigitsAndCommasAccepted(g.value);
      }
    }
  }

  /** With the concrete engine, `estimatedDamage` is the first capture of its
      two patterns that has at least three characters: digits and commas only. */
  lemma EstimatedDamageShape(text: string)
    ensures var r := FirstValid(Search, text, EstimatedDamagePatterns);
      r.Some? ==> DigitsAndCommas(r.value) && |r.value| >= 3
    ensures var g0 := Search(EstimatedDamagePatterns[0], text);
            var g1 := Search(EstimatedDamagePatterns[1], text);
      FirstValid(Search, text, EstimatedDamagePatterns) ==
        if g0.Some? && |g0.value| >= 3 then g0
        else if g1.Some? && |g1.value| >= 3 then g1
        else None
  {
    var ps := EstimatedDamagePatterns;
    CommaCaptureValid(ps[0], text);
    CommaCaptureValid(ps[1], text);
    assert FirstValid(Search, text, ps[1..][1..]) == None;
    assert FirstValid(Search, text, ps[1..]) ==
      if IsValidValue(Candidate(Search, text, ps[1])) then Candidate(Search, text, ps[1]) else None;
  }

  /** Of two patterns that differ only in the case of their literal, the
      second never contributes: `re.IGNORECASE` makes it find what the first
      found, which was already rejected. */
  lemma CaseVariantRedundant(text: string, p: Pattern, q: Pattern)
    requires Lower(p.literal) == Lower(q.literal)
    requires p.dollar == q.dollar && p.capture == q.capture
    ensures FirstValid(Search, text, [p, q]) == FirstValid(Search, text, [p])
  {
    SearchIgnoresLiteralCase(p, q, text);
    assert Candidate(Search, text, p) == Candidate(Search, text, q);
    assert [p, q][1..] == [q] && [q][1..] == [] && [p][1..] == [];
    assert FirstValid(Search, text, [q]) == FirstValid(Search, text, [p]);
  }

  /** So the mixed-case `Policy Number` pattern never changes the policy number. */
  lemma PolicyNumberVariantRedundant(text: string)
    ensures FirstValid(Search, text, PolicyNumberPatterns) == FirstValid(Search, text, PolicyNumberPatterns[..1])
  {
    var ps := PolicyNumberPatterns;
    assert Lower(ps[0].literal) == Lower(ps[1].literal);
    assert ps == [ps[0], ps[1]] && ps[..1] == [ps[0]];
    CaseVariantRedundant(text, ps[0], ps[1]);
  }

  // ---------------------------------------------------------------------
  // Missing mandatory fields
  // ---------------------------------------------------------------------

  /** The key of an entry that counts as missing: `None`, and not optional. */
  predicate IsMissing(entry: (string, Option<string>)) {
    entry.1.None? && entry.0 !in OptionalFields
  }

  /** `find_missing_fields`: the keys of the missing entries, in map order. */
  function MissingOf(fields: FieldMap): (missing: seq<string>)
    ensures |missing| <= |fields|
  {
    if fields == [] then []
    else
      var last := fields[|fields| - 1];
      MissingOf(fields[..|fields| - 1]) + (if IsMissing(last) then [last.0] else [])
  }

  /** The missing keys of a concatenation are those of each part, in order. */
  lemma {:induction false} MissingOfAppend(a: FieldMap, b: FieldMap)
    ensures MissingOf(a + b) == MissingOf(a) + MissingOf(b)
    decreases |b|
  {
    if b == [] {
      assert a + b == a;
    } else {
      var b' := b[..|b| - 1];
      assert (a + b)[..|a + b| - 1] == a + b';
      assert (a + b)[|a + b| - 1] == b[|b| - 1];
      MissingOfAppend(a, b');
    }
  }

  /** A key is reported exactly when some entry for it is missing. */
  lemma {:induction false} MissingOfIff(fields: FieldMap, k: string)
    ensures k in MissingOf(fields) <==> exists i :: 0 <= i < |fields| && fields[i].0 == k && IsMissing(fields[i])
    decreases |fields|
  {
    if fields != [] {
      var init := fields[..|fields| - 1];
      MissingOfIff(init, k);
      assert forall i :: 0 <= i < |init| ==> init[i] == fields[i];
      if k in MissingOf(init) {
        var i :| 0 <= i < |init| && init[i].0 == k && IsMissing(init[i]);
        assert fields[i] == init[i];
      }
    }
  }

  /** Over a map with distinct keys no key is reported twice. */
  lemma {:induction false} MissingOfNoDuplicates(fields: FieldMap)
    requires DistinctKeys(fields)
    ensures forall a, b :: 0 <= a < b < |MissingOf(fields)| ==> MissingOf(fields)[a] != MissingOf(fields)[b]
    decreases |fields|
  {
    if fields != [] {
      var init := fields[..|fields| - 1];
      var last := fields[|fields| - 1];
      assert DistinctKeys(init);
      MissingOfNoDuplicates(init);
      assert forall i :: 0 <= i < |init| ==> init[i].0 != last.0;
      MissingOfIff(init, last.0);
    }
  }

  /** Nothing is reported when no value is `None`. */
  lemma MissingOfNoneAbsent(fields: FieldMap)
    requires forall i :: 0 <= i < |fields| ==> fields[i].1.Some?
    ensures MissingOf(fields) == []
  {
    if MissingOf(fields) != [] {
      MissingOfIff(fields, MissingOf(fields)[0]);
    }
  }

  /** `find_missing_fields`, iterating over `fields.items()`. */
  method FindMissingFields(fields: FieldMap) returns (missing: seq<string>)
    ensures missing == MissingOf(fields)
  {
    missing := [];
    for i := 0 to |fields|
      invariant missing == MissingOf(fields[..i])
    {
      var (key, value) := fields[i];
      assert fields[..i + 1][..i] == fields[..i];
      if value.None? && key !in OptionalFields {
        missing := missing + [key];
      }
    }
    assert fields[..|fields|] == fields;
  }

  /** Every key reported missing from the extracted fields is a mandatory
      key of the catalogue whose value is `None`. */
  lemma MissingOfFieldsOfMandatory(search: Searcher, text: string, k: string)
    requires k in MissingOf(FieldsOf(search, text))
    ensures k in FieldKeys && k !in OptionalFields && Get(FieldsOf(search, text), k) == None
  {
    var fields := FieldsOf(search, text);
    MissingOfIff(fields, k);
    var i :| 0 <= i < |fields| && fields[i].0 == k && IsMissing(fields[i]);
    FieldsOfGet(search, text, i);
  }

  /** `assetType` always holds a string, so it is never reported missing. */
  lemma AssetTypeNeverMissing(search: Searcher, text: string)
    ensures "assetType" !in MissingOf(FieldsOf(search, text))
  {
    MissingOfIff(FieldsOf(search, text), "assetType");
  }

  /** `initialEstimate` falls back to `estimatedDamage`, so it is reported
      missing only when `estimatedDamage` is too. */
  lemma InitialEstimateMissingOnlyWithDamage(search: Searcher, text: string)
    ensures "initialEstimate" in MissingOf(FieldsOf(search, text)) ==>
      "estimatedDamage" in MissingOf(FieldsOf(search, text))
  {
    var fields := FieldsOf(search, text);
    if "initialEstimate" in MissingOf(fields) {
      MissingOfFieldsOfMandatory(search, text, "initialEstimate");
      InitialEstimateFallback(search, text);
      FieldsOfGet(search, text, 12);
      MissingOfIff(fields, "estimatedDamage");
      assert fields[12].0 == "estimatedDamage" && IsMissing(fields[12]);
    }
  }
}
