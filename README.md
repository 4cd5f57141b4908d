# Insurance claims agent: field extraction and claim routing, in Dafny

This project models the core of an agent that reads a First Notice of Loss
(FNOL) document and decides where the claim goes. The agent has three steps:

1. **Field extraction** (`src/extract_fields.py`).
   - Each of 16 fields has an ordered list of regular expressions.
   - They are searched case-insensitively in the document text.
   - The stripped capture of the first pattern that passes a label-word
     validator wins.
   - `assetType` falls back to `"vehicle"`, and `initialEstimate` falls
     back to the value already stored under `estimatedDamage`.
   - The result is a dict with the 16 keys in a fixed insertion order.
2. **Missing-field analysis** (`src/extract_fields.py`). The missing
   fields are the keys whose value is `None` and that are not optional.
3. **Routing** (`src/route_claim.py`). Five rules are tried in order, and
   the first that applies picks the route and its reasoning:
   - missing fields give manual review;
   - a fraud keyword in the description gives investigation;
   - an injury claim goes to the specialist queue;
   - damage below 25000 is fast-tracked;
   - anything else gets manual review by default.

`src/main.py` chains the three steps behind a "no text, no report" guard.

How the model is laid out:

| file | module | what it holds |
|---|---|---|
| `wrappers.dfy` | `Wrappers` | `Option` and `Result` |
| `strings.dfy` | `Strings` | The Python string operations the core uses, over ASCII |
| `regex.dfy` | `Regex` | An exact model of `re.search(p, t, re.IGNORECASE).group(1)` |
| `field_map.dfy` | `FieldMaps` | The extracted dict, as an insertion-ordered list of entries with distinct keys |
| `extract_fields.dfy` | `FieldExtraction` | The validator, the first-valid-wins search, the field catalogue, `extract_fields`, `find_missing_fields` |
| `routing.dfy` | `Routing` | `determine_route` and its rules |
| `pipeline.dfy` | `Pipeline` | `run_agent` |

`strings.dfy` covers `strip`, `upper`, `lower`, `isupper`, substring `in`,
`replace(",", "")`, `", ".join` and `int()`. In `regex.dfy`, the regex loop
is modelled as leftmost match, greedy separator with backtracking, optional
`$`, then a greedy capture.

The search is a parameter of the extractor, of type
`Searcher = (Pattern, string) -> Option<string>`. Every extraction property
holds for any search function. Regex-specific facts are proved for the
concrete engine `Regex.Search`, for example:
- a comma-digit capture is valid exactly when it has three characters or more;
- upper-case and mixed-case variants of a pattern find the same thing.

The model splits into pure functions and loops, following the source:
- **Pure functions:** `is_valid_value`, `extract_regex_patterns`,
  `extract_fields`, `find_missing_fields` and `determine_route` each have a
  specification function.
- **Loops and stores:**
  - `ValidateValue` scans the label words;
  - `ExtractRegexPatterns` scans the patterns;
  - `ExtractFields` performs the stores section by section;
  - `FindMissingFields` builds its list with appends.
  Each is proved equal to its function.

What the code does, and does not do:
- **Validator:** it has only the `None`, blank, upper-case, label-word and
  length tests. An all-upper-case identifier such as `"ABC-123"` is therefore
  rejected (`FieldExtraction.UpperIdentifierRejected`), and `policyNumber`
  then stays `None`.
- **Values on the next line:** a value on the line after its label is found
  only because `[:\s]+` also matches the newline.
- **Defaults:** only `assetType` has one (`"vehicle"`); `initialEstimate`
  falls back to the stored `estimatedDamage`.
- **`int()`:** a damage string with more than 4300 digits, the default limit
  of `int()`, raises `ValueError`, which rule 4 swallows
  (`Routing.OverlongDamageNoAmount`).

## Model

| member | source | states |
|---|---|---|
| Strings.Strip | src/extract_fields.py:52 | `strip()` leaves no white space at either end and never lengthens the text |
| Strings.StripLeftIsSuffix | src/extract_fields.py:52 | The left half of `strip()` removes a leading run of white space and nothing more: the rest of the text is an unchanged suffix |
| Strings.StripRightIsPrefix | src/extract_fields.py:52 | The right half of `strip()` removes a trailing run of white space and nothing more: the rest of the text is an unchanged prefix |
| Strings.StripIsSlice | src/extract_fields.py:52 | `strip()` returns a contiguous, unchanged slice of the text, and everything outside that slice is white space |
| Strings.StripIdempotent | src/extract_fields.py:84 | Stripping twice is stripping once, so a returned extraction needs no further strip |
| Strings.ContainsIff | src/extract_fields.py:63 | Substring `in` holds exactly when the word occurs at some position, in both directions |
| Strings.Upper | src/extract_fields.py:63 | `upper()` keeps the length and maps each ASCII lower-case letter to upper case, leaving every other character alone |
| Strings.Lower | src/route_claim.py:12 | `lower()` keeps the length and maps each ASCII upper-case letter to lower case, leaving every other character alone |
| Strings.IsUpper | src/extract_fields.py:58 | `isupper()` never holds of the empty string |
| Strings.IsUpperIff | src/extract_fields.py:58 | `isupper()` holds exactly when the text has a cased character and `upper()` leaves it unchanged |
| Strings.RemoveChar | src/route_claim.py:40 | `replace(",", "")` leaves no comma, never lengthens the text, and a character other than a comma occurs in the result exactly when it occurs in the text |
| Strings.RemoveCharSingle | src/route_claim.py:40 | On a single character, `replace(",", "")` deletes a comma and keeps any other character |
| Strings.RemoveCharAppend | src/route_claim.py:40 | `replace(",", "")` of a concatenation is the concatenation of the two replacements; with the single-character case this fixes the result character by character, in order |
| Strings.Join | src/route_claim.py:8 | `", ".join` of no names is empty, of one name is that name, and otherwise starts with the first name |
| Strings.JoinAppend | src/route_claim.py:8 | Joining two non-empty lists of names one after the other is joining each and putting the separator between them |
| Strings.ParseDigits | src/route_claim.py:40 | `int()` of a run of at most 4300 decimal digits is their decimal value |
| Strings.IntTrim | src/route_claim.py:40 | The white space `int()` skips (codes 9–13 and space, not the separators 28–31 that `strip()` drops) is gone from both ends |
| Strings.IntTrimLeftIsSuffix | src/route_claim.py:40 | The leading part of `int()`'s trimming removes a run of its white space and nothing more |
| Strings.IntTrimRightIsPrefix | src/route_claim.py:40 | The trailing part of `int()`'s trimming removes a run of its white space and nothing more |
| Strings.IntTrimIsSlice | src/route_claim.py:40 | The text `int()` reads is a contiguous, unchanged slice of the input with only `int()` white space outside it |
| Strings.ParseInt | src/route_claim.py:40 | `int()` succeeds only when, after its own white space (codes 9–13 and space) is trimmed, an optionally signed, underscore-separated digit body of at most 4300 digits remains; a negative result needs a leading `-` |
| Strings.SeparatorNotSkipped | src/route_claim.py:40 | `int()` raises on a file separator (code 28) before the digits, although `strip()` would remove it |
| Strings.TooManyDigits | src/route_claim.py:40 | A digit string longer than 4300 digits, leading zeros included, makes `int()` raise |
| Strings.RemoveOnly | src/route_claim.py:40 | Removing the commas of a commas-only string leaves the empty string |
| Regex.SeparatorRun | src/extract_fields.py:80 | The greedy `[:\s]+` run is maximal: all separators, followed by a non-separator or the end |
| Regex.ClassRun | src/extract_fields.py:80 | The greedy capture run is maximal and stays in its character class |
| Regex.Backtrack | src/extract_fields.py:80 | Whatever backtracking over the separator finds is a non-empty capture within its class |
| Regex.BacktrackFrom | src/extract_fields.py:80 | What backtracking finds is what `\$?(<class>+)` matches after some end of the separator between `lo + 1` and `q` |
| Regex.BacktrackLatest | src/extract_fields.py:80 | The greedy separator gives back as little as it must: when `e` is the latest separator end that lets the rest match, the result is the capture after `e` |
| Regex.BacktrackNone | src/extract_fields.py:80 | Backtracking fails exactly when no separator end lets the rest match |
| Regex.MatchAt | src/extract_fields.py:80 | A match at a position gives a non-empty capture within its class |
| Regex.MatchAtShape | src/extract_fields.py:80 | A match at `i` is the literal at `i` (ignoring case), then a non-empty run of `[:\s]` characters, then `\$?(<class>+)` |
| Regex.Search | src/extract_fields.py:80-84 | `re.search(...).group(1)` is the capture of the leftmost matching start position (no later match is used), and `None` only when no position matches; every capture is non-empty and within its class |
| Regex.SearchIgnoresLiteralCase | src/extract_fields.py:80 | Under `re.IGNORECASE`, two patterns whose literals differ only in case find the same capture on every text |
| FieldMaps.Lookup | src/route_claim.py:12 | A dict lookup misses exactly when the key is absent |
| FieldMaps.LookupAt | src/route_claim.py:26 | In a dict with distinct keys, looking up an entry's key finds that entry's value |
| FieldMaps.Get | src/route_claim.py:34 | `fields.get(k)` returns a string only for a key in the map, and `None` for an absent key |
| FieldMaps.Put | src/extract_fields.py:103 | `d[k] = v` keeps keys distinct, appends a new key at the end, and overwrites an existing key in place, leaving the other entries alone |
| FieldMaps.StoreAllFresh | src/extract_fields.py:97-206 | Storing entries with new, distinct keys one after the other appends them in order |
| FieldExtraction.ValidateValue | src/extract_fields.py:44-70 | The validator's scan of the tests and the label words returns exactly `IsValidValue` |
| FieldExtraction.IsValidValue | src/extract_fields.py:44-70 | An accepted value is present and at least three characters long once stripped (the full condition, all five tests, is `IsValidValueIff`) |
| FieldExtraction.IsValidValueIff | src/extract_fields.py:44-70 | A value is valid exactly when it is not `None`, its stripped form `s` is non-empty, `s` is not `isupper()`, no label word occurs in `upper(s)`, and `len(s) >= 3` |
| FieldExtraction.LabelWordRejected | src/extract_fields.py:61-64 | Any value whose stripped, upper-cased form contains a label word is rejected |
| FieldExtraction.StrippedLabelRejected | src/extract_fields.py:61-64 | A stripped value containing a label word once upper-cased is rejected |
| FieldExtraction.VehicleRejected | src/extract_fields.py:61-64 | `"vehicle"` is rejected, because upper-cased it is the label word `"VEHICLE"` |
| FieldExtraction.StrippedUpperRejected | src/extract_fields.py:57-59 | A stripped, all-upper-case value is rejected |
| FieldExtraction.UpperIdentifierRejected | src/extract_fields.py:57-59 | The identifier `"ABC-123"` is rejected as all upper case |
| FieldExtraction.LabelWordsStartWithLetter | src/extract_fields.py:5-30 | Every label word starts with a letter |
| FieldExtraction.NoLabelWordWithoutLetters | src/extract_fields.py:61-64 | No label word occurs in a text without letters |
| FieldExtraction.StrippedAccepted | src/extract_fields.py:52-70 | A stripped value passing the upper-case, label-word and length tests is accepted |
| FieldExtraction.DigitsAndCommasShape | src/extract_fields.py:52-63 | A digits-and-commas string is unchanged by `strip` and `upper`, has no letter, and is not `isupper()` |
| FieldExtraction.DigitsAndCommasAccepted | src/extract_fields.py:44-70 | Every digits-and-commas string of length at least three is accepted |
| FieldExtraction.CommaExamplesAccepted | src/extract_fields.py:44-70 | `",,,"` and `"12,500"` are both accepted |
| FieldExtraction.Candidate | src/extract_fields.py:84 | A pattern yields a candidate exactly when the search finds a capture, and the candidate is already stripped |
| FieldExtraction.FirstValid | src/extract_fields.py:73-89 | A returned value passes the validator and is already stripped |
| FieldExtraction.FirstValidSound | src/extract_fields.py:84-87 | A non-`None` result is valid, already stripped, and the stripped capture of one of the given patterns |
| FieldExtraction.FirstValidAt | src/extract_fields.py:78-87 | The result is the candidate of pattern `k` whenever that candidate is valid and no earlier pattern's is |
| FieldExtraction.FirstValidNone | src/extract_fields.py:78-89 | The result is `None` exactly when no pattern yields a valid candidate |
| FieldExtraction.ExtractRegexPatterns | src/extract_fields.py:73-89 | The loop over the patterns returns exactly the first valid candidate |
| FieldExtraction.FieldKeysDistinct | src/extract_fields.py:103-202 | The 16 stored keys are pairwise distinct |
| FieldExtraction.FieldsOf | src/extract_fields.py:97-206 | The extracted map always has the same 16 keys in the same order, whatever the text |
| FieldExtraction.FieldsOfAreStores | src/extract_fields.py:97-206 | The extracted map has distinct keys, and storing its entries one by one into an empty dict gives exactly that map |
| FieldExtraction.FieldsOfGet | src/extract_fields.py:97-206 | `fields.get` on each of the 16 keys returns that key's entry |
| FieldExtraction.ExtractPolicyInformation | src/extract_fields.py:99-116 | The policy section has `policyNumber`, `policyholderName` and `effectiveDates`, each the first valid value of its patterns |
| FieldExtraction.ExtractIncidentInformation | src/extract_fields.py:117-140 | The incident section has `dateOfLoss`, `timeOfLoss`, `location` and `description`, each the first valid value of its patterns |
| FieldExtraction.ExtractInvolvedParties | src/extract_fields.py:141-159 | The parties section has `claimant`, `thirdParties` and `contactDetails`, each the first valid value of its patterns |
| FieldExtraction.ExtractAssetDetails | src/extract_fields.py:160-182 | The asset section has `assetID`, then `assetType` with its `"vehicle"` default, then `estimatedDamage` |
| FieldExtraction.ExtractOtherMandatoryFields | src/extract_fields.py:184-204 | The last section has `claimType`, then `initialEstimate` falling back to the stored damage, then `attachments` |
| FieldExtraction.StoredDamage | src/extract_fields.py:198 | After the first four sections, `fields["estimatedDamage"]` is the value the asset section stored |
| FieldExtraction.ExtractFields | src/extract_fields.py:92-206 | The sequence of stores builds exactly `FieldsOf` |
| FieldExtraction.AssetTypeDefault | src/extract_fields.py:169-177 | `assetType` is never `None`: it is the validated `Asset Type` value, or `"vehicle"` when there is none, and a validated value is never `"vehicle"` |
| FieldExtraction.InitialEstimateFallback | src/extract_fields.py:193-200 | `initialEstimate` is its own validated value when there is one, and otherwise the value of `estimatedDamage`, `None` included |
| FieldExtraction.CommaCaptureValid | src/extract_fields.py:179-182 | With the concrete engine, a `[0-9,]+` capture survives the strip unchanged, is digits and commas only, and is valid exactly when it has at least three characters |
| FieldExtraction.EstimatedDamageShape | src/extract_fields.py:179-182 | With the concrete engine, `estimatedDamage` is the first capture of its two patterns with at least three characters, and is digits and commas only |
| FieldExtraction.CaseVariantRedundant | src/extract_fields.py:80 | Of two patterns that differ only in the case of their literal, the second never changes the result |
| FieldExtraction.PolicyNumberVariantRedundant | src/extract_fields.py:103-106 | The mixed-case `Policy Number` pattern never changes the extracted policy number |
| FieldExtraction.MissingOf | src/extract_fields.py:209-221 | The missing list is never longer than the map |
| FieldExtraction.MissingOfAppend | src/extract_fields.py:216-219 | The missing keys of a concatenation are those of each part, in order, so the list follows map order |
| FieldExtraction.MissingOfIff | src/extract_fields.py:216-219 | A key is reported exactly when it has an entry whose value is `None` and it is not optional |
| FieldExtraction.MissingOfNoDuplicates | src/extract_fields.py:214-221 | Over a map with distinct keys, no key is reported twice |
| FieldExtraction.MissingOfNoneAbsent | src/extract_fields.py:216-219 | Nothing is reported when no value is `None` |
| FieldExtraction.FindMissingFields | src/extract_fields.py:209-221 | The loop over `fields.items()` returns exactly `MissingOf` |
| FieldExtraction.MissingOfFieldsOfMandatory | src/extract_fields.py:34-41 | Every key reported missing from the extracted fields is one of the 16 keys, is not optional, and holds `None` |
| FieldExtraction.AssetTypeNeverMissing | src/extract_fields.py:169-177 | `assetType` is never reported missing |
| FieldExtraction.InitialEstimateMissingOnlyWithDamage | src/extract_fields.py:193-200 | `initialEstimate` is reported missing only when `estimatedDamage` is too |
| Routing.RouteNameInjective | src/route_claim.py:1-55 | The four route names are pairwise distinct, so a `recommendedRoute` string identifies its route |
| Routing.FirstKeyword | src/route_claim.py:14-23 | No keyword is found exactly when none occurs; otherwise the keyword found is the first in list order that occurs |
| Routing.DescriptionText | src/route_claim.py:12 | The description text is unavailable exactly when `description` is stored as `None`; an absent key gives `""` |
| Routing.DamageAmount | src/route_claim.py:34-40 | An amount exists only when `estimatedDamage` holds a non-empty string that keeps some character once its commas are removed |
| Routing.DetermineRoute | src/route_claim.py:1-55 | Routing fails only when nothing is missing and `description` holds `None` (where `.lower()` raises), and fast-track implies a parsed damage below 25000 |
| Routing.MissingFieldsFirst | src/route_claim.py:4-9 | Any missing field gives manual review with `"Mandatory fields missing: "` and the names joined by `", "`, whatever the fields hold |
| Routing.FraudKeywordRule | src/route_claim.py:12-23 | With nothing missing, the route is investigation exactly when the lower-cased description contains a fraud keyword, and the reasoning names the first such keyword in list order |
| Routing.InjuryRule | src/route_claim.py:26-31 | With no fraud keyword, the route is the specialist queue exactly when `claimType` is exactly `"injury"` |
| Routing.FastTrackIff | src/route_claim.py:34-47 | Fast-track holds exactly when nothing is missing, the description has no fraud keyword, `claimType` is not `"injury"`, and the damage parses to less than 25000 after its commas are removed |
| Routing.DefaultRule | src/route_claim.py:49-55 | When no earlier rule applies and the damage is absent, unparsable or at least 25000, the route is manual review with `"Default routing applied"` and no error |
| Routing.CommasOnlyNoAmount | src/route_claim.py:36-50 | A commas-only damage such as `",,,"` yields no amount, so the parse failure is swallowed |
| Routing.OverlongDamageNoAmount | src/route_claim.py:36-50 | A damage of more than 4300 digits, such as `"0" * 4300 + "1"`, yields no amount, so rule 4 cannot fast-track it |
| Routing.KeywordNamed | src/route_claim.py:16-23 | The reasoning names the keyword that was found first |
| Routing.ExampleCommasRemoved | src/route_claim.py:40 | `"12,500"` and `"50,000"` lose their commas |
| Routing.ExampleDigits | src/route_claim.py:40 | `"12500"` and `"50000"` are digit strings worth 12500 and 50000 |
| Routing.Damage12500 | src/route_claim.py:40 | `"12,500"` reads as 12500 |
| Routing.Damage50000 | src/route_claim.py:40 | `"50,000"` reads as 50000 |
| Routing.FenderBenderNoKeyword | src/route_claim.py:16-18 | `"minor fender bender"` holds no fraud keyword |
| Routing.FenderBenderFastTrack | src/route_claim.py:34-47 | A minor fender bender with claim type `"vehicle"` and damage `"12,500"` is fast-tracked |
| Routing.FenderBenderOverThreshold | src/route_claim.py:42-55 | The same claim with damage `"50,000"` gets the default manual review |
| Routing.FenderBenderInjury | src/route_claim.py:26-31 | The same claim typed `"injury"` goes to the specialist queue |
| Routing.InconsistentStatements | src/route_claim.py:16-23 | `"driver reported inconsistent statements"` gives investigation, naming `"inconsistent"` |
| Pipeline.PipelineRouteOk | src/route_claim.py:12 | On extracted fields with their computed missing list, routing never fails; when nothing is missing, `description` holds a string |
| Pipeline.RouteOkWithDescription | src/route_claim.py:4-12 | On any map with a `description` key and its computed missing list, routing never raises: a `None` description is itself reported missing |
| Pipeline.ReportOf | src/main.py:19-40 | The report carries the extracted fields and their missing list |
| Pipeline.RunAgent | src/main.py:13-26 | There is no report exactly when the text is absent or empty; otherwise the report is that of the extracted fields, their missing list and their route |
| Pipeline.ReportRouteKnown | src/main.py:37 | The reported route is one of `"Manual Review"`, `"Investigation"`, `"Specialist Queue"`, `"Fast-track"` |

## Left out

- `src/extract_text.py` (PDF reading through `pdfplumber`, file reads, extension dispatch) is not part of this model. Its result is the `Option<string>` argument of `RunAgent`.
- `src/main.py` argument handling, file-existence checks, JSON printing, writing the output file, and the `inputFile` base name are I/O and are not modelled.
- Unicode is not modelled. Strings are ASCII in every respect:
  - `strip`, `upper`, `lower` and `isupper` use ASCII white space and ASCII letters;
  - `int()` accepts ASCII digits only;
  - `re.IGNORECASE` folds ASCII case only, so the non-ASCII characters Python also folds into `[A-Z]` (such as the Kelvin sign) are not matched;
  - `\s` and `strip()` treat the codes 9–13 and 28–32 as white space;
  - `int()` skips only the codes 9–13 and space around the literal.
- Regex.Search: covers only the pattern shape the catalogue uses, `<literal>[:\s]+\$?(<class>+)`. It is not a general regular-expression engine.
- Routing.DetermineRoute: the `AttributeError` that `.lower()` raises on a `description` stored as `None` is returned as `Err(DescriptionIsNone)`, not raised. `Pipeline.PipelineRouteOk` shows it cannot happen in the pipeline.
- Routing.DetermineRoute: the bare `except` can in practice only catch `int()`'s `ValueError` (a malformed literal, or more than 4300 digits), which is modelled as `ParseInt` returning `None`.
- Strings.ParseInt: the 4300-digit limit is fixed at the default of `sys.get_int_max_str_digits()`. Changing it (`sys.set_int_max_str_digits`, `PYTHONINTMAXSTRDIGITS`) is not modelled, nor are Python versions that have no limit.
- FieldExtraction.ExtractFields: each `fields[key] = value` is modelled as an append. Every key is new when it is stored, so `FieldExtraction.FieldsOfAreStores` shows the appends equal the dict stores (`FieldMaps.StoreAll`).
- FieldExtraction.MissingOf: its own contract states only the length bound. What the list holds, its order and its lack of duplicates are stated by `MissingOfIff`, `MissingOfAppend` and `MissingOfNoDuplicates`.
