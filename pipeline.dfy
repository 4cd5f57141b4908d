/**
 * The agent's pipeline (src/main.py): text, then fields, then the missing
 * mandatory fields, then the route, gathered into one report.
 */
module Pipeline {
  import opened Wrappers
  import opened FieldMaps
  import opened FieldExtraction
  import opened Routing

  /** The report `run_agent` prints, without the input file's name. */
  datatype Report = Report(
    extractedFields: FieldMap,
    missingFields: seq<string>,
    recommendedRoute: string,
    reasoning: string)

  /** On any map that has a `description` key, with its computed missing
      list, routing never fails: a `description` holding `None` is itself
      reported missing, so rule 1 applies before `.lower()` is reached. */
  lemma RouteOkWithDescription(fields: FieldMap)
    requires "description" in Keys(fields)
    ensures DetermineRoute(fields, MissingOf(fields)).Ok?
    ensures MissingOf(fields) == [] ==> Get(fields, "description").Some?
  {
    if Lookup(fields, "description") == Some(None) {
      var i := IndexOf(fields, "description");
      assert "description" !in OptionalFields;
      assert IsMissing(fields[i]);
      MissingOfIff(fields, "description");
    }
  }

  /** On fields the extractor built, routing never fails: either something
      is missing, or `description` is among the fields with a string value. */
  lemma PipelineRouteOk(search: Searcher, text: string)
    ensures DetermineRoute(FieldsOf(search, text), MissingOf(FieldsOf(search, text))).Ok?
    ensures MissingOf(FieldsOf(search, text)) == [] ==> Get(FieldsOf(search, text), "description").Some?
  {
    var fields := FieldsOf(search, text);
    assert Keys(fields)[6] == "description";
    RouteOkWithDescription(fields);
  }

  /** The report for a non-empty text. */
  function ReportOf(search: Searcher, text: string): (report: Report)
    ensures report.extractedFields == FieldsOf(search, text)
    ensures report.missingFields == MissingOf(FieldsOf(search, text))
  {
    PipelineRouteOk(search, text);
    var fields := FieldsOf(search, text);
    var missing := MissingOf(fields);
    var decision := DetermineRoute(fields, missing).value;
    Report(fields, missing, RouteName(decision.route), decision.reasoning)
  }

  /** `run_agent`, given the text `extract_text` produced: no report when
      there is no text or it is empty, and otherwise the report of the
      extracted fields, the missing ones, and the route decided on them. */
  method RunAgent(search: Searcher, text: Option<string>) returns (report: Option<Report>)
    ensures report.None? <==> text.None? || text.value == ""
    ensures report.Some? ==> report.value == ReportOf(search, text.value)
  {
    if text.None? || text.value == "" {
      return None;
    }
    var fields := ExtractFields(search, text.value);
    var missing := FindMissingFields(fields);
    PipelineRouteOk(search, text.value);
    var route := DetermineRoute(fields, missing);
    report := Some(Report(fields, missing, RouteName(route.value.route), route.value.reasoning));
  }

  /** A report always names one of the four routes. */
  lemma ReportRouteKnown(search: Searcher, text: string)
    ensures ReportOf(search, text).recommendedRoute in
      ["Manual Review", "Investigation", "Specialist Queue", "Fast-track"]
  {
  }
}
