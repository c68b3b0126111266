/**
 * The take-on export document and the survey → contributor traversal shared
 * by the two take-on extractors. Both walk `data.allSurveys.nodes`, read each
 * survey node's `survey` code, walk the `contributorsBySurvey.nodes` of the
 * surveys they keep, read each contributor's `period`, and append one row per
 * contributor they keep; they differ only in which codes and periods they
 * keep and in how a row is built (`Rules`).
 */
module Documents {
  import opened Results
  import opened Values

  /** A response node (`questioncode`, `response`). */
  datatype Answer = Answer(fields: Record)

  /** A contributor node: its scalar fields and `responsesByReferenceAndPeriodAndSurvey.nodes`. */
  datatype Contributor = Contributor(fields: Record, responses: Option<seq<Answer>>)

  /** A survey node: its scalar fields (`survey`) and `contributorsBySurvey.nodes`. */
  datatype Survey = Survey(fields: Record, contributors: Option<seq<Contributor>>)

  /** The export: `data.allSurveys.nodes`. */
  datatype Document = Document(surveys: Option<seq<Survey>>)

  /** The identity fields of a contributor node both extractors read. */
  predicate HasIdentity(f: Record) {
    "period" in f && "reference" in f && "region" in f && "enterprisereference" in f && "enterprisename" in f
  }

  /** The keys a missing node list is reported under. */
  const SurveysPath := "data.allSurveys.nodes"
  const ContributorsPath := "contributorsBySurvey.nodes"
  const ResponsesPath := "responsesByReferenceAndPeriodAndSurvey.nodes"

  /** `node[key]`: KeyError when the key is absent. */
  function Field(fields: Record, key: string): Result<Value, Error> {
    if key in fields then Success(fields[key]) else Failure(KeyError(key))
  }

  /** What distinguishes one extractor from the other. */
  datatype Rules = Rules(
    keepSurvey: Value -> bool,                       // the test on a survey node's `survey`
    keepPeriod: Value -> bool,                       // the test on a contributor's `period`
    build: Contributor -> Result<Record, Error>)     // the row of a kept contributor

  // ---------------------------------------------------------------------
  // What is kept, and when the traversal does not raise
  // ---------------------------------------------------------------------

  predicate KeptSurvey(s: Survey, rules: Rules) {
    "survey" in s.fields && rules.keepSurvey(s.fields["survey"]) && s.contributors.Some?
  }

  predicate KeptContributor(c: Contributor, rules: Rules) {
    "period" in c.fields && rules.keepPeriod(c.fields["period"])
  }

  /** The contributors of `cs` whose period is kept, in order. */
  function KeptOf(cs: seq<Contributor>, rules: Rules): (kept: seq<Contributor>)
    ensures forall c :: c in kept <==> c in cs && KeptContributor(c, rules)
    decreases |cs|
  {
    if cs == [] then []
    else
      assert forall c :: c in cs <==> c == cs[0] || c in cs[1..];
      (if KeptContributor(cs[0], rules) then [cs[0]] else []) + KeptOf(cs[1..], rules)
  }

  /** Every contributor that yields a row: survey-major, contributor-minor. */
  function Qualifying(ss: seq<Survey>, rules: Rules): (q: seq<Contributor>)
    ensures forall c :: c in q <==>
      exists i :: 0 <= i < |ss| && KeptSurvey(ss[i], rules) && c in ss[i].contributors.value && KeptContributor(c, rules)
    decreases |ss|
  {
    if ss == [] then []
    else
      var rest := Qualifying(ss[1..], rules);
      assert forall c :: c in rest <==>
        exists i :: 1 <= i < |ss| && KeptSurvey(ss[i], rules) && c in ss[i].contributors.value && KeptContributor(c, rules)
      by {
        forall c | c in rest
          ensures exists i :: 1 <= i < |ss| && KeptSurvey(ss[i], rules) && c in ss[i].contributors.value && KeptContributor(c, rules)
        {
          var j :| 0 <= j < |ss[1..]| && KeptSurvey(ss[1..][j], rules) && c in ss[1..][j].contributors.value
                   && KeptContributor(c, rules);
          assert ss[1..][j] == ss[j + 1];
        }
        forall c | exists i :: 1 <= i < |ss| && KeptSurvey(ss[i], rules) && c in ss[i].contributors.value && KeptContributor(c, rules)
          ensures c in rest
        {
          var i :| 1 <= i < |ss| && KeptSurvey(ss[i], rules) && c in ss[i].contributors.value && KeptContributor(c, rules);
          assert ss[1..][i - 1] == ss[i];
        }
      }
      (if KeptSurvey(ss[0], rules) then KeptOf(ss[0].contributors.value, rules) else []) + rest
  }

  /** Every failure of the row builder is a KeyError. */
  ghost predicate KeyErrorsOnly(rules: Rules) {
    forall c :: rules.build(c).Failure? ==> rules.build(c).error.KeyError?
  }

  predicate ContributorOk(c: Contributor, rules: Rules) {
    "period" in c.fields && (rules.keepPeriod(c.fields["period"]) ==> rules.build(c).Success?)
  }

  predicate SurveyOk(s: Survey, rules: Rules) {
    && "survey" in s.fields
    && (rules.keepSurvey(s.fields["survey"]) ==>
          && s.contributors.Some?
          && forall i :: 0 <= i < |s.contributors.value| ==> ContributorOk(s.contributors.value[i], rules))
  }

  /** The document has the nesting the traversal reads and every kept contributor builds. */
  predicate DocumentOk(doc: Document, rules: Rules) {
    doc.surveys.Some? && forall i :: 0 <= i < |doc.surveys.value| ==> SurveyOk(doc.surveys.value[i], rules)
  }

  // ---------------------------------------------------------------------
  // The traversal
  // ---------------------------------------------------------------------

  /** The row of one contributor whose period was read: none when the period is not kept. */
  function ContributorRows(c: Contributor, period: Value, rules: Rules): Result<seq<Record>, Error> {
    if !rules.keepPeriod(period) then Success([])
    else
      match rules.build(c)
      case Success(row) => Success([row])
      case Failure(e) => Failure(e)
  }

  /** The inner loop over `contributorsBySurvey.nodes`. */
  function ExtractContributors(cs: seq<Contributor>, rules: Rules): (res: Result<seq<Record>, Error>)
    ensures res.Success? <==> forall i :: 0 <= i < |cs| ==> ContributorOk(cs[i], rules)
    ensures res.Success? ==>
      var kept := KeptOf(cs, rules);
      |res.value| == |kept| && forall i :: 0 <= i < |kept| ==> rules.build(kept[i]) == Success(res.value[i])
    ensures res.Failure? && KeyErrorsOnly(rules) ==> res.error.KeyError?
    decreases |cs|
  {
    if cs == [] then Success([])
    else
      assert forall i :: 1 <= i < |cs| ==> cs[i] == cs[1..][i - 1];
      var period :- Field(cs[0].fields, "period");
      var head :- ContributorRows(cs[0], period, rules);
      var tail :- ExtractContributors(cs[1..], rules);
      Success(head + tail)
  }

  /** The outer loop over `data.allSurveys.nodes`. */
  function ExtractSurveys(ss: seq<Survey>, rules: Rules): (res: Result<seq<Record>, Error>)
    ensures res.Success? <==> forall i :: 0 <= i < |ss| ==> SurveyOk(ss[i], rules)
    ensures res.Success? ==>
      var q := Qualifying(ss, rules);
      |res.value| == |q| && forall i :: 0 <= i < |q| ==> rules.build(q[i]) == Success(res.value[i])
    ensures res.Failure? && KeyErrorsOnly(rules) ==> res.error.KeyError?
    decreases |ss|
  {
    if ss == [] then Success([])
    else
      assert forall i :: 1 <= i < |ss| ==> ss[i] == ss[1..][i - 1];
      var code :- Field(ss[0].fields, "survey");
      var head :-
        if !rules.keepSurvey(code) then Success([])
        else if ss[0].contributors.None? then Failure(KeyError(ContributorsPath))
        else ExtractContributors(ss[0].contributors.value, rules);
      var tail :- ExtractSurveys(ss[1..], rules);
      Success(head + tail)
  }

  /**
   * The whole traversal. It raises exactly when the document lacks a node
   * list or field it reads, or a kept contributor's row raises; otherwise its
   * rows are, in order, the rows of the qualifying contributors.
   */
  function ExtractDocument(doc: Document, rules: Rules): (res: Result<seq<Record>, Error>)
    ensures res.Success? <==> DocumentOk(doc, rules)
    ensures res.Success? ==>
      var q := Qualifying(doc.surveys.value, rules);
      |res.value| == |q| && forall i :: 0 <= i < |q| ==> rules.build(q[i]) == Success(res.value[i])
    ensures res.Failure? && KeyErrorsOnly(rules) ==> res.error.KeyError?
  {
    if doc.surveys.None? then Failure(KeyError(SurveysPath)) else ExtractSurveys(doc.surveys.value, rules)
  }
}
