/**
 * The legacy take-on ingest: the older, hard-coded variant of the take-on
 * extraction inside an S3-to-S3 handler. It keeps only survey nodes "066"
 * (land) and "076" (marine) and only contributors of exactly the run's
 * period, defaults the seven question columns to the empty string, copies
 * raw response text without a numeric check and adds a `land_or_marine`
 * marker. The handler reports failures as a message whose prefix names the
 * kind of exception.
 */
module LegacyTakeOn {
  import opened Results
  import opened Values
  import opened Documents

  const LandSurvey := "066"
  const MarineSurvey := "076"

  /** Lines 57-66: the question codes, in order, and their output columns. */
  const QuestionCodes: seq<string> := ["601", "602", "603", "604", "605", "606", "607"]
  const QuestionLabels: map<string, string> := map[
    "601" := "Q601_asphalting_sand",
    "602" := "Q602_building_soft_sand",
    "603" := "Q603_concreting_sand",
    "604" := "Q604_bituminous_gravel",
    "605" := "Q605_concreting_gravel",
    "606" := "Q606_other_gravel",
    "607" := "Q607_constructional_fill"]

  /** The fixed columns of a legacy row, besides the question columns and the marker. */
  const LegacyFields: set<string> := {"period", "responder_id", "gor_code", "enterprise_ref", "name"}

  lemma QuestionTables()
    ensures forall code :: code in QuestionCodes <==> code in QuestionLabels
    ensures forall code :: code in QuestionLabels ==> QuestionLabels[code] !in LegacyFields
    ensures "land_or_marine" !in QuestionLabels.Values && "land_or_marine" !in LegacyFields
  {
  }

  /** Line 98: `questioncode in question_codes` compares by equality, so only a string can match. */
  predicate IsQuestionCode(v: Value) {
    v.Str? && v.s in QuestionCodes
  }

  /** A response node that, on lines 98-99, writes its raw response into `column`. */
  predicate AnswersColumn(a: Answer, column: string) {
    && "questioncode" in a.fields
    && IsQuestionCode(a.fields["questioncode"])
    && (QuestionTables(); QuestionLabels[a.fields["questioncode"].s] == column)
    && "response" in a.fields
  }

  /** The raw response of the last node answering `column`, if any. */
  function LatestResponse(answers: seq<Answer>, column: string): (v: Option<Value>)
    ensures v.Some? ==> column in QuestionLabels.Values
    decreases |answers|
  {
    if answers == [] then None
    else
      match LatestResponse(answers[1..], column)
      case Some(v) => Some(v)
      case None => if AnswersColumn(answers[0], column) then Some(answers[0].fields["response"]) else None
  }

  /**
   * The latest response is the raw response of the last node that answers
   * the column; there is one exactly when some node does.
   */
  lemma {:induction false} LatestResponseIsLast(answers: seq<Answer>, column: string)
    ensures LatestResponse(answers, column).Some? <==>
      exists i :: 0 <= i < |answers| && AnswersColumn(answers[i], column)
    ensures LatestResponse(answers, column).Some? ==>
      exists i :: 0 <= i < |answers| && AnswersColumn(answers[i], column)
        && LatestResponse(answers, column).value == answers[i].fields["response"]
        && forall j :: i < j < |answers| ==> !AnswersColumn(answers[j], column)
    decreases |answers|
  {
    if answers != [] {
      var rest := answers[1..];
      LatestResponseIsLast(rest, column);
      assert forall i :: 1 <= i < |answers| ==> answers[i] == rest[i - 1];
      if LatestResponse(rest, column).Some? {
        var i :| 0 <= i < |rest| && AnswersColumn(rest[i], column)
          && LatestResponse(rest, column).value == rest[i].fields["response"]
          && forall j :: i < j < |rest| ==> !AnswersColumn(rest[j], column);
        assert AnswersColumn(answers[i + 1], column);
      } else if AnswersColumn(answers[0], column) {
        assert forall j :: 0 < j < |answers| ==> !AnswersColumn(answers[j], column);
      }
    }
  }

  /** A response node lines 97-99 can read without raising. */
  predicate AnswerOk(a: Answer) {
    "questioncode" in a.fields && (IsQuestionCode(a.fields["questioncode"]) ==> "response" in a.fields)
  }

  /**
   * One iteration of lines 97-99: a node without `questioncode`, or a node
   * with a known code but no `response`, raises KeyError; otherwise only the
   * column the node answers changes, to its raw response.
   */
  function AnswerStep(row: Record, a: Answer): (res: Result<Record, Error>)
    ensures res.Success? <==> AnswerOk(a)
    ensures res.Failure? ==> res.error.KeyError?
    ensures res.Success? ==> forall k :: k in res.value <==> k in row || AnswersColumn(a, k)
    ensures res.Success? ==> forall k :: k in res.value ==>
      res.value[k] == if AnswersColumn(a, k) then a.fields["response"] else row[k]
  {
    var code :- Field(a.fields, "questioncode");
    if !IsQuestionCode(code) then Success(row)
    else
      var response :- Field(a.fields, "response");
      QuestionTables();
      Success(row[QuestionLabels[code.s] := response])
  }

  /** Lines 97-99: every response with a known code overwrites its column with the raw text. */
  function ApplyAnswers(row: Record, answers: seq<Answer>): (res: Result<Record, Error>)
    ensures res.Success? <==> forall i :: 0 <= i < |answers| ==> AnswerOk(answers[i])
    ensures res.Failure? ==> res.error.KeyError?
    ensures res.Success? ==> row.Keys <= res.value.Keys <= row.Keys + QuestionLabels.Values
    ensures res.Success? ==> forall k :: k in row ==>
      res.value[k] == match LatestResponse(answers, k) case Some(v) => v case None => row[k]
    decreases |answers|
  {
    if answers == [] then Success(row)
    else
      assert forall i :: 1 <= i < |answers| ==> answers[i] == answers[1..][i - 1];
      var next :- AnswerStep(row, answers[0]);
      ApplyAnswers(next, answers[1..])
  }

  /** What lines 86-105 need of a contributor so that building its row does not raise. */
  predicate Buildable(c: Contributor) {
    && HasIdentity(c.fields)
    && c.responses.Some?
    && (forall i :: 0 <= i < |c.responses.value| ==> AnswerOk(c.responses.value[i]))
    && "survey" in c.fields
  }

  /** Lines 86-94: the identity fields, copied verbatim, and the seven question columns at "". */
  function DefaultRow(f: Record): (row: Record)
    requires HasIdentity(f)
    ensures row.Keys == LegacyFields + QuestionLabels.Values
    ensures row["period"] == f["period"] && row["responder_id"] == f["reference"]
    ensures row["gor_code"] == f["region"] && row["enterprise_ref"] == f["enterprisereference"]
    ensures row["name"] == f["enterprisename"]
    ensures forall column :: column in QuestionLabels.Values ==> row[column] == Str("")
  {
    QuestionTables();
    map["period" := f["period"],
        "responder_id" := f["reference"],
        "gor_code" := f["region"],
        "enterprise_ref" := f["enterprisereference"],
        "name" := f["enterprisename"]]
    + map column | column in QuestionLabels.Values :: Str("")
  }

  /** Lines 101-105: the marker of the contributor's own survey code, if it is land or marine. */
  function Marker(survey: Value): (m: Option<Value>)
    ensures m == Some(Str("L")) <==> survey == Str(LandSurvey)
    ensures m == Some(Str("M")) <==> survey == Str(MarineSurvey)
    ensures m.Some? ==> m.value == Str("L") || m.value == Str("M")
  {
    if survey == Str(LandSurvey) then Some(Str("L"))
    else if survey == Str(MarineSurvey) then Some(Str("M"))
    else None
  }

  /** Lines 84-105: the row of one qualifying contributor. */
  function BuildRecord(c: Contributor): (res: Result<Record, Error>)
    ensures res.Success? <==> Buildable(c)
    ensures res.Failure? ==> res.error.KeyError?
  {
    var f := c.fields;
    if "period" !in f then Failure(KeyError("period"))
    else if "reference" !in f then Failure(KeyError("reference"))
    else if "region" !in f then Failure(KeyError("region"))
    else if "enterprisereference" !in f then Failure(KeyError("enterprisereference"))
    else if "enterprisename" !in f then Failure(KeyError("enterprisename"))
    else if c.responses.None? then Failure(KeyError(ResponsesPath))
    else
      var answered :- ApplyAnswers(DefaultRow(f), c.responses.value);
      if "survey" !in f then Failure(KeyError("survey"))
      else
        match Marker(f["survey"])
        case Some(m) => Success(answered["land_or_marine" := m])
        case None => Success(answered)
  }

  lemma BuildRecordUnfold(c: Contributor, row: Record)
    requires BuildRecord(c) == Success(row)
    ensures Buildable(c)
    ensures ApplyAnswers(DefaultRow(c.fields), c.responses.value).Success?
    ensures var answered := ApplyAnswers(DefaultRow(c.fields), c.responses.value).value;
      row == match Marker(c.fields["survey"]) case Some(m) => answered["land_or_marine" := m] case None => answered
  {
  }

  /**
   * The contents of a legacy row: the five identity fields verbatim, every
   * question column holding the raw text of the latest response for it or
   * "", and `land_or_marine` exactly when the contributor's own survey code
   * is "066" ("L") or "076" ("M").
   */
  lemma BuildRecordContents(c: Contributor, row: Record)
    requires BuildRecord(c) == Success(row)
    ensures Buildable(c)
    ensures row.Keys == LegacyFields + QuestionLabels.Values +
      (if Marker(c.fields["survey"]).Some? then {"land_or_marine"} else {})
    ensures row["period"] == c.fields["period"] && row["responder_id"] == c.fields["reference"]
    ensures row["gor_code"] == c.fields["region"] && row["enterprise_ref"] == c.fields["enterprisereference"]
    ensures row["name"] == c.fields["enterprisename"]
    ensures forall column :: column in QuestionLabels.Values ==>
      row[column] == match LatestResponse(c.responses.value, column) case Some(v) => v case None => Str("")
    ensures Marker(c.fields["survey"]).Some? ==> row["land_or_marine"] == Marker(c.fields["survey"]).value
  {
    BuildRecordUnfold(c, row);
    QuestionTables();
    var f, answers := c.fields, c.responses.value;
    var defaults := DefaultRow(f);
    forall k | k in LegacyFields
      ensures row[k] == defaults[k]
    {
      assert LatestResponse(answers, k).None?;
    }
  }

  /** Lines 81, 83 and 84-107: the legacy extractor's rules. */
  function LegacyRules(period: string): Rules {
    Rules(
      v => v == Str(LandSurvey) || v == Str(MarineSurvey),
      v => v == Str(period),
      c => BuildRecord(c))
  }

  /**
   * Lines 79-107: one row per contributor of a "066" or "076" survey node
   * whose period is exactly `period`, in document order; the only exception
   * it can raise is KeyError.
   */
  function Extract(doc: Document, period: string): (res: Result<seq<Record>, Error>)
    ensures res.Success? <==> DocumentOk(doc, LegacyRules(period))
    ensures res.Success? ==>
      var q := Qualifying(doc.surveys.value, LegacyRules(period));
      && |res.value| == |q|
      && forall i :: 0 <= i < |q| ==> BuildRecord(q[i]) == Success(res.value[i])
    ensures res.Failure? ==> res.error.KeyError?
  {
    assert KeyErrorsOnly(LegacyRules(period));
    ExtractDocument(doc, LegacyRules(period))
  }

  /**
   * Lines 80-83: a contributor yields a row exactly when it sits under a
   * survey node coded "066" or "076" and its period equals the run's period.
   */
  lemma LegacySelection(ss: seq<Survey>, period: string, c: Contributor)
    ensures c in Qualifying(ss, LegacyRules(period)) <==>
      exists i :: 0 <= i < |ss| && "survey" in ss[i].fields
        && (ss[i].fields["survey"] == Str(LandSurvey) || ss[i].fields["survey"] == Str(MarineSurvey))
        && ss[i].contributors.Some? && c in ss[i].contributors.value
        && "period" in c.fields && c.fields["period"] == Str(period)
  {
  }
}
