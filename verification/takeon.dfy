/**
 * Take-on extraction (the take-on method handler). The survey nodes whose
 * code is a key of `survey_codes` are walked; every contributor whose period
 * is the run's period or the previous one becomes one flat row: translated
 * survey marker, identity fields, one column per question label (0 unless a
 * numeric answer overwrites it) and a response type derived from the status.
 */
module TakeOn {
  import opened Results
  import opened Values
  import opened Documents

  /** The runtime variables of the take-on method. */
  datatype Config = Config(
    period: string,
    periodicity: string,
    questionLabels: map<string, string>,  // question code -> output column
    surveyCodes: map<string, Value>,      // survey code -> survey marker
    statuses: map<string, Value>)         // status -> response type

  /** The response type of a contributor whose status is not in `statuses`. */
  const DefaultResponseType := 1

  /** The fixed columns of a row, besides the question labels. */
  const RowFields: set<string> :=
    {"survey", "period", "responder_id", "gor_code", "enterprise_reference", "enterprise_name", "response_type"}

  /** Line 64: the contributor's period is the run's period or the previous one. */
  predicate InPeriod(v: Value, cfg: Config, previous: string) {
    v == Str(cfg.period) || v == Str(previous)
  }

  // ---------------------------------------------------------------------
  // Answers
  // ---------------------------------------------------------------------

  /** A response node that, on lines 82-85, writes an integer into `column`. */
  predicate AnswersColumn(a: Answer, labels: map<string, string>, column: string) {
    && "questioncode" in a.fields
    && IsKeyOf(a.fields["questioncode"], labels)
    && labels[a.fields["questioncode"].s] == column
    && "response" in a.fields
    && a.fields["response"].Str?
    && IsNumeric(a.fields["response"].s)
  }

  /** The integer the last response node answering `column` writes, if any. */
  function LatestAnswer(answers: seq<Answer>, labels: map<string, string>, column: string): (n: Option<nat>)
    ensures n.Some? ==> column in labels.Values
    decreases |answers|
  {
    if answers == [] then None
    else
      match LatestAnswer(answers[1..], labels, column)
      case Some(n) => Some(n)
      case None =>
        if AnswersColumn(answers[0], labels, column) then Some(ParseDecimal(answers[0].fields["response"].s))
        else None
  }

  /** What a label column ends up holding: the latest numeric answer, else 0. */
  function LabelValue(answers: seq<Answer>, labels: map<string, string>, column: string): Value {
    match LatestAnswer(answers, labels, column)
    case Some(n) => Int(n)
    case None => Int(0)
  }

  /**
   * The latest answer is that of the last response node that answers the
   * column with numeric text; there is one exactly when some node does.
   */
  lemma {:induction false} LatestAnswerIsLast(answers: seq<Answer>, labels: map<string, string>, column: string)
    ensures LatestAnswer(answers, labels, column).Some? <==>
      exists i :: 0 <= i < |answers| && AnswersColumn(answers[i], labels, column)
    ensures LatestAnswer(answers, labels, column).Some? ==>
      exists i :: 0 <= i < |answers| && AnswersColumn(answers[i], labels, column)
        && LatestAnswer(answers, labels, column).value == ParseDecimal(answers[i].fields["response"].s)
        && forall j :: i < j < |answers| ==> !AnswersColumn(answers[j], labels, column)
    decreases |answers|
  {
    if answers != [] {
      var rest := answers[1..];
      LatestAnswerIsLast(rest, labels, column);
      assert forall i :: 1 <= i < |answers| ==> answers[i] == rest[i - 1];
      if LatestAnswer(rest, labels, column).Some? {
        var i :| 0 <= i < |rest| && AnswersColumn(rest[i], labels, column)
          && LatestAnswer(rest, labels, column).value == ParseDecimal(rest[i].fields["response"].s)
          && forall j :: i < j < |rest| ==> !AnswersColumn(rest[j], labels, column);
        assert AnswersColumn(answers[i + 1], labels, column);
      } else if AnswersColumn(answers[0], labels, column) {
        assert forall j :: 0 < j < |answers| ==> !AnswersColumn(answers[j], labels, column);
      }
    }
  }

  /** A response node lines 82-83 can read without raising. */
  predicate AnswerOk(a: Answer, labels: map<string, string>) {
    && "questioncode" in a.fields
    && (IsKeyOf(a.fields["questioncode"], labels) ==> "response" in a.fields && a.fields["response"].Str?)
  }

  /**
   * One iteration of lines 81-85: a node without `questioncode` raises
   * KeyError, a labelled node whose response is not text raises
   * AttributeError, and otherwise only the column the node answers with
   * numeric text changes, to the integer it reads.
   */
  function AnswerStep(row: Record, a: Answer, labels: map<string, string>): (res: Result<Record, Error>)
    ensures res.Success? <==> AnswerOk(a, labels)
    ensures "questioncode" !in a.fields ==> res == Failure(KeyError("questioncode"))
    ensures res.Success? ==> forall k :: k in res.value <==> k in row || AnswersColumn(a, labels, k)
    ensures res.Success? ==> forall k :: k in res.value ==>
      res.value[k] == if AnswersColumn(a, labels, k) then Int(ParseDecimal(a.fields["response"].s)) else row[k]
  {
    var code :- Field(a.fields, "questioncode");
    if !IsKeyOf(code, labels) then Success(row)
    else
      var response :- Field(a.fields, "response");
      if !response.Str? then Failure(AttributeError("response"))
      else if IsNumeric(response.s) then Success(row[labels[code.s] := Int(ParseDecimal(response.s))])
      else Success(row)
  }

  /**
   * Lines 81-85: a response overwrites its label's column only when its code
   * is a key of `question_labels` and its text is numeric; the latest such
   * response wins.
   */
  function ApplyAnswers(row: Record, answers: seq<Answer>, labels: map<string, string>): (res: Result<Record, Error>)
    ensures res.Success? <==> forall i :: 0 <= i < |answers| ==> AnswerOk(answers[i], labels)
    ensures res.Success? ==> row.Keys <= res.value.Keys <= row.Keys + labels.Values
    ensures res.Success? ==> forall k :: k in row ==>
      res.value[k] == match LatestAnswer(answers, labels, k) case Some(n) => Int(n) case None => row[k]
    decreases |answers|
  {
    if answers == [] then Success(row)
    else
      assert forall i :: 1 <= i < |answers| ==> answers[i] == answers[1..][i - 1];
      var next :- AnswerStep(row, answers[0], labels);
      ApplyAnswers(next, answers[1..], labels)
  }

  // ---------------------------------------------------------------------
  // Rows
  // ---------------------------------------------------------------------

  /** What lines 68-92 need of a contributor so that building its row does not raise. */
  predicate Buildable(c: Contributor, cfg: Config) {
    var f := c.fields;
    && "survey" in f && IsKeyOf(f["survey"], cfg.surveyCodes)
    && HasIdentity(f)
    && c.responses.Some?
    && (forall i :: 0 <= i < |c.responses.value| ==> AnswerOk(c.responses.value[i], cfg.questionLabels))
    && "status" in f
  }

  /** Lines 68-78: the translated survey marker, the identity fields, and every label column at 0. */
  function DefaultRow(c: Contributor, cfg: Config): (row: Record)
    requires "survey" in c.fields && IsKeyOf(c.fields["survey"], cfg.surveyCodes)
    requires HasIdentity(c.fields)
    ensures row.Keys == (RowFields - {"response_type"}) + cfg.questionLabels.Values
    ensures forall L :: L in cfg.questionLabels.Values ==> row[L] == Int(0)
    ensures var f, labels := c.fields, cfg.questionLabels.Values;
      && ("survey" !in labels ==> row["survey"] == cfg.surveyCodes[f["survey"].s])
      && ("period" !in labels ==> row["period"] == Str(Render(f["period"])))
      && ("responder_id" !in labels ==> row["responder_id"] == Str(Render(f["reference"])))
      && ("gor_code" !in labels ==> row["gor_code"] == f["region"])
      && ("enterprise_reference" !in labels ==> row["enterprise_reference"] == Str(Render(f["enterprisereference"])))
      && ("enterprise_name" !in labels ==> row["enterprise_name"] == f["enterprisename"])
  {
    var f := c.fields;
    var identity := map[
      "survey" := cfg.surveyCodes[f["survey"].s],
      "period" := Str(Render(f["period"])),
      "responder_id" := Str(Render(f["reference"])),
      "gor_code" := f["region"],
      "enterprise_reference" := Str(Render(f["enterprisereference"])),
      "enterprise_name" := f["enterprisename"]];
    identity + map L | L in cfg.questionLabels.Values :: Int(0)
  }

  /** Lines 91-94: the status's entry in `statuses`, else 1. */
  function ResponseType(status: Value, cfg: Config): (v: Value)
    ensures v == Int(DefaultResponseType) || v in cfg.statuses.Values
    ensures !IsKeyOf(status, cfg.statuses) ==> v == Int(DefaultResponseType)
  {
    if IsKeyOf(status, cfg.statuses) then cfg.statuses[status.s] else Int(DefaultResponseType)
  }

  /**
   * Lines 65-94: the row of one qualifying contributor. Label columns are
   * written after the identity fields and `response_type` last, so a label
   * that coincides with an identity field's name overrides it.
   */
  function BuildRecord(c: Contributor, cfg: Config): (res: Result<Record, Error>)
    ensures res.Success? <==> Buildable(c, cfg)
    ensures res.Success? ==> res.value.Keys == RowFields + cfg.questionLabels.Values
  {
    var f := c.fields;
    if "survey" !in f then Failure(KeyError("survey"))
    else if !IsKeyOf(f["survey"], cfg.surveyCodes) then Failure(KeyError(Render(f["survey"])))
    else if "period" !in f then Failure(KeyError("period"))
    else if "reference" !in f then Failure(KeyError("reference"))
    else if "region" !in f then Failure(KeyError("region"))
    else if "enterprisereference" !in f then Failure(KeyError("enterprisereference"))
    else if "enterprisename" !in f then Failure(KeyError("enterprisename"))
    else if c.responses.None? then Failure(KeyError(ResponsesPath))
    else
      var answered :- ApplyAnswers(DefaultRow(c, cfg), c.responses.value, cfg.questionLabels);
      if "status" !in f then Failure(KeyError("status"))
      else Success(answered["response_type" := ResponseType(f["status"], cfg)])
  }

  lemma BuildRecordUnfold(c: Contributor, cfg: Config, row: Record)
    requires BuildRecord(c, cfg) == Success(row)
    ensures Buildable(c, cfg)
    ensures ApplyAnswers(DefaultRow(c, cfg), c.responses.value, cfg.questionLabels).Success?
    ensures row == ApplyAnswers(DefaultRow(c, cfg), c.responses.value, cfg.questionLabels).value
                     ["response_type" := ResponseType(c.fields["status"], cfg)]
  {
  }

  /**
   * The contents of a row (lines 68-94): every label column holds the
   * latest numeric answer for it, else 0; `response_type` is the status's
   * entry in `statuses`, else 1; the survey code is translated through
   * `survey_codes`; `period`, `responder_id` and `enterprise_reference` are
   * stringified and `gor_code` and `enterprise_name` copied, unless a label
   * of the same name overrides them.
   */
  lemma BuildRecordContents(c: Contributor, cfg: Config, row: Record)
    requires BuildRecord(c, cfg) == Success(row)
    ensures Buildable(c, cfg) && row.Keys == RowFields + cfg.questionLabels.Values
    ensures forall L :: L in cfg.questionLabels.Values && L != "response_type" ==>
      row[L] == LabelValue(c.responses.value, cfg.questionLabels, L)
    ensures row["response_type"] ==
      if IsKeyOf(c.fields["status"], cfg.statuses) then cfg.statuses[c.fields["status"].s] else Int(DefaultResponseType)
    ensures var f, labels := c.fields, cfg.questionLabels.Values;
      && ("survey" !in labels ==> row["survey"] == cfg.surveyCodes[f["survey"].s])
      && ("period" !in labels ==> row["period"] == Str(Render(f["period"])))
      && ("responder_id" !in labels ==> row["responder_id"] == Str(Render(f["reference"])))
      && ("gor_code" !in labels ==> row["gor_code"] == f["region"])
      && ("enterprise_reference" !in labels ==> row["enterprise_reference"] == Str(Render(f["enterprisereference"])))
      && ("enterprise_name" !in labels ==> row["enterprise_name"] == f["enterprisename"])
  {
    BuildRecordUnfold(c, cfg, row);
    BuildRecordIdentity(c, cfg, row);
  }

  /** The identity columns no label overrides keep their default values. */
  lemma BuildRecordIdentity(c: Contributor, cfg: Config, row: Record)
    requires BuildRecord(c, cfg) == Success(row)
    ensures Buildable(c, cfg)
    ensures forall k :: k in RowFields && k !in cfg.questionLabels.Values && k != "response_type" ==>
      k in row && row[k] == DefaultRow(c, cfg)[k]
  {
    BuildRecordUnfold(c, cfg, row);
    var labels, answers := cfg.questionLabels, c.responses.value;
    var defaults := DefaultRow(c, cfg);
    forall k | k in RowFields && k !in labels.Values && k != "response_type"
      ensures k in row && row[k] == defaults[k]
    {
      assert LatestAnswer(answers, labels, k).None?;
    }
  }

  /**
   * The numeric guard (lines 82-85): a label column that no response node
   * answers with numeric text keeps its default 0, whatever non-numeric or
   * unknown responses the contributor gave.
   */
  lemma NumericGuard(c: Contributor, cfg: Config, row: Record, column: string)
    requires BuildRecord(c, cfg) == Success(row)
    requires column in cfg.questionLabels.Values && column != "response_type"
    requires c.responses.Some?
    requires forall i :: 0 <= i < |c.responses.value| ==>
      !AnswersColumn(c.responses.value[i], cfg.questionLabels, column)
    ensures row[column] == Int(0)
  {
    BuildRecordContents(c, cfg, row);
    LatestAnswerIsLast(c.responses.value, cfg.questionLabels, column);
  }

  // ---------------------------------------------------------------------
  // The extraction and its handler
  // ---------------------------------------------------------------------

  /** Lines 62, 64 and 65-96: the take-on extractor's rules. */
  function TakeOnRules(cfg: Config, previous: string): Rules {
    Rules(
      v => IsKeyOf(v, cfg.surveyCodes),
      v => InPeriod(v, cfg, previous),
      c => BuildRecord(c, cfg))
  }

  /**
   * Lines 59-96: one row per contributor of a survey node whose code is a
   * key of `survey_codes` and whose period is `period` or `previous`, in
   * document order; any lookup failure fails the whole extraction.
   */
  function Extract(doc: Document, cfg: Config, previous: string): (res: Result<seq<Record>, Error>)
    ensures res.Success? <==> DocumentOk(doc, TakeOnRules(cfg, previous))
    ensures res.Success? ==>
      var q := Qualifying(doc.surveys.value, TakeOnRules(cfg, previous));
      && |res.value| == |q|
      && forall i :: 0 <= i < |q| ==> BuildRecord(q[i], cfg) == Success(res.value[i])
  {
    ExtractDocument(doc, TakeOnRules(cfg, previous))
  }

  /**
   * Lines 61-64: a contributor yields a row exactly when it sits under a
   * survey node whose code is a key of `survey_codes` and its period is the
   * run's period or the previous one.
   */
  lemma TakeOnSelection(ss: seq<Survey>, cfg: Config, previous: string, c: Contributor)
    ensures c in Qualifying(ss, TakeOnRules(cfg, previous)) <==>
      exists i :: 0 <= i < |ss| && "survey" in ss[i].fields && IsKeyOf(ss[i].fields["survey"], cfg.surveyCodes)
        && ss[i].contributors.Some? && c in ss[i].contributors.value
        && "period" in c.fields && InPeriod(c.fields["period"], cfg, previous)
  {
  }

  /**
   * The take-on method handler (lines 23-111), after schema validation; the
   * previous period comes from `adjacentPeriod`, which stands for the
   * calendar function of the shared helper library.
   */
  function TakeOnMethod(doc: Document, cfg: Config, adjacentPeriod: (string, string) -> string): (reply: MethodReply)
    ensures reply.success <==> DocumentOk(doc, TakeOnRules(cfg, adjacentPeriod(cfg.period, cfg.periodicity)))
    ensures reply.success ==>
      var q := Qualifying(doc.surveys.value, TakeOnRules(cfg, adjacentPeriod(cfg.period, cfg.periodicity)));
      && reply.error == None && reply.data.Some? && |reply.data.value| == |q|
      && forall i :: 0 <= i < |q| ==> BuildRecord(q[i], cfg) == Success(reply.data.value[i])
    ensures !reply.success ==> reply.data == None && reply.error.Some?
  {
    ReplyOf(Extract(doc, cfg, adjacentPeriod(cfg.period, cfg.periodicity)))
  }
}
