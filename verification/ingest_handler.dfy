/**
 * The legacy ingest handler around the legacy extraction: it reads its
 * parameters from the environment, reads the take-on export from S3,
 * extracts the rows and writes them back to S3, and turns any exception into
 * an error message whose prefix names the kind of exception. S3 and the
 * schema validation of the environment are parameters of the model.
 */
module IngestHandler {
  import opened Results
  import opened Values
  import opened Documents
  import LegacyTakeOn

  // ---------------------------------------------------------------------
  // Exceptions and their messages (lines 113-161)
  // ---------------------------------------------------------------------

  /** The exception classes the handler tells apart, in the order of its `except` clauses. */
  datatype ExceptionKind =
    | BadAttribute                // AttributeError
    | BadValue                    // ValueError (and its subclasses, such as a JSON decoding error)
    | AwsClient(code: string)     // botocore ClientError, with its error code
    | MissingKey                  // KeyError
    | IncompleteRead              // botocore IncompleteReadError
    | General(typeName: string)   // any other exception, with its class name

  /** An exception: its class and the text of `str(e.args)`. */
  datatype Exception = Exception(kind: ExceptionKind, args: string)

  const ModuleName := "BMI Results Data Ingest"
  const RequestIdLabel := " | Request ID: "
  /** The text the handler puts where the request id belongs. */
  const RequestIdLiteral := "aws_request_id"
  /** Line 111: the object key the rows are written under. */
  const OutputKey := "test_results_ingest_output.json"

  /** `repr` of a string, choosing its quotes as Python does (escaping is not modelled). */
  function Repr(s: string): (r: string)
    ensures |r| == |s| + 2 && r[1..|r| - 1] == s
    ensures r[0] == r[|r| - 1] && (r[0] == '\'' || r[0] == '"')
    ensures r[0] == '"' <==> '\'' in s && '"' !in s
  {
    if '\'' in s && '"' !in s then "\"" + s + "\"" else "'" + s + "'"
  }

  /** `str(e.args)` of an exception raised with one string argument. */
  function SingleArg(s: string): string {
    "(" + Repr(s) + ",)"
  }

  /** The exception `d[key]` raises. */
  function KeyException(key: string): Exception {
    Exception(MissingKey, SingleArg(key))
  }

  /** Line 68: the exception raised when the schema reports errors. */
  function ValidationException(errors: string): Exception {
    Exception(BadValue, SingleArg("Error validating environment params: " + errors))
  }

  predicate StartsWith(m: string, prefix: string) {
    |prefix| <= |m| && m[..|prefix|] == prefix
  }

  /** The text of each `except` clause before `str(e.args)`. */
  function MessageHead(kind: ExceptionKind): string {
    match kind
    case BadAttribute => "Bad data encountered in " + ModuleName + " |- "
    case BadValue => "Parameter validation error in " + ModuleName + " |- "
    case AwsClient(code) => "AWS Error in (" + code + ") " + ModuleName + " |- "
    case MissingKey => "Key Error in " + ModuleName + " |- "
    case IncompleteRead => "Incomplete Lambda response encountered in " + ModuleName + " |- "
    case General(t) => "General Error in " + ModuleName + " (<class '" + t + "'>) |- "
  }

  /** Lines 113-161 as written: the request id is always the literal text "aws_request_id". */
  function ErrorMessageAsWritten(e: Exception): (m: string)
    ensures StartsWith(m, MessageHead(e.kind))
    ensures |m| >= |RequestIdLabel + RequestIdLiteral| && m[|m| - |RequestIdLabel + RequestIdLiteral|..] == RequestIdLabel + RequestIdLiteral
  {
    MessageHead(e.kind) + e.args + RequestIdLabel + RequestIdLiteral
  }

  /**
   * Lines 113-161 as evidently intended: the message names the kind of
   * exception, carries its arguments and ends with the invocation's request id.
   */
  function ErrorMessage(e: Exception, requestId: string): (m: string)
    ensures |m| > 0
    ensures |m| >= |requestId| && m[|m| - |requestId|..] == requestId
    ensures StartsWith(m, MessageHead(e.kind))
  {
    MessageHead(e.kind) + e.args + RequestIdLabel + requestId
  }

  /** The six kinds, forgetting the data they carry. */
  datatype Kind = AttributeKind | ValueKind | ClientKind | KeyKind | IncompleteKind | GeneralKind

  function KindOf(kind: ExceptionKind): Kind {
    match kind
    case BadAttribute => AttributeKind
    case BadValue => ValueKind
    case AwsClient(_) => ClientKind
    case MissingKey => KeyKind
    case IncompleteRead => IncompleteKind
    case General(_) => GeneralKind
  }

  const Prefixes: set<string> := {"Bad data encountered in ", "Parameter validation error in ", "AWS Error in (",
    "Key Error in ", "Incomplete Lambda response encountered in ", "General Error in "}

  /** What a reader of the error message can tell about the exception's class. */
  function Classify(m: string): Option<Kind> {
    if StartsWith(m, "Bad data encountered in ") then Some(AttributeKind)
    else if StartsWith(m, "Parameter validation error in ") then Some(ValueKind)
    else if StartsWith(m, "AWS Error in (") then Some(ClientKind)
    else if StartsWith(m, "Key Error in ") then Some(KeyKind)
    else if StartsWith(m, "Incomplete Lambda response encountered in ") then Some(IncompleteKind)
    else if StartsWith(m, "General Error in ") then Some(GeneralKind)
    else None
  }

  lemma StartsWithTrans(m: string, head: string, p: string)
    requires StartsWith(m, head) && StartsWith(head, p)
    ensures StartsWith(m, p)
  {
    assert m[..|p|] == m[..|head|][..|p|];
  }

  lemma StartsWithOther(m: string, p: string, q: string)
    requires StartsWith(m, p) && 0 < |p| && 0 < |q| && p[0] != q[0]
    ensures !StartsWith(m, q)
  {
    assert m[0] == m[..|p|][0];
  }

  /** Every message names the class of its exception unambiguously. */
  lemma ClassifyMessage(e: Exception, requestId: string)
    ensures Classify(ErrorMessage(e, requestId)) == Some(KindOf(e.kind))
  {
    var m := ErrorMessage(e, requestId);
    var head := MessageHead(e.kind);
    var p := match e.kind
      case BadAttribute => "Bad data encountered in "
      case BadValue => "Parameter validation error in "
      case AwsClient(_) => "AWS Error in ("
      case MissingKey => "Key Error in "
      case IncompleteRead => "Incomplete Lambda response encountered in "
      case General(_) => "General Error in ";
    assert head == p + head[|p|..];
    assert StartsWith(head, p);
    StartsWithTrans(m, head, p);
    forall q | q in Prefixes && q != p
      ensures !StartsWith(m, q)
    {
      StartsWithOther(m, p, q);
    }
  }

  /** The request id an error message reports is the text after its last label. */
  lemma ErrorMessageReportsRequestId(e: Exception, id1: string, id2: string)
    ensures ErrorMessage(e, id1) == ErrorMessage(e, id2) <==> id1 == id2
  {
    var prefix := MessageHead(e.kind) + e.args + RequestIdLabel;
    if ErrorMessage(e, id1) == ErrorMessage(e, id2) {
      assert (prefix + id1)[|prefix|..] == id1;
      assert (prefix + id2)[|prefix|..] == id2;
    }
  }

  /**
   * As written, every message carries the same request id: it tells apart no
   * two invocations, and is right for none whose id is not "aws_request_id".
   */
  lemma RequestIdIgnored(e: Exception, requestId: string)
    ensures ErrorMessageAsWritten(e) == ErrorMessage(e, RequestIdLiteral)
    ensures ErrorMessageAsWritten(e) == ErrorMessage(e, requestId) <==> requestId == RequestIdLiteral
  {
    ErrorMessageReportsRequestId(e, RequestIdLiteral, requestId);
  }

  // ---------------------------------------------------------------------
  // The handler (lines 30-169)
  // ---------------------------------------------------------------------

  /**
   * The environment after schema loading (line 50): the string parameters the
   * schema returned, and the rendering of its error dictionary when that is
   * non-empty.
   */
  datatype Environment = Environment(params: map<string, string>, errors: Option<string>)

  /** The parameters lines 51-53 read. */
  predicate ParamsPresent(env: Environment) {
    "bucket_name" in env.params && "file_name" in env.params && "period" in env.params
  }

  /** The object store as seen by the handler: a read of a JSON object, and a write. */
  datatype Storage = Storage(
    read: (string, string) -> Result<Document, Exception>,            // bucket, key → parsed export
    write: (string, string, seq<Record>) -> Option<Exception>)        // bucket, key, rows → failure

  function Param(env: Environment, key: string): Result<string, Exception> {
    if key in env.params then Success(env.params[key]) else Failure(KeyException(key))
  }

  /** Lines 72-111: read, extract, write; a KeyError of the extraction becomes the handler's exception. */
  function Process(bucket: string, file: string, period: string, storage: Storage): (res: Result<seq<Record>, Exception>)
    ensures res.Success? <==>
      && storage.read(bucket, file).Success?
      && DocumentOk(storage.read(bucket, file).value, LegacyTakeOn.LegacyRules(period))
      && storage.write(bucket, OutputKey, LegacyTakeOn.Extract(storage.read(bucket, file).value, period).value).None?
    ensures res.Success? ==> res.value == LegacyTakeOn.Extract(storage.read(bucket, file).value, period).value
    ensures storage.read(bucket, file).Success? && !DocumentOk(storage.read(bucket, file).value, LegacyTakeOn.LegacyRules(period))
      ==> res.Failure? && res.error.kind == MissingKey
  {
    var doc :- storage.read(bucket, file);
    var rows :-
      match LegacyTakeOn.Extract(doc, period)
      case Success(rows) => Success(rows)
      case Failure(e) => Failure(KeyException(e.key));
    match storage.write(bucket, OutputKey, rows)
    case Some(e) => Failure(e)
    case None => Success(rows)
  }

  /** Lines 51-53: the first of the three parameters the handler looks up that is absent. */
  function FirstMissing(env: Environment): (key: string)
    requires !ParamsPresent(env)
    ensures key !in env.params
    ensures key == "bucket_name" || key == "file_name" || key == "period"
    ensures key != "bucket_name" ==> "bucket_name" in env.params
    ensures key == "period" ==> "file_name" in env.params
  {
    if "bucket_name" !in env.params then "bucket_name"
    else if "file_name" !in env.params then "file_name"
    else "period"
  }

  /**
   * Lines 50-111: the parameters are looked up before the schema errors are
   * examined, so an absent parameter raises KeyError on its name whatever the
   * schema reported, and the validation error of line 68 is raised only when
   * all three are present but the schema reported another problem (one of
   * the other required variables, say). Otherwise the export is read,
   * extracted and written.
   */
  function RunAsWritten(env: Environment, storage: Storage): (res: Result<seq<Record>, Exception>)
    ensures res.Success? <==>
      && env.errors.None? && ParamsPresent(env)
      && Process(env.params["bucket_name"], env.params["file_name"], env.params["period"], storage).Success?
    ensures !ParamsPresent(env) ==> res == Failure(KeyException(FirstMissing(env)))
    ensures ParamsPresent(env) && env.errors.Some? ==> res == Failure(ValidationException(env.errors.value))
    ensures ParamsPresent(env) && env.errors.None? ==>
      res == Process(env.params["bucket_name"], env.params["file_name"], env.params["period"], storage)
  {
    var bucket :- Param(env, "bucket_name");
    var file :- Param(env, "file_name");
    var period :- Param(env, "period");
    if env.errors.Some? then Failure(ValidationException(env.errors.value))
    else Process(bucket, file, period, storage)
  }

  /** Lines 163-169: what the handler returns. */
  datatype Reply = Reply(success: bool, checkpoint: Option<int>, error: Option<string>)

  /**
   * The handler as written (lines 30-169): checkpoint 0 on success; otherwise
   * an error message that names the exception's class and ends with the
   * literal text "aws_request_id".
   */
  function LegacyHandlerAsWritten(env: Environment, storage: Storage): (reply: Reply)
    ensures reply.success <==>
      && env.errors.None? && ParamsPresent(env)
      && Process(env.params["bucket_name"], env.params["file_name"], env.params["period"], storage).Success?
    ensures reply.success ==> reply.checkpoint == Some(0) && reply.error.None?
    ensures !reply.success ==>
      && reply.checkpoint.None?
      && reply.error == Some(ErrorMessage(RunAsWritten(env, storage).error, RequestIdLiteral))
      && Classify(reply.error.value) == Some(KindOf(RunAsWritten(env, storage).error.kind))
  {
    match RunAsWritten(env, storage)
    case Success(_) => Reply(true, Some(0), None)
    case Failure(e) =>
      RequestIdIgnored(e, RequestIdLiteral);
      ClassifyMessage(e, RequestIdLiteral);
      Reply(false, None, Some(ErrorMessageAsWritten(e)))
  }

  /**
   * As written, an absent parameter is reported as a KeyError on its name,
   * whatever the schema reported.
   */
  lemma MissingParamIsKeyError(env: Environment, storage: Storage)
    requires !ParamsPresent(env)
    ensures !LegacyHandlerAsWritten(env, storage).success
    ensures LegacyHandlerAsWritten(env, storage).error == Some(ErrorMessage(KeyException(FirstMissing(env)), RequestIdLiteral))
    ensures Classify(LegacyHandlerAsWritten(env, storage).error.value) == Some(KeyKind)
  {
  }

  /** With every parameter present, schema errors surface as the parameter validation message (line 68). */
  lemma SchemaErrorIsValidationError(env: Environment, storage: Storage)
    requires ParamsPresent(env) && env.errors.Some?
    ensures LegacyHandlerAsWritten(env, storage).error == Some(ErrorMessage(ValidationException(env.errors.value), RequestIdLiteral))
    ensures Classify(LegacyHandlerAsWritten(env, storage).error.value) == Some(ValueKind)
  {
  }

  /**
   * The handler as evidently intended: the same outcome, with the message
   * ending in the invocation's request id.
   */
  function LegacyHandler(env: Environment, storage: Storage, requestId: string): (reply: Reply)
    ensures reply.success <==> RunAsWritten(env, storage).Success?
    ensures reply.success ==> reply.checkpoint == Some(0) && reply.error.None?
    ensures !reply.success ==>
      && reply.checkpoint.None?
      && reply.error == Some(ErrorMessage(RunAsWritten(env, storage).error, requestId))
      && Classify(reply.error.value) == Some(KindOf(RunAsWritten(env, storage).error.kind))
  {
    match RunAsWritten(env, storage)
    case Success(_) => Reply(true, Some(0), None)
    case Failure(e) =>
      ClassifyMessage(e, requestId);
      Reply(false, None, Some(ErrorMessage(e, requestId)))
  }

  /**
   * The two handlers agree exactly on the literal id: a failing handler as
   * written reports the invocation's request id for no invocation whose id
   * is anything else.
   */
  lemma HandlerReportsRequestId(env: Environment, storage: Storage, requestId: string)
    ensures LegacyHandlerAsWritten(env, storage) == LegacyHandler(env, storage, RequestIdLiteral)
    ensures RunAsWritten(env, storage).Failure? ==>
      (LegacyHandlerAsWritten(env, storage) == LegacyHandler(env, storage, requestId) <==> requestId == RequestIdLiteral)
  {
    if RunAsWritten(env, storage).Failure? {
      ErrorMessageReportsRequestId(RunAsWritten(env, storage).error, RequestIdLiteral, requestId);
    }
  }
}
