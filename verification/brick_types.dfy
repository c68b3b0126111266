/**
 * Brick-type expansion (the method handler of the brick-type ingest). Every
 * respondent record is widened to one column per configured question of
 * every listed brick type: the columns of the respondent's own brick type
 * receive its answers, those of every other type are zero-filled, and the
 * shared answer keys of its own type are then dropped.
 *
 * The model follows the Python loop step by step, including its sequential
 * reads: the brick-type column is read afresh for every listed type and a
 * copy reads the answer key's current value. The clean properties are the
 * lemmas at the end; the ones about values require that the configuration
 * does not write the brick-type column or the respondent's own answer keys
 * (`Separated`), which is what a configuration is meant to look like.
 */
module BrickTypes {
  import opened Results
  import opened Values

  /** One entry of a brick type's question map: the answer key and the column it fills. */
  datatype Question = Question(source: string, column: string)

  /** A brick type's question map, in the dictionary's iteration order. */
  type QuestionMap = seq<Question>

  /** The runtime variables of the expansion. */
  datatype Config = Config(
    brickTypes: seq<int>,                      // brick_types, in order
    brickQuestions: map<string, QuestionMap>,  // brick_questions, keyed by str(type)
    brickTypeColumn: string)                   // brick_type_column

  function Sources(qs: QuestionMap): set<string> {
    set q | q in qs :: q.source
  }

  function Columns(qs: QuestionMap): set<string> {
    set q | q in qs :: q.column
  }

  lemma SplitQuestions(qs: QuestionMap)
    requires qs != []
    ensures Columns(qs) == {qs[0].column} + Columns(qs[1..])
    ensures Sources(qs) == {qs[0].source} + Sources(qs[1..])
  {
    assert forall q :: q in qs <==> q == qs[0] || q in qs[1..];
  }

  /** `str(this_type)`: the key of a brick type in `brick_questions`. */
  function TypeKey(t: int): string {
    IntToDecimal(t)
  }

  /** The columns brick type `t` fills (none when it has no entry). */
  function TypeColumns(bq: map<string, QuestionMap>, t: int): set<string> {
    if TypeKey(t) in bq then Columns(bq[TypeKey(t)]) else {}
  }

  /** Every column that some brick type of `types` fills. */
  function ListedColumns(bq: map<string, QuestionMap>, types: seq<int>): (cs: set<string>)
    ensures forall k :: k in cs <==> exists j :: 0 <= j < |types| && k in TypeColumns(bq, types[j])
    decreases |types|
  {
    if types == [] then {}
    else
      var rest := ListedColumns(bq, types[1..]);
      assert forall k :: k in rest <==> exists j :: 1 <= j < |types| && k in TypeColumns(bq, types[j]) by {
        forall k | k in rest ensures exists j :: 1 <= j < |types| && k in TypeColumns(bq, types[j]) {
          var j :| 0 <= j < |types[1..]| && k in TypeColumns(bq, types[1..][j]);
          assert types[1..][j] == types[j + 1];
        }
        forall k | exists j :: 1 <= j < |types| && k in TypeColumns(bq, types[j]) ensures k in rest {
          var j :| 1 <= j < |types| && k in TypeColumns(bq, types[j]);
          assert types[1..][j - 1] == types[j];
        }
      }
      TypeColumns(bq, types[0]) + rest
  }

  /** The answer key of the last question of `qs` that fills `column`. */
  function LastSource(qs: QuestionMap, column: string): (s: string)
    requires column in Columns(qs)
    ensures Question(s, column) in qs
    decreases |qs|
  {
    SplitQuestions(qs);
    if qs[0].column == column && column !in Columns(qs[1..]) then qs[0].source
    else LastSource(qs[1..], column)
  }

  /** Lines 59-60: every column of `qs` is set to 0. */
  function ZeroFill(r: Record, qs: QuestionMap): (r': Record)
    ensures r'.Keys == r.Keys + Columns(qs)
    ensures forall k :: k in r' ==> r'[k] == if k in Columns(qs) then Int(0) else r[k]
    decreases |qs|
  {
    if qs == [] then r
    else
      SplitQuestions(qs);
      ZeroFill(r[qs[0].column := Int(0)], qs[1..])
  }

  /**
   * Lines 64-66: every column of `qs`, in order, receives the current value
   * of its answer key; an absent answer key raises KeyError.
   */
  function CopyAnswers(r: Record, qs: QuestionMap): (res: Result<Record, Error>)
    ensures res.Success? ==> res.value.Keys == r.Keys + Columns(qs)
    ensures res.Success? ==> forall k :: k in r && k !in Columns(qs) ==> res.value[k] == r[k]
    ensures res.Failure? ==> res.error.KeyError? && res.error.key in Sources(qs) && res.error.key !in r
    ensures Sources(qs) !! Columns(qs) ==> (res.Success? <==> Sources(qs) <= r.Keys)
    ensures Sources(qs) !! Columns(qs) && res.Success? ==>
      forall k :: k in Columns(qs) ==> LastSource(qs, k) in r && res.value[k] == r[LastSource(qs, k)]
    decreases |qs|
  {
    if qs == [] then Success(r)
    else
      SplitQuestions(qs);
      if qs[0].source !in r then Failure(KeyError(qs[0].source))
      else CopyAnswers(r[qs[0].column := r[qs[0].source]], qs[1..])
  }

  /**
   * Lines 55-66: the loop over the listed brick types. For each one the
   * brick-type column is read; a type other than the respondent's is
   * zero-filled, the respondent's own type is copied.
   */
  function ExpandTypes(r: Record, col: string, bq: map<string, QuestionMap>, types: seq<int>)
    : (res: Result<Record, Error>)
    ensures res.Success? && types != [] ==> col in r
    ensures res.Success? ==> res.value.Keys == r.Keys + ListedColumns(bq, types)
    ensures res.Success? ==>
      forall k :: k in r && k !in ListedColumns(bq, types) ==> res.value[k] == r[k]
    decreases |types|
  {
    if types == [] then Success(r)
    else if col !in r then Failure(KeyError(col))
    else if TypeKey(types[0]) !in bq then Failure(KeyError(TypeKey(types[0])))
    else
      var qs := bq[TypeKey(types[0])];
      var next :- if r[col] != Int(types[0]) then Success(ZeroFill(r, qs)) else CopyAnswers(r, qs);
      ExpandTypes(next, col, bq, types[1..])
  }

  /** `str(respondent[brick_type_column])`: the key of the respondent's own type. */
  function OwnKey(r: Record, cfg: Config): string
    requires cfg.brickTypeColumn in r
  {
    Render(r[cfg.brickTypeColumn])
  }

  /** The answer keys of the respondent's own brick type. */
  function OwnSources(r: Record, cfg: Config): set<string>
    requires cfg.brickTypeColumn in r && OwnKey(r, cfg) in cfg.brickQuestions
  {
    Sources(cfg.brickQuestions[OwnKey(r, cfg)])
  }

  /**
   * Lines 54-70 for one respondent: the type loop, then the removal of the
   * answer keys of the type the brick-type column names after the loop.
   */
  function ExpandRespondent(r: Record, cfg: Config): (res: Result<Record, Error>)
    ensures res.Success? ==> cfg.brickTypeColumn in r
  {
    var r1 :- ExpandTypes(r, cfg.brickTypeColumn, cfg.brickQuestions, cfg.brickTypes);
    if cfg.brickTypeColumn !in r1 then Failure(KeyError(cfg.brickTypeColumn))
    else
      var own := OwnKey(r1, cfg);
      if own !in cfg.brickQuestions then Failure(KeyError(own))
      else Success(r1 - Sources(cfg.brickQuestions[own]))
  }

  /**
   * Lines 54-73: every respondent in order; the first exception aborts the
   * whole batch.
   */
  function Expand(records: seq<Record>, cfg: Config): (res: Result<seq<Record>, Error>)
    ensures res.Success? <==> forall i :: 0 <= i < |records| ==> ExpandRespondent(records[i], cfg).Success?
    ensures res.Success? ==>
      && |res.value| == |records|
      && forall i :: 0 <= i < |records| ==> ExpandRespondent(records[i], cfg) == Success(res.value[i])
    ensures res.Failure? ==>
      exists i :: 0 <= i < |records| && ExpandRespondent(records[i], cfg) == Failure(res.error)
        && forall j :: 0 <= j < i ==> ExpandRespondent(records[j], cfg).Success?
    decreases |records|
  {
    if records == [] then Success([])
    else
      var head :- ExpandRespondent(records[0], cfg);
      var tail :- Expand(records[1..], cfg);
      Success([head] + tail)
  }

  /** The brick-type method handler (lines 23-85), after schema validation. */
  function BrickTypeMethod(records: seq<Record>, cfg: Config): (reply: MethodReply)
    ensures reply.success <==> forall i :: 0 <= i < |records| ==> ExpandRespondent(records[i], cfg).Success?
    ensures reply.success ==>
      && reply.error == None && reply.data.Some? && |reply.data.value| == |records|
      && forall i :: 0 <= i < |records| ==> ExpandRespondent(records[i], cfg) == Success(reply.data.value[i])
    ensures !reply.success ==>
      reply.data == None && reply.error.Some?
      && exists i :: 0 <= i < |records| && ExpandRespondent(records[i], cfg) == Failure(reply.error.value)
  {
    ReplyOf(Expand(records, cfg))
  }

  // ---------------------------------------------------------------------
  // Properties of the expansion
  // ---------------------------------------------------------------------

  /**
   * The configuration writes neither the brick-type column nor an answer key
   * of the respondent's own type, so every read of the loop sees the
   * respondent's original values.
   */
  predicate Separated(r: Record, cfg: Config) {
    var listed := ListedColumns(cfg.brickQuestions, cfg.brickTypes);
    && cfg.brickTypeColumn !in listed
    && (cfg.brickTypeColumn in r && OwnKey(r, cfg) in cfg.brickQuestions ==> OwnSources(r, cfg) !! listed)
  }

  /** What the source needs of a respondent for its expansion not to raise. */
  predicate Expandable(r: Record, cfg: Config) {
    var types := cfg.brickTypes;
    var bq := cfg.brickQuestions;
    && cfg.brickTypeColumn in r
    && (forall i :: 0 <= i < |types| ==> TypeKey(types[i]) in bq)
    && OwnKey(r, cfg) in bq
    && (forall i :: 0 <= i < |types| && r[cfg.brickTypeColumn] == Int(types[i]) ==>
          Sources(bq[TypeKey(types[i])]) <= r.Keys)
  }


  /** Every brick type of `types` has an entry in `brick_questions`. */
  predicate AllMapped(bq: map<string, QuestionMap>, types: seq<int>) {
    forall i :: 0 <= i < |types| ==> TypeKey(types[i]) in bq
  }

  /** When the respondent's type (the value `v`) is listed, all its answer keys are in `r`. */
  predicate OwnAnswered(r: Record, v: Value, bq: map<string, QuestionMap>, types: seq<int>) {
    forall i :: 0 <= i < |types| && v == Int(types[i]) && TypeKey(types[i]) in bq ==>
      Sources(bq[TypeKey(types[i])]) <= r.Keys
  }

  lemma SplitTypes(r: Record, v: Value, bq: map<string, QuestionMap>, types: seq<int>)
    requires types != []
    ensures AllMapped(bq, types) <==> TypeKey(types[0]) in bq && AllMapped(bq, types[1..])
    ensures OwnAnswered(r, v, bq, types) <==>
      && (v == Int(types[0]) && TypeKey(types[0]) in bq ==> Sources(bq[TypeKey(types[0])]) <= r.Keys)
      && OwnAnswered(r, v, bq, types[1..])
  {
    assert forall i :: 1 <= i < |types| ==> types[i] == types[1..][i - 1];
  }

  lemma {:induction false} ExpandTypesSucceedsIff(r: Record, col: string, bq: map<string, QuestionMap>, types: seq<int>)
    requires col in r && col !in ListedColumns(bq, types)
    requires Render(r[col]) in bq ==> Sources(bq[Render(r[col])]) !! ListedColumns(bq, types)
    ensures ExpandTypes(r, col, bq, types).Success? <==> AllMapped(bq, types) && OwnAnswered(r, r[col], bq, types)
    decreases |types|
  {
    if types != [] {
      SplitTypes(r, r[col], bq, types);
      if TypeKey(types[0]) in bq {
        var t, rest := types[0], types[1..];
        var qs := bq[TypeKey(t)];
        assert TypeColumns(bq, t) == Columns(qs);
        assert ListedColumns(bq, types) == Columns(qs) + ListedColumns(bq, rest);
        var step := if r[col] != Int(t) then Success(ZeroFill(r, qs)) else CopyAnswers(r, qs);
        if r[col] == Int(t) {
          assert TypeKey(t) == Render(r[col]);
          assert step.Success? <==> Sources(qs) <= r.Keys;
        }
        if step.Success? {
          var r1 := step.value;
          assert r1[col] == r[col];
          ExpandTypesSucceedsIff(r1, col, bq, rest);
          SplitTypes(r1, r[col], bq, types);
          assert OwnAnswered(r1, r[col], bq, rest) <==> OwnAnswered(r, r[col], bq, rest) by {
            forall i | 0 <= i < |rest| && r[col] == Int(rest[i]) && TypeKey(rest[i]) in bq
              ensures Sources(bq[TypeKey(rest[i])]) <= r1.Keys <==> Sources(bq[TypeKey(rest[i])]) <= r.Keys
            {
              assert TypeKey(rest[i]) == Render(r[col]);
            }
          }
        }
      }
    }
  }

  /**
   * A respondent expands without raising exactly when it has the brick-type
   * column, every listed type and its own type have an entry in
   * `brick_questions`, and, when its own type is listed, every answer key of
   * that type is present (lines 58-69).
   */
  lemma ExpandSucceedsIff(r: Record, cfg: Config)
    requires Separated(r, cfg)
    ensures ExpandRespondent(r, cfg).Success? <==> Expandable(r, cfg)
  {
    var col, bq, types := cfg.brickTypeColumn, cfg.brickQuestions, cfg.brickTypes;
    if col in r {
      ExpandTypesSucceedsIff(r, col, bq, types);
      var res := ExpandTypes(r, col, bq, types);
      if res.Success? {
        assert res.value[col] == r[col];
      }
    }
  }

  /** Lines 58 and 69 read the brick-type column; a listed type with no entry raises (line 59). */
  lemma {:induction false} ExpandTypesFailures(r: Record, col: string, bq: map<string, QuestionMap>, types: seq<int>)
    ensures types != [] && col !in r ==> ExpandTypes(r, col, bq, types) == Failure(KeyError(col))
    ensures (exists i :: 0 <= i < |types| && TypeKey(types[i]) !in bq) ==> ExpandTypes(r, col, bq, types).Failure?
    decreases |types|
  {
    if types != [] && col in r && TypeKey(types[0]) in bq {
      var qs := bq[TypeKey(types[0])];
      var step := if r[col] != Int(types[0]) then Success(ZeroFill(r, qs)) else CopyAnswers(r, qs);
      if step.Success? {
        ExpandTypesFailures(step.value, col, bq, types[1..]);
        if exists i :: 0 <= i < |types| && TypeKey(types[i]) !in bq {
          var i :| 0 <= i < |types| && TypeKey(types[i]) !in bq;
          assert types[1..][i - 1] == types[i];
        }
      }
    }
  }

  /**
   * A respondent without the brick-type column, or a listed type with no
   * entry in `brick_questions`, makes the expansion raise, whatever the rest
   * of the configuration (lines 58-59, 69).
   */
  lemma ExpandFailures(r: Record, cfg: Config)
    ensures cfg.brickTypeColumn !in r ==> ExpandRespondent(r, cfg) == Failure(KeyError(cfg.brickTypeColumn))
    ensures (exists i :: 0 <= i < |cfg.brickTypes| && TypeKey(cfg.brickTypes[i]) !in cfg.brickQuestions) ==>
      ExpandRespondent(r, cfg).Failure?
  {
    ExpandTypesFailures(r, cfg.brickTypeColumn, cfg.brickQuestions, cfg.brickTypes);
  }

  /**
   * The key set after expansion: the original keys and every listed column,
   * less the answer keys of the respondent's own type; every other key keeps
   * its value (lines 54-70). Holds whenever no listed column is the
   * brick-type column, so that the own type read on line 69 is the original.
   */
  lemma ExpandedKeys(r: Record, cfg: Config, r': Record)
    requires ExpandRespondent(r, cfg) == Success(r')
    requires cfg.brickTypeColumn !in ListedColumns(cfg.brickQuestions, cfg.brickTypes)
    ensures cfg.brickTypeColumn in r && OwnKey(r, cfg) in cfg.brickQuestions
    ensures r'.Keys == (r.Keys + ListedColumns(cfg.brickQuestions, cfg.brickTypes)) - OwnSources(r, cfg)
    ensures forall k :: k in OwnSources(r, cfg) ==> k !in r'
    ensures forall k :: k in r && k !in ListedColumns(cfg.brickQuestions, cfg.brickTypes) && k !in OwnSources(r, cfg) ==>
      k in r' && r'[k] == r[k]
  {
    var r1 := ExpandTypes(r, cfg.brickTypeColumn, cfg.brickQuestions, cfg.brickTypes).value;
    assert r1[cfg.brickTypeColumn] == r[cfg.brickTypeColumn];
  }

  /**
   * For a respondent whose brick type is a number, line 69 removes the answer
   * keys of exactly the listed type that line 58 matched: distinct types have
   * distinct `str()` keys.
   */
  lemma OwnKeyMatchesListedType(r: Record, cfg: Config, i: int)
    requires cfg.brickTypeColumn in r && r[cfg.brickTypeColumn].Int?
    requires 0 <= i < |cfg.brickTypes|
    ensures OwnKey(r, cfg) == TypeKey(cfg.brickTypes[i]) <==> r[cfg.brickTypeColumn] == Int(cfg.brickTypes[i])
  {
    RenderIntInjective(r[cfg.brickTypeColumn].i, cfg.brickTypes[i]);
  }

  lemma TailIndex(types: seq<int>, j: int)
    requires 0 <= j < |types| - 1
    ensures types[1..][j] == types[j + 1]
  {
  }

  /** One turn of the type loop, and the rest of the loop after it. */
  lemma ExpandTypesHead(r: Record, col: string, bq: map<string, QuestionMap>, types: seq<int>, r': Record)
    returns (r1: Record)
    requires ExpandTypes(r, col, bq, types) == Success(r') && types != []
    ensures col in r && TypeKey(types[0]) in bq && col in r1
    ensures ExpandTypes(r1, col, bq, types[1..]) == Success(r')
    ensures r[col] != Int(types[0]) ==> r1 == ZeroFill(r, bq[TypeKey(types[0])])
    ensures r[col] == Int(types[0]) ==> CopyAnswers(r, bq[TypeKey(types[0])]) == Success(r1)
  {
    var qs := bq[TypeKey(types[0])];
    r1 := (if r[col] != Int(types[0]) then Success(ZeroFill(r, qs)) else CopyAnswers(r, qs)).value;
  }

  /** What a turn leaves alone: every key outside the columns of its type. */
  lemma ExpandTypesHeadFrame(r: Record, col: string, bq: map<string, QuestionMap>, types: seq<int>, r': Record)
    returns (r1: Record)
    requires ExpandTypes(r, col, bq, types) == Success(r') && types != []
    ensures col in r && col in r1
    ensures ExpandTypes(r1, col, bq, types[1..]) == Success(r')
    ensures ListedColumns(bq, types) == TypeColumns(bq, types[0]) + ListedColumns(bq, types[1..])
    ensures r1.Keys == r.Keys + TypeColumns(bq, types[0])
    ensures forall x :: x in r && x !in TypeColumns(bq, types[0]) ==> x in r1 && r1[x] == r[x]
  {
    r1 := ExpandTypesHead(r, col, bq, types, r');
  }

  /** The turn that writes `k` last: later turns leave `k` alone. */
  lemma ExpandTypesColumnHere(r: Record, col: string, bq: map<string, QuestionMap>, types: seq<int>,
                              r': Record, k: string)
    requires ExpandTypes(r, col, bq, types) == Success(r') && types != []
    requires col in r && col !in ListedColumns(bq, types)
    requires Render(r[col]) in bq ==> Sources(bq[Render(r[col])]) !! ListedColumns(bq, types)
    requires k in TypeColumns(bq, types[0])
    requires forall j :: 0 < j < |types| ==> k !in TypeColumns(bq, types[j])
    ensures k in r'
    ensures r[col] == Int(types[0]) ==>
      LastSource(bq[TypeKey(types[0])], k) in r && r'[k] == r[LastSource(bq[TypeKey(types[0])], k)]
    ensures r[col] != Int(types[0]) ==> r'[k] == Int(0)
  {
    var r1 := ExpandTypesHead(r, col, bq, types, r');
    var rest := types[1..];
    assert k !in ListedColumns(bq, rest) by {
      forall j | 0 <= j < |rest| ensures k !in TypeColumns(bq, rest[j]) {
        assert rest[j] == types[j + 1];
      }
    }
    if r[col] == Int(types[0]) {
      assert TypeKey(types[0]) == Render(r[col]);
    } else {
      assert r1[k] == Int(0);
    }
  }

  /** An answer key of the respondent's own type is not a listed column, so a turn leaves it alone. */
  lemma OwnSourceUntouched(r: Record, col: string, bq: map<string, QuestionMap>, types: seq<int>,
                           r1: Record, i: int, k: string)
    requires col in r && 0 <= i < |types| && r[col] == Int(types[i])
    requires Render(r[col]) in bq ==> Sources(bq[Render(r[col])]) !! ListedColumns(bq, types)
    requires k in TypeColumns(bq, types[i])
    requires LastSource(bq[TypeKey(types[i])], k) in r1
    requires r1.Keys == r.Keys + TypeColumns(bq, types[0])
    requires forall x :: x in r && x !in TypeColumns(bq, types[0]) ==> x in r1 && r1[x] == r[x]
    ensures LastSource(bq[TypeKey(types[i])], k) in r
    ensures r1[LastSource(bq[TypeKey(types[i])], k)] == r[LastSource(bq[TypeKey(types[i])], k)]
  {
    assert TypeKey(types[i]) == Render(r[col]);
    var src := LastSource(bq[TypeKey(types[i])], k);
    assert src in Sources(bq[TypeKey(types[i])]);
    assert src !in TypeColumns(bq, types[0]);
  }

  lemma {:induction false} ExpandTypesColumn(r: Record, col: string, bq: map<string, QuestionMap>, types: seq<int>,
                                             r': Record, i: int, k: string)
    requires ExpandTypes(r, col, bq, types) == Success(r')
    requires col in r && col !in ListedColumns(bq, types)
    requires Render(r[col]) in bq ==> Sources(bq[Render(r[col])]) !! ListedColumns(bq, types)
    requires 0 <= i < |types| && k in TypeColumns(bq, types[i])
    requires forall j :: i < j < |types| ==> k !in TypeColumns(bq, types[j])
    ensures k in r'
    ensures r[col] == Int(types[i]) ==>
      LastSource(bq[TypeKey(types[i])], k) in r && r'[k] == r[LastSource(bq[TypeKey(types[i])], k)]
    ensures r[col] != Int(types[i]) ==> r'[k] == Int(0)
    decreases |types|
  {
    if i == 0 {
      ExpandTypesColumnHere(r, col, bq, types, r', k);
    } else {
      var r1 := ExpandTypesHeadFrame(r, col, bq, types, r');
      var rest := types[1..];
      assert col !in TypeColumns(bq, types[0]) && col !in ListedColumns(bq, rest);
      assert r1[col] == r[col];
      assert ListedColumns(bq, rest) <= ListedColumns(bq, types);
      TailIndex(types, i - 1);
      forall j | i - 1 < j < |rest| ensures k !in TypeColumns(bq, rest[j]) {
        TailIndex(types, j);
      }
      ExpandTypesColumn(r1, col, bq, rest, r', i - 1, k);
      if r[col] == Int(types[i]) {
        OwnSourceUntouched(r, col, bq, types, r1, i, k);
      } else {
        assert r1[col] != Int(rest[i - 1]);
      }
    }
  }

  /**
   * Last writer wins (lines 55-66): a listed column takes the value written
   * by the last listed type that configures it. That is the respondent's
   * answer (the last answer key configured for the column) when the type is
   * the respondent's own, and 0 otherwise.
   */
  lemma ExpandLastWriterWins(r: Record, cfg: Config, r': Record, i: int, k: string)
    requires ExpandRespondent(r, cfg) == Success(r')
    requires Separated(r, cfg)
    requires 0 <= i < |cfg.brickTypes| && k in TypeColumns(cfg.brickQuestions, cfg.brickTypes[i])
    requires forall j :: i < j < |cfg.brickTypes| ==> k !in TypeColumns(cfg.brickQuestions, cfg.brickTypes[j])
    ensures cfg.brickTypeColumn in r && k in r'
    ensures r[cfg.brickTypeColumn] == Int(cfg.brickTypes[i]) ==>
      var src := LastSource(cfg.brickQuestions[TypeKey(cfg.brickTypes[i])], k);
      src in r && r'[k] == r[src]
    ensures r[cfg.brickTypeColumn] != Int(cfg.brickTypes[i]) ==> r'[k] == Int(0)
  {
    var col, bq, types := cfg.brickTypeColumn, cfg.brickQuestions, cfg.brickTypes;
    ExpandedKeys(r, cfg, r');
    var r1 := ExpandTypes(r, col, bq, types).value;
    ExpandTypesColumn(r, col, bq, types, r1, i, k);
    assert k in ListedColumns(bq, types);
  }

  lemma {:induction false} ExpandTypesZeroOnly(r: Record, col: string, bq: map<string, QuestionMap>, types: seq<int>, r': Record)
    requires ExpandTypes(r, col, bq, types) == Success(r')
    requires col in r && col !in ListedColumns(bq, types)
    requires forall i :: 0 <= i < |types| ==> r[col] != Int(types[i])
    ensures forall k :: k in ListedColumns(bq, types) ==> r'[k] == Int(0)
    decreases |types|
  {
    if types != [] {
      var t, rest := types[0], types[1..];
      var qs := bq[TypeKey(t)];
      assert ListedColumns(bq, types) == Columns(qs) + ListedColumns(bq, rest);
      var r1 := ZeroFill(r, qs);
      assert ExpandTypes(r1, col, bq, rest) == Success(r');
      forall i | 0 <= i < |rest| ensures r1[col] != Int(rest[i]) {
        assert rest[i] == types[i + 1];
      }
      ExpandTypesZeroOnly(r1, col, bq, rest, r');
    }
  }

  /**
   * A respondent whose brick type is not listed (lines 55-60) receives only
   * zero-fills: every listed column that is not one of its own answer keys
   * is 0. Its own answer keys are still removed (`ExpandedKeys`).
   */
  lemma ExpandUnlistedTypeZeroFills(r: Record, cfg: Config, r': Record)
    requires ExpandRespondent(r, cfg) == Success(r')
    requires cfg.brickTypeColumn in r
    requires cfg.brickTypeColumn !in ListedColumns(cfg.brickQuestions, cfg.brickTypes)
    requires forall i :: 0 <= i < |cfg.brickTypes| ==> r[cfg.brickTypeColumn] != Int(cfg.brickTypes[i])
    ensures OwnKey(r, cfg) in cfg.brickQuestions
    ensures forall k :: k in ListedColumns(cfg.brickQuestions, cfg.brickTypes) && k !in OwnSources(r, cfg) ==>
      k in r' && r'[k] == Int(0)
  {
    ExpandedKeys(r, cfg, r');
    var r1 := ExpandTypes(r, cfg.brickTypeColumn, cfg.brickQuestions, cfg.brickTypes).value;
    ExpandTypesZeroOnly(r, cfg.brickTypeColumn, cfg.brickQuestions, cfg.brickTypes, r1);
  }

  /** The configuration of the worked example: type 2 shares `q1` with type 1 and adds `q2`. */
  function ExampleConfig(): Config {
    Config([1, 2],
           map["1" := [Question("q1", "col_a")],
               "2" := [Question("q1", "col_a"), Question("q2", "col_b")]],
           "brick_type")
  }

  lemma ExampleKeys()
    ensures TypeKey(1) == "1" && TypeKey(2) == "2"
    ensures Sources(ExampleConfig().brickQuestions["2"]) == {"q1", "q2"}
  {
    var qs := ExampleConfig().brickQuestions["2"];
    assert qs[1..] == [Question("q2", "col_b")] && qs[1..][1..] == [];
    SplitQuestions(qs);
    SplitQuestions(qs[1..]);
  }

  /** Both listed types are processed in order: type 1 first, then type 2. */
  lemma ExampleTypeLoop(r: Record, r1: Record, r2: Record)
    requires "brick_type" in r
    requires TypeKey(1) == "1" && TypeKey(2) == "2"
    requires ExpandTypes(r, "brick_type", ExampleConfig().brickQuestions, [1]) == Success(r1)
    requires ExpandTypes(r1, "brick_type", ExampleConfig().brickQuestions, [2]) == Success(r2)
    ensures ExpandTypes(r, "brick_type", ExampleConfig().brickQuestions, [1, 2]) == Success(r2)
  {
    var bq := ExampleConfig().brickQuestions;
    assert [1, 2][1..] == [2] && [1][1..] == [];
    var step := if r["brick_type"] != Int(1) then Success(ZeroFill(r, bq["1"])) else CopyAnswers(r, bq["1"]);
    assert ExpandTypes(r, "brick_type", bq, [1]) == ExpandTypes(step.value, "brick_type", bq, []);
  }

  lemma ExampleRespondent(r: Record, r2: Record, own: string)
    requires ExpandTypes(r, "brick_type", ExampleConfig().brickQuestions, [1, 2]) == Success(r2)
    requires "brick_type" in r2 && Render(r2["brick_type"]) == own && own in ExampleConfig().brickQuestions
    ensures ExpandRespondent(r, ExampleConfig()) == Success(r2 - Sources(ExampleConfig().brickQuestions[own]))
  {
  }

  /** One listed type whose entry is zero-filled. */
  lemma ZeroTurn(r: Record, col: string, bq: map<string, QuestionMap>, t: int, r1: Record)
    requires col in r && TypeKey(t) in bq && r[col] != Int(t) && ZeroFill(r, bq[TypeKey(t)]) == r1
    ensures ExpandTypes(r, col, bq, [t]) == Success(r1)
  {
    assert [t][1..] == [];
  }

  /** One listed type whose entry is copied. */
  lemma CopyTurn(r: Record, col: string, bq: map<string, QuestionMap>, t: int, r1: Record)
    requires col in r && TypeKey(t) in bq && r[col] == Int(t) && CopyAnswers(r, bq[TypeKey(t)]) == Success(r1)
    ensures ExpandTypes(r, col, bq, [t]) == Success(r1)
  {
    assert [t][1..] == [];
  }

  lemma ZeroFillOne(r: Record, q: Question)
    ensures ZeroFill(r, [q]) == r[q.column := Int(0)]
  {
    assert [q][1..] == [];
  }

  lemma ZeroFillTwo(r: Record, q1: Question, q2: Question)
    ensures ZeroFill(r, [q1, q2]) == r[q1.column := Int(0)][q2.column := Int(0)]
  {
    assert [q1, q2][1..] == [q2];
    ZeroFillOne(r[q1.column := Int(0)], q2);
  }

  lemma CopyAnswersTwo(r: Record, q1: Question, q2: Question)
    requires q1.source in r && q2.source in r && q2.source != q1.column
    ensures CopyAnswers(r, [q1, q2]) == Success(r[q1.column := r[q1.source]][q2.column := r[q2.source]])
  {
    var r1 := r[q1.column := r[q1.source]];
    assert [q1, q2][1..] == [q2] && [q2][1..] == [];
    assert CopyAnswers(r1, [q2]) == CopyAnswers(r1[q2.column := r1[q2.source]], []);
  }

  lemma ExampleDrop(t: Value, a: Value, b: Value)
    ensures map["brick_type" := t, "q1" := Int(5), "q2" := Int(7)]["col_a" := Int(0)]["col_a" := a]["col_b" := b]
            - {"q1", "q2"} == map["brick_type" := t, "col_a" := a, "col_b" := b]
  {
  }

  /**
   * Worked example: type 1 zero-fills `col_a`, then type 2 overwrites it with
   * the answer to `q1` and fills `col_b`; `q1` and `q2` are dropped and the
   * brick-type column stays.
   */
  lemma ExpandExample()
    ensures ExpandRespondent(map["brick_type" := Int(2), "q1" := Int(5), "q2" := Int(7)], ExampleConfig())
         == Success(map["brick_type" := Int(2), "col_a" := Int(5), "col_b" := Int(7)])
  {
    ExampleKeys();
    var bq := ExampleConfig().brickQuestions;
    var r := map["brick_type" := Int(2), "q1" := Int(5), "q2" := Int(7)];
    var r1 := r["col_a" := Int(0)];
    var r2 := r1["col_a" := Int(5)]["col_b" := Int(7)];
    ZeroFillOne(r, Question("q1", "col_a"));
    ZeroTurn(r, "brick_type", bq, 1, r1);
    CopyAnswersTwo(r1, Question("q1", "col_a"), Question("q2", "col_b"));
    CopyTurn(r1, "brick_type", bq, 2, r2);
    ExampleTypeLoop(r, r1, r2);
    ExampleRespondent(r, r2, "2");
    ExampleDrop(Int(2), Int(5), Int(7));
  }


  /**
   * A brick type held as the text "2" never equals the listed number 2
   * (line 58), so its own columns are zero-filled, yet its answer keys are
   * still removed because `str()` of the text is the key "2" (line 69):
   * the answers are lost.
   */
  lemma ExpandTextualTypeLosesAnswers()
    ensures ExpandRespondent(map["brick_type" := Str("2"), "q1" := Int(5), "q2" := Int(7)], ExampleConfig())
         == Success(map["brick_type" := Str("2"), "col_a" := Int(0), "col_b" := Int(0)])
  {
    ExampleKeys();
    var bq := ExampleConfig().brickQuestions;
    var r := map["brick_type" := Str("2"), "q1" := Int(5), "q2" := Int(7)];
    var r1 := r["col_a" := Int(0)];
    var r2 := r1["col_a" := Int(0)]["col_b" := Int(0)];
    ZeroFillOne(r, Question("q1", "col_a"));
    ZeroTurn(r, "brick_type", bq, 1, r1);
    ZeroFillTwo(r1, Question("q1", "col_a"), Question("q2", "col_b"));
    ZeroTurn(r1, "brick_type", bq, 2, r2);
    ExampleTypeLoop(r, r1, r2);
    ExampleRespondent(r, r2, "2");
    ExampleDrop(Str("2"), Int(0), Int(0));
  }

}
