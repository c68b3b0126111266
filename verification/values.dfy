/**
 * JSON scalar values as the handlers see them after deserialisation, the
 * records built from them, and the few Python builtins the handlers apply
 * to them: `str()`, `str.isnumeric()` and `int()`.
 */
module Values {
  import opened Results

  /** A JSON scalar: a number, a string or `null`. */
  datatype Value = Int(i: int) | Str(s: string) | Null

  /** A flat JSON object (a respondent record, a contributor node, an output row). */
  type Record = map<string, Value>

  /** The exceptions the transformations can raise. */
  datatype Error =
    | KeyError(key: string)          // a dictionary lookup of an absent key
    | AttributeError(field: string)  // `.isnumeric()` called on a value that is not a string

  /**
   * The dictionary a method handler returns: `{"success": True, "data": ...}`
   * or `{"success": False, "error": ...}`. The JSON serialisation of the data
   * and the formatting of the error message are not modelled.
   */
  datatype MethodReply = MethodReply(success: bool, data: Option<seq<Record>>, error: Option<Error>)

  /** The reply of a method handler whose transformation produced `res`. */
  function ReplyOf(res: Result<seq<Record>, Error>): (reply: MethodReply)
    ensures reply.success <==> res.Success?
    ensures reply.success ==> reply.data == Some(res.value) && reply.error == None
    ensures !reply.success ==> reply.data == None && reply.error == Some(res.error)
  {
    match res
    case Success(rows) => MethodReply(true, Some(rows), None)
    case Failure(e) => MethodReply(false, None, Some(e))
  }

  predicate IsDigit(c: char) {
    '0' <= c <= '9'
  }

  predicate AllDigits(s: string) {
    forall k :: 0 <= k < |s| ==> IsDigit(s[k])
  }

  /** `str.isnumeric()`, restricted to the ASCII decimal digits. */
  predicate IsNumeric(s: string) {
    |s| > 0 && AllDigits(s)
  }


  function DigitChar(d: nat): (c: char)
    requires d < 10
    ensures IsDigit(c) && c as int - '0' as int == d
  {
    ('0' as int + d) as char
  }

  function DigitValue(c: char): (d: nat)
    requires IsDigit(c)
    ensures d < 10
  {
    c as int - '0' as int
  }

  /** The decimal rendering of a natural number, most significant digit first. */
  function NatToDecimal(n: nat): (s: string)
    ensures IsNumeric(s)
    ensures s[0] == '0' ==> n == 0
    decreases n
  {
    if n < 10 then [DigitChar(n)] else NatToDecimal(n / 10) + [DigitChar(n % 10)]
  }

  /** Python's `str()` of an integer. */
  function IntToDecimal(i: int): string {
    if i < 0 then "-" + NatToDecimal(-i) else NatToDecimal(i)
  }

  /**
   * Python's `int()` of a string of decimal digits (leading zeros allowed):
   * a numeral that does not start with 0 reads as at least 1, and as at
   * least 10 when it has more than one digit.
   */
  function ParseDecimal(s: string): (n: nat)
    requires AllDigits(s)
    ensures s != [] && s[0] != '0' ==> n >= 1
    ensures |s| > 1 && s[0] != '0' ==> n >= 10
    decreases |s|
  {
    if s == [] then 0
    else
      var prefix := s[..|s| - 1];
      assert |prefix| > 0 ==> prefix[0] == s[0];
      ParseDecimal(prefix) * 10 + DigitValue(s[|s| - 1])
  }

  /**
   * Python's `str()` of a JSON scalar: a string is itself, `null` is "None",
   * and an integer renders as its decimal digits, led by a minus sign
   * exactly when it is negative.
   */
  function Render(v: Value): (s: string)
    ensures v.Str? ==> s == v.s
    ensures v.Null? ==> s == "None"
    ensures v.Int? ==> |s| > 0 && (s[0] == '-' <==> v.i < 0)
  {
    match v
    case Int(i) => IntToDecimal(i)
    case Str(s) => s
    case Null => "None"
  }

  /**
   * Python's `v in d` for a dictionary with string keys: only a string can be
   * one of its keys (the number 66 is not the key "066").
   */
  predicate IsKeyOf<X>(v: Value, d: map<string, X>) {
    v.Str? && v.s in d
  }

  /** `int()` undoes `str()` on every natural number. */
  lemma {:induction false} ParseRender(n: nat)
    ensures ParseDecimal(NatToDecimal(n)) == n
    decreases n
  {
    if n >= 10 {
      var prefix := NatToDecimal(n / 10);
      var s := prefix + [DigitChar(n % 10)];
      assert s[..|s| - 1] == prefix;
      ParseRender(n / 10);
    }
  }

  /**
   * `str()` undoes `int()` on every numeral without a leading zero (and on
   * "0"), so the two are inverse on canonical numerals.
   */
  lemma {:induction false} RenderParse(s: string)
    requires IsNumeric(s) && (s[0] != '0' || |s| == 1)
    ensures NatToDecimal(ParseDecimal(s)) == s
    decreases |s|
  {
    var n := ParseDecimal(s);
    if |s| > 1 {
      var prefix := s[..|s| - 1];
      assert prefix[0] == s[0];
      assert |prefix| >= 1 && AllDigits(prefix);
      RenderParse(prefix);
      assert n / 10 == ParseDecimal(prefix) && n % 10 == DigitValue(s[|s| - 1]);
      assert s == prefix + [s[|s| - 1]];
    }
  }

  /** Distinct integers render as distinct strings. */
  lemma RenderIntInjective(a: int, b: int)
    ensures Render(Int(a)) == Render(Int(b)) ==> a == b
  {
    var ra, rb := Render(Int(a)), Render(Int(b));
    if ra == rb {
      if a < 0 && b < 0 {
        NegativeDigits(a);
        NegativeDigits(b);
        ParseRender(-a);
        ParseRender(-b);
      } else if a >= 0 && b >= 0 {
        ParseRender(a);
        ParseRender(b);
      }
    }
  }

  /** After its minus sign, a negative integer renders as the digits of its magnitude. */
  lemma NegativeDigits(a: int)
    requires a < 0
    ensures Render(Int(a))[1..] == NatToDecimal(-a)
  {
    assert ("-" + NatToDecimal(-a))[1..] == NatToDecimal(-a);
  }
}
