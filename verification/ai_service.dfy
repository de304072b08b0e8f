/** The food-image analysis service: upload validation, the lenient JSON
    extraction applied to the vision model's reply, and the defaulting that
    shapes every successful answer. */
module AiService {
  import opened Common
  import opened Json
  import opened Strings

  const AllowedTypes: set<string> := {"image/jpeg", "image/jpg", "image/png", "image/webp", "image/heic"}

  /** 10 MiB. */
  const MaxImageBytes: nat := 10 * 1024 * 1024

  /** `json.loads`: `None` is a `JSONDecodeError`. */
  type JsonParser = string -> Option<Json>

  /** Positions `i` and `j` hold the first `{` and the last `}` of `text`,
      the `{` coming first. */
  predicate OuterBraces(text: string, i: int, j: int)
  {
    && 0 <= i < j < |text|
    && text[i] == '{' && text[j] == '}'
    && '{' !in text[..i] && '}' !in text[j + 1..]
  }

  /** The match of `re.search(r"\{[\s\S]*\}", text)`: the greedy span from
      the first `{` to the last `}`, when some `}` follows some `{`. */
  function BraceSpan(text: string): (r: Option<string>)
    ensures r.Some? <==> exists i, j :: 0 <= i < j < |text| && text[i] == '{' && text[j] == '}'
    ensures r.Some? ==> exists i, j :: OuterBraces(text, i, j) && r.value == text[i..j + 1]
    ensures forall i, j :: OuterBraces(text, i, j) ==> r == Some(text[i..j + 1])
  {
    BracePairsBound(text);
    OuterBracesUnique(text);
    var i := FirstIndex(text, '{');
    var j := LastIndex(text, '}');
    if i.Some? && j.Some? && i.value < j.value then
      assert OuterBraces(text, i.value, j.value);
      Some(text[i.value..j.value + 1])
    else None
  }

  /** Only the first `{` and the last `}` satisfy `OuterBraces`. */
  lemma OuterBracesUnique(text: string)
    ensures forall i, j :: OuterBraces(text, i, j) ==>
              FirstIndex(text, '{') == Some(i) && LastIndex(text, '}') == Some(j)
  {
    forall i, j | OuterBraces(text, i, j)
      ensures FirstIndex(text, '{') == Some(i) && LastIndex(text, '}') == Some(j)
    {
      assert text[i] in text && text[j] in text;
    }
  }

  /** Every `{` lies at or after the first one and every `}` at or before
      the last one. */
  lemma BracePairsBound(text: string)
    ensures forall a, b :: 0 <= a < b < |text| && text[a] == '{' && text[b] == '}' ==>
              && FirstIndex(text, '{').Some? && FirstIndex(text, '{').value <= a
              && LastIndex(text, '}').Some? && b <= LastIndex(text, '}').value
  {
    forall a, b | 0 <= a < b < |text| && text[a] == '{' && text[b] == '}'
      ensures && FirstIndex(text, '{').Some? && FirstIndex(text, '{').value <= a
              && LastIndex(text, '}').Some? && b <= LastIndex(text, '}').value
    {
      assert text[a] in text && text[b] in text;
    }
  }

  /** Prose around a JSON object is cut away: with no `{` before the
      object and no `}` after it, the span is exactly the object. */
  lemma ProseAroundObject(pre: string, body: string, post: string)
    requires '{' !in pre && '}' !in post
    requires |body| >= 2 && body[0] == '{' && body[|body| - 1] == '}'
    ensures BraceSpan(pre + body + post) == Some(body)
  {
    var text := pre + body + post;
    var i := FirstIndex(text, '{');
    var j := LastIndex(text, '}');
    assert text[|pre|] == '{';
    assert text[|pre| + |body| - 1] == '}';
    assert i == Some(|pre|) by {
      assert forall k :: 0 <= k < |pre| ==> text[k] == pre[k];
    }
    assert j == Some(|pre| + |body| - 1) by {
      assert forall k :: |pre| + |body| <= k < |text| ==> text[k] == post[k - |pre| - |body|];
    }
    assert text[|pre|..|pre| + |body|] == body;
  }

  /** The outcome of `_extract_json`: a parsed value, or the `ValueError`
      raised when neither attempt parses. */
  datatype Extracted = Parsed(value: Json) | NotJson

  /** `_extract_json`: the whole text if it parses, else the stretch from
      its first `{` to its last `}` if that parses. */
  function ExtractJson(text: string, parse: JsonParser): (r: Extracted)
    ensures parse(text).Some? ==> r == Parsed(parse(text).value)
    ensures r.Parsed? && parse(text).None? ==>
              exists i, j :: OuterBraces(text, i, j) && parse(text[i..j + 1]) == Some(r.value)
    ensures r.NotJson? <==>
              parse(text).None? && forall i, j :: OuterBraces(text, i, j) ==> parse(text[i..j + 1]).None?
  {
    if parse(text).Some? then Parsed(parse(text).value)
    else
      match BraceSpan(text)
      case None => NotJson
      case Some(span) => if parse(span).Some? then Parsed(parse(span).value) else NotJson
  }

  /** A model reply wrapped in prose or a code fence yields the object it
      contains. */
  lemma ExtractFromProse(pre: string, body: string, post: string, parse: JsonParser)
    requires '{' !in pre && '}' !in post
    requires |body| >= 2 && body[0] == '{' && body[|body| - 1] == '}'
    requires parse(pre + body + post).None? && parse(body).Some?
    ensures ExtractJson(pre + body + post, parse) == Parsed(parse(body).value)
  {
    ProseAroundObject(pre, body, post);
  }

  /** `FALLBACK_RESULT` */
  const FallbackResult: Json := JObj(map[
    "food" := JStr("Unknown Food"),
    "calories" := JNum(250.0),
    "protein" := JNum(10.0),
    "carbs" := JNum(30.0),
    "fat" := JNum(8.0),
    "confidence" := JStr("low"),
    "details" := JStr("AI analysis unavailable — showing rough estimate.")])

  /** How the vision call went: no API key configured, an exception
      anywhere in the call or in reading its reply, or the reply text. */
  datatype GroqOutcome = KeyMissing | Raised | Raw(text: string)

  /** The `data` the handler shapes: the fallback when the key is missing
      or anything raised (extraction failures included), else what the
      reply text, or its brace-delimited part, parses to. */
  function AnalysisData(groq: GroqOutcome, parse: JsonParser): (d: Json)
    ensures groq.KeyMissing? || groq.Raised? ==> d == FallbackResult
    ensures groq.Raw? && parse(groq.text).Some? ==> d == parse(groq.text).value
    ensures d != FallbackResult ==>
              && groq.Raw?
              && (|| parse(groq.text) == Some(d)
                  || exists i, j :: OuterBraces(groq.text, i, j) && parse(groq.text[i..j + 1]) == Some(d))
    ensures groq.Raw? && parse(groq.text).None?
            && (forall i, j :: OuterBraces(groq.text, i, j) ==> parse(groq.text[i..j + 1]).None?) ==>
              d == FallbackResult
  {
    match groq
    case KeyMissing => FallbackResult
    case Raised => FallbackResult
    case Raw(text) =>
      match ExtractJson(text, parse)
      case NotJson => FallbackResult
      case Parsed(v) => v
  }

  /** Python's `float(x)` on a decoded JSON value; `parseFloat` converts
      strings and is `None` where `float` raises. */
  function PyFloat(v: Json, parseFloat: string -> Option<real>): (r: Option<real>)
    ensures v.JNum? ==> r == Some(v.n)
    ensures v.JNull? || v.JArr? || v.JObj? ==> r.None?
  {
    match v
    case JNum(n) => Some(n)
    case JBool(b) => Some(if b then 1.0 else 0.0)
    case JStr(s) => parseFloat(s)
    case _ => None
  }

  datatype Macros = Macros(calories: real, protein: real, carbs: real, fat: real)

  /** The `AnalysisResult` response model. */
  datatype AnalysisResult = AnalysisResult(success: bool, food: string, macros: Macros,
                                           confidence: Option<string>, details: Option<string>)

  /** `float(data.get(key, 0))` */
  function MacroField(data: Json, key: string, parseFloat: string -> Option<real>): (r: Option<real>)
    ensures Get(data, key).None? ==> r == Some(0.0)
    ensures Get(data, key).Some? ==> r == PyFloat(Get(data, key).value, parseFloat)
  {
    match Get(data, key)
    case None => Some(0.0)
    case Some(v) => PyFloat(v, parseFloat)
  }

  /** `data.get(key)` validated as `Optional[str]`: `None` inside means the
      field is null; an outer `None` is a validation error. */
  function OptionalText(data: Json, key: string): (r: Option<Option<string>>)
    ensures Get(data, key).None? || Get(data, key) == Some(JNull) ==> r == Some(None)
    ensures r.Some? && r.value.Some? ==> Get(data, key) == Some(JStr(r.value.value))
  {
    match Get(data, key)
    case None => Some(None)
    case Some(JNull) => Some(None)
    case Some(JStr(s)) => Some(Some(s))
    case Some(_) => None
  }

  /** Shapes `data` into the response. A non-object `data` (no `.get`), a
      macro `float` cannot convert, or a field of the wrong type for the
      response model raises outside the handler's `try`: `None`, an
      internal server error. */
  function Shape(data: Json, parseFloat: string -> Option<real>): (r: Option<AnalysisResult>)
    ensures r.Some? ==> data.JObj? && r.value.success
    ensures r.Some? && Get(data, "food").None? ==> r.value.food == "Unknown Food"
    ensures r.Some? && Get(data, "calories").None? ==> r.value.macros.calories == 0.0
    ensures r.Some? && Get(data, "protein").None? ==> r.value.macros.protein == 0.0
    ensures r.Some? && Get(data, "carbs").None? ==> r.value.macros.carbs == 0.0
    ensures r.Some? && Get(data, "fat").None? ==> r.value.macros.fat == 0.0
    ensures r.Some? && Get(data, "confidence").None? ==> r.value.confidence.None?
    ensures r.Some? && Get(data, "details").None? ==> r.value.details.None?
  {
    if !data.JObj? then None
    else
      var food := match Get(data, "food")
                  case None => Some("Unknown Food")
                  case Some(JStr(s)) => Some(s)
                  case Some(_) => None;
      var c := MacroField(data, "calories", parseFloat);
      var p := MacroField(data, "protein", parseFloat);
      var cb := MacroField(data, "carbs", parseFloat);
      var f := MacroField(data, "fat", parseFloat);
      var conf := OptionalText(data, "confidence");
      var det := OptionalText(data, "details");
      if food.None? || c.None? || p.None? || cb.None? || f.None? || conf.None? || det.None? then None
      else
        Some(AnalysisResult(true, food.value, Macros(c.value, p.value, cb.value, f.value), conf.value, det.value))
  }

  /** A model answer with every field present and of the expected JSON
      type is reported as it stands. */
  lemma ShapeWellTyped(food: string, c: real, p: real, cb: real, f: real, conf: string, det: string,
                       extra: map<string, Json>, parseFloat: string -> Option<real>)
    ensures var data := JObj(extra + map["food" := JStr(food), "calories" := JNum(c), "protein" := JNum(p),
                                         "carbs" := JNum(cb), "fat" := JNum(f), "confidence" := JStr(conf),
                                         "details" := JStr(det)]);
            Shape(data, parseFloat) == Some(AnalysisResult(true, food, Macros(c, p, cb, f), Some(conf), Some(det)))
  {
  }

  /** The answer `FALLBACK_RESULT` shapes into. */
  const FallbackAnalysis: AnalysisResult :=
    AnalysisResult(true, "Unknown Food", Macros(250.0, 10.0, 30.0, 8.0),
                   Some("low"), Some("AI analysis unavailable — showing rough estimate."))

  lemma ShapeFallback(parseFloat: string -> Option<real>)
    ensures Shape(FallbackResult, parseFloat) == Some(FallbackAnalysis)
  {
  }

  /** `POST /analyze` for an upload with its content type and size. A
      status other than 200 carries the `detail` message; 500 is the
      server's plain-text internal error. */
  function AnalyzeFoodImage(contentType: string, size: nat, groq: GroqOutcome, parse: JsonParser,
                            parseFloat: string -> Option<real>): (r: Reply<AnalysisResult>)
    ensures contentType !in AllowedTypes ==> r == Fail(400, "Unsupported file type: " + contentType)
    ensures contentType in AllowedTypes && size > MaxImageBytes ==> r == Fail(400, "Image exceeds 10 MB limit")
    ensures r.Ok? ==> r.status == 200 && r.value.success
    ensures r.Fail? ==> r.status == 400 || r.status == 500
    ensures contentType in AllowedTypes && size <= MaxImageBytes && (groq.KeyMissing? || groq.Raised?) ==>
              r == Ok(200, FallbackAnalysis)
    ensures contentType in AllowedTypes && size <= MaxImageBytes && groq.Raw?
            && ExtractJson(groq.text, parse).NotJson? ==>
              r == Ok(200, FallbackAnalysis)
    ensures contentType in AllowedTypes && size <= MaxImageBytes && groq.Raw?
            && ExtractJson(groq.text, parse).Parsed? ==>
              var shaped := Shape(ExtractJson(groq.text, parse).value, parseFloat);
              && (shaped.Some? ==> r == Ok(200, shaped.value))
              && (shaped.None? ==> r == Fail(500, "Internal Server Error"))
  {
    if contentType !in AllowedTypes then Fail(400, "Unsupported file type: " + contentType)
    else if size > MaxImageBytes then Fail(400, "Image exceeds 10 MB limit")
    else
      ShapeFallback(parseFloat);
      match Shape(AnalysisData(groq, parse), parseFloat)
      case None => Fail(500, "Internal Server Error")
      case Some(a) => Ok(200, a)
  }

  /** A model reply that parses to an object with every field of the
      expected type is reported as it stands. */
  lemma WellTypedReplyReported(contentType: string, size: nat, text: string, parse: JsonParser,
                               parseFloat: string -> Option<real>,
                               food: string, c: real, p: real, cb: real, f: real, conf: string, det: string)
    requires contentType in AllowedTypes && size <= MaxImageBytes
    requires parse(text) == Some(JObj(map["food" := JStr(food), "calories" := JNum(c), "protein" := JNum(p),
                                          "carbs" := JNum(cb), "fat" := JNum(f), "confidence" := JStr(conf),
                                          "details" := JStr(det)]))
    ensures AnalyzeFoodImage(contentType, size, Raw(text), parse, parseFloat)
            == Ok(200, AnalysisResult(true, food, Macros(c, p, cb, f), Some(conf), Some(det)))
  {
    ShapeWellTyped(food, c, p, cb, f, conf, det, map[], parseFloat);
    assert map[] + map["food" := JStr(food), "calories" := JNum(c), "protein" := JNum(p),
                       "carbs" := JNum(cb), "fat" := JNum(f), "confidence" := JStr(conf),
                       "details" := JStr(det)]
        == map["food" := JStr(food), "calories" := JNum(c), "protein" := JNum(p),
               "carbs" := JNum(cb), "fat" := JNum(f), "confidence" := JStr(conf),
               "details" := JStr(det)];
  }

  /** A model reply that names only the food is answered with zero macros
      and no confidence or details. */
  lemma MissingMacrosAreZero(contentType: string, size: nat, text: string, parse: JsonParser,
                             parseFloat: string -> Option<real>, food: string)
    requires contentType in AllowedTypes && size <= MaxImageBytes
    requires parse(text) == Some(JObj(map["food" := JStr(food)]))
    ensures AnalyzeFoodImage(contentType, size, Raw(text), parse, parseFloat)
            == Ok(200, AnalysisResult(true, food, Macros(0.0, 0.0, 0.0, 0.0), None, None))
  {
  }

  /** The size limit is inclusive: exactly 10 MiB is analysed, one byte
      more is refused. */
  lemma SizeBoundary(contentType: string, groq: GroqOutcome, parse: JsonParser, parseFloat: string -> Option<real>)
    requires contentType in AllowedTypes
    ensures AnalyzeFoodImage(contentType, MaxImageBytes, groq, parse, parseFloat) != Fail(400, "Image exceeds 10 MB limit")
    ensures AnalyzeFoodImage(contentType, MaxImageBytes + 1, groq, parse, parseFloat) == Fail(400, "Image exceeds 10 MB limit")
  {
  }

  /** The JSON body the caller receives: the response model serialised,
      `{"detail": ...}` for a refusal, and no JSON at all for the plain-text
      internal error. */
  function ResponseBody(r: Reply<AnalysisResult>): (b: Option<Json>)
    ensures r.Ok? ==> b.Some? && Get(b.value, "success") == Some(JBool(r.value.success))
    ensures r.Ok? ==> Get(b.value, "food") == Some(JStr(r.value.food))
    ensures r.Fail? && r.status == 400 ==> b.Some? && Get(b.value, "success").None?
    ensures r.Fail? && r.status != 400 ==> b.None?
  {
    match r
    case Ok(_, a) =>
      Some(JObj(map[
        "success" := JBool(a.success),
        "food" := JStr(a.food),
        "macros" := JObj(map["calories" := JNum(a.macros.calories), "protein" := JNum(a.macros.protein),
                             "carbs" := JNum(a.macros.carbs), "fat" := JNum(a.macros.fat)]),
        "confidence" := if a.confidence.Some? then JStr(a.confidence.value) else JNull,
        "details" := if a.details.Some? then JStr(a.details.value) else JNull]))
    case Fail(s, e) =>
      if s == 400 then Some(JObj(map["detail" := JStr(e)])) else None
  }
}
