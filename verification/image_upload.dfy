/** `POST /api/food/analyze-image` on the Node server: the upload filter and
    size limit, the proxy call to the analysis service, and the mock answer
    it falls back to. */
module ImageUpload {
  import opened Common
  import opened Json
  import opened Strings
  import AiService

  /** The alternatives of the filter's `/jpeg|jpg|png|webp|heic/`. */
  const ImagePatterns: seq<string> := ["jpeg", "jpg", "png", "webp", "heic"]

  /** `limits.fileSize`, 10 MiB. */
  const MaxUploadBytes: nat := 10 * 1024 * 1024

  /** The path with its trailing slashes removed. */
  function StripTrailingSlashes(p: string): (r: string)
    ensures |r| <= |p| && p[..|r|] == r
    ensures |r| == 0 || r[|r| - 1] != '/'
    ensures forall i :: |r| <= i < |p| ==> p[i] == '/'
    decreases |p|
  {
    if |p| > 0 && p[|p| - 1] == '/' then StripTrailingSlashes(p[..|p| - 1]) else p
  }

  /** The last path segment, as `path.posix.basename`. */
  function Basename(p: string): (r: string)
    ensures '/' !in r
    ensures '/' !in p ==> r == p
  {
    var s := StripTrailingSlashes(p);
    match LastIndex(s, '/')
    case None => s
    case Some(i) => s[i + 1..]
  }

  /** `path.extname`: from the last dot of the last segment to its end, or
      "" when the segment has no dot, starts with its only leading dot
      (a dotfile), or is "..". */
  function ExtName(p: string): (r: string)
    ensures r == "" || (r[0] == '.' && '/' !in r && '.' !in r[1..])
  {
    var b := Basename(p);
    match LastIndex(b, '.')
    case None => ""
    case Some(d) =>
      if d == 0 || b == ".." then ""
      else
        assert forall j :: 1 <= j < |b[d..]| ==> b[d..][j] == b[d + j];
        b[d..]
  }

  /** A name with a dot inside its last segment has the text after the last
      dot as its extension. */
  lemma ExtNameOfName(stem: string, ext: string)
    requires stem != "" && '/' !in stem && '/' !in ext && '.' !in ext
    requires stem + "." + ext != ".."
    ensures ExtName(stem + "." + ext) == "." + ext
  {
    var p := stem + "." + ext;
    assert '/' !in p by {
      assert forall i :: 0 <= i < |p| ==> p[i] == (if i < |stem| then stem[i] else if i == |stem| then '.' else ext[i - |stem| - 1]);
    }
    assert StripTrailingSlashes(p) == p;
    assert p[|stem|] == '.';
    assert LastIndex(p, '.') == Some(|stem|) by {
      assert forall j :: |stem| < j < |p| ==> p[j] == ext[j - |stem| - 1];
    }
    assert p[|stem|..] == "." + ext;
  }

  /** A dotfile such as ".png" has no extension. */
  lemma DotfileHasNoExt(n: string)
    requires '/' !in n && '.' !in n
    ensures ExtName("." + n) == ""
  {
    var p := "." + n;
    assert forall j :: 1 <= j < |p| ==> p[j] == n[j - 1];
    assert StripTrailingSlashes(p) == p;
    assert LastIndex(p, '.') == Some(0);
  }

  /** What multer knows of an uploaded file. */
  datatype Upload = Upload(originalname: string, mimetype: string, size: nat)

  /** The `fileFilter`: both the lower-cased extension and the raw MIME type
      must contain one of the image words. */
  predicate FileFilter(f: Upload)
  {
    MatchesAny(Lower(ExtName(f.originalname)), ImagePatterns) && MatchesAny(f.mimetype, ImagePatterns)
  }

  lemma NothingMatchesEmpty()
    ensures !MatchesAny("", ImagePatterns)
  {
    forall i | 0 <= i < |ImagePatterns|
      ensures !Contains("", ImagePatterns[i])
    {
    }
  }

  /** A dotfile is refused whatever its MIME type. */
  lemma DotfileRefused(n: string, mimetype: string, size: nat)
    requires '/' !in n && '.' !in n
    ensures !FileFilter(Upload("." + n, mimetype, size))
  {
    DotfileHasNoExt(n);
    NothingMatchesEmpty();
  }

  /** The name multer's disk storage gives the file: the upload time in
      milliseconds, a dash, and the original name. */
  function DiskFileName(nowMs: nat, originalname: string): (r: string)
    ensures |r| > |originalname| + 1
    ensures r[|r| - |originalname|..] == originalname && r[|r| - |originalname| - 1] == '-'
    ensures forall i :: 0 <= i < |r| - |originalname| - 1 ==> '0' <= r[i] <= '9'
  {
    var stamp := NatToString(nowMs);
    var r := stamp + "-" + originalname;
    assert r[|r| - |originalname|..] == originalname;
    assert forall i :: 0 <= i < |stamp| ==> r[i] == stamp[i];
    r
  }

  datatype MockFood = MockFood(name: string, calories: real, protein: real, carbs: real, fat: real)

  /** The fallback table. */
  const MockFoods: seq<MockFood> := [
    MockFood("Grilled Chicken Breast", 284.0, 53.0, 0.0, 6.0),
    MockFood("Caesar Salad", 360.0, 14.0, 20.0, 26.0),
    MockFood("Banana", 105.0, 1.3, 27.0, 0.4),
    MockFood("Pasta Bolognese", 520.0, 24.0, 68.0, 16.0),
    MockFood("Avocado Toast", 290.0, 7.0, 30.0, 16.0),
    MockFood("Protein Smoothie", 340.0, 30.0, 42.0, 6.0),
    MockFood("Salmon Fillet", 367.0, 34.0, 0.0, 22.0),
    MockFood("Rice & Beans Bowl", 440.0, 16.0, 72.0, 8.0)]

  /** The proxy call: a connection error, a timeout or a body that is not
      JSON is `Unavailable`; otherwise the parsed body. */
  datatype ProxyResult = Unavailable | Answered(body: Json)

  /** `aiResponse && aiResponse.success` */
  predicate AiAccepted(p: ProxyResult)
  {
    p.Answered? && Truthy(p.body) && Get(p.body, "success").Some? && Truthy(Get(p.body, "success").value)
  }

  /** Copies a property into the reply when it is defined; `res.json`
      drops `undefined` ones. */
  function CopyField(from: Json, key: string): (m: map<string, Json>)
    ensures key in m <==> Get(from, key).Some?
    ensures key in m ==> m[key] == Get(from, key).value
    ensures m.Keys <= {key}
  {
    match Get(from, key)
    case None => map[]
    case Some(v) => map[key := v]
  }

  /** The reply built from an accepted service answer. */
  function AiBody(filename: string, resp: Json): (b: Json)
    ensures Get(b, "success") == Some(JBool(true)) && Get(b, "filename") == Some(JStr(filename))
    ensures Get(b, "source") == Some(JStr("ai"))
    ensures Get(b, "food") == Get(resp, "food") && Get(b, "macros") == Get(resp, "macros")
    ensures Get(b, "confidence") == Some(OrNull(resp, "confidence"))
    ensures Get(b, "details") == Some(OrNull(resp, "details"))
  {
    JObj(map["success" := JBool(true), "filename" := JStr(filename),
             "confidence" := OrNull(resp, "confidence"), "details" := OrNull(resp, "details"),
             "source" := JStr("ai")]
         + CopyField(resp, "food") + CopyField(resp, "macros"))
  }

  /** The reply built from a mock entry: no confidence and no details. */
  function MockBody(filename: string, m: MockFood): (b: Json)
    ensures Get(b, "success") == Some(JBool(true)) && Get(b, "filename") == Some(JStr(filename))
    ensures Get(b, "source") == Some(JStr("mock"))
    ensures Get(b, "food") == Some(JStr(m.name))
    ensures Get(b, "macros").Some? && Get(Get(b, "macros").value, "calories") == Some(JNum(m.calories))
    ensures Get(b, "confidence").None? && Get(b, "details").None?
  {
    JObj(map["success" := JBool(true), "filename" := JStr(filename), "food" := JStr(m.name),
             "macros" := JObj(map["calories" := JNum(m.calories), "protein" := JNum(m.protein),
                                  "carbs" := JNum(m.carbs), "fat" := JNum(m.fat)]),
             "source" := JStr("mock")])
  }

  /** The route. `pick` is `Math.floor(Math.random() * mockFoods.length)`.
      A file the filter refuses or one over the size limit makes multer
      pass an error to Express's default handler: 500. */
  function AnalyzeImage(file: Option<Upload>, nowMs: nat, proxy: ProxyResult, pick: nat): (r: Reply<Json>)
    requires pick < |MockFoods|
    ensures file.None? ==> r == Fail(400, "No image file provided")
    ensures file.Some? && !FileFilter(file.value) ==> r == Fail(500, "Only image files are allowed")
    ensures file.Some? && FileFilter(file.value) && file.value.size > MaxUploadBytes ==> r == Fail(500, "File too large")
    ensures r.Ok? <==> file.Some? && FileFilter(file.value) && file.value.size <= MaxUploadBytes
    ensures r.Ok? ==>
              && r.status == 200
              && Get(r.value, "success") == Some(JBool(true))
              && Get(r.value, "filename") == Some(JStr(DiskFileName(nowMs, file.value.originalname)))
    ensures r.Ok? ==> (Get(r.value, "source") == Some(JStr("ai")) <==> AiAccepted(proxy))
    ensures r.Ok? && !AiAccepted(proxy) ==>
              && Get(r.value, "source") == Some(JStr("mock"))
              && Get(r.value, "food") == Some(JStr(MockFoods[pick].name))
              && Get(r.value, "confidence").None?
              && Get(r.value, "details").None?
    ensures r.Ok? && AiAccepted(proxy) ==>
              && Get(r.value, "food") == Get(proxy.body, "food")
              && Get(r.value, "macros") == Get(proxy.body, "macros")
              && Get(r.value, "confidence") == Some(OrNull(proxy.body, "confidence"))
              && Get(r.value, "details") == Some(OrNull(proxy.body, "details"))
  {
    match file
    case None => Fail(400, "No image file provided")
    case Some(f) =>
      if !FileFilter(f) then Fail(500, "Only image files are allowed")
      else if f.size > MaxUploadBytes then Fail(500, "File too large")
      else
        var name := DiskFileName(nowMs, f.originalname);
        if AiAccepted(proxy) then Ok(200, AiBody(name, proxy.body))
        else Ok(200, MockBody(name, MockFoods[pick]))
  }

  /** The proxy's view of the service's reply: its JSON body, or
      `Unavailable` when the body is the plain-text internal error. */
  function Forward(svc: Reply<AiService.AnalysisResult>): (p: ProxyResult)
    ensures p.Unavailable? <==> AiService.ResponseBody(svc).None?
  {
    match AiService.ResponseBody(svc)
    case None => Unavailable
    case Some(b) => Answered(b)
  }

  /** The proxy accepts exactly the service's analyses. */
  lemma ForwardAccepted(svc: Reply<AiService.AnalysisResult>)
    requires svc.Ok? ==> svc.value.success
    ensures AiAccepted(Forward(svc)) <==> svc.Ok?
    ensures svc.Ok? ==> Get(Forward(svc).body, "food") == Some(JStr(svc.value.food))
  {
  }

  /** End to end: an accepted upload is labelled "ai" exactly when the
      service produced an analysis, and then carries the service's food. */
  lemma ServiceDecidesSource(f: Upload, nowMs: nat, groq: AiService.GroqOutcome, parse: AiService.JsonParser,
                             parseFloat: string -> Option<real>, pick: nat)
    requires pick < |MockFoods|
    requires FileFilter(f) && f.size <= MaxUploadBytes
    ensures var svc := AiService.AnalyzeFoodImage(f.mimetype, f.size, groq, parse, parseFloat);
            var r := AnalyzeImage(Some(f), nowMs, Forward(svc), pick);
            && r.Ok?
            && (Get(r.value, "source") == Some(JStr("ai")) <==> svc.Ok?)
            && (svc.Ok? ==> Get(r.value, "food") == Some(JStr(svc.value.food)))
  {
    var svc := AiService.AnalyzeFoodImage(f.mimetype, f.size, groq, parse, parseFloat);
    ForwardAccepted(svc);
  }

  /** A MIME type the Node filter lets through but the service does not
      list, such as "image/x-png", always gets a mock answer. */
  lemma LooseMimeGetsMock(f: Upload, nowMs: nat, groq: AiService.GroqOutcome, parse: AiService.JsonParser,
                          parseFloat: string -> Option<real>, pick: nat)
    requires pick < |MockFoods|
    requires FileFilter(f) && f.size <= MaxUploadBytes && f.mimetype !in AiService.AllowedTypes
    ensures var svc := AiService.AnalyzeFoodImage(f.mimetype, f.size, groq, parse, parseFloat);
            AnalyzeImage(Some(f), nowMs, Forward(svc), pick).value == MockBody(DiskFileName(nowMs, f.originalname), MockFoods[pick])
  {
    ServiceDecidesSource(f, nowMs, groq, parse, parseFloat, pick);
  }
}
