/** The caption service's two endpoints and the generation step behind
    them: `/health`, `/caption` and `generate_caption_internal`. Flask,
    base64 and PIL decoding and the language model are foreign; they enter
    as functions held by the service. */
module CaptionHttp {
  import opened Wrappers
  import opened Text
  import opened CaptionText

  /** A JSON value as Flask hands it to the handler. */
  datatype Json =
    | JNull
    | JBool(b: bool)
    | JNum(n: real)
    | JStr(s: string)
    | JArray(items: seq<Json>)
    | JObject(fields: map<string, Json>)

  /** Python truthiness of a decoded JSON value. */
  predicate Truthy(j: Json)
  {
    match j
    case JNull => false
    case JBool(b) => b
    case JNum(n) => n != 0.0
    case JStr(s) => s != ""
    case JArray(items) => |items| > 0
    case JObject(fields) => |fields| > 0
  }

  /** A decoded picture, kept as the bytes of its RGB form. */
  datatype Image = Image(rgb: seq<bv8>)

  /** What the model is asked: one image, the prompt text and the sampling
      temperature, the last two exactly as the request carried them. */
  datatype ChatRequest = ChatRequest(image: Image, prompt: Json, temperature: Json)

  /** A loaded model: the text of its first answer, or the message of the
      exception the completion raised. */
  datatype Model = Model(complete: ChatRequest -> Result<string>)

  /** The running service: the global `model` (absent until loaded), the
      value of `DEV_MODEL_PATH` it started with, the configured GPU layer
      count, whether a path exists on disk, and the decoding of an `image`
      field into a picture (or the message of the exception it raised). */
  datatype Service = Service(
    model: Option<Model>,
    devModelPath: Option<string>,
    gpuLayers: int,
    onDisk: string -> bool,
    decode: Json -> Result<Image>)

  /** Why a request failed: an exception with a known message, or a
      `TypeError` raised by Python on a JSON value of the wrong shape. */
  datatype Fault = Message(text: string) | TypeError

  /** The JSON body of a `/caption` reply: the missing-image error, a
      successful caption, or a failure carrying the exception. */
  datatype Body = NoImage | Captioned(caption: string) | Failure(fault: Fault)

  datatype Response = Response(code: nat, body: Body)

  const ImageKey: string := "image"
  const PromptKey: string := "prompt"
  const TemperatureKey: string := "temperature"
  const DefaultTemperature: real := 0.7
  const ModelNotLoaded: string := "Model not loaded"

  const DefaultCaptionPrompt: string :=
    "You are an expert image captioner for AI training datasets. Analyze this image and provide a detailed, descriptive caption.\n" +
    "\n" +
    "Requirements:\n" +
    "- Write a single, continuous caption (no bullet points or sections)\n" +
    "- Be extremely detailed about: composition, subjects, poses, expressions, clothing, colors, lighting, background, atmosphere\n" +
    "- Use natural, descriptive language as if describing a photograph\n" +
    "- Do NOT use words like: rendered, hyperrealistic, digital art, artwork, painting, illustration\n" +
    "- Use professional photography terminology where appropriate\n" +
    "- Caption should be 100-200 words\n" +
    "- Focus on what IS in the image, not interpretations\n" +
    "\n" +
    "Respond with ONLY the caption, no explanations or prefixes."

  /** `prompt or DEFAULT_CAPTION_PROMPT`: the request's prompt when it is
      truthy, the default prompt otherwise. Either way the model is asked
      with a truthy prompt. */
  function PromptOrDefault(prompt: Json): (p: Json)
    ensures Truthy(p)
    ensures Truthy(prompt) ==> p == prompt
    ensures !Truthy(prompt) ==> p == JStr(DefaultCaptionPrompt)
  {
    if Truthy(prompt) then prompt else JStr(DefaultCaptionPrompt)
  }

  /** `generate_caption_internal`: "Model not loaded" when no model is
      loaded; otherwise the model's answer, cleaned, or the exception it
      raised. A caption is a piece of the model's answer with no outer
      whitespace. */
  function GenerateCaption(model: Option<Model>, image: Image, prompt: Json, temperature: Json): (r: Result<string>)
    ensures model.None? ==> r == Err(ModelNotLoaded)
    ensures model.Some? ==>
      var answer := model.value.complete(ChatRequest(image, PromptOrDefault(prompt), temperature));
      && (r.Ok? <==> answer.Ok?)
      && (r.Err? ==> r.error == answer.error)
      && (r.Ok? ==> r.value == CleanCaption(answer.value))
      && (r.Ok? ==> NoOuterSpace(r.value) && Contains(answer.value, r.value))
  {
    match model
    case None => Err(ModelNotLoaded)
    case Some(m) =>
      match m.complete(ChatRequest(image, PromptOrDefault(prompt), temperature))
      case Err(e) => Err(e)
      case Ok(answer) => Ok(CleanCaption(answer))
  }

  /** Python's `'image' in data`: a key of an object, an element of an
      array, a substring of a string; `None` when `in` raises `TypeError`,
      as it does for `null`, booleans and numbers. */
  function ImageIn(data: Json): (r: Option<bool>)
    ensures r.None? <==> data.JNull? || data.JBool? || data.JNum?
    ensures r == Some(true) && data.JObject? ==> ImageKey in data.fields
    ensures data.JObject? && ImageKey in data.fields ==> r == Some(true)
  {
    match data
    case JObject(fields) => Some(ImageKey in fields)
    case JArray(items) => Some(JStr(ImageKey) in items)
    case JStr(s) => Some(Contains(s, ImageKey))
    case _ => None
  }

  /** `data.get(key, default)` on an object. */
  function Field(fields: map<string, Json>, key: string, default: Json): (v: Json)
    ensures key in fields ==> v == fields[key]
    ensures key !in fields ==> v == default
  {
    if key in fields then fields[key] else default
  }

  /** The `/caption` handler. `request` is the parsed JSON body, or the
      message of the exception reading it raised. Every exception past
      that point becomes a 500 reply; a body whose `in` test finds no
      image is the only 400; a caption is the only 200. */
  function Caption(svc: Service, request: Result<Json>): (resp: Response)
    ensures resp.code == 200 || resp.code == 400 || resp.code == 500
    ensures resp.code == 200 <==> resp.body.Captioned?
    ensures resp.code == 400 <==> resp.body.NoImage?
    ensures resp.code == 400 <==> request.Ok? && ImageIn(request.value) == Some(false)
    ensures resp.code == 200 ==>
      && svc.model.Some?
      && request.Ok? && request.value.JObject? && ImageKey in request.value.fields
      && svc.decode(request.value.fields[ImageKey]).Ok?
      && NoOuterSpace(resp.body.caption)
    ensures (request.Ok? && request.value.JObject? && ImageKey in request.value.fields &&
             svc.decode(request.value.fields[ImageKey]).Ok?) ==>
        var f := request.value.fields;
        var caption := GenerateCaption(svc.model, svc.decode(f[ImageKey]).value,
          Field(f, PromptKey, JNull), Field(f, TemperatureKey, JNum(DefaultTemperature)));
        && (caption.Ok? ==> resp == Response(200, Captioned(caption.value)))
        && (caption.Err? ==> resp == Response(500, Failure(Message(caption.error))))
    ensures (request.Ok? && request.value.JObject? && ImageKey in request.value.fields &&
             svc.decode(request.value.fields[ImageKey]).Err?) ==>
        resp == Response(500, Failure(Message(svc.decode(request.value.fields[ImageKey]).error)))
    ensures request.Err? ==> resp == Response(500, Failure(Message(request.error)))
    ensures request.Ok? && ImageIn(request.value) == Some(true) && !request.value.JObject? ==>
      resp == Response(500, Failure(TypeError))
  {
    match request
    case Err(e) => Response(500, Failure(Message(e)))
    case Ok(data) =>
      match ImageIn(data)
      case None => Response(500, Failure(TypeError))
      case Some(found) =>
        if !found then Response(400, NoImage)
        else if !data.JObject? then Response(500, Failure(TypeError))
        else
          match svc.decode(data.fields[ImageKey])
          case Err(e) => Response(500, Failure(Message(e)))
          case Ok(image) =>
            var prompt := Field(data.fields, PromptKey, JNull);
            var temperature := Field(data.fields, TemperatureKey, JNum(DefaultTemperature));
            match GenerateCaption(svc.model, image, prompt, temperature)
            case Err(e) => Response(500, Failure(Message(e)))
            case Ok(c) => Response(200, Captioned(c))
  }

  /** The fields of the `/health` reply. */
  datatype HealthReport = HealthReport(
    status: string,
    modelLoaded: bool,
    modelPath: string,
    modelExists: bool,
    devMode: bool,
    gpuLayers: int)

  datatype HealthResponse = HealthResponse(code: nat, report: HealthReport)

  /** The `/health` handler: 200 and "ok" exactly when a model is loaded,
      503 and "model_not_loaded" otherwise; the path reported is the one the
      service loads from, and whether it exists is asked of the disk. */
  function Health(svc: Service): (r: HealthResponse)
    ensures r.code == 200 || r.code == 503
    ensures r.code == 200 <==> svc.model.Some?
    ensures r.report.modelLoaded <==> r.code == 200
    ensures r.report.status == "ok" <==> r.code == 200
    ensures r.code == 503 ==> r.report.status == "model_not_loaded"
    ensures r.report.modelPath == ModelPath(svc.devModelPath)
    ensures r.report.modelPath != "" && r.report.modelExists == svc.onDisk(r.report.modelPath)
    ensures r.report.devMode <==> svc.devModelPath.Some?
    ensures r.report.gpuLayers == svc.gpuLayers
  {
    var loaded := svc.model.Some?;
    var path := ModelPath(svc.devModelPath);
    HealthResponse(
      if loaded then 200 else 503,
      HealthReport(
        if loaded then "ok" else "model_not_loaded",
        loaded,
        path,
        svc.onDisk(path),
        DevMode(svc.devModelPath),
        svc.gpuLayers))
  }

  /** With the model loaded, a request that carries a decodable image and
      no truthy prompt or no temperature asks the model with the default
      prompt and temperature 0.7, and replies with the cleaned answer or
      the exception's message. */
  lemma CaptionWithDefaults(svc: Service, fields: map<string, Json>, image: Image)
    requires ImageKey in fields && svc.decode(fields[ImageKey]) == Ok(image)
    requires PromptKey !in fields || !Truthy(fields[PromptKey])
    requires TemperatureKey !in fields
    requires svc.model.Some?
    ensures var answer := svc.model.value.complete(ChatRequest(image, JStr(DefaultCaptionPrompt), JNum(DefaultTemperature)));
      var resp := Caption(svc, Ok(JObject(fields)));
      && (answer.Ok? ==> resp == Response(200, Captioned(CleanCaption(answer.value))))
      && (answer.Err? ==> resp == Response(500, Failure(Message(answer.error))))
  {
  }

  /** Without a model, a request that gets as far as generation is
      answered 500 with "Model not loaded". */
  lemma NoModelReply(svc: Service, fields: map<string, Json>)
    requires ImageKey in fields && svc.decode(fields[ImageKey]).Ok?
    requires svc.model.None?
    ensures Caption(svc, Ok(JObject(fields))) == Response(500, Failure(Message(ModelNotLoaded)))
  {
  }

  /** The image is decoded before the model is looked at: a picture that
      does not decode is reported with its own error whether or not a model
      is loaded. */
  lemma DecodeErrorFirst(svc: Service, fields: map<string, Json>, e: string)
    requires ImageKey in fields && svc.decode(fields[ImageKey]) == Err(e)
    ensures Caption(svc, Ok(JObject(fields))) == Response(500, Failure(Message(e)))
  {
  }

  /** The `in` test is Python's, not a key lookup: a JSON array holding the
      string "image", or a string mentioning it, passes the test and then
      fails on indexing, which is a 500, not a 400. */
  lemma ImageMentionIsNotAnImage(svc: Service, s: string)
    requires Contains(s, ImageKey)
    ensures Caption(svc, Ok(JStr(s))).code == 500
    ensures Caption(svc, Ok(JArray([JStr(ImageKey)]))).code == 500
  {
  }

  /** An empty `DEV_MODEL_PATH` makes `/health` report development mode
      while naming the production model path. */
  lemma HealthWithEmptyDevPath(svc: Service)
    requires svc.devModelPath == Some("")
    ensures Health(svc).report.devMode
    ensures Health(svc).report.modelPath == ProductionModelPath
  {
    EmptyDevPathReportsDevMode();
  }

  /** `/health` claims development mode while naming the production model
      exactly when `DEV_MODEL_PATH` is set to the empty string or to the
      production path itself. */
  lemma HealthDevModeOnProductionPath(svc: Service)
    ensures Health(svc).report.devMode && Health(svc).report.modelPath == ProductionModelPath <==>
      svc.devModelPath == Some("") || svc.devModelPath == Some(ProductionModelPath)
  {
  }
}
