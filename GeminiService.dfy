/**
 * The adapter in services/geminiService.ts: `virtualTryOn` checks the API key,
 * builds a three-part request (user photo, garment photo, instruction), hands it to
 * the generative backend and returns the data of the first response part that
 * carries inline image data.
 */
module GeminiService {
  import opened Options

  /** An inline image: base64 text and its media type. */
  datatype Blob = Blob(data: string, mimeType: string)

  /** A content part: the fields the adapter writes or reads. */
  datatype Part = Part(text: Option<string>, inlineData: Option<Blob>)

  /** The response modalities the adapter asks for; it only ever names `IMAGE`. */
  datatype Modality = Image

  datatype Request = Request(model: string, parts: seq<Part>, responseModalities: seq<Modality>)

  /** The response shape, with every field the adapter reaches through `?.` optional. */
  datatype Content = Content(parts: Option<seq<Part>>)
  datatype Candidate = Candidate(content: Option<Content>)
  datatype Response = Response(candidates: Option<seq<Candidate>>)

  /** How the backend call ends: a response, or a rejected promise. */
  datatype CallOutcome = Responded(response: Response) | CallFailed(reason: string)

  datatype ServiceError = MissingApiKey | RequestFailed(reason: string) | NoImageInResponse

  datatype Result<+T> = Ok(value: T) | Err(error: ServiceError)

  const ModelName := "gemini-2.5-flash-image"

  const Instruction := "You are an expert in fashion and photo editing. Realistically place the garment from the second image onto the person in the first image. Ensure the fit, drape, and lighting look natural. The background of the person's image should be preserved. The output should be only the final image."

  /** The text of the `Error` each failure throws. */
  function Message(e: ServiceError): string
  {
    match e
    case MissingApiKey => "API_KEY environment variable is not set."
    case RequestFailed(reason) => reason
    case NoImageInResponse => "Could not extract image from Gemini response."
  }

  function ImagePart(data: string, mimeType: string): Part
  {
    Part(None, Some(Blob(data, mimeType)))
  }

  function TextPart(text: string): Part
  {
    Part(Some(text), None)
  }

  /** The inline images of a part list, in order. */
  function ImagesOf(parts: seq<Part>): seq<Blob>
  {
    if parts == [] then []
    else (if parts[0].inlineData.Some? then [parts[0].inlineData.value] else []) + ImagesOf(parts[1..])
  }

  /** The texts of a part list, in order. */
  function TextsOf(parts: seq<Part>): seq<string>
  {
    if parts == [] then []
    else (if parts[0].text.Some? then [parts[0].text.value] else []) + TextsOf(parts[1..])
  }

  /**
   * The request `virtualTryOn` sends: exactly three parts, the two images carrying
   * the caller's data and media types unchanged, user photo first, then the fixed
   * instruction; the only response modality asked for is an image.
   */
  function BuildRequest(userBase64: string, userMimeType: string,
                        garmentBase64: string, garmentMimeType: string): (req: Request)
    ensures |req.parts| == 3
    ensures ImagesOf(req.parts) == [Blob(userBase64, userMimeType), Blob(garmentBase64, garmentMimeType)]
    ensures TextsOf(req.parts) == [Instruction]
    ensures req.parts[2] == TextPart(Instruction)
    ensures req.responseModalities == [Image] && req.model == ModelName
  {
    var parts := [ImagePart(userBase64, userMimeType), ImagePart(garmentBase64, garmentMimeType), TextPart(Instruction)];
    assert parts[1..][1..] == parts[2..] && parts[2..][1..] == [];
    assert ImagesOf(parts[2..]) == [] && TextsOf(parts[2..]) == [Instruction];
    assert ImagesOf(parts[1..]) == [Blob(garmentBase64, garmentMimeType)] && TextsOf(parts[1..]) == [Instruction];
    Request(ModelName, parts, [Image])
  }

  /** `response.candidates?.[0]?.content?.parts || []`. */
  function ResponseParts(resp: Response): (parts: seq<Part>)
    ensures resp.candidates.Some? && |resp.candidates.value| > 0
            && resp.candidates.value[0].content.Some?
            && resp.candidates.value[0].content.value.parts.Some? ==>
              parts == resp.candidates.value[0].content.value.parts.value
    ensures parts != [] ==>
              resp.candidates.Some? && |resp.candidates.value| > 0
              && resp.candidates.value[0].content.Some?
              && resp.candidates.value[0].content.value.parts == Some(parts)
  {
    match resp.candidates
    case None => []
    case Some(cs) =>
      if |cs| == 0 then []
      else
        match cs[0].content
        case None => []
        case Some(content) => content.parts.GetOr([])
  }

  /** The data of the first part carrying inline data; the reference for the scan. */
  function FirstInlineData(parts: seq<Part>): Option<string>
  {
    if parts == [] then None
    else if parts[0].inlineData.Some? then Some(parts[0].inlineData.value.data)
    else FirstInlineData(parts[1..])
  }

  /**
   * `FirstInlineData` finds the data of the first part with inline data, skipping
   * every earlier part, and finds nothing exactly when no part has inline data.
   */
  lemma {:induction false} FirstInlineDataIsFirst(parts: seq<Part>)
    ensures FirstInlineData(parts).None? <==> forall k :: 0 <= k < |parts| ==> parts[k].inlineData.None?
    ensures FirstInlineData(parts).Some? ==>
              exists i :: 0 <= i < |parts| && parts[i].inlineData.Some?
                          && FirstInlineData(parts) == Some(parts[i].inlineData.value.data)
                          && forall k :: 0 <= k < i ==> parts[k].inlineData.None?
  {
    if parts != [] {
      FirstInlineDataIsFirst(parts[1..]);
      if parts[0].inlineData.None? && FirstInlineData(parts).Some? {
        var i :| 0 <= i < |parts[1..]| && parts[1..][i].inlineData.Some?
                 && FirstInlineData(parts[1..]) == Some(parts[1..][i].inlineData.value.data)
                 && forall k :: 0 <= k < i ==> parts[1..][k].inlineData.None?;
        assert parts[i + 1] == parts[1..][i];
        assert forall k :: 1 <= k < i + 1 ==> parts[k] == parts[1..][k - 1];
      }
    }
  }

  /** Parts added after the first inline image do not change what is found. */
  lemma {:induction false} FirstInlineDataIgnoresLaterParts(parts: seq<Part>, more: seq<Part>)
    requires FirstInlineData(parts).Some?
    ensures FirstInlineData(parts + more) == FirstInlineData(parts)
  {
    if parts[0].inlineData.None? {
      assert (parts + more)[1..] == parts[1..] + more;
      FirstInlineDataIgnoresLaterParts(parts[1..], more);
    }
  }

  /** Leading parts without inline data (text parts, say) are skipped. */
  lemma {:induction false} FirstInlineDataSkipsLeadingParts(prefix: seq<Part>, parts: seq<Part>)
    requires forall k :: 0 <= k < |prefix| ==> prefix[k].inlineData.None?
    ensures FirstInlineData(prefix + parts) == FirstInlineData(parts)
  {
    if prefix != [] {
      assert (prefix + parts)[0] == prefix[0];
      assert (prefix + parts)[1..] == prefix[1..] + parts;
      assert forall k :: 0 <= k < |prefix[1..]| ==> prefix[1..][k] == prefix[k + 1];
      FirstInlineDataSkipsLeadingParts(prefix[1..], parts);
    } else {
      assert prefix + parts == parts;
    }
  }

  /** What the extraction loop yields for a part list. */
  function ExtractionResult(parts: seq<Part>): Result<string>
  {
    match FirstInlineData(parts)
    case Some(data) => Ok(data)
    case None => Err(NoImageInResponse)
  }

  /** The `for … of` scan: return the first inline data, or throw after the loop. */
  method ExtractImage(parts: seq<Part>) returns (r: Result<string>)
    ensures r == ExtractionResult(parts)
    ensures r.Err? ==> Message(r.error) == "Could not extract image from Gemini response."
  {
    var i := 0;
    while i < |parts|
      invariant 0 <= i <= |parts|
      invariant FirstInlineData(parts[i..]) == FirstInlineData(parts)
    {
      assert parts[i..][1..] == parts[i + 1..];
      if parts[i].inlineData.Some? {
        return Ok(parts[i].inlineData.value.data);
      }
      i := i + 1;
    }
    return Err(NoImageInResponse);
  }

  /**
   * `virtualTryOn`. The generative backend is the parameter `generate`, given the
   * key the client is built with and the request. An absent or empty key
   * (`!process.env.API_KEY`) fails before the backend is reached, so the result is
   * the same for every backend, and no other key ever gives that error.
   */
  method VirtualTryOn(apiKey: Option<string>,
                      userBase64: string, userMimeType: string,
                      garmentBase64: string, garmentMimeType: string,
                      generate: (string, Request) -> CallOutcome)
    returns (r: Result<string>)
    ensures r == Err(MissingApiKey) <==> apiKey == None || apiKey == Some("")
    ensures !Truthy(apiKey) ==> Message(r.error) == "API_KEY environment variable is not set."
    ensures Truthy(apiKey) ==>
              match generate(apiKey.value, BuildRequest(userBase64, userMimeType, garmentBase64, garmentMimeType))
              case CallFailed(reason) => r == Err(RequestFailed(reason))
              case Responded(resp) => r == ExtractionResult(ResponseParts(resp))
  {
    if !Truthy(apiKey) {
      return Err(MissingApiKey);
    }
    var request := BuildRequest(userBase64, userMimeType, garmentBase64, garmentMimeType);
    var outcome := generate(apiKey.value, request);
    match outcome
    case CallFailed(reason) =>
      r := Err(RequestFailed(reason));
    case Responded(resp) =>
      r := ExtractImage(ResponseParts(resp));
  }

  /** Only the first candidate is read; any later candidates are ignored. */
  lemma OnlyFirstCandidateRead(first: Candidate, later: seq<Candidate>)
    ensures ResponseParts(Response(Some([first] + later))) == ResponseParts(Response(Some([first])))
  {
  }

  /** A missing candidate list, candidate, content or part list reads as no parts. */
  lemma MissingFieldsReadAsNoParts(c: Candidate)
    requires c.content.None? || c.content.value.parts.None?
    ensures ResponseParts(Response(None)) == []
    ensures ResponseParts(Response(Some([]))) == []
    ensures ResponseParts(Response(Some([c]))) == []
  {
  }
}
