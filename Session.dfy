/**
 * The session held by the `App` component (App.tsx): two upload slots, the
 * generated result, the loading flag and the error text, changed by the upload,
 * try-on and reset handlers. The awaits of the try-on handler split it into a
 * start step and a settle step; the outcome of each file read is an input.
 */
module Session {
  import opened Options
  import Codec
  import GeminiService
  import ResultDisplay

  /** A picked file: all the handlers read of it is its media type, `file.type`. */
  datatype File = File(mimeType: string)

  /** `{ file, base64 }`: the file and the payload of its data URL. */
  datatype UploadedImage = UploadedImage(file: File, base64: string)

  /** How the FileReader ends: loaded with a data URL, or rejected. */
  datatype FileRead = Loaded(dataUrl: Codec.DataUrl) | ReadFailed

  /** The arguments of the `virtualTryOn` call, in the order they are passed. */
  datatype TryOnCall = TryOnCall(userBase64: string, userMimeType: string,
                                 garmentBase64: string, garmentMimeType: string)

  const UserImageLoadError := "Failed to load user image."
  const GarmentImageLoadError := "Failed to load garment image."
  const MissingImagesError := "Please upload both your photo and a garment photo."
  const GenerationError := "Failed to generate the try-on image. The AI model might be busy. Please try again."
  const ResultUrlHeader := "data:image/png;base64"

  /** `fileToBase64` as the handlers see it: the payload, or nothing when the read is rejected. */
  function FileToBase64(read: FileRead): (r: Option<string>)
    ensures r.None? <==> read.ReadFailed?
    ensures r.Some? ==> ',' !in r.value
  {
    match read
    case Loaded(url) => Some(Codec.Payload(url))
    case ReadFailed => None
  }

  /** The data URL the result is stored as. */
  function ResultDataUrl(payload: string): (url: string)
    ensures ',' in url && url != ""
  {
    assert (ResultUrlHeader + "," + payload)[|ResultUrlHeader|] == ',';
    ResultUrlHeader + "," + payload
  }

  /** Reading back the payload of a stored result gives the generated payload. */
  lemma ResultDataUrlRoundTrip(payload: string)
    requires ',' !in payload
    ensures Codec.Payload(ResultDataUrl(payload)) == payload
  {
    Codec.PayloadOfDataUrl(ResultUrlHeader, payload);
  }

  /**
   * The call `handleVirtualTryOn` makes, user photo first. The request it leads to
   * carries the user image, then the garment image, each with its own base64 and type.
   */
  function Dispatch(user: UploadedImage, garment: UploadedImage): (call: TryOnCall)
    ensures var req := GeminiService.BuildRequest(call.userBase64, call.userMimeType, call.garmentBase64, call.garmentMimeType);
            GeminiService.ImagesOf(req.parts)
              == [GeminiService.Blob(user.base64, user.file.mimeType), GeminiService.Blob(garment.base64, garment.file.mimeType)]
  {
    TryOnCall(user.base64, user.file.mimeType, garment.base64, garment.file.mimeType)
  }

  class App {
    var userImage: Option<UploadedImage>
    var garmentImage: Option<UploadedImage>
    var resultImage: Option<string>
    var isLoading: bool
    var error: Option<string>
    /** Try-on calls dispatched whose await has not settled yet. */
    ghost var pending: nat

    /** The loading flag is only ever on while a call is in flight. */
    ghost predicate Valid()
      reads this
    {
      isLoading ==> pending > 0
    }

    constructor ()
      ensures Valid()
      ensures userImage == None && garmentImage == None && resultImage == None
      ensures !isLoading && error == None && pending == 0
    {
      userImage, garmentImage, resultImage := None, None, None;
      isLoading, error := false, None;
      pending := 0;
    }

    /**
     * The try-on button's `disabled`. While it is enabled the result pane is not the
     * loading skeleton, and pressing it dispatches a call (`VirtualTryOnStart`),
     * after which it is disabled.
     */
    function TryOnDisabled(): (disabled: bool)
      reads this
      ensures disabled <==> userImage.None? || garmentImage.None? || isLoading
      ensures !disabled ==> ResultDisplay.SelectPane(isLoading, resultImage) != ResultDisplay.LoadingSkeleton
    {
      userImage.None? || garmentImage.None? || isLoading
    }

    /** `handleUserImageUpload`: a loaded file fills the user slot, a failed read only sets the error. */
    method UploadUserImage(file: File, read: FileRead)
      requires Valid()
      modifies this
      ensures Valid()
      ensures read.Loaded? ==>
                userImage == Some(UploadedImage(file, Codec.Payload(read.dataUrl))) && error == old(error)
      ensures read.ReadFailed? ==> userImage == old(userImage) && error == Some(UserImageLoadError)
      ensures garmentImage == old(garmentImage) && resultImage == old(resultImage)
      ensures isLoading == old(isLoading) && pending == old(pending)
    {
      var base64 := FileToBase64(read);
      match base64
      case Some(payload) =>
        userImage := Some(UploadedImage(file, payload));
      case None =>
        error := Some(UserImageLoadError);
    }

    /** `handleGarmentImageUpload`: a loaded file fills the garment slot, a failed read only sets the error. */
    method UploadGarmentImage(file: File, read: FileRead)
      requires Valid()
      modifies this
      ensures Valid()
      ensures read.Loaded? ==>
                garmentImage == Some(UploadedImage(file, Codec.Payload(read.dataUrl))) && error == old(error)
      ensures read.ReadFailed? ==> garmentImage == old(garmentImage) && error == Some(GarmentImageLoadError)
      ensures userImage == old(userImage) && resultImage == old(resultImage)
      ensures isLoading == old(isLoading) && pending == old(pending)
    {
      var base64 := FileToBase64(read);
      match base64
      case Some(payload) =>
        garmentImage := Some(UploadedImage(file, payload));
      case None =>
        error := Some(GarmentImageLoadError);
    }

    /**
     * `handleVirtualTryOn` up to its await. Without both photos it only sets the
     * error and calls nothing; otherwise it turns loading on, clears error and
     * result, and returns the call it makes. It does not look at `isLoading`:
     * only the button's `disabled` keeps a second call from starting.
     */
    method VirtualTryOnStart() returns (call: Option<TryOnCall>)
      requires Valid()
      modifies this
      ensures Valid()
      ensures call.Some? <==> old(userImage).Some? && old(garmentImage).Some?
      ensures !old(TryOnDisabled()) ==> call.Some?
      ensures call.Some? ==> TryOnDisabled()
      ensures call.None? ==>
                error == Some(MissingImagesError) && resultImage == old(resultImage)
                && isLoading == old(isLoading) && pending == old(pending)
      ensures call.Some? ==>
                call.value == Dispatch(old(userImage).value, old(garmentImage).value)
                && isLoading && error == None && resultImage == None && pending == old(pending) + 1
                && ResultDisplay.SelectPane(isLoading, resultImage) == ResultDisplay.LoadingSkeleton
      ensures userImage == old(userImage) && garmentImage == old(garmentImage)
    {
      if userImage.None? || garmentImage.None? {
        error := Some(MissingImagesError);
        return None;
      }
      isLoading := true;
      error := None;
      resultImage := None;
      pending := pending + 1;
      call := Some(Dispatch(userImage.value, garmentImage.value));
    }

    /**
     * `handleVirtualTryOn` after its await: a generated payload becomes the result
     * as a PNG data URL, a rejection sets the fixed message, and `finally` turns
     * loading off either way.
     */
    method VirtualTryOnSettle(outcome: GeminiService.Result<string>)
      requires Valid() && pending > 0
      modifies this
      ensures Valid()
      ensures !isLoading && pending == old(pending) - 1
      ensures outcome.Ok? ==>
                resultImage == Some(ResultDataUrl(outcome.value)) && error == old(error)
                && ResultDisplay.SelectPane(isLoading, resultImage) == ResultDisplay.ResultImage(ResultDataUrl(outcome.value))
                && ResultDisplay.DownloadVisible(isLoading, resultImage)
      ensures outcome.Err? ==> resultImage == old(resultImage) && error == Some(GenerationError)
      ensures userImage == old(userImage) && garmentImage == old(garmentImage)
    {
      match outcome {
        case Ok(generated) =>
          resultImage := Some(ResultDataUrl(generated));
        case Err(_) =>
          error := Some(GenerationError);
      }
      isLoading := false;
      pending := pending - 1;
    }

    /** `handleReset`: every field back to its initial value, from any state. */
    method Reset()
      requires Valid()
      modifies this
      ensures Valid()
      ensures userImage == None && garmentImage == None && resultImage == None
      ensures error == None && !isLoading && pending == old(pending)
    {
      userImage := None;
      garmentImage := None;
      resultImage := None;
      error := None;
      isLoading := false;
    }

    /**
     * The whole try-on handler when nothing else happens during the await: start,
     * the service call with the given key and backend, then settle. Its outcome is
     * returned when a call was made.
     */
    method HandleVirtualTryOn(apiKey: Option<string>, generate: (string, GeminiService.Request) -> GeminiService.CallOutcome)
      returns (outcome: Option<GeminiService.Result<string>>)
      requires Valid()
      modifies this
      ensures Valid() && pending == old(pending)
      ensures outcome.Some? <==> old(userImage).Some? && old(garmentImage).Some?
      ensures outcome.None? ==>
                error == Some(MissingImagesError) && resultImage == old(resultImage) && isLoading == old(isLoading)
      ensures outcome.Some? && !Truthy(apiKey) ==> outcome.value == GeminiService.Err(GeminiService.MissingApiKey)
      ensures outcome.Some? ==> !isLoading
      ensures outcome.Some? && old(userImage).Some? && old(garmentImage).Some? && Truthy(apiKey) ==>
                var c := Dispatch(old(userImage).value, old(garmentImage).value);
                match generate(apiKey.value, GeminiService.BuildRequest(c.userBase64, c.userMimeType, c.garmentBase64, c.garmentMimeType))
                case CallFailed(reason) => outcome.value == GeminiService.Err(GeminiService.RequestFailed(reason))
                case Responded(resp) => outcome.value == GeminiService.ExtractionResult(GeminiService.ResponseParts(resp))
      ensures outcome.Some? && outcome.value.Ok? ==>
                resultImage == Some(ResultDataUrl(outcome.value.value)) && error == None
      ensures outcome.Some? && outcome.value.Err? ==> resultImage == None && error == Some(GenerationError)
      ensures userImage == old(userImage) && garmentImage == old(garmentImage)
    {
      var call := VirtualTryOnStart();
      if call.None? {
        return None;
      }
      var c := call.value;
      var r := GeminiService.VirtualTryOn(apiKey, c.userBase64, c.userMimeType, c.garmentBase64, c.garmentMimeType, generate);
      VirtualTryOnSettle(r);
      outcome := Some(r);
    }
  }

  /**
   * Reset does not wait for a call in flight: it turns loading off, so after new
   * uploads the button is enabled again and a second call starts while the first
   * one has not settled.
   */
  method ResetDuringGeneration(user: File, garment: File, url: Codec.DataUrl)
    returns (app: App, first: Option<TryOnCall>, enabledAgain: bool, second: Option<TryOnCall>)
    ensures fresh(app) && app.Valid()
    ensures first.Some? && enabledAgain && second.Some?
    ensures app.pending == 2
  {
    app := new App();
    app.UploadUserImage(user, Loaded(url));
    app.UploadGarmentImage(garment, Loaded(url));
    first := app.VirtualTryOnStart();
    app.Reset();
    app.UploadUserImage(user, Loaded(url));
    app.UploadGarmentImage(garment, Loaded(url));
    enabledAgain := !app.TryOnDisabled();
    second := app.VirtualTryOnStart();
  }
}
