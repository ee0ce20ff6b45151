/** The question-scanning page (src/app/scan-question/page.tsx): a small
    state machine over five screens. An image is captured from the camera
    or loaded from a file, then sent to the solver; the page shows the
    solution when the image is a biology question and returns to the
    preview with an error otherwise. Camera access, the canvas, the file
    reader and the solver call are environment events: each is a method
    whose argument is what the browser or the solver produced. */
module ScanQuestion {
  import opened Types

  const CameraDeniedMessage: string := "Kamera izni reddedildi veya kamera bulunamadı. Lütfen tarayıcı ayarlarınızı kontrol edin."
  const CaptureFailedMessage: string := "Fotoğraf çekilemedi. Lütfen tekrar deneyin."
  const CameraUnavailableMessage: string := "Kamera kullanılamıyor. Lütfen tarayıcı izinlerinizi kontrol edin."
  const NotBiologyMessage: string := "Görüntü bir biyoloji sorusu olarak tanımlanamadı."
  const UnknownErrorMessage: string := "Soru işlenirken bilinmeyen bir hata oluştu."

  /** `Mode`. `Upload` is declared but no handler ever selects it. */
  datatype Mode = Select | Camera | Upload | Preview | Results

  /** `SolveImageQuestionOutput` */
  datatype Solution = Solution(questionText: Option<string>, solution: string, explanation: string, isBiologyQuestion: bool)

  /** The error a failed scan leaves: the solver's own explanation (or a
      default when it is empty) for a non-biology image, the message of a
      thrown `Error`, or a default for anything else thrown. */
  function ScanError(reply: Reply<Solution>): (e: Option<string>)
    ensures e.None? <==> reply.Returned? && reply.value.isBiologyQuestion
    ensures reply.Returned? && !reply.value.isBiologyQuestion && reply.value.explanation != ""
            ==> e == Some(reply.value.explanation)
    ensures reply.Returned? && !reply.value.isBiologyQuestion && reply.value.explanation == ""
            ==> e == Some(NotBiologyMessage)
    ensures reply.ThrewError? ==> e == Some(reply.message)
    ensures reply.ThrewOther? ==> e == Some(UnknownErrorMessage)
  {
    match reply
    case Returned(r) =>
      if r.isBiologyQuestion then None
      else Some(if r.explanation != "" then r.explanation else NotBiologyMessage)
    case ThrewError(m) => Some(m)
    case ThrewOther => Some(UnknownErrorMessage)
  }

  /** Of the failures, only a thrown `Error` with an empty message leaves an
      error that the preview does not show. */
  lemma FailuresAreVisible(reply: Reply<Solution>)
    requires ScanError(reply).Some?
    ensures !Truthy(ScanError(reply)) <==> reply == ThrewError("")
  {
  }

  /** What the page renders. */
  datatype Screen =
    | SelectScreen
    | CameraDenied(message: string)
    | CameraLive(canCapture: bool)
    | PreviewScreen(scanEnabled: bool, retakeEnabled: bool, alert: Option<string>)
    | ResultsScreen(result: Solution, alert: Option<string>)
    | ResultsFallback
    | Nothing

  class ScanPage {
    var mode: Mode
    var hasCameraPermission: Option<bool>
    var imageSrc: Option<string>
    var isProcessingAi: bool
    var aiResults: Option<Solution>
    var error: Option<string>

    /** Outside a running scan, the results screen always has a biology
        solution to show. */
    ghost predicate Valid()
      reads this
    {
      mode == Results && !isProcessingAi ==> aiResults.Some? && aiResults.value.isBiologyQuestion
    }

    constructor ()
      ensures Valid()
      ensures mode == Select && hasCameraPermission == None && imageSrc == None
      ensures !isProcessingAi && aiResults == None && error == None
    {
      mode := Select;
      hasCameraPermission := None;
      imageSrc := None;
      isProcessingAi := false;
      aiResults := None;
      error := None;
    }

    /** "Kamerayı Kullan": switch to the camera screen, whose effect asks for
        the camera. */
    method UseCamera()
      requires Valid()
      modifies this`mode
      ensures Valid() && mode == Camera
    {
      mode := Camera;
    }

    /** "Geri Dön" / "İptal" on the camera screen. The permission and any
        error are kept. */
    method CancelCamera()
      requires Valid()
      modifies this`mode
      ensures Valid() && mode == Select
    {
      mode := Select;
    }

    /** The camera request settling: granted, or refused with the error
        message set. */
    method CameraAccessSettled(granted: bool)
      requires Valid()
      modifies this`hasCameraPermission, this`error
      ensures Valid()
      ensures hasCameraPermission == Some(granted)
      ensures error == if granted then old(error) else Some(CameraDeniedMessage)
    {
      hasCameraPermission := Some(granted);
      if !granted {
        error := Some(CameraDeniedMessage);
      }
    }

    /** `handleCaptureImage`: nothing happens without the video and canvas
        elements; without a drawing context only the error is set; otherwise
        the frame becomes the image, earlier results and errors are cleared
        and the preview opens. */
    method CaptureImage(refsReady: bool, contextOk: bool, dataUrl: string)
      requires Valid()
      modifies this`imageSrc, this`aiResults, this`error, this`mode
      ensures Valid()
      ensures !refsReady ==> (imageSrc == old(imageSrc) && aiResults == old(aiResults)
                              && error == old(error) && mode == old(mode))
      ensures refsReady && !contextOk ==> (error == Some(CaptureFailedMessage) && imageSrc == old(imageSrc)
                                           && aiResults == old(aiResults) && mode == old(mode))
      ensures refsReady && contextOk ==> (imageSrc == Some(dataUrl) && aiResults == None
                                          && error == None && mode == Preview)
    {
      if refsReady {
        if contextOk {
          imageSrc := Some(dataUrl);
          aiResults := None;
          error := None;
          mode := Preview;
        } else {
          error := Some(CaptureFailedMessage);
        }
      }
    }

    /** The file reader's `onload` for a chosen file. */
    method FileLoaded(dataUrl: string)
      requires Valid()
      modifies this`imageSrc, this`aiResults, this`error, this`mode
      ensures Valid()
      ensures imageSrc == Some(dataUrl) && aiResults == None && error == None && mode == Preview
    {
      imageSrc := Some(dataUrl);
      aiResults := None;
      error := None;
      mode := Preview;
    }

    /** `handleRetakeOrUploadAnother`: back to the start with nothing kept. */
    method Retake()
      requires Valid()
      modifies this`imageSrc, this`aiResults, this`error, this`mode
      ensures Valid()
      ensures imageSrc == None && aiResults == None && error == None && mode == Select
    {
      imageSrc := None;
      error := None;
      aiResults := None;
      mode := Select;
    }

    /** `handleScanWithAi` up to the solver call. Without an image nothing
        happens; otherwise the scan starts with errors and results cleared,
        and the image is handed to the solver. (The button is disabled while
        a scan runs, so scans do not overlap.) */
    method StartScan() returns (request: Option<string>)
      requires Valid() && !isProcessingAi
      modifies this`isProcessingAi, this`error, this`aiResults
      ensures Valid()
      ensures !Truthy(old(imageSrc)) ==> (request == None && !isProcessingAi
                                          && error == old(error) && aiResults == old(aiResults))
      ensures Truthy(old(imageSrc)) ==> (request == imageSrc && isProcessingAi
                                         && error == None && aiResults == None)
      ensures request.Some? <==> isProcessingAi
    {
      if !Truthy(imageSrc) {
        return None;
      }
      isProcessingAi := true;
      error := None;
      aiResults := None;
      request := imageSrc;
    }

    /** The rest of `handleScanWithAi` once the solver settles: a biology
        solution opens the results; anything else returns to the preview
        with the error of `ScanError`. The reply is kept whenever there is
        one. */
    method FinishScan(reply: Reply<Solution>)
      requires Valid() && isProcessingAi
      modifies this`isProcessingAi, this`error, this`aiResults, this`mode
      ensures Valid()
      ensures !isProcessingAi
      ensures aiResults == if reply.Returned? then Some(reply.value) else old(aiResults)
      ensures mode == Results <==> ScanError(reply).None?
      ensures mode != Results ==> mode == Preview && error == ScanError(reply)
      ensures mode == Results ==> error == old(error)
    {
      match reply {
        case Returned(r) =>
          aiResults := Some(r);
          if r.isBiologyQuestion {
            mode := Results;
          } else {
            error := Some(if r.explanation != "" then r.explanation else NotBiologyMessage);
            mode := Preview;
          }
        case ThrewError(m) =>
          error := Some(m);
          mode := Preview;
        case ThrewOther =>
          error := Some(UnknownErrorMessage);
          mode := Preview;
      }
      isProcessingAi := false;
    }

    /** `renderContent` */
    function Render(): Screen
      reads this
    {
      match mode
      case Select => SelectScreen
      case Camera =>
        if hasCameraPermission == Some(false) then
          CameraDenied(if Truthy(error) then error.value else CameraUnavailableMessage)
        else CameraLive(hasCameraPermission == Some(true))
      case Preview => PreviewScreen(!isProcessingAi && Truthy(imageSrc), !isProcessingAi,
                                    if Truthy(error) then error else None)
      case Results =>
        if aiResults.None? then ResultsFallback
        else ResultsScreen(aiResults.value, if Truthy(error) then error else None)
      case Upload => Nothing
    }
  }

  /** The fallback of the results screen is shown only while a scan runs;
      otherwise the results screen shows a biology solution. */
  lemma ResultsFallbackOnlyWhileScanning(p: ScanPage)
    requires p.Valid() && p.mode == Results
    ensures p.Render() == ResultsFallback ==> p.isProcessingAi
    ensures !p.isProcessingAi ==> p.Render().ResultsScreen? && p.Render().result.isBiologyQuestion
  {
  }

  /** A full successful round: load an image, scan it, and receive a
      biology solution. The page then shows exactly that solution, with no
      error. */
  method ScanRound(p: ScanPage, dataUrl: string, answer: Solution) returns (screen: Screen)
    requires p.Valid() && !p.isProcessingAi && dataUrl != "" && answer.isBiologyQuestion
    modifies p
    ensures screen == ResultsScreen(answer, None)
  {
    p.FileLoaded(dataUrl);
    var request := p.StartScan();
    assert request == Some(dataUrl);
    p.FinishScan(Returned(answer));
    screen := p.Render();
  }

  /** A non-biology answer or a failure leaves the user on the preview with
      the image kept and scanning possible again. */
  method FailedRound(p: ScanPage, dataUrl: string, reply: Reply<Solution>) returns (screen: Screen)
    requires p.Valid() && !p.isProcessingAi && dataUrl != "" && ScanError(reply).Some?
    modifies p
    ensures p.imageSrc == Some(dataUrl) && p.mode == Preview
    ensures screen.PreviewScreen? && screen.scanEnabled && screen.retakeEnabled
    ensures Truthy(ScanError(reply)) ==> screen.alert == ScanError(reply)
  {
    p.FileLoaded(dataUrl);
    var request := p.StartScan();
    p.FinishScan(reply);
    screen := p.Render();
  }
}
