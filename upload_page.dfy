/**
 * The upload page: the file-size label, and the page state that the drop
 * handler, the Remove button and the Analyze handler update. The drop zone's
 * own classification of files into accepted and rejected (by extension) is
 * done by the drop-zone library and arrives here as the two lists it passes.
 */
module UploadPage {
  import opened Wrappers
  import opened Text

  const KiB: nat := 1024
  const MiB: nat := 1024 * 1024

  /** The client-side upload ceiling: 10 MiB. */
  const MaxSize: nat := 10 * 1024 * 1024

  /** `formatFileSize`: `bytes + ' B'`, `(bytes / 1024).toFixed(2) + ' KB'` or `(bytes / (1024 * 1024)).toFixed(2) + ' MB'`. */
  datatype SizeLabel = Bytes(count: nat) | Kilobytes(amount: Fixed) | Megabytes(amount: Fixed)

  function UnitBytes(shown: SizeLabel): real
  {
    match shown
    case Bytes(_) => 1.0
    case Kilobytes(_) => KiB as real
    case Megabytes(_) => MiB as real
  }

  function FormatFileSize(bytes: nat): (shown: SizeLabel)
    ensures shown.Bytes? <==> bytes < KiB
    ensures shown.Kilobytes? <==> KiB <= bytes < MiB
    ensures shown.Megabytes? <==> MiB <= bytes
    ensures shown.Bytes? ==> shown.count == bytes
    ensures !shown.Bytes? ==> shown.amount.digits == 2 && shown.amount.value * UnitBytes(shown) == bytes as real
    ensures shown.Kilobytes? ==> 1.0 <= shown.amount.value < 1024.0
    ensures shown.Megabytes? ==> 1.0 <= shown.amount.value
  {
    if bytes < KiB then Bytes(bytes)
    else if bytes < MiB then Kilobytes(Fixed(bytes as real / KiB as real, 2))
    else Megabytes(Fixed(bytes as real / MiB as real, 2))
  }

  /** A file offered by the drop zone. */
  datatype FileInfo = FileInfo(name: string, size: nat)

  /** The notifications the page raises, by what they say. */
  datatype Message =
    | InvalidFileType      // 'Invalid file type. Please upload CSV, TXT, or XLSX files.'
    | FileTooLarge         // 'File too large. Maximum size is 10MB.'
    | FileSelected(name: string)
    | FileRemoved
    | SelectFileFirst      // 'Please select a file first.'
    | AnalysisCompleted
    | AnalysisFailed(text: string)

  datatype Toast = ErrorToast(message: Message) | SuccessToast(message: Message) | PlainToast(message: Message)

  /** An axios error: `error.response?.data?.detail` and `error.message`, either possibly missing. */
  datatype RequestError = RequestError(detail: Option<string>, message: Option<string>)

  /** What the awaited prediction request gave: the payload, or an error. */
  datatype RequestOutcome<P> = Answered(result: P) | Failed(error: RequestError)

  const DefaultFailureText: string := "Failed to analyze the file. Please try again."

  /** A JavaScript string in a `||` chain: truthy when present and non-empty. */
  predicate Truthy(s: Option<string>)
  {
    s.Some? && s.value != ""
  }

  /** `error.response?.data?.detail || error.message || 'Failed to analyze ...'`. */
  function ErrorMessage(e: RequestError): (text: string)
    ensures text != ""
    ensures Truthy(e.detail) ==> text == e.detail.value
    ensures !Truthy(e.detail) && Truthy(e.message) ==> text == e.message.value
    ensures !Truthy(e.detail) && !Truthy(e.message) ==> text == DefaultFailureText
  {
    if Truthy(e.detail) then e.detail.value
    else if Truthy(e.message) then e.message.value
    else DefaultFailureText
  }

  /** The page's state: `selectedFile`, `isLoading`, the toasts shown so far and the result navigated to. */
  class UploadPage<P> {
    var selectedFile: Option<FileInfo>
    var isLoading: bool
    var toasts: seq<Toast>
    var shownResult: Option<P>

    constructor ()
      ensures selectedFile == None && !isLoading && toasts == [] && shownResult == None
    {
      selectedFile := None;
      isLoading := false;
      toasts := [];
      shownResult := None;
    }

    /** `disabled={!selectedFile || isLoading}` is false. */
    predicate AnalyzeEnabled()
      reads this
    {
      selectedFile.Some? && !isLoading
    }

    /** `onDrop`: any rejected file, or a first accepted file over 10 MiB, is refused; else the first accepted file is selected. */
    method OnDrop(accepted: seq<FileInfo>, rejected: seq<FileInfo>)
      modifies this
      ensures isLoading == old(isLoading) && shownResult == old(shownResult)
      ensures |rejected| > 0 ==>
                selectedFile == old(selectedFile) && toasts == old(toasts) + [ErrorToast(InvalidFileType)]
      ensures |rejected| == 0 && |accepted| > 0 && accepted[0].size > MaxSize ==>
                selectedFile == old(selectedFile) && toasts == old(toasts) + [ErrorToast(FileTooLarge)]
      ensures |rejected| == 0 && |accepted| > 0 && accepted[0].size <= MaxSize ==>
                selectedFile == Some(accepted[0]) && toasts == old(toasts) + [SuccessToast(FileSelected(accepted[0].name))]
      ensures |rejected| == 0 && |accepted| == 0 ==>
                selectedFile == old(selectedFile) && toasts == old(toasts)
      ensures old(AnalyzeEnabled()) ==> AnalyzeEnabled()
      ensures |rejected| == 0 && |accepted| > 0 && accepted[0].size <= MaxSize && !isLoading ==> AnalyzeEnabled()
    {
      if |rejected| > 0 {
        toasts := toasts + [ErrorToast(InvalidFileType)];
        return;
      }
      if |accepted| > 0 {
        var file := accepted[0];
        if file.size > MaxSize {
          toasts := toasts + [ErrorToast(FileTooLarge)];
          return;
        }
        selectedFile := Some(file);
        toasts := toasts + [SuccessToast(FileSelected(file.name))];
      }
    }

    /** The Remove button. */
    method Remove()
      modifies this
      ensures selectedFile == None
      ensures toasts == old(toasts) + [PlainToast(FileRemoved)]
      ensures isLoading == old(isLoading) && shownResult == old(shownResult)
      ensures !AnalyzeEnabled()
    {
      selectedFile := None;
      toasts := toasts + [PlainToast(FileRemoved)];
    }

    /** `handleAnalyze` up to the `await`: returns the file sent to the server, if any. */
    method StartAnalyze() returns (request: Option<FileInfo>)
      modifies this
      ensures request == old(selectedFile)
      ensures selectedFile == old(selectedFile) && shownResult == old(shownResult)
      ensures request.None? ==> isLoading == old(isLoading) && toasts == old(toasts) + [ErrorToast(SelectFileFirst)]
      ensures request.Some? ==> isLoading && toasts == old(toasts)
      ensures !AnalyzeEnabled()
    {
      if selectedFile.None? {
        toasts := toasts + [ErrorToast(SelectFileFirst)];
        request := None;
        return;
      }
      isLoading := true;
      request := selectedFile;
    }

    /** `handleAnalyze` after the `await`: the try, catch and finally blocks. */
    method FinishAnalyze(outcome: RequestOutcome<P>)
      modifies this
      ensures !isLoading
      ensures selectedFile == old(selectedFile)
      ensures outcome.Answered? ==>
                shownResult == Some(outcome.result) && toasts == old(toasts) + [SuccessToast(AnalysisCompleted)]
      ensures outcome.Failed? ==>
                shownResult == old(shownResult) &&
                toasts == old(toasts) + [ErrorToast(AnalysisFailed(ErrorMessage(outcome.error)))]
      ensures AnalyzeEnabled() <==> selectedFile.Some?
    {
      match outcome {
        case Answered(result) =>
          toasts := toasts + [SuccessToast(AnalysisCompleted)];
          shownResult := Some(result);
        case Failed(error) =>
          toasts := toasts + [ErrorToast(AnalysisFailed(ErrorMessage(error)))];
      }
      isLoading := false;
    }

    /**
     * The whole handler when nothing else happens while the request is pending:
     * without a selection no request is made; otherwise the page is loading
     * while the request is out and not loading afterwards, whatever its outcome.
     */
    method HandleAnalyze(outcome: RequestOutcome<P>) returns (request: Option<FileInfo>, loadingWhilePending: bool)
      modifies this
      ensures request == old(selectedFile)
      ensures selectedFile == old(selectedFile)
      ensures request.None? ==>
                isLoading == old(isLoading) && shownResult == old(shownResult) &&
                toasts == old(toasts) + [ErrorToast(SelectFileFirst)]
      ensures request.Some? ==> loadingWhilePending && !isLoading
      ensures request.Some? && outcome.Answered? ==>
                shownResult == Some(outcome.result) && toasts == old(toasts) + [SuccessToast(AnalysisCompleted)]
      ensures request.Some? && outcome.Failed? ==>
                shownResult == old(shownResult) &&
                toasts == old(toasts) + [ErrorToast(AnalysisFailed(ErrorMessage(outcome.error)))]
    {
      request := StartAnalyze();
      loadingWhilePending := isLoading;
      if request.Some? {
        FinishAnalyze(outcome);
      }
    }
  }

  /**
   * A refused drop leaves an earlier selection in place: after a small file is
   * selected, an oversized drop and a wrong-type drop change nothing, the
   * button stays enabled, the small file is what gets sent, and a failure
   * without a server message shows the default text.
   */
  method RefusedDropKeepsSelection(small: FileInfo, big: FileInfo)
    returns (selection: Option<FileInfo>, enabled: bool, request: Option<FileInfo>, lastToast: Toast)
    requires small.size <= MaxSize < big.size
    ensures selection == Some(small) && enabled
    ensures request == Some(small)
    ensures lastToast == ErrorToast(AnalysisFailed(DefaultFailureText))
  {
    var page := new UploadPage<int>();
    page.OnDrop([small], []);
    page.OnDrop([big], []);
    page.OnDrop([], [big]);
    selection := page.selectedFile;
    enabled := page.AnalyzeEnabled();
    var loading;
    request, loading := page.HandleAnalyze(Failed(RequestError(None, None)));
    lastToast := page.toasts[|page.toasts| - 1];
  }
}
