/**
 * components/ResultDisplay.tsx: which pane the result area shows, when the
 * download button is rendered, and what the download produces.
 */
module ResultDisplay {
  import opened Options

  datatype Pane = LoadingSkeleton | ResultImage(src: string) | Placeholder

  /** The link `handleDownload` creates and clicks. */
  datatype DownloadLink = DownloadLink(href: string, filename: string)

  const DownloadFilename := "generated-image.png"

  /** `handleDownload`: nothing without a result, else a link to it under the fixed name. */
  function Download(resultImage: Option<string>): (link: Option<DownloadLink>)
    ensures resultImage.None? || resultImage.value == "" ==> link.None?
    ensures link.Some? ==> resultImage == Some(link.value.href) && link.value.filename == DownloadFilename
  {
    if !Truthy(resultImage) then None
    else Some(DownloadLink(resultImage.value, DownloadFilename))
  }

  /**
   * `!isLoading && hasResult`, with `hasResult = !!resultImage`: the button is shown
   * exactly when nothing is loading and pressing it would download something.
   */
  function DownloadVisible(isLoading: bool, resultImage: Option<string>): (visible: bool)
    ensures visible <==> !isLoading && Download(resultImage).Some?
  {
    !isLoading && Truthy(resultImage)
  }

  /**
   * The nested conditional of the pane. Loading wins whatever the result holds.
   * The result image is shown exactly when the download button is, with the very
   * string the download links to; the placeholder is what remains.
   */
  function SelectPane(isLoading: bool, resultImage: Option<string>): (pane: Pane)
    ensures pane == LoadingSkeleton <==> isLoading
    ensures pane.ResultImage? <==> DownloadVisible(isLoading, resultImage)
    ensures pane.ResultImage? ==>
              resultImage == Some(pane.src)
              && Download(resultImage) == Some(DownloadLink(pane.src, DownloadFilename))
  {
    if isLoading then LoadingSkeleton
    else if Truthy(resultImage) then ResultImage(resultImage.value)
    else Placeholder
  }
}
