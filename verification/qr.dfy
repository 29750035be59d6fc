/** The QR routes: a batch's public trace link, encoded as a PNG or an SVG image. */
module Qr {
  import opened Wrappers
  import opened Domain
  import opened Storage

  /** The public page of a batch under the configured front-end address. */
  function TraceUrl(frontendUrl: string, batchId: string): (u: string)
    ensures |u| == |frontendUrl| + 7 + |batchId|
    ensures u[..|frontendUrl|] == frontendUrl && u[|frontendUrl| + 7..] == batchId
    ensures u[|frontendUrl|..|frontendUrl| + 7] == "/trace/"
  {
    frontendUrl + "/trace/" + batchId
  }

  datatype Format = Png | Svg

  function Extension(f: Format): string {
    match f
    case Png => "png"
    case Svg => "svg"
  }

  function ContentType(f: Format): string {
    match f
    case Png => "image/png"
    case Svg => "image/svg+xml"
  }

  /** What a QR route answers with: the encoded text, the headers and the rendering options. The
      image encoding itself is left to the QR library. */
  datatype QrImage = QrImage(content: string, contentType: string, filename: string, width: nat, margin: nat)

  /** A QR route: not found for an unknown batch, otherwise the batch's trace link as a 300-pixel
      image with a margin of 2, named after the batch. */
  function QrCode(s: Store, frontendUrl: string, batchId: string, format: Format): (r: Result<QrImage, Error>)
    ensures FindBatch(s, batchId).None? <==> r == Failure(NotFound("Batch not found"))
    ensures r.Success? ==>
      && r.value.content == TraceUrl(frontendUrl, batchId)
      && r.value.filename == "batch-" + batchId + "-qr." + Extension(format)
      && r.value.contentType == ContentType(format)
      && r.value.width == 300 && r.value.margin == 2
  {
    match FindBatch(s, batchId)
    case None => Failure(NotFound("Batch not found"))
    case Some(b) =>
      Success(QrImage(TraceUrl(frontendUrl, b.batchId), ContentType(format),
                      "batch-" + b.batchId + "-qr." + Extension(format), 300, 2))
  }

  /** Both formats encode the same link. */
  lemma FormatsEncodeTheSameLink(s: Store, frontendUrl: string, batchId: string)
    ensures QrCode(s, frontendUrl, batchId, Png).Success? <==> QrCode(s, frontendUrl, batchId, Svg).Success?
    ensures QrCode(s, frontendUrl, batchId, Png).Success? ==>
      QrCode(s, frontendUrl, batchId, Png).value.content == QrCode(s, frontendUrl, batchId, Svg).value.content
  {
  }
}
