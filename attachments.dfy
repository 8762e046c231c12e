/**
 * The attachment records shared by the chat box, the ask-the-doctor form and
 * the AI request adapter. Their declaring file (src/types/chat.ts) is not part
 * of this model; the fields below are the ones the modelled handlers read or
 * write.
 */
module Attachments {
  import opened Common

  /** The browser `File`: declared name, declared MIME type, size in bytes. */
  datatype FileInfo = FileInfo(name: string, mime: string, size: nat)

  /** `uploadType`: 'image' | 'pdf' | 'document'. */
  datatype UploadType = ImageUpload | PdfUpload | DocumentUpload

  /** `status`: 'processing' | 'ready' | 'error'. */
  datatype Status = Processing | Ready | Errored

  /** `progressInfo`: stage, its description, a percentage, and the extraction method once known. */
  datatype ProgressInfo = ProgressInfo(stage: string, description: string, percentage: nat, extractionMethod: Option<string>)

  datatype Attachment = Attachment(
    id: string,
    file: FileInfo,
    uploadType: UploadType,
    status: Status,
    base64Data: string,
    preview: Option<string>,
    extractedText: Option<string>,
    pdfPageCount: Option<nat>,
    progress: ProgressInfo,
    error: Option<string>)

  /** One entry of the AI endpoint's `uploads` array (`type`, optional `name`, `data`, optional `mime`). */
  datatype Upload = Upload(kind: string, name: Option<string>, data: string, mime: Option<string>)

  /** What the external converter hands back for one attachment: one upload, or an array of them. */
  datatype Converted = One(upload: Upload) | Many(uploads: seq<Upload>)

  /** `Array.isArray(result) ? result : [result]` */
  function AsList(c: Converted): (r: seq<Upload>)
    ensures c.One? ==> r == [c.upload]
    ensures c.Many? ==> r == c.uploads
  {
    match c
    case One(u) => [u]
    case Many(us) => us
  }
}
