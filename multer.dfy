/** The upload middleware: an in-memory store with a MIME-type filter and a
    per-file size limit. */
module Multer {
  import opened Common

  /** The content types the filter lets through. */
  const AllowedMimetypes: seq<string> := [
    "application/pdf",
    "application/msword",
    "application/vnd.openxmlformats-officedocument.wordprocessingml.document",
    "image/jpeg",
    "image/png",
    "image/gif"
  ]

  const RejectionMessage := "Unsupported file type. Allowed: pdf, doc, docx, jpg, png, gif"

  /** What the filter hands to multer's callback: an optional error and
      whether the file is accepted. */
  datatype FilterCallback = FilterCallback(error: Option<string>, accept: bool)

  /** The filter accepts a file exactly when its type is on the list; on
      rejection the callback receives the error message and `false`. */
  function FileFilter(mimetype: string): (cb: FilterCallback)
    ensures cb.accept ==> cb.error == None
    ensures !cb.accept ==> cb.error == Some(RejectionMessage)
    ensures cb.accept <==> mimetype in {"application/pdf", "application/msword",
      "application/vnd.openxmlformats-officedocument.wordprocessingml.document",
      "image/jpeg", "image/png", "image/gif"}
  {
    if mimetype in AllowedMimetypes then FilterCallback(None, true)
    else FilterCallback(Some(RejectionMessage), false)
  }

  /** The per-file size limit in bytes: 120 MiB. */
  function MaxFileSize(): (n: nat)
    ensures n == 125829120
  {
    120 * 1024 * 1024
  }
}
