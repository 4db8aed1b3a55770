/**
  Values shared by every part of the transcoding proxy: optional JSON fields,
  Python's truthiness of such a field, the Drive file record and the two
  kinds of failure the service can surface.
 */
module Common {

  datatype Option<+T> = None | Some(value: T)

  /** A JSON string field read with `dict.get`: truthy when present and non-empty. */
  predicate Truthy(v: Option<string>)
  {
    v.Some? && v.value != ""
  }

  /**
    The fields the service asks Drive for (`id,name,size,createdTime,
    modifiedTime,mimeType`); any of them may be missing from a response.
   */
  datatype DriveFile = DriveFile(
    id: Option<string>,
    name: Option<string>,
    size: Option<string>,
    createdTime: Option<string>,
    modifiedTime: Option<string>,
    mimeType: Option<string>)

  /**
    `DriveError`: a request to Drive failed (an HTTP error status raised by
    `raise_for_status`, or a broken download stream). `TranscodeError`: ffmpeg
    exited with a non-zero status.
   */
  datatype Failure = DriveError | TranscodeError

  datatype Outcome<+T> = Ok(value: T) | Fail(failure: Failure)
}
