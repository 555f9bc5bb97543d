/** What the services hand to outside systems: files uploaded to and deleted
    from S3 object storage, and e-mails given to the notification service.
    Each is recorded as a value; the systems themselves are not modelled. */
module External {
  import opened Common

  /** An uploaded file: its original file name (which may be null) and
      whether it has no content. */
  datatype ImageFile = ImageFile(originalFilename: Option<string>, isEmpty: bool)

  /** A call made to the object store. */
  datatype StorageCall = Upload(key: string) | Delete(key: string)

  /** A message handed to the notification service. */
  datatype Notification = Notification(recipient: string, subject: string, body: string)

  /** A string concatenation of a possibly-null value, which Java spells "null". */
  function Spelled(s: Option<string>): string {
    if s.Some? then s.value else "null"
  }

  /** The collaborator calls of the menu and account services that may throw:
      an object-store delete, an object-store upload, or the repository write
      that ends the operation. */
  datatype CallStep = DeleteObject | UploadObject | WriteRepository

  /** The storage call `c` is the kind of call `fault` says throws. */
  predicate Breaks(c: StorageCall, fault: Option<CallStep>) {
    match c
    case Delete(_) => fault == Some(DeleteObject)
    case Upload(_) => fault == Some(UploadObject)
  }

  /** The storage calls that complete: those before the first that throws. */
  function CallsMade(calls: seq<StorageCall>, fault: Option<CallStep>): (r: seq<StorageCall>)
    ensures |r| <= |calls| && r == calls[..|r|]
    ensures forall i :: 0 <= i < |r| ==> !Breaks(calls[i], fault)
    ensures |r| < |calls| ==> Breaks(calls[|r|], fault)
  {
    if calls == [] || Breaks(calls[0], fault) then []
    else [calls[0]] + CallsMade(calls[1..], fault)
  }

  /** The operation is cut short: one of its storage calls throws, or the
      final repository write does. */
  predicate Aborts(calls: seq<StorageCall>, fault: Option<CallStep>) {
    fault == Some(WriteRepository) || exists i :: 0 <= i < |calls| && Breaks(calls[i], fault)
  }

  /** An operation that is not cut short makes all of its storage calls. */
  lemma CallsMadeUnlessAborted(calls: seq<StorageCall>, fault: Option<CallStep>)
    ensures !Aborts(calls, fault) ==> CallsMade(calls, fault) == calls
    ensures fault.None? ==> !Aborts(calls, fault)
  {
  }
}
