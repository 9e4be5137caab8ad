/** `UploadReceiptRequestValidator::validate`: an ordered chain of guards
    over the uploaded receipt file; the first one that fails decides the
    single error, and a request that passes them all is returned as it
    came. */
module UploadReceipt {
  import opened Wrappers

  /** PHP's `UPLOAD_ERR_OK`. */
  const UPLOAD_ERR_OK: int := 0

  /** `5 * 1024 * 1024` bytes. */
  const MAX_FILE_SIZE: int := 5 * 1024 * 1024

  const ALLOWED_MIME_TYPES: seq<string> := ["image/jpeg", "image/png", "application/pdf"]

  const MISSING_FILE := "Please select a receipt file"
  const UPLOAD_FAILED := "Failed to upload the receipt file"
  const TOO_LARGE := "Maximum allowed size is 5 MB"
  const INVALID_FILENAME := "Invalid filename"
  const INVALID_CLIENT_TYPE := "Receipt has to be an image or a pdf document"
  const INVALID_DETECTED_TYPE := "Receipt has to be either \"jpeg\", \"jpg\", \"png\" or \"pdf\""

  /** What the validator reads of a PSR-7 uploaded file. The getters for
      size, client filename and client media type may return null. */
  datatype UploadedFile = UploadedFile(
    error: int,
    size: Option<int>,
    clientFilename: Option<string>,
    clientMediaType: Option<string>)

  /** The request data: the `receipt` entry and every other field. */
  datatype RequestData = RequestData(receipt: Option<UploadedFile>, fields: map<string, string>)

  /** How `validate` rejects a request: a `ValidationException(['receipt'
      => [$message]])`, or the `TypeError` that a null client filename
      raises in `preg_match` under `strict_types=1`. */
  datatype Rejection =
    | ValidationError(field: string, message: string)
    | NullFilenameTypeError

  /** `\s` of PCRE: space, tab, line feed, vertical tab, form feed,
      carriage return. */
  predicate IsSpace(c: char)
  {
    c == ' ' || c == '\t' || c == '\n' || c == 11 as char || c == 12 as char || c == '\r'
  }

  /** The class `[a-zA-Z0-9\s._-]`. */
  predicate IsFilenameChar(c: char)
  {
    ('a' <= c <= 'z') || ('A' <= c <= 'Z') || ('0' <= c <= '9') || IsSpace(c) || c == '.' || c == '_' || c == '-'
  }

  /** The class repeated, read character by character. */
  function AllFilenameChars(s: string): (b: bool)
    ensures b <==> forall i :: 0 <= i < |s| ==> IsFilenameChar(s[i])
  {
    if s == [] then true
    else
      assert forall i :: 1 <= i < |s| ==> s[i] == s[1..][i - 1];
      IsFilenameChar(s[0]) && AllFilenameChars(s[1..])
  }

  /** `preg_match('/^[a-zA-Z0-9\s._-]+$/', $name)` on a non-null name. */
  function FilenameMatches(name: string): (b: bool)
    ensures b <==> |name| > 0 && forall i :: 0 <= i < |name| ==> IsFilenameChar(name[i])
  {
    name != [] && AllFilenameChars(name)
  }

  /** `in_array($type, $allowed)`: null is never in the list. */
  predicate AllowedType(t: Option<string>)
  {
    t.Some? && t.value in ALLOWED_MIME_TYPES
  }

  /** `getSize() > $maxFileSize`; an unknown (null) size compares as not
      larger. */
  predicate TooLarge(size: Option<int>)
  {
    size.Some? && size.value > MAX_FILE_SIZE
  }

  /** The guards in the order the validator runs them: whether each passes,
      and how it rejects the request when it does not. The filename line
      fails in two ways: a null name stops `preg_match` itself, a name that
      does not match raises the message. The later guards are only
      meaningful once a file is present. */
  function Guards(data: RequestData, detectedMime: Option<string>): seq<(bool, Rejection)>
  {
    if data.receipt.None? then [(false, ValidationError("receipt", MISSING_FILE))]
    else
      var f := data.receipt.value;
      [ (true, ValidationError("receipt", MISSING_FILE)),
        (f.error == UPLOAD_ERR_OK, ValidationError("receipt", UPLOAD_FAILED)),
        (!TooLarge(f.size), ValidationError("receipt", TOO_LARGE)),
        (f.clientFilename.Some?, NullFilenameTypeError),
        (f.clientFilename.None? || FilenameMatches(f.clientFilename.value), ValidationError("receipt", INVALID_FILENAME)),
        (AllowedType(f.clientMediaType), ValidationError("receipt", INVALID_CLIENT_TYPE)),
        (AllowedType(detectedMime), ValidationError("receipt", INVALID_DETECTED_TYPE)) ]
  }

  /** The rejection of the first guard that fails, if any. */
  function FirstFailure<E(==)>(guards: seq<(bool, E)>): (r: Option<E>)
    ensures r.None? <==> forall i :: 0 <= i < |guards| ==> guards[i].0
    ensures r.Some? ==> exists i :: 0 <= i < |guards| && !guards[i].0 && guards[i].1 == r.value
                          && forall j :: 0 <= j < i ==> guards[j].0
  {
    if guards == [] then None
    else if !guards[0].0 then Some(guards[0].1)
    else
      var r := FirstFailure(guards[1..]);
      assert forall i :: 1 <= i < |guards| ==> guards[i] == guards[1..][i - 1];
      if r.Some? then
        var i :| 0 <= i < |guards[1..]| && !guards[1..][i].0 && guards[1..][i].1 == r.value
                 && forall j :: 0 <= j < i ==> guards[1..][j].0;
        assert guards[i + 1] == guards[1..][i];
        r
      else r
  }

  /** `validate($data)`, with the MIME type `finfo` detects in the uploaded
      temporary file given as `detectedMime`. */
  function Validate(data: RequestData, detectedMime: Option<string>): (r: Result<RequestData, Rejection>)
    ensures r.Ok? ==> r.value == data
    ensures r.Err? && r.error.ValidationError? ==> r.error.field == "receipt"
    ensures (r.Err? && r.error.NullFilenameTypeError?) <==>
      && data.receipt.Some?
      && data.receipt.value.error == UPLOAD_ERR_OK
      && !TooLarge(data.receipt.value.size)
      && data.receipt.value.clientFilename.None?
  {
    if data.receipt.None? then Err(ValidationError("receipt", MISSING_FILE))
    else
      var f := data.receipt.value;
      if f.error != UPLOAD_ERR_OK then Err(ValidationError("receipt", UPLOAD_FAILED))
      else if TooLarge(f.size) then Err(ValidationError("receipt", TOO_LARGE))
      else if f.clientFilename.None? then Err(NullFilenameTypeError)
      else if !FilenameMatches(f.clientFilename.value) then Err(ValidationError("receipt", INVALID_FILENAME))
      else if !AllowedType(f.clientMediaType) then Err(ValidationError("receipt", INVALID_CLIENT_TYPE))
      else if !AllowedType(detectedMime) then Err(ValidationError("receipt", INVALID_DETECTED_TYPE))
      else Ok(data)
  }

  /** The first failing guard is the one the rejection comes from. */
  lemma FirstFailureAt<E>(guards: seq<(bool, E)>, k: nat)
    requires k < |guards| && !guards[k].0
    requires forall j :: 0 <= j < k ==> guards[j].0
    ensures FirstFailure(guards) == Some(guards[k].1)
  {
    var r := FirstFailure(guards);
    var i :| 0 <= i < |guards| && !guards[i].0 && guards[i].1 == r.value && forall j :: 0 <= j < i ==> guards[j].0;
    assert i == k;
  }

  /** The guards run in a fixed order and the first that fails decides
      the one rejection; when none fails the data comes back as it was. */
  lemma ValidateIsFirstFailure(data: RequestData, detectedMime: Option<string>)
    ensures Validate(data, detectedMime)
         == match FirstFailure(Guards(data, detectedMime))
            case None => Ok(data)
            case Some(e) => Err(e)
  {
    var g := Guards(data, detectedMime);
    if data.receipt.None? {
      FirstFailureAt(g, 0);
    } else {
      var k := if !g[1].0 then 1 else if !g[2].0 then 2 else if !g[3].0 then 3
               else if !g[4].0 then 4 else if !g[5].0 then 5 else if !g[6].0 then 6 else 7;
      if k < 7 {
        FirstFailureAt(g, k);
      }
    }
  }

  /** A request passes exactly when every guard passes, and then it is
      returned unchanged. */
  lemma ValidateAccepts(data: RequestData, detectedMime: Option<string>)
    ensures Validate(data, detectedMime).Ok? <==>
      && data.receipt.Some?
      && data.receipt.value.error == UPLOAD_ERR_OK
      && !TooLarge(data.receipt.value.size)
      && data.receipt.value.clientFilename.Some?
      && FilenameMatches(data.receipt.value.clientFilename.value)
      && AllowedType(data.receipt.value.clientMediaType)
      && AllowedType(detectedMime)
    ensures Validate(data, detectedMime).Ok? ==> Validate(data, detectedMime).value == data
  {
  }

  /** A missing file is reported before anything else is looked at. */
  lemma MissingFileComesFirst(fields: map<string, string>, detectedMime: Option<string>)
    ensures Validate(RequestData(None, fields), detectedMime) == Err(ValidationError("receipt", MISSING_FILE))
  {
  }

  /** A failed upload is reported whatever the size, name and types. */
  lemma FailedUploadComesSecond(f: UploadedFile, fields: map<string, string>, detectedMime: Option<string>)
    requires f.error != UPLOAD_ERR_OK
    ensures Validate(RequestData(Some(f), fields), detectedMime) == Err(ValidationError("receipt", UPLOAD_FAILED))
  {
  }

  /** Exactly 5 MiB passes the size guard and one byte more fails it. */
  lemma SizeBoundary(f: UploadedFile, fields: map<string, string>, detectedMime: Option<string>)
    requires f.error == UPLOAD_ERR_OK
    ensures f.size == Some(5242880) ==> Validate(RequestData(Some(f), fields), detectedMime).Err? ==>
              Validate(RequestData(Some(f), fields), detectedMime).error != ValidationError("receipt", TOO_LARGE)
    ensures f.size == Some(5242881) ==>
              Validate(RequestData(Some(f), fields), detectedMime) == Err(ValidationError("receipt", TOO_LARGE))
  {
  }

  /** The client's media type is checked before the detected one: a file
      wrong on both counts gets the client-type message. */
  lemma ClientTypeBeforeDetectedType(f: UploadedFile, fields: map<string, string>, detectedMime: Option<string>)
    requires f.error == UPLOAD_ERR_OK && !TooLarge(f.size)
    requires f.clientFilename.Some? && FilenameMatches(f.clientFilename.value)
    requires !AllowedType(f.clientMediaType)
    ensures Validate(RequestData(Some(f), fields), detectedMime) == Err(ValidationError("receipt", INVALID_CLIENT_TYPE))
  {
  }

  /** A file that passes the status and size guards but has no client
      filename is not refused with a message: `preg_match` raises the type
      error, whatever the media types. */
  lemma NullFilenameIsATypeError(f: UploadedFile, fields: map<string, string>, detectedMime: Option<string>)
    requires f.error == UPLOAD_ERR_OK && !TooLarge(f.size)
    requires f.clientFilename.None?
    ensures Validate(RequestData(Some(f), fields), detectedMime) == Err(NullFilenameTypeError)
  {
  }

  /** The filename guard, on an example: a name with a slash or an empty
      name is refused, a name of letters, a space, a dot and a dash passes. */
  lemma FilenameExamples()
    ensures !FilenameMatches("a/b")
    ensures !FilenameMatches("")
    ensures FilenameMatches("a b-1.pdf")
  {
    assert "a/b"[1] == '/';
  }
}
