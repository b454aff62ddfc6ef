/**
 The image upload hook: which files are accepted and in which order the
 checks run, the name a file is stored under, the simulated progress bar,
 how the storage service's errors are turned into messages, and which
 file a delete removes.  The storage calls are parameters: their outcomes
 come in as values.
 */
module ImageUpload {
  import opened Strings
  import opened Catalog

  /** A picked file: its name, the MIME type the browser reported, its size in bytes. */
  datatype File = File(name: string, mimeType: string, size: int)

  const AllowedTypes: seq<string> := ["image/jpeg", "image/png", "image/webp", "image/gif", "image/jpg"]
  const ValidExtensions: seq<string> := ["jpg", "jpeg", "png", "webp", "gif"]

  /** 5 MiB, the largest accepted size. */
  const MaxSize: int := 5 * 1024 * 1024

  /** 100 bytes, the smallest accepted size. */
  const MinSize: int := 100

  /** `name.split('.').pop()?.toLowerCase()`: the lower-cased text after the last dot, or the whole name when there is none. */
  function Extension(name: string): (r: string)
    ensures '.' !in r
    ensures |r| <= |name|
    ensures '.' !in name ==> r == ToLower(name)
  {
    ToLower(LastSegment(name, '.'))
  }

  /** The type check: a listed MIME type, or a listed extension. */
  predicate TypeOk(f: File) {
    f.mimeType in AllowedTypes || Extension(f.name) in ValidExtensions
  }

  const TypeMessage: string := "Please upload a valid image file (JPEG, PNG, WebP, or GIF)"
  const TooSmallMessage: string := "The selected file appears to be invalid or empty. Please select a valid image."
  const TooLargeMessage: string := "Image size must be less than 5MB"

  /** The checks before any upload, in order: type, then too small, then too large; the first that fails decides the error. */
  function Validate(f: File): (r: Option<string>)
    ensures r.None? <==> TypeOk(f) && MinSize <= f.size <= MaxSize
    ensures !TypeOk(f) ==> r == Some(TypeMessage)
    ensures TypeOk(f) && f.size < MinSize ==> r == Some(TooSmallMessage)
    ensures TypeOk(f) && MinSize <= f.size && f.size > MaxSize ==> r == Some(TooLargeMessage)
  {
    if !TypeOk(f) then Some(TypeMessage)
    else if f.size < MinSize then Some(TooSmallMessage)
    else if f.size > MaxSize then Some(TooLargeMessage)
    else None
  }

  /** The size bounds are inclusive: exactly 100 bytes and exactly 5 MiB pass. */
  lemma SizeBoundsInclusive(f: File)
    requires TypeOk(f)
    ensures f.size == 100 ==> Validate(f).None?
    ensures f.size == 5242880 ==> Validate(f).None?
    ensures f.size == 5242881 ==> Validate(f) == Some(TooLargeMessage)
  {
  }

  /** An upper-case extension passes like a lower-case one. */
  lemma ExtensionCaseInsensitive(prefix: string, ext: string)
    requires '.' !in ext
    ensures Extension(prefix + ['.'] + ext) == ToLower(ext)
  {
    LastSegmentAfterSeparator(prefix, '.', ext);
  }

  /** The stored name, `${stamp}.${ext}`, keeps the picked file's last dot-separated part as it was typed. */
  function StoredFileName(stamp: string, name: string): (r: string)
    requires '.' !in stamp
    ensures LastSegment(r, '.') == LastSegment(name, '.')
  {
    var ext := LastSegment(name, '.');
    LastSegmentAfterSeparator(stamp, '.', ext);
    stamp + ['.'] + ext
  }

  /** One tick of the simulated progress: ten more, but never past 90. */
  function Tick(prev: int): (r: int)
    ensures prev >= 90 ==> r == 90
    ensures prev < 90 ==> r == prev + 10
  {
    if prev >= 90 then 90 else prev + 10
  }

  function Ticks(n: nat): int {
    if n == 0 then 0 else Tick(Ticks(n - 1))
  }

  /** After `n` ticks from 0 the bar shows `min(10 n, 90)`. */
  lemma {:induction false} TicksValue(n: nat)
    ensures Ticks(n) == if 10 * n <= 90 then 10 * n else 90
  {
    if n > 0 {
      TicksValue(n - 1);
    }
  }

  /** The progress shown: the ticks so far while uploading, 100 once the upload has returned. */
  function Progress(ticks: nat, returned: bool): (r: int)
    ensures 0 <= r <= 100
    ensures returned <==> r == 100
    ensures !returned ==> r <= 90 && r == Ticks(ticks)
  {
    TicksValue(ticks);
    if returned then 100 else Ticks(ticks)
  }

  const BucketMissingOnCheck: string :=
    "Storage bucket \"menu-images\" not found!\n\nPlease run CREATE_STORAGE_BUCKET.sql in Supabase SQL Editor to create it."
  const BucketMissingOnUpload: string :=
    "Storage bucket \"menu-images\" not found!\n\nPlease run CREATE_STORAGE_BUCKET.sql in Supabase SQL Editor."
  const PolicyMessage: string := "Storage policy error!\n\nPlease run CREATE_STORAGE_BUCKET.sql to set up policies."

  /** The JavaScript rendering of a missing message in a template literal. */
  function Shown(message: Option<string>): string {
    match message case None => "undefined" case Some(m) => m
  }

  /** `message?.includes(q)`: false for a missing message. */
  predicate MessageContains(message: Option<string>, q: string) {
    message.Some? && Contains(message.value, q)
  }

  const NotFound: string := "not found"
  const BucketNotFound: string := "Bucket " + NotFound
  const RowLevelSecurity: string := "row-level security"
  const NewRowViolates: string := "new row violates " + RowLevelSecurity

  /** Asking for "Bucket not found" as well as "not found" adds nothing: the second already covers the first. */
  lemma NotFoundCoversBucketNotFound(message: Option<string>)
    ensures MessageContains(message, BucketNotFound) || MessageContains(message, NotFound)
            <==> MessageContains(message, NotFound)
  {
    if MessageContains(message, BucketNotFound) {
      ContainsAppended("Bucket ", NotFound);
      ContainsTransitive(message.value, BucketNotFound, NotFound);
    }
  }

  /** The same holds for the row-level-security test. */
  lemma RowLevelSecurityCovered(message: Option<string>)
    ensures MessageContains(message, NewRowViolates) || MessageContains(message, RowLevelSecurity)
            <==> MessageContains(message, RowLevelSecurity)
  {
    if MessageContains(message, NewRowViolates) {
      ContainsAppended("new row violates ", RowLevelSecurity);
      ContainsTransitive(message.value, NewRowViolates, RowLevelSecurity);
    }
  }

  /** A failed bucket check: a "not found" message means a missing bucket, anything else is reported as it is. */
  function BucketCheckError(message: Option<string>): (r: string)
    ensures MessageContains(message, NotFound) ==> r == BucketMissingOnCheck
    ensures !MessageContains(message, NotFound) ==> r == "Bucket error: " + Shown(message)
  {
    NotFoundCoversBucketNotFound(message);
    if MessageContains(message, NotFound) || MessageContains(message, BucketNotFound) then BucketMissingOnCheck
    else "Bucket error: " + Shown(message)
  }

  /** A failed upload: a missing bucket first, then a policy refusal, otherwise the message or "Unknown error". */
  function UploadError(message: Option<string>): (r: string)
    ensures MessageContains(message, NotFound) ==> r == BucketMissingOnUpload
    ensures !MessageContains(message, NotFound) && MessageContains(message, RowLevelSecurity) ==> r == PolicyMessage
    ensures !MessageContains(message, NotFound) && !MessageContains(message, RowLevelSecurity) ==>
              r == "Upload failed: " + (if message.Some? && message.value != "" then message.value else "Unknown error")
  {
    NotFoundCoversBucketNotFound(message);
    RowLevelSecurityCovered(message);
    if MessageContains(message, BucketNotFound) || MessageContains(message, NotFound) then BucketMissingOnUpload
    else if MessageContains(message, NewRowViolates) || MessageContains(message, RowLevelSecurity) then PolicyMessage
    else "Upload failed: " + (if message.Some? && message.value != "" then message.value else "Unknown error")
  }

  /** The three messages are told apart: a policy error is never mistaken for a missing bucket, and a generic failure is neither. */
  lemma UploadErrorClasses(message: Option<string>)
    ensures UploadError(message) == PolicyMessage ==> !MessageContains(message, NotFound)
    ensures UploadError(message) != BucketMissingOnUpload && UploadError(message) != PolicyMessage ==>
              !MessageContains(message, NotFound) && !MessageContains(message, RowLevelSecurity)
  {
  }

  /** What the bucket check came back with. */
  datatype CheckOutcome = CheckOk | CheckError(message: Option<string>) | CheckTimedOut | CheckThrew(message: Option<string>)

  /** What the upload came back with. */
  datatype StoreOutcome = Stored(publicUrl: string) | StoredNoData | StoreError(message: Option<string>) | StoreTimedOut | StoreThrew(message: Option<string>)

  const CheckTimeoutMessage: string :=
    "Upload timeout - The storage bucket might not exist. Please run CREATE_STORAGE_BUCKET.sql in Supabase SQL Editor."
  const StoreTimeoutMessage: string := "Upload timeout - The upload is taking too long. Please check your connection and try again."
  const NoDataMessage: string := "Upload failed: No data returned"

  datatype UploadResult = Uploaded(url: string) | Failed(message: string)

  /** `uploadImage`: validation, then the bucket check, then the upload, each failure ending the attempt with its message. */
  function Upload(f: File, check: CheckOutcome, store: StoreOutcome): (r: UploadResult)
    ensures Validate(f).Some? ==> r == Failed(Validate(f).value)
    ensures r.Uploaded? <==> Validate(f).None? && check.CheckOk? && store.Stored?
    ensures r.Uploaded? ==> r.url == store.publicUrl
    ensures Validate(f).None? && check.CheckError? ==> r == Failed(BucketCheckError(check.message))
    ensures Validate(f).None? && check.CheckTimedOut? ==> r == Failed(CheckTimeoutMessage)
    ensures Validate(f).None? && check.CheckOk? && store.StoreError? ==> r == Failed(UploadError(store.message))
    ensures Validate(f).None? && check.CheckOk? && store.StoreTimedOut? ==> r == Failed(StoreTimeoutMessage)
    ensures Validate(f).None? && check.CheckOk? && store.StoredNoData? ==> r == Failed(NoDataMessage)
    ensures Validate(f).None? && check.CheckThrew? ==> r == Failed(Shown(check.message))
    ensures Validate(f).None? && check.CheckOk? && store.StoreThrew? ==> r == Failed(Shown(store.message))
  {
    var v := Validate(f);
    if v.Some? then Failed(v.value)
    else match check
      case CheckTimedOut =>
        Failed(CheckTimeoutMessage)
      case CheckError(m) => Failed(BucketCheckError(m))
      case CheckThrew(m) => Failed(Shown(m))
      case CheckOk =>
        match store
        case StoreTimedOut =>
          Failed(StoreTimeoutMessage)
        case StoreError(m) => Failed(UploadError(m))
        case StoredNoData => Failed(NoDataMessage)
        case StoreThrew(m) => Failed(Shown(m))
        case Stored(url) => Uploaded(url)
  }

  /** `deleteImage`: the file removed is the last piece of the URL split on '/'. */
  function DeleteTarget(url: string): (r: string)
    ensures '/' !in r
    ensures r == LastSegment(url, '/')
  {
    var parts := Split(url, '/');
    LastSegmentIsLastPiece(url, '/', parts);
    parts[|parts| - 1]
  }

  /** Deleting by a public URL that ends in a stored name removes that stored name. */
  lemma DeleteTargetsStoredName(base: string, stamp: string, name: string)
    requires '.' !in stamp && '/' !in stamp && '/' !in name
    ensures DeleteTarget(base + ['/'] + StoredFileName(stamp, name)) == StoredFileName(stamp, name)
  {
    var stored := StoredFileName(stamp, name);
    assert '/' !in LastSegment(name, '.');
    assert '/' !in stored;
    LastSegmentAfterSeparator(base, '/', stored);
  }
}
