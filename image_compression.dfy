/**
 * lib/imageCompression.ts: the compression ladder, the ".webp" rename and the MIME-type validators.
 * The compression library is an oracle `lib` that, given the file and one ladder entry,
 * either produces a WebP blob of some size or throws.
 */
module ImageCompression {
  import opened Wrappers
  import opened Strings

  datatype ImageFile = ImageFile(name: string, mimeType: string, size: nat)

  /** One ladder entry; the quality factor is kept as a whole percentage. */
  datatype CompressionOptions = CompressionOptions(maxWidthOrHeight: nat, qualityPercent: nat)

  /** What the compression library does with one file and one entry. */
  datatype LibraryOutcome = Produced(size: nat) | Threw(message: string)

  datatype CompressError =
    | NotAnImage              // "File must be an image"
    | LibraryFailed(message: string)
    | CannotReachLimit(originalSize: nat)

  const MaxFileSizeBytes: nat := 1 * 1024 * 1024
  const TargetMaxSize: nat := 800 * 1024
  const WebpType: string := "image/webp"

  /** `COMPRESSION_ATTEMPTS`. */
  const Ladder: seq<CompressionOptions> := [
    CompressionOptions(1600, 80),
    CompressionOptions(1600, 70),
    CompressionOptions(1400, 70),
    CompressionOptions(1200, 60)
  ]

  /** `/\.[^.]+$/` matches: the last "." is followed by at least one character. */
  predicate HasExtension(name: string) {
    var k := LastIndexOf(name, '.');
    k.Some? && k.value + 1 < |name|
  }

  /** `name.replace(/\.[^.]+$/, '.webp')`. */
  function RenameToWebp(name: string): (r: string)
    ensures HasExtension(name) ==>
              exists k :: 0 <= k < |name| - 1 && name[k] == '.'
                && (forall j :: k < j < |name| ==> name[j] != '.')
                && r == name[..k] + ".webp"
    ensures !HasExtension(name) ==> r == name
    ensures !HasExtension(name) ==> |name| == 0 || name[|name| - 1] == '.' || forall j :: 0 <= j < |name| ==> name[j] != '.'
  {
    var k := LastIndexOf(name, '.');
    if k.Some? && k.value + 1 < |name| then name[..k.value] + ".webp" else name
  }

  /** A renamed name ends in ".webp" whenever the original had an extension. */
  lemma RenameEndsInWebp(name: string)
    requires HasExtension(name)
    ensures |RenameToWebp(name)| >= 5
    ensures RenameToWebp(name)[|RenameToWebp(name)| - 5..] == ".webp"
  {
  }

  /** `tryCompression`: the library's blob becomes a WebP file named after the original. */
  function TryCompression(file: ImageFile, options: CompressionOptions,
                          lib: (ImageFile, CompressionOptions) -> LibraryOutcome): (r: Result<ImageFile, string>)
    ensures lib(file, options).Threw? <==> r.Err?
    ensures r.Ok? ==> r.value == ImageFile(RenameToWebp(file.name), WebpType, lib(file, options).size)
  {
    match lib(file, options)
    case Produced(size) => Ok(ImageFile(RenameToWebp(file.name), WebpType, size))
    case Threw(message) => Err(message)
  }

  /** The result of ladder entry `i` is within the 1 MiB ceiling. */
  predicate Fits(file: ImageFile, i: nat, lib: (ImageFile, CompressionOptions) -> LibraryOutcome)
    requires i < |Ladder|
  {
    var t := TryCompression(file, Ladder[i], lib);
    t.Ok? && t.value.size <= MaxFileSizeBytes
  }

  /** The ladder from entry `i` on: the first result within the ceiling, or the refusal when none is. */
  function LadderFrom(file: ImageFile, lib: (ImageFile, CompressionOptions) -> LibraryOutcome, i: nat): Result<ImageFile, CompressError>
    requires i <= |Ladder|
    decreases |Ladder| - i
  {
    if i == |Ladder| then Err(CannotReachLimit(file.size))
    else if Fits(file, i, lib) then Ok(TryCompression(file, Ladder[i], lib).value)
    else LadderFrom(file, lib, i + 1)
  }

  /** `compressImage`. */
  method CompressImage(file: ImageFile, lib: (ImageFile, CompressionOptions) -> LibraryOutcome)
    returns (r: Result<ImageFile, CompressError>)
    ensures !StartsWith(file.mimeType, "image/") ==> r == Err(NotAnImage)
    ensures StartsWith(file.mimeType, "image/") && file.size <= TargetMaxSize && file.mimeType == WebpType ==>
              r == Ok(file)
    ensures StartsWith(file.mimeType, "image/") && file.size <= TargetMaxSize && file.mimeType != WebpType ==>
              r == match TryCompression(file, Ladder[0], lib)
                   case Ok(f) => Ok(f)
                   case Err(m) => Err(LibraryFailed(m))
    ensures StartsWith(file.mimeType, "image/") && file.size > TargetMaxSize ==>
              (r.Ok? ==> r.value.size <= MaxFileSizeBytes && r.value.mimeType == WebpType
                         && exists i :: 0 <= i < |Ladder| && Fits(file, i, lib)
                              && TryCompression(file, Ladder[i], lib) == Ok(r.value)
                              && forall j :: 0 <= j < i ==> !Fits(file, j, lib))
              && (r.Err? ==> r == Err(CannotReachLimit(file.size))
                             && forall j :: 0 <= j < |Ladder| ==> !Fits(file, j, lib))
    ensures StartsWith(file.mimeType, "image/") && file.size > TargetMaxSize ==> r == LadderFrom(file, lib, 0)
  {
    if !StartsWith(file.mimeType, "image/") {
      return Err(NotAnImage);
    }
    if file.size <= TargetMaxSize && file.mimeType == WebpType {
      return Ok(file);
    }
    if file.size <= TargetMaxSize {
      var t := TryCompression(file, Ladder[0], lib);
      match t
      case Ok(f) => return Ok(f);
      case Err(m) => return Err(LibraryFailed(m));
    }
    var i := 0;
    while i < |Ladder|
      invariant 0 <= i <= |Ladder|
      invariant forall j :: 0 <= j < i ==> !Fits(file, j, lib)
      invariant LadderFrom(file, lib, 0) == LadderFrom(file, lib, i)
    {
      var attempt := TryCompression(file, Ladder[i], lib);
      if attempt.Ok? && attempt.value.size <= MaxFileSizeBytes {
        return Ok(attempt.value);
      }
      i := i + 1;
    }
    return Err(CannotReachLimit(file.size));
  }

  /**
   * The ladder never hands back an oversized file: from any entry on, its answer is a WebP file
   * within 1 MiB that the first fitting entry produced, and it is the refusal exactly when no
   * remaining entry fits.
   */
  lemma {:induction false} LargeImageNeverOversized(file: ImageFile, lib: (ImageFile, CompressionOptions) -> LibraryOutcome, i: nat)
    requires i <= |Ladder|
    ensures LadderFrom(file, lib, i).Ok? ==>
              && LadderFrom(file, lib, i).value.size <= MaxFileSizeBytes
              && LadderFrom(file, lib, i).value.mimeType == WebpType
              && exists k :: i <= k < |Ladder| && Fits(file, k, lib)
                   && TryCompression(file, Ladder[k], lib) == Ok(LadderFrom(file, lib, i).value)
                   && forall j :: i <= j < k ==> !Fits(file, j, lib)
    ensures LadderFrom(file, lib, i).Err? <==> forall j :: i <= j < |Ladder| ==> !Fits(file, j, lib)
    ensures LadderFrom(file, lib, i).Err? ==> LadderFrom(file, lib, i) == Err(CannotReachLimit(file.size))
    decreases |Ladder| - i
  {
    if i < |Ladder| && !Fits(file, i, lib) {
      LargeImageNeverOversized(file, lib, i + 1);
      var r := LadderFrom(file, lib, i);
      if r.Ok? {
        var k :| i + 1 <= k < |Ladder| && Fits(file, k, lib)
                 && TryCompression(file, Ladder[k], lib) == Ok(r.value)
                 && forall j :: i + 1 <= j < k ==> !Fits(file, j, lib);
        assert forall j :: i <= j < k ==> !Fits(file, j, lib);
      } else {
        assert forall j :: i <= j < |Ladder| ==> !Fits(file, j, lib);
      }
    }
  }

  /** `validTypes` of `isValidImageType`. */
  const ValidTypes: seq<string> := ["image/jpeg", "image/jpg", "image/png", "image/webp", "image/heic", "image/heif"]

  /** `isValidImageType`: the lower-cased type is one of the six listed ones. */
  predicate IsValidImageType(mimeType: string) {
    ToLower(mimeType) in ValidTypes
  }

  datatype Validation = Validation(valid: bool, error: Option<string>)

  /** `validateImageFile`. */
  function ValidateImageFile(mimeType: string): (v: Validation)
    ensures v.valid <==> StartsWith(mimeType, "image/") && IsValidImageType(mimeType)
    ensures v.valid <==> v.error.None?
    ensures !StartsWith(mimeType, "image/") ==>
              v.error == Some("Please select only image files (JPEG, PNG, WebP, or HEIC).")
  {
    if !StartsWith(mimeType, "image/") then
      Validation(false, Some("Please select only image files (JPEG, PNG, WebP, or HEIC)."))
    else if !IsValidImageType(mimeType) then
      Validation(false, Some("Unsupported image format: " + mimeType + ". Please use JPEG, PNG, WebP, or HEIC."))
    else
      Validation(true, None)
  }

  /** The prefix test is case-sensitive while the list test is not: "IMAGE/PNG" is a listed type but fails validation. */
  lemma UpperCasePrefixRejected()
    ensures IsValidImageType("IMAGE/PNG")
    ensures !ValidateImageFile("IMAGE/PNG").valid
    ensures ValidateImageFile("image/PNG").valid
  {
    assert ToLower("IMAGE/PNG") == "image/png";
    assert ToLower("image/PNG") == "image/png";
    assert !StartsWith("IMAGE/PNG", "image/") by { assert "IMAGE/PNG"[0] != 'i'; }
    assert StartsWith("image/PNG", "image/") by { assert "image/PNG"[..6] == "image/"; }
  }

  /** A file that passes validation is never refused by `compressImage` as not being an image. */
  lemma ValidatedFilesAreImages(file: ImageFile)
    requires ValidateImageFile(file.mimeType).valid
    ensures StartsWith(file.mimeType, "image/")
  {
  }
}
