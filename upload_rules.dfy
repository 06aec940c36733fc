/**
 * The decision rules of the client upload pipeline (the photo upload button):
 * which selected files are accepted, which media type the processed image
 * gets, how the canvas downscale chooses its target size, and, as one
 * specification function, what a file selection ends in.
 *
 * The browser facilities the pipeline calls (FileReader, Image decoding,
 * canvas export, the HEIC converter, session storage) are the fields of a
 * `Platform` value: each is a total function whose `None` result stands
 * for the promise that rejects or the call that throws.
 */
module UploadRules {
  import opened Wrappers

  /** Ceiling, in bytes, on the selected file and on the processed image (10 MiB). */
  const MaxUploadBytes: nat := 10 * 1024 * 1024

  /** Longest side, in pixels, that an image keeps without being downscaled. */
  const MaxDimension: nat := 2048

  /** Media types the picker accepts, compared after lower-casing. */
  const AllowedTypes: seq<string> :=
    ["image/jpeg", "image/jpg", "image/png", "image/webp", "image/heic", "image/heif"]

  /** Media types that are transcoded to JPEG before anything else happens. */
  const HeicTypes: seq<string> := ["image/heic", "image/heif"]

  /** The media type every HEIC/HEIF input is converted to. */
  const Jpeg: string := "image/jpeg"

  /** A file or blob, as far as the pipeline looks at it: its declared type and its size in bytes. */
  datatype Blob = Blob(mimeType: string, size: nat)

  /** Pixel dimensions of a decoded image. */
  datatype Dimensions = Dimensions(width: nat, height: nat)

  // ---------------------------------------------------------------------
  // Selection check
  // ---------------------------------------------------------------------

  /** Lower-cases one ASCII letter; every other character is kept. */
  function LowerChar(c: char): (r: char)
    ensures 'A' <= c <= 'Z' ==> r as int == c as int + 32
    ensures !('A' <= c <= 'Z') ==> r == c
  {
    if 'A' <= c <= 'Z' then (c as int - 'A' as int + 'a' as int) as char else c
  }

  /** Two characters that are equal, or the same ASCII letter in either case. */
  predicate CharsEqualIgnoringCase(a: char, b: char)
  {
    || a == b
    || ('A' <= a <= 'Z' && b as int == a as int + 32)
    || ('A' <= b <= 'Z' && a as int == b as int + 32)
  }

  /** Two strings that differ at most in the case of ASCII letters. */
  predicate EqualIgnoringCase(s: string, t: string)
  {
    |s| == |t| && forall i :: 0 <= i < |s| ==> CharsEqualIgnoringCase(s[i], t[i])
  }

  /**
   * `String.prototype.toLowerCase`, restricted to ASCII letters: the result
   * has no upper-case ASCII letter and equals the input up to letter case
   * (which pins it down uniquely).
   */
  function Lower(s: string): (r: string)
    ensures forall i :: 0 <= i < |r| ==> !('A' <= r[i] <= 'Z')
    ensures EqualIgnoringCase(r, s)
  {
    seq(|s|, i requires 0 <= i < |s| => LowerChar(s[i]))
  }

  /** Strings equal up to ASCII letter case have the same lower-case form. */
  lemma LowerIgnoresCase(s: string, t: string)
    requires EqualIgnoringCase(s, t)
    ensures Lower(s) == Lower(t)
  {
    forall i | 0 <= i < |s| ensures Lower(s)[i] == Lower(t)[i] {
      assert Lower(s)[i] == LowerChar(s[i]) && Lower(t)[i] == LowerChar(t[i]);
    }
  }

  /** A string with no upper-case ASCII letter is its own lower-case form. */
  lemma LowerOfLowerCase(s: string)
    requires forall i :: 0 <= i < |s| ==> !('A' <= s[i] <= 'Z')
    ensures Lower(s) == s
  {
    forall i | 0 <= i < |s| ensures Lower(s)[i] == s[i] {
      assert Lower(s)[i] == LowerChar(s[i]);
    }
  }

  /** Lower-casing twice is lower-casing once. */
  lemma LowerIdempotent(s: string)
    ensures Lower(Lower(s)) == Lower(s)
  {
    LowerOfLowerCase(Lower(s));
  }

  predicate IsAllowedType(mimeType: string)
  {
    Lower(mimeType) in AllowedTypes
  }

  /** The first check of `onChange`: an allowed type and at most 10 MiB. */
  predicate PassesSelectionCheck(file: Blob)
  {
    IsAllowedType(file.mimeType) && file.size <= MaxUploadBytes
  }

  /** The selection check, spelled out: the six lower-cased types and the byte ceiling. */
  lemma SelectionCheckSpec(file: Blob)
    ensures PassesSelectionCheck(file) <==>
      (var t := Lower(file.mimeType);
       (t == "image/jpeg" || t == "image/jpg" || t == "image/png" ||
        t == "image/webp" || t == "image/heic" || t == "image/heif")
       && file.size <= 10_485_760)
  {
  }

  /** Boundary and case-insensitivity examples of the selection check. */
  lemma SelectionCheckExamples()
    ensures PassesSelectionCheck(Blob("image/png", 10_485_760))
    ensures !PassesSelectionCheck(Blob("image/png", 10_485_761))
    ensures !PassesSelectionCheck(Blob("image/png", 11 * 1024 * 1024))
    ensures PassesSelectionCheck(Blob("IMAGE/HEIC", 1))
    ensures !PassesSelectionCheck(Blob("image/bmp", 1))
    ensures !PassesSelectionCheck(Blob("", 0))
  {
    LowerOfLowerCase("image/png");
    assert Lower("image/png") == "image/png";
    assert Lower("IMAGE/HEIC") == "image/heic" by {
      var u := Lower("IMAGE/HEIC");
      assert u[0] == 'i' && u[1] == 'm' && u[2] == 'a' && u[3] == 'g' && u[4] == 'e';
      assert u[5] == '/' && u[6] == 'h' && u[7] == 'e' && u[8] == 'i' && u[9] == 'c';
    }
    var b := Lower("image/bmp");
    assert b[6] == 'b';
    assert |Lower("")| == 0;
  }

  // ---------------------------------------------------------------------
  // Target media type
  // ---------------------------------------------------------------------

  predicate IsHeic(mimeType: string)
  {
    Lower(mimeType) in HeicTypes
  }

  /** The type the downscaled image is exported as: JPEG for HEIC/HEIF, else the file's own type. */
  function TargetMimeType(mimeType: string): string
  {
    if IsHeic(mimeType) then Jpeg else mimeType
  }

  /**
   * For an accepted file the target type is itself an accepted type and never
   * HEIC/HEIF: HEIC/HEIF inputs map to JPEG, and every other accepted type
   * keeps its declared type (not lower-cased).
   */
  lemma TargetMimeTypeOfAllowed(mimeType: string)
    requires IsAllowedType(mimeType)
    ensures IsAllowedType(TargetMimeType(mimeType)) && !IsHeic(TargetMimeType(mimeType))
    ensures var t := Lower(mimeType);
      TargetMimeType(mimeType) == if t == "image/heic" || t == "image/heif" then Jpeg else mimeType
  {
    LowerOfLowerCase(Jpeg);
    assert !IsHeic(Jpeg);
  }

  /** Every HEIC/HEIF type is also on the allow-list. */
  lemma HeicIsAllowed(mimeType: string)
    requires IsHeic(mimeType)
    ensures IsAllowedType(mimeType)
  {
  }

  /**
   * The type checks ignore letter case: two declared types that differ only
   * in the case of ASCII letters are both accepted or both refused, and both
   * HEIC/HEIF or neither.
   */
  lemma TypeChecksIgnoreCase(s: string, t: string)
    requires EqualIgnoringCase(s, t)
    ensures IsAllowedType(s) <==> IsAllowedType(t)
    ensures IsHeic(s) <==> IsHeic(t)
  {
    LowerIgnoresCase(s, t);
  }

  // ---------------------------------------------------------------------
  // Downscale size rule (exact arithmetic)
  // ---------------------------------------------------------------------

  function MaxSide(d: Dimensions): nat
  {
    if d.width >= d.height then d.width else d.height
  }

  /** `Math.min(1, maxDimension / maxSide)`. */
  function Scale(maxSide: nat, maxDimension: nat): (s: real)
    requires maxSide > 0
    ensures 0.0 <= s <= 1.0
    ensures s == 1.0 <==> maxSide <= maxDimension
  {
    var q := (maxDimension as real) / (maxSide as real);
    if q < 1.0 then q else 1.0
  }

  /** `Math.round`: the nearest integer, a half rounded up. */
  function Round(x: real): int
  {
    (x + 0.5).Floor
  }

  /** `Math.max(1, Math.round(side * scale))`. */
  function ScaledSide(side: nat, scale: real): (r: nat)
    ensures r >= 1
  {
    var k := Round(side as real * scale);
    if k < 1 then 1 else k
  }

  /** What the downscale step decides for an image of the given dimensions. */
  datatype ScalePlan = KeepOriginal | ResizeTo(target: Dimensions)

  function PlanDownscale(d: Dimensions, maxDimension: nat): ScalePlan
  {
    if d.width == 0 || d.height == 0 then KeepOriginal
    else
      var scale := Scale(MaxSide(d), maxDimension);
      if scale == 1.0 then KeepOriginal
      else ResizeTo(Dimensions(ScaledSide(d.width, scale), ScaledSide(d.height, scale)))
  }

  /** The image is kept exactly when a side is 0 or the longer side is within the limit. */
  lemma PlanKeepsIff(d: Dimensions, maxDimension: nat)
    ensures PlanDownscale(d, maxDimension).KeepOriginal? <==>
      (d.width == 0 || d.height == 0 || MaxSide(d) <= maxDimension)
  {
  }

  /** Scaling by a factor in [0, 1) never makes a positive side longer. */
  lemma ScaledSideAtMostSide(side: nat, scale: real)
    requires side >= 1 && 0.0 <= scale < 1.0
    ensures ScaledSide(side, scale) <= side
  {
    var x := side as real * scale;
    assert x <= side as real by {
      assert side as real * scale <= side as real * 1.0;
    }
    assert x + 0.5 < side as real + 1.0;
  }

  /** Rounding is monotone, so scaling preserves which side is longer. */
  lemma ScaledSideMonotone(a: nat, b: nat, scale: real)
    requires a <= b && 0.0 <= scale
    ensures ScaledSide(a, scale) <= ScaledSide(b, scale)
  {
    assert a as real * scale <= b as real * scale by {
      assert (b as real - a as real) * scale >= 0.0;
    }
  }

  /** The longer side, scaled by `maxDimension / maxSide`, lands exactly on `maxDimension`. */
  lemma ScaledLongerSide(m: nat, maxDimension: nat)
    requires m > maxDimension >= 1
    ensures ScaledSide(m, Scale(m, maxDimension)) == maxDimension
  {
    var q := (maxDimension as real) / (m as real);
    assert Scale(m, maxDimension) == q;
    assert m as real * q == maxDimension as real;
    assert Round(maxDimension as real) == maxDimension;
  }

  /** A side no longer than the longer one stays within `maxDimension` after scaling. */
  lemma ScaledShorterSide(side: nat, m: nat, maxDimension: nat)
    requires side <= m && m > maxDimension >= 1
    ensures ScaledSide(side, Scale(m, maxDimension)) <= maxDimension
  {
    ScaledSideMonotone(side, m, Scale(m, maxDimension));
    ScaledLongerSide(m, maxDimension);
  }

  /**
   * When the image is resized, each target side is at least 1 and at most the
   * original side, the longer target side is exactly `maxDimension`, and the
   * longer original side stays the longer (or equal) one.
   */
  lemma {:induction false} ResizeBounds(d: Dimensions, maxDimension: nat)
    requires maxDimension >= 1
    requires PlanDownscale(d, maxDimension).ResizeTo?
    ensures var t := PlanDownscale(d, maxDimension).target;
      && 1 <= t.width <= d.width
      && 1 <= t.height <= d.height
      && MaxSide(t) == maxDimension
      && (d.width <= d.height ==> t.width <= t.height)
      && (d.height <= d.width ==> t.height <= t.width)
  {
    var m := MaxSide(d);
    var s := Scale(m, maxDimension);
    assert d.width > 0 && d.height > 0 && m > maxDimension;
    ScaledSideAtMostSide(d.width, s);
    ScaledSideAtMostSide(d.height, s);
    ScaledLongerSide(m, maxDimension);
    ScaledShorterSide(d.width, m, maxDimension);
    ScaledShorterSide(d.height, m, maxDimension);
    if d.width <= d.height {
      ScaledSideMonotone(d.width, d.height, s);
    }
    if d.height <= d.width {
      ScaledSideMonotone(d.height, d.width, s);
    }
  }

  // ---------------------------------------------------------------------
  // Browser facilities and the downscale step
  // ---------------------------------------------------------------------

  /**
   * The browser operations the pipeline depends on. `None` is a failure
   * (a rejected promise or a thrown exception).
   *  - readAsDataUrl: FileReader.readAsDataURL of a blob;
   *  - loadImage: decoding a data URL into an Image, giving
   *    `naturalWidth || width` and `naturalHeight || height`;
   *  - convertHeicToJpeg: the dynamically imported HEIC converter, asked for JPEG;
   *  - hasCanvasContext: whether `getContext("2d")` returns a context;
   *  - canvasToBlob: drawing the image at the target size and exporting it
   *    in the given media type;
   *  - storageAccepts: whether `sessionStorage.setItem` stores the data URL
   *    instead of throwing (quota, private browsing).
   */
  datatype Platform = Platform(
    readAsDataUrl: Blob -> Option<string>,
    loadImage: string -> Option<Dimensions>,
    convertHeicToJpeg: Blob -> Option<Blob>,
    hasCanvasContext: bool,
    canvasToBlob: (string, Dimensions, string) -> Option<Blob>,
    storageAccepts: string -> bool)

  /** The export type of the canvas: the requested type, or JPEG when it is empty. */
  function CanvasMimeType(mimeType: string): string
  {
    if mimeType == "" then Jpeg else mimeType
  }

  /** `downscaleImageViaCanvas`: `None` when reading, decoding or exporting fails. */
  function DownscaleViaCanvas(input: Blob, maxDimension: nat, mimeType: string, p: Platform): Option<Blob>
  {
    match p.readAsDataUrl(input)
    case None => None
    case Some(url) =>
      match p.loadImage(url)
      case None => None
      case Some(d) =>
        match PlanDownscale(d, maxDimension)
        case KeepOriginal => Some(input)
        case ResizeTo(t) =>
          if !p.hasCanvasContext then Some(input)
          else p.canvasToBlob(url, t, CanvasMimeType(mimeType))
  }

  /**
   * Once the image is read and decoded, the input comes back unchanged when a
   * side is 0, when the longer side is at most `maxDimension` (scale 1), or
   * when there is no 2D context.
   */
  lemma DownscaleReturnsInput(input: Blob, maxDimension: nat, mimeType: string, p: Platform, url: string, d: Dimensions)
    requires p.readAsDataUrl(input) == Some(url) && p.loadImage(url) == Some(d)
    requires d.width == 0 || d.height == 0 || MaxSide(d) <= maxDimension || !p.hasCanvasContext
    ensures DownscaleViaCanvas(input, maxDimension, mimeType, p) == Some(input)
  {
    PlanKeepsIff(d, maxDimension);
  }

  /**
   * Otherwise the result is the canvas export at the planned size, whose sides
   * are within the bounds `ResizeBounds` states.
   */
  lemma DownscaleRendersPlannedSize(input: Blob, maxDimension: nat, mimeType: string, p: Platform, url: string, d: Dimensions)
    requires maxDimension >= 1
    requires p.readAsDataUrl(input) == Some(url) && p.loadImage(url) == Some(d)
    requires d.width > 0 && d.height > 0 && MaxSide(d) > maxDimension && p.hasCanvasContext
    ensures PlanDownscale(d, maxDimension).ResizeTo?
    ensures var t := PlanDownscale(d, maxDimension).target;
      && DownscaleViaCanvas(input, maxDimension, mimeType, p) == p.canvasToBlob(url, t, CanvasMimeType(mimeType))
      && 1 <= t.width <= d.width && 1 <= t.height <= d.height && MaxSide(t) == maxDimension
  {
    PlanKeepsIff(d, maxDimension);
    ResizeBounds(d, maxDimension);
  }

  // ---------------------------------------------------------------------
  // What one file selection ends in
  // ---------------------------------------------------------------------

  /** The ways `onChange` can end. */
  datatype Outcome =
    | NoFile                   // the change event carried no file
    | Rejected                 // failed the type/size check; nothing else happened
    | ProcessingFailed         // conversion, decoding, export or reading threw
    | TooLargeAfterProcessing  // the processed image is still over 10 MiB
    | StorageFailed            // sessionStorage refused the data URL
    | Stored(dataUrl: string)  // the slot now holds this data URL

  const RejectedAlert: string := "Please select a valid image (JPG, PNG, WebP, HEIC/HEIF) up to 10MB."
  const ProcessingAlert: string := "Failed to process the image. Please try again."
  const TooLargeAlert: string := "Processed image exceeds 10MB. Please choose a smaller photo or crop it."
  const StorageAlert: string := "Unable to store image. Please try again or check if private browsing is enabled."

  /** The alert `onChange` shows for each outcome. */
  function AlertFor(o: Outcome): Option<string>
  {
    match o
    case NoFile => None
    case Rejected => Some(RejectedAlert)
    case ProcessingFailed => Some(ProcessingAlert)
    case TooLargeAfterProcessing => Some(TooLargeAlert)
    case StorageFailed => Some(StorageAlert)
    case Stored(_) => None
  }

  /**
   * Every failure after the first check shows an alert, success and a missing
   * file show none, and an original file that is too big gets a different
   * message from a processed image that is still too big.
   */
  lemma AlertsTellFailuresApart(o: Outcome)
    ensures AlertFor(o).Some? <==> !(o.NoFile? || o.Stored?)
    ensures AlertFor(Rejected) != AlertFor(TooLargeAfterProcessing)
  {
    assert |RejectedAlert| == 67 && |TooLargeAlert| == 71;
  }

  /** HEIC/HEIF conversion followed by the downscale step, for an accepted file. */
  function ProcessSelectedFile(file: Blob, p: Platform): Option<Blob>
  {
    var converted := if IsHeic(file.mimeType) then p.convertHeicToJpeg(file) else Some(file);
    match converted
    case None => None
    case Some(b) => DownscaleViaCanvas(b, MaxDimension, TargetMimeType(file.mimeType), p)
  }

  /** The outcome of `onChange` for the selected file (if any) on the given platform. */
  function OnChangeOutcome(file: Option<Blob>, p: Platform): Outcome
  {
    match file
    case None => NoFile
    case Some(f) =>
      if !PassesSelectionCheck(f) then Rejected
      else
        match ProcessSelectedFile(f, p)
        case None => ProcessingFailed
        case Some(b) =>
          if b.size > MaxUploadBytes then TooLargeAfterProcessing
          else
            match p.readAsDataUrl(b)
            case None => ProcessingFailed
            case Some(url) => if p.storageAccepts(url) then Stored(url) else StorageFailed
  }

  /**
   * A file is rejected exactly when it fails the selection check, whatever the
   * platform would have done: no browser operation decides a rejection.
   */
  lemma RejectedIffCheckFails(f: Blob, p: Platform, q: Platform)
    ensures OnChangeOutcome(Some(f), p) == Rejected <==> !PassesSelectionCheck(f)
    ensures !PassesSelectionCheck(f) ==> OnChangeOutcome(Some(f), p) == OnChangeOutcome(Some(f), q)
  {
  }

  /** Only HEIC/HEIF inputs reach the converter: for other files its behaviour is irrelevant. */
  lemma OnlyHeicIsConverted(f: Blob, p: Platform, convert: Blob -> Option<Blob>)
    requires !IsHeic(f.mimeType)
    ensures OnChangeOutcome(Some(f), p.(convertHeicToJpeg := convert)) == OnChangeOutcome(Some(f), p)
  {
  }

  /**
   * A HEIC/HEIF file is converted to JPEG and its downscaled export is asked
   * for as JPEG; a failed conversion ends the run as a processing failure.
   */
  lemma HeicGoesThroughJpeg(f: Blob, p: Platform)
    requires PassesSelectionCheck(f) && IsHeic(f.mimeType)
    ensures p.convertHeicToJpeg(f).None? ==> OnChangeOutcome(Some(f), p) == ProcessingFailed
    ensures p.convertHeicToJpeg(f).Some? ==>
      ProcessSelectedFile(f, p) == DownscaleViaCanvas(p.convertHeicToJpeg(f).value, MaxDimension, Jpeg, p)
  {
  }

  /**
   * A non-HEIC file whose longer side is within 2048 pixels is stored as it
   * was selected: the blob read into the data URL is the file itself.
   */
  lemma SmallImageStoredAsIs(f: Blob, p: Platform, url: string, d: Dimensions)
    requires PassesSelectionCheck(f) && !IsHeic(f.mimeType)
    requires p.readAsDataUrl(f) == Some(url) && p.loadImage(url) == Some(d)
    requires MaxSide(d) <= MaxDimension
    ensures ProcessSelectedFile(f, p) == Some(f)
    ensures OnChangeOutcome(Some(f), p) == if p.storageAccepts(url) then Stored(url) else StorageFailed
  {
    DownscaleReturnsInput(f, MaxDimension, TargetMimeType(f.mimeType), p, url, d);
  }

  /**
   * A stored data URL comes from an accepted file whose processed image is at
   * most 10 MiB and was read into exactly that data URL, which storage took.
   */
  lemma StoredImpliesChecksPassed(f: Blob, p: Platform, url: string)
    requires OnChangeOutcome(Some(f), p) == Stored(url)
    ensures PassesSelectionCheck(f)
    ensures ProcessSelectedFile(f, p).Some?
    ensures ProcessSelectedFile(f, p).value.size <= MaxUploadBytes
    ensures p.readAsDataUrl(ProcessSelectedFile(f, p).value) == Some(url)
    ensures p.storageAccepts(url)
  {
  }

  /** A processed image over 10 MiB ends the run before anything is read or stored. */
  lemma OversizeAbortsBeforeStore(f: Blob, p: Platform)
    requires PassesSelectionCheck(f)
    requires ProcessSelectedFile(f, p).Some? && ProcessSelectedFile(f, p).value.size > MaxUploadBytes
    ensures OnChangeOutcome(Some(f), p) == TooLargeAfterProcessing
  {
  }
}
