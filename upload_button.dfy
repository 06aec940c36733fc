/**
 * The photo upload button as a state machine over one stored slot.
 *
 * An `Uploader` holds what the button component and the page share: the
 * session-storage slot `userUploadDataUrl`, the component's `isBusy` and
 * `hasUpload` state, and a count of the `user-uploaded-photo` notifications
 * it has dispatched. The component's own listener re-reads the slot when a
 * notification is dispatched; dispatch is synchronous, so `Notify` runs it
 * at once.
 */
module UploadButton {
  import opened Wrappers
  import opened UploadRules

  /** What a click on the button does. */
  datatype ClickAction = ResetUpload | OpenPicker

  /** `Boolean(sessionStorage.getItem(...))`: a stored, non-empty string. */
  predicate SlotHolds(slot: Option<string>)
  {
    slot.Some? && slot.value != ""
  }

  function ButtonLabel(isBusy: bool, hasUpload: bool): string
  {
    if isBusy then "Uploading..." else if hasUpload then "Reset" else "Upload your photo"
  }

  function ButtonAction(hasUpload: bool): ClickAction
  {
    if hasUpload then ResetUpload else OpenPicker
  }

  /**
   * The label tells the three states apart: busy, holding an upload, or
   * waiting for one; and the click resets exactly when an upload exists.
   */
  lemma LabelReflectsState(isBusy: bool, hasUpload: bool)
    ensures ButtonLabel(isBusy, hasUpload) == "Uploading..." <==> isBusy
    ensures ButtonLabel(isBusy, hasUpload) == "Reset" <==> !isBusy && hasUpload
    ensures ButtonLabel(isBusy, hasUpload) == "Upload your photo" <==> !isBusy && !hasUpload
    ensures ButtonAction(hasUpload) == ResetUpload <==> hasUpload
  {
  }

  class Uploader {
    /** The session-storage entry `userUploadDataUrl` (`None`: no entry). */
    var slot: Option<string>
    var isBusy: bool
    var hasUpload: bool
    /** Number of `user-uploaded-photo` events dispatched so far. */
    var notifications: nat
    /** Every value ever written to `isBusy`, in order. */
    ghost var busyWrites: seq<bool>

    /** Between two user actions: not busy, and `hasUpload` mirrors the slot. */
    ghost predicate Valid()
      reads this
    {
      !isBusy && hasUpload == SlotHolds(slot)
    }

    function Label(): string
      reads this
    {
      ButtonLabel(isBusy, hasUpload)
    }

    /** Mounting the button: it starts idle and syncs `hasUpload` with whatever the slot holds. */
    constructor (stored: Option<string>)
      ensures Valid()
      ensures slot == stored && notifications == 0 && busyWrites == []
    {
      slot := stored;
      isBusy := false;
      hasUpload := SlotHolds(stored);
      notifications := 0;
      busyWrites := [];
    }

    /** The component's listener: re-read the slot. */
    method Sync()
      modifies this`hasUpload
      ensures hasUpload == SlotHolds(slot)
    {
      hasUpload := SlotHolds(slot);
    }

    /** Dispatch `user-uploaded-photo`; the component's own listener runs during dispatch. */
    method Notify()
      modifies this`notifications, this`hasUpload
      ensures notifications == old(notifications) + 1
      ensures hasUpload == SlotHolds(slot)
    {
      notifications := notifications + 1;
      Sync();
    }

    method SetBusy(b: bool)
      modifies this`isBusy, this`busyWrites
      ensures isBusy == b && busyWrites == old(busyWrites) + [b]
    {
      isBusy := b;
      busyWrites := busyWrites + [b];
    }

    /** `resetUpload`: remove the slot, notify, and show the picker action again. */
    method Reset()
      requires Valid()
      modifies this`slot, this`notifications, this`hasUpload
      ensures Valid()
      ensures slot == None && !hasUpload
      ensures notifications == old(notifications) + 1
      ensures Label() == "Upload your photo" && ButtonAction(hasUpload) == OpenPicker
    {
      slot := None;
      Notify();
      hasUpload := false;
    }

    /**
     * The body of the `try` in `onChange`, for a file that passed the
     * selection check: transcode, downscale, re-check the size, read the data
     * URL and store it. Every early exit leaves the slot as it was.
     */
    method ProcessAndStore(file: Blob, p: Platform) returns (outcome: Outcome)
      requires PassesSelectionCheck(file)
      modifies this`slot, this`notifications, this`hasUpload
      ensures outcome == OnChangeOutcome(Some(file), p)
      ensures slot == if outcome.Stored? then Some(outcome.dataUrl) else old(slot)
      ensures notifications == old(notifications) + if outcome.Stored? then 1 else 0
      ensures hasUpload == if outcome.Stored? then SlotHolds(slot) else old(hasUpload)
    {
      var isHeic := IsHeic(file.mimeType);
      var blobToStore := file;
      if isHeic {
        var converted := p.convertHeicToJpeg(file);
        if converted.None? {
          return ProcessingFailed;
        }
        blobToStore := converted.value;
      }

      var targetMimeType := if isHeic then Jpeg else file.mimeType;
      var downscaled := DownscaleViaCanvas(blobToStore, MaxDimension, targetMimeType, p);
      if downscaled.None? {
        return ProcessingFailed;
      }
      blobToStore := downscaled.value;

      if blobToStore.size > MaxUploadBytes {
        return TooLargeAfterProcessing;
      }

      var dataUrl := p.readAsDataUrl(blobToStore);
      if dataUrl.None? {
        return ProcessingFailed;
      }

      if !p.storageAccepts(dataUrl.value) {
        return StorageFailed;
      }
      slot := Some(dataUrl.value);
      Notify();
      outcome := Stored(dataUrl.value);
    }

    /**
     * `onChange`: a missing or rejected file changes nothing (`isBusy` is not
     * even written); any other run writes `isBusy` true on entry and false on
     * exit, whatever the outcome, and changes the slot only when it stores.
     */
    method OnChange(file: Option<Blob>, p: Platform) returns (outcome: Outcome)
      requires Valid()
      modifies this
      ensures Valid()
      ensures outcome == OnChangeOutcome(file, p)
      ensures slot == if outcome.Stored? then Some(outcome.dataUrl) else old(slot)
      ensures notifications == old(notifications) + if outcome.Stored? then 1 else 0
      ensures busyWrites == if outcome.NoFile? || outcome.Rejected? then old(busyWrites)
                            else old(busyWrites) + [true, false]
      ensures outcome.Stored? && outcome.dataUrl != "" ==> Label() == "Reset"
      ensures !outcome.Stored? ==> Label() == old(Label())
    {
      if file.None? {
        return NoFile;
      }
      if !PassesSelectionCheck(file.value) {
        return Rejected;
      }
      SetBusy(true);
      outcome := ProcessAndStore(file.value, p);
      SetBusy(false);
    }
  }

  /**
   * A run: mount with an empty slot, store one photo, then reset. The label
   * goes "Upload your photo", "Reset", "Upload your photo".
   */
  method UploadThenReset(p: Platform, f: Blob, url: string)
    requires url != "" && OnChangeOutcome(Some(f), p) == Stored(url)
  {
    var u := new Uploader(None);
    assert u.Label() == "Upload your photo";
    var o := u.OnChange(Some(f), p);
    assert u.slot == Some(url) && u.Label() == "Reset";
    u.Reset();
    assert u.slot == None && u.Label() == "Upload your photo";
  }
}
