/** The scan page: a bus code decoded from the camera or from an uploaded
    image, then confirmed into a Boarded event. */
module ScanPage {
  import opened Common
  import opened SharedState

  const UnreadableImage: string := "Could not read QR code from image"

  /** Name recorded for a student without a display name. */

  /** The outcome of the file input: nothing chosen, the decoded text, or a
      decoder error. */
  datatype FileDecode = NoFile | Decoded(text: string) | Unreadable

  /** The event `handleConfirm` adds; the store assigns its id. */
  function BoardingEvent(bus: string, user: User, now: int): (b: Boarding)
    ensures b.busNumber == bus && b.studentId == user.uid && b.status == Boarded
    ensures b.studentName == Some(OrElse(user.displayName, DefaultName))
    ensures b.scannedAt == now && b.droppedOffAt == None
    ensures Aboard(b, bus)
  {
    Boarding(0, bus, user.uid, Some(OrElse(user.displayName, DefaultName)), Boarded, now, None)
  }

  /** Where a confirmed boarding leads. */
  function BoardedPage(bus: string): (r: string)
    ensures |r| == 28 + |bus|
    ensures r[..|r| - |bus|] == "/dashboard?boarded=true&bus=" && r[|r| - |bus|..] == bus
  {
    "/dashboard?boarded=true&bus=" + bus
  }

  /** Boarding is not deduplicated: each confirmed scan adds an event, and
      the bus's roster count grows by one every time, even for a student
      who is already aboard. */
  lemma {:induction false} EachScanAddsOne(bs: seq<Boarding>, bus: string, user: User, now: int, id: nat)
    ensures BoardedCount(bs + [BoardingEvent(bus, user, now).(id := id)], bus) == BoardedCount(bs, bus) + 1
  {
    var e := BoardingEvent(bus, user, now).(id := id);
    CountAppend(bs, [e], b => Aboard(b, bus));
    assert [e][1..] == [];
  }

  class Scan {
    var scannedBus: Option<string>
    var cameraMode: bool
    var isProcessing: bool
    var error: string

    constructor ()
      ensures scannedBus == None && !cameraMode && !isProcessing && error == ""
    {
      scannedBus, cameraMode, isProcessing, error := None, false, false, "";
    }

    /** The camera scanner is mounted only in camera mode and only while no
        bus code has been read. */
    predicate ScannerRunning()
      reads this
    {
      cameraMode && !Truthy(scannedBus)
    }

    method UseCamera()
      modifies this`cameraMode
      ensures cameraMode
    {
      cameraMode := true;
    }

    /** The camera scanner's success callback: it can fire only while the
        scanner is mounted. */
    method CameraDecoded(text: string)
      requires ScannerRunning()
      modifies this`scannedBus, this`cameraMode
      ensures scannedBus == Some(text) && !cameraMode
      ensures !ScannerRunning()
    {
      scannedBus := Some(text);
      cameraMode := false;
    }

    /** `handleFileUpload`. */
    method FileSelected(file: FileDecode)
      modifies this`scannedBus, this`error
      ensures file.NoFile? ==> scannedBus == old(scannedBus) && error == old(error)
      ensures file.Decoded? ==> scannedBus == Some(file.text) && error == old(error)
      ensures file.Unreadable? ==> scannedBus == old(scannedBus) && error == UnreadableImage
    {
      match file
      case NoFile =>
      case Decoded(text) => scannedBus := Some(text);
      case Unreadable => error := UnreadableImage;
    }

    /** `handleConfirm`: needs a scanned code and a user; adds exactly one
        Boarded event and navigates, or on a store failure shows the error
        and re-enables the button. */
    method Confirm(store: Store, user: Option<User>, now: int, storeOk: bool, failure: string)
      returns (nav: Option<string>)
      requires store.Valid()
      modifies this`isProcessing, this`error, store`boardings, store`nextId
      ensures store.Valid()
      ensures !(Truthy(scannedBus) && user.Some?) ==>
                nav == None && store.boardings == old(store.boardings) && store.nextId == old(store.nextId) &&
                isProcessing == old(isProcessing) && error == old(error)
      ensures Truthy(scannedBus) && user.Some? && storeOk ==>
                && store.boardings == old(store.boardings) +
                     [BoardingEvent(scannedBus.value, user.value, now).(id := old(store.nextId))]
                && nav == Some(BoardedPage(scannedBus.value))
                && isProcessing && error == old(error)
                && store.nextId == old(store.nextId) + 1
      ensures Truthy(scannedBus) && user.Some? && !storeOk ==>
                store.boardings == old(store.boardings) && store.nextId == old(store.nextId) && nav == None &&
                !isProcessing && error == failure
    {
      if !Truthy(scannedBus) || user.None? {
        return None;
      }
      isProcessing := true;
      if storeOk {
        var _ := store.AddBoarding(BoardingEvent(scannedBus.value, user.value, now));
        nav := Some(BoardedPage(scannedBus.value));
      } else {
        error := failure;
        isProcessing := false;
        nav := None;
      }
    }
  }
}
