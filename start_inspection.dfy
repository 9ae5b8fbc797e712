/**
 * The inspector's scan log (app/start-inspection.jsx): a tag read by the
 * NFC hook opens the passenger-type modal; choosing a type prepends a log
 * entry, and choosing or cancelling closes the modal and, for a scanned tag,
 * restarts scanning, which clears the hook's tag.
 */
module StartInspection {
  import opened Common

  /** What the NFC hook reports for a tag; `id` may be missing. */
  datatype Tag = Tag(id: Option<string>)

  /** `tagData && tagData.id`: a tag is present and its id is a non-empty string. */
  predicate HasId(tagData: Option<Tag>)
  {
    tagData.Some? && tagData.value.id.Some? && tagData.value.id.value != ""
  }

  /** The id carried by a present tag with an id, or None (`null`). */
  function TagIdOf(tagData: Option<Tag>): (r: Option<string>)
    ensures r.Some? <==> HasId(tagData)
    ensures r.Some? ==> tagData.value.id == r
  {
    if HasId(tagData) then tagData.value.id else None
  }

  /** A log entry; the id and timestamp come from the clock. */
  datatype ScanLog = ScanLog(id: string, timestamp: string, passengerType: string, tagId: Option<string>)

  class InspectionSession {
    var scannedLogs: seq<ScanLog>
    var showPassengerModal: bool
    /** The hook's `tagData`: set when a tag is read, cleared when scanning restarts. */
    var tagData: Option<Tag>

    /** The screen mounts with no logs, the modal closed and no tag. */
    constructor ()
      ensures scannedLogs == [] && !showPassengerModal && tagData == None
    {
      scannedLogs, showPassengerModal, tagData := [], false, None;
    }

    /** The effect on `[tagData, showPassengerModal]`: a tag with an id opens the closed modal. */
    method TagEffect()
      modifies this`showPassengerModal
      ensures showPassengerModal == (old(showPassengerModal) || HasId(tagData))
    {
      if HasId(tagData) && !showPassengerModal {
        showPassengerModal := true;
      }
    }

    /** The hook reads a tag; the effect then runs. */
    method TagRead(tag: Tag)
      modifies this`tagData, this`showPassengerModal
      ensures tagData == Some(tag) && scannedLogs == old(scannedLogs)
      ensures showPassengerModal == (old(showPassengerModal) || HasId(Some(tag)))
    {
      tagData := Some(tag);
      TagEffect();
    }

    /** `startScanning` of the NFC hook begins by clearing the tag. */
    method StartScanning()
      modifies this`tagData
      ensures tagData == None
    {
      tagData := None;
    }

    /**
     * `handlePassengerSelect`: exactly one entry is put in front of the older
     * ones, carrying the chosen type and the tag's id when a tag with an id
     * is present (otherwise null); the modal closes; scanning restarts
     * exactly when a tag with an id is present. After the effect has run the
     * modal is still closed.
     */
    method HandlePassengerSelect(passengerType: string, nowMillis: nat, timestamp: string) returns (restarted: bool)
      modifies this`scannedLogs, this`showPassengerModal, this`tagData
      ensures |scannedLogs| == |old(scannedLogs)| + 1 && scannedLogs[1..] == old(scannedLogs)
      ensures scannedLogs[0] == ScanLog(NatToString(nowMillis), timestamp, passengerType, TagIdOf(old(tagData)))
      ensures restarted <==> HasId(old(tagData))
      ensures restarted ==> tagData == None
      ensures !restarted ==> tagData == old(tagData)
      ensures !showPassengerModal
    {
      var newLog := ScanLog(NatToString(nowMillis), timestamp, passengerType, TagIdOf(tagData));
      scannedLogs := [newLog] + scannedLogs;
      showPassengerModal := false;
      restarted := HasId(tagData);
      if restarted {
        StartScanning();
      }
      TagEffect();
    }

    /** `handleManualAdd`: only opens the modal; no entry is made. */
    method HandleManualAdd()
      modifies this`showPassengerModal
      ensures showPassengerModal
    {
      showPassengerModal := true;
    }

    /**
     * `handleCancel`: the modal closes and the logs stay as they are; scanning
     * restarts exactly when a tag with an id is present. After the effect has
     * run the modal is still closed.
     */
    method HandleCancel() returns (restarted: bool)
      modifies this`showPassengerModal, this`tagData
      ensures restarted <==> HasId(old(tagData))
      ensures restarted ==> tagData == None
      ensures !restarted ==> tagData == old(tagData)
      ensures !showPassengerModal
    {
      showPassengerModal := false;
      restarted := HasId(tagData);
      if restarted {
        StartScanning();
      }
      TagEffect();
    }
  }

  /**
   * A scanned tag is logged once: reading a tag with an id opens the modal,
   * choosing a type logs that tag's id, and the modal then stays closed.
   */
  method ScanAndSelect(session: InspectionSession, tag: Tag, passengerType: string, nowMillis: nat, timestamp: string)
    requires HasId(Some(tag))
    modifies session
    ensures |session.scannedLogs| == |old(session.scannedLogs)| + 1
    ensures session.scannedLogs[0].tagId == tag.id && session.scannedLogs[0].passengerType == passengerType
    ensures !session.showPassengerModal && session.tagData == None
  {
    session.TagRead(tag);
    assert session.showPassengerModal;
    var restarted := session.HandlePassengerSelect(passengerType, nowMillis, timestamp);
  }
}
