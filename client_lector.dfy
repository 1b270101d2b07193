/**
 * The client's scanner wrapper (Client/src/local/Lector.java): the capture poll loop and the
 * scanner list with its selection rule. The SDK's task status and device enumeration are
 * parameters.
 */
module ClientLector {
  import opened Wrappers
  import opened Sdk

  /** The subject `startCapturing` prepares for the SDK: how many fingers it was given. */
  datatype CaptureSubject = CaptureSubject(fingers: nat)

  /** How the poll loop ends, with the number of sleeps taken; `StillPolling` if it never does. */
  datatype PollOutcome = Captured(sleeps: nat) | LowQuality(sleeps: nat) | StillPolling

  /**
   * `s` lists the values of successive `task.getStatus()` calls. Even reads are the loop-head
   * test for OK; odd reads follow a sleep and test for BAD_OBJECT. Read `i` ends the loop when
   * its test succeeds.
   */
  predicate ExitsAt(s: seq<TaskStatus>, i: nat)
    requires i < |s|
  {
    (i % 2 == 0 && s[i] == StatusOk) || (i % 2 == 1 && s[i] == StatusBadObject)
  }

  /** The poll loop from read `i` on: it ends at the first read whose test succeeds. */
  function PollFrom(s: seq<TaskStatus>, i: nat): (r: PollOutcome)
    ensures r.StillPolling? <==> forall j :: i <= j < |s| ==> !ExitsAt(s, j)
    ensures r.Captured? ==>
              && i <= 2 * r.sleeps < |s| && s[2 * r.sleeps] == StatusOk
              && forall j :: i <= j < 2 * r.sleeps ==> !ExitsAt(s, j)
    ensures r.LowQuality? ==>
              && 1 <= r.sleeps && i <= 2 * r.sleeps - 1 < |s| && s[2 * r.sleeps - 1] == StatusBadObject
              && forall j :: i <= j < 2 * r.sleeps - 1 ==> !ExitsAt(s, j)
    decreases |s| - i
  {
    if i >= |s| then StillPolling
    else if i % 2 == 0 && s[i] == StatusOk then assert ExitsAt(s, i); Captured(i / 2)
    else if i % 2 == 1 && s[i] == StatusBadObject then assert ExitsAt(s, i); LowQuality((i + 1) / 2)
    else PollFrom(s, i + 1)
  }

  function Poll(s: seq<TaskStatus>): PollOutcome
  {
    PollFrom(s, 0)
  }

  /** The observed statuses end the loop (the loop itself has no ceiling). */
  predicate Exits(s: seq<TaskStatus>)
  {
    !Poll(s).StillPolling?
  }

  /** A status that is neither OK nor BAD_OBJECT forever keeps the loop polling. */
  lemma {:induction false} OtherStatusNeverExits(s: seq<TaskStatus>, i: nat)
    requires forall j :: 0 <= j < |s| ==> s[j] == StatusOther
    ensures PollFrom(s, i) == StillPolling
  {
  }

  /** An immediate OK captures with no sleep. */
  lemma ImmediateOkCaptures(s: seq<TaskStatus>)
    requires |s| > 0 && s[0] == StatusOk
    ensures Poll(s) == Captured(0)
  {
  }

  /**
   * BAD_OBJECT is only tested after a sleep: seen at the loop head it is passed over, the
   * poll goes on from the next read, and a later OK still captures.
   */
  lemma BadObjectAtHeadIsIgnored(s: seq<TaskStatus>)
    requires |s| > 0 && s[0] == StatusBadObject
    ensures Poll(s) == PollFrom(s, 1)
    ensures |s| > 2 && s[1] != StatusBadObject && s[2] == StatusOk ==> Poll(s) == Captured(1)
  {
    if |s| > 2 && s[1] != StatusBadObject && s[2] == StatusOk {
      assert PollFrom(s, 2) == Captured(1);
    }
  }

  /**
   * The selection rule after a rescan: with no scanner in use, the first device if there is
   * one; with a scanner in use, that scanner when it is still listed, otherwise nothing
   * (`setSelectedValue` clears the selection for a value not in the list).
   */
  function SelectScanner(current: Option<Device>, devices: seq<Device>): (r: Option<Device>)
    ensures r.Some? ==> r.value in devices
    ensures current.None? ==> (r.Some? <==> |devices| > 0) && (r.Some? ==> r.value == devices[0])
    ensures current.Some? ==> (r.Some? <==> current.value in devices) && (r.Some? ==> r == current)
  {
    if current.None? then (if |devices| > 0 then Some(devices[0]) else None)
    else if current.value in devices then current
    else None
  }

  /** Once a scanner has been used, a rescan that still lists it selects it again. */
  lemma RescanKeepsScannerInUse(current: Option<Device>, devices: seq<Device>)
    requires SelectScanner(current, devices).Some?
    ensures SelectScanner(SelectScanner(current, devices), devices) == SelectScanner(current, devices)
  {
  }

  /** A scanner in use that disappears is not replaced by another listed one. */
  lemma LostScannerIsNotReplaced(d: Device, devices: seq<Device>)
    requires d !in devices
    ensures SelectScanner(Some(d), devices) == None
  {
  }

  class Lector {
    var subject: Option<CaptureSubject>
    /** The scanner list model, in enumeration order. */
    var scannerList: seq<Device>
    /** The list's selected value. */
    var selected: Option<Device>
    /** The biometric client's finger scanner. */
    var clientScanner: Option<Device>
    var badObject: bool

    constructor ()
      ensures subject.None? && scannerList == [] && selected.None? && clientScanner.None? && !badObject
    {
      subject := None;
      scannerList := [];
      selected := None;
      clientScanner := None;
      badObject := false;
    }

    /**
     * `startCapturing()`: clears the bad-object flag; without a selected scanner answers
     * false at once; otherwise hands the scanner to the client, prepares a subject with one
     * finger and polls the task status until OK (true) or, after a sleep, BAD_OBJECT (false,
     * flag set).
     */
    method StartCapturing(statuses: seq<TaskStatus>) returns (r: bool)
      requires selected.Some? ==> Exits(statuses)
      modifies this
      ensures scannerList == old(scannerList) && selected == old(selected)
      ensures old(selected).None? ==>
                !r && !badObject && subject == old(subject) && clientScanner == old(clientScanner)
      ensures old(selected).Some? ==>
                && clientScanner == old(selected) && subject == Some(CaptureSubject(1))
                && r == Poll(statuses).Captured? && badObject == Poll(statuses).LowQuality?
      ensures r ==> !badObject
    {
      badObject := false;
      if selected.None? {
        return false;
      }
      clientScanner := selected;
      subject := Some(CaptureSubject(1));
      var k := 0;
      while statuses[k] != StatusOk
        invariant k % 2 == 0 && PollFrom(statuses, k) == Poll(statuses) && k < |statuses|
        invariant !badObject && clientScanner == old(selected) && subject == Some(CaptureSubject(1))
        invariant scannerList == old(scannerList) && selected == old(selected)
        decreases |statuses| - k
      {
        k := k + 1;
        if statuses[k] == StatusBadObject {
          badObject := true;
          return false;
        }
        k := k + 1;
      }
      return true;
    }

    /**
     * `updateScannerList()`: replaces the list with the enumerated devices in order and
     * applies the selection rule. `None` stands for an enumeration that throws: the list has
     * already been replaced by an empty one with no selection.
     */
    method UpdateScannerList(devices: Option<seq<Device>>) returns (ok: bool)
      modifies this
      ensures ok == devices.Some?
      ensures scannerList == devices.GetOr([])
      ensures selected == (if ok then SelectScanner(clientScanner, devices.value) else None)
      ensures subject == old(subject) && clientScanner == old(clientScanner) && badObject == old(badObject)
    {
      scannerList := [];
      selected := None;
      if devices.None? {
        return false;
      }
      var ds := devices.value;
      for x := 0 to |ds|
        invariant scannerList == ds[..x] && selected.None?
        invariant subject == old(subject) && clientScanner == old(clientScanner) && badObject == old(badObject)
      {
        assert ds[..x + 1] == ds[..x] + [ds[x]];
        scannerList := scannerList + [ds[x]];
      }
      assert ds[..|ds|] == ds;
      if clientScanner.None? && |scannerList| > 0 {
        selected := Some(scannerList[0]);
      } else if clientScanner.Some? {
        selected := if clientScanner.value in scannerList then clientScanner else None;
      }
      return true;
    }
  }
}
