/** Licence acquisition on the server (Server/src/local/Licencias.java). */
module ServerLicencias {
  import opened Wrappers
  import opened Sdk

  /** The one component the server adds to its required list on every call. */
  const FingerMatching: string := "Biometrics.FingerMatching"

  /**
   * The server's licence loop: every licence is attempted, in order, with no early exit on a
   * denial; each state is put into the map. An exception ends the loop and is returned.
   */
  function RecordAll(m: map<string, bool>, ls: seq<string>, obtain: string -> LicenceReply)
    : (map<string, bool>, Option<LicenceError>)
    decreases |ls|
  {
    if ls == [] then (m, None)
    else
      match obtain(ls[0])
      case Threw(e) => (m, Some(e))
      case reply => RecordAll(m[ls[0] := reply == Granted], ls[1..], obtain)
  }

  /**
   * Normal return iff no attempt throws; then every listed licence is recorded with whether
   * it was granted, denials included, and no other entry changes.
   */
  lemma {:induction false} RecordAllAttemptsEvery(m: map<string, bool>, ls: seq<string>,
                                                  obtain: string -> LicenceReply)
    ensures RecordAll(m, ls, obtain).1.None? <==> forall i :: 0 <= i < |ls| ==> !obtain(ls[i]).Threw?
    ensures RecordAll(m, ls, obtain).1.None? ==>
              var m' := RecordAll(m, ls, obtain).0;
              && m'.Keys == m.Keys + (set l | l in ls)
              && (forall i :: 0 <= i < |ls| ==> m'[ls[i]] == (obtain(ls[i]) == Granted))
              && (forall l :: l in m && l !in ls ==> m'[l] == m[l])
    decreases |ls|
  {
    if ls != [] && !obtain(ls[0]).Threw? {
      var m1 := m[ls[0] := obtain(ls[0]) == Granted];
      RecordAllAttemptsEvery(m1, ls[1..], obtain);
      assert forall i :: 1 <= i < |ls| ==> ls[i] == ls[1..][i - 1];
      assert (set l | l in ls) == {ls[0]} + (set l | l in ls[1..]);
    }
  }

  /** An exception keeps what earlier attempts recorded and adds no key outside the list. */
  lemma {:induction false} RecordAllOnException(m: map<string, bool>, ls: seq<string>,
                                                obtain: string -> LicenceReply)
    requires RecordAll(m, ls, obtain).1.Some?
    ensures RecordAll(m, ls, obtain).0.Keys <= m.Keys + (set l | l in ls)
    ensures exists i :: 0 <= i < |ls| && obtain(ls[i]) == Threw(RecordAll(m, ls, obtain).1.value)
    decreases |ls|
  {
    if !obtain(ls[0]).Threw? {
      var m1 := m[ls[0] := obtain(ls[0]) == Granted];
      RecordAllOnException(m1, ls[1..], obtain);
      assert (set l | l in ls) == {ls[0]} + (set l | l in ls[1..]);
      var i :| 0 <= i < |ls[1..]| && obtain(ls[1..][i]) == Threw(RecordAll(m1, ls[1..], obtain).1.value);
      assert ls[1..][i] == ls[i + 1];
    }
  }

  class Licencias {
    var requiredLicenses: seq<string>
    var licenses: map<string, bool>

    constructor ()
      ensures requiredLicenses == [] && licenses == map[]
    {
      requiredLicenses := [];
      licenses := map[];
    }

    /**
     * `parsearLicenses()`: appends "Biometrics.FingerMatching" to the required list (so
     * repeated calls on one object accumulate duplicates) and records every required
     * licence; `err` is the exception it throws, if any.
     */
    method ParsearLicenses(obtain: string -> LicenceReply) returns (err: Option<LicenceError>)
      modifies this
      ensures requiredLicenses == old(requiredLicenses) + [FingerMatching]
      ensures (licenses, err) == RecordAll(old(licenses), requiredLicenses, obtain)
    {
      requiredLicenses := requiredLicenses + [FingerMatching];
      var i := 0;
      ghost var m0 := licenses;
      while i < |requiredLicenses|
        invariant 0 <= i <= |requiredLicenses|
        invariant requiredLicenses == old(requiredLicenses) + [FingerMatching]
        invariant RecordAll(m0, requiredLicenses, obtain) == RecordAll(licenses, requiredLicenses[i..], obtain)
      {
        assert requiredLicenses[i..][1..] == requiredLicenses[i + 1..];
        var license := requiredLicenses[i];
        var reply := obtain(license);
        if reply.Threw? {
          return Some(reply.error);
        }
        licenses := licenses[license := reply == Granted];
        i := i + 1;
      }
      err := None;
    }

    /** `getLicenseState(l)`: the recorded state; None for a licence never recorded (the null unboxing fails). */
    function GetLicenseState(license: string): (r: Option<bool>)
      reads this
      ensures r.Some? <==> license in licenses
      ensures r.Some? ==> r.value == licenses[license]
    {
      if license in licenses then Some(licenses[license]) else None
    }
  }

  /**
   * The first call on a new object: an exception records nothing; otherwise the map holds
   * exactly FingerMatching with whether it was granted.
   */
  lemma FreshCallRecordsFingerMatching(obtain: string -> LicenceReply)
    ensures RecordAll(map[], [FingerMatching], obtain) ==
            match obtain(FingerMatching)
            case Threw(e) => (map[], Some(e))
            case reply => (map[FingerMatching := reply == Granted], None)
  {
  }
}
