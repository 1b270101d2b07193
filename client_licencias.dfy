/** Licence acquisition on the client (Client/src/local/Licencias.java). */
module ClientLicencias {
  import opened Wrappers
  import opened Sdk

  /** The one component the client requires. */
  const FingerExtraction: string := "Biometrics.FingerExtraction"

  /**
   * The client's licence loop: licences are tried in order and each state is put into the
   * map before it is tested; the first denial ends the loop with `false`. An exception ends
   * it too, before anything is recorded for that licence, and is returned.
   * The result is (map, obtained, exception).
   */
  function ObtainInOrder(m: map<string, bool>, ls: seq<string>, obtain: string -> LicenceReply)
    : (map<string, bool>, bool, Option<LicenceError>)
    decreases |ls|
  {
    if ls == [] then (m, true, None)
    else
      match obtain(ls[0])
      case Threw(e) => (m, false, Some(e))
      case Denied => (m[ls[0] := false], false, None)
      case Granted => ObtainInOrder(m[ls[0] := true], ls[1..], obtain)
  }

  ghost predicate AllGranted(ls: seq<string>, obtain: string -> LicenceReply)
  {
    forall i :: 0 <= i < |ls| ==> obtain(ls[i]) == Granted
  }

  /**
   * The call reports `true` exactly when every required licence was granted; then no
   * exception is reported, every listed licence is recorded as obtained and no other entry
   * changes.
   */
  lemma {:induction false} ObtainedIffAllGranted(m: map<string, bool>, ls: seq<string>,
                                                 obtain: string -> LicenceReply)
    ensures ObtainInOrder(m, ls, obtain).1 <==> AllGranted(ls, obtain)
    ensures ObtainInOrder(m, ls, obtain).1 ==>
              var m' := ObtainInOrder(m, ls, obtain).0;
              && ObtainInOrder(m, ls, obtain).2.None?
              && m'.Keys == m.Keys + (set l | l in ls)
              && (forall l :: l in ls ==> m'[l])
              && (forall k :: k in m && k !in ls ==> m'[k] == m[k])
    decreases |ls|
  {
    if ls != [] && obtain(ls[0]) == Granted {
      ObtainedIffAllGranted(m[ls[0] := true], ls[1..], obtain);
      if AllGranted(ls[1..], obtain) {
        forall i | 0 <= i < |ls|
          ensures obtain(ls[i]) == Granted
        {
          if i > 0 { assert ls[i] == ls[1..][i - 1]; }
        }
      }
      if AllGranted(ls, obtain) {
        forall i | 0 <= i < |ls[1..]|
          ensures obtain(ls[1..][i]) == Granted
        {
          assert ls[1..][i] == ls[i + 1];
        }
      }
      if ObtainInOrder(m, ls, obtain).1 {
        var m' := ObtainInOrder(m, ls, obtain).0;
        assert forall l :: l in ls <==> l == ls[0] || l in ls[1..] by {
          forall l ensures l in ls <==> l == ls[0] || l in ls[1..] {
            assert ls == [ls[0]] + ls[1..];
          }
        }
        assert m'.Keys == m.Keys + (set l | l in ls);
      }
    } else if ls != [] {
      assert !AllGranted(ls, obtain) by { assert obtain(ls[0]) != Granted; }
    }
  }

  /**
   * When licence `k` is the first not granted, the loop stops there: the outcome is that of
   * the list cut after `k` (later licences are never attempted), it is `false`, an exception
   * is reported exactly when licence `k` threw, and a denial is recorded as `false`.
   */
  lemma {:induction false} StopsAtFirstFailure(m: map<string, bool>, ls: seq<string>,
                                               obtain: string -> LicenceReply, k: nat)
    requires k < |ls| && obtain(ls[k]) != Granted
    requires forall i :: 0 <= i < k ==> obtain(ls[i]) == Granted
    ensures ObtainInOrder(m, ls, obtain) == ObtainInOrder(m, ls[..k + 1], obtain)
    ensures !ObtainInOrder(m, ls, obtain).1
    ensures ObtainInOrder(m, ls, obtain).2.Some? <==> obtain(ls[k]).Threw?
    ensures obtain(ls[k]) == Denied ==> ls[k] in ObtainInOrder(m, ls, obtain).0 && !ObtainInOrder(m, ls, obtain).0[ls[k]]
    decreases k
  {
    if k == 0 {
      assert ls[..1][0] == ls[0];
    } else {
      assert obtain(ls[0]) == Granted;
      StopsAtFirstFailure(m[ls[0] := true], ls[1..], obtain, k - 1);
      assert ls[..k + 1][1..] == ls[1..][..k];
      assert ls[..k + 1][0] == ls[0];
    }
  }

  class Licencias {
    var requiredLicenses: seq<string>
    /** Persists across calls on the same instance. */
    var licenses: map<string, bool>

    /** A new instance has an empty map; the required list is not built yet. */
    constructor ()
      ensures licenses == map[] && requiredLicenses == []
    {
      licenses := map[];
      requiredLicenses := [];
    }

    /**
     * `obtenerLicencias()`: rebuilds the required list as just FingerExtraction and runs the
     * licence loop over it against the map kept from earlier calls.
     */
    method ObtenerLicencias(obtain: string -> LicenceReply) returns (obtained: bool, err: Option<LicenceError>)
      modifies this
      ensures requiredLicenses == [FingerExtraction]
      ensures (licenses, obtained, err) == ObtainInOrder(old(licenses), requiredLicenses, obtain)
    {
      requiredLicenses := [FingerExtraction];
      var i := 0;
      while i < |requiredLicenses|
        invariant 0 <= i <= |requiredLicenses| && requiredLicenses == [FingerExtraction]
        invariant ObtainInOrder(old(licenses), requiredLicenses, obtain)
                  == ObtainInOrder(licenses, requiredLicenses[i..], obtain)
      {
        var license := requiredLicenses[i];
        var reply := obtain(license);
        if reply.Threw? {
          return false, Some(reply.error);
        }
        var state := reply == Granted;
        licenses := licenses[license := state];
        if !state {
          return false, None;
        }
        assert requiredLicenses[i..][1..] == requiredLicenses[i + 1..];
        i := i + 1;
      }
      return true, None;
    }
  }

  /** One call on the fixed list: obtained iff granted, and the reply is recorded unless it threw. */
  lemma OneCallRecordsReply(m: map<string, bool>, obtain: string -> LicenceReply)
    ensures ObtainInOrder(m, [FingerExtraction], obtain) ==
            match obtain(FingerExtraction)
            case Threw(e) => (m, false, Some(e))
            case Denied => (m[FingerExtraction := false], false, None)
            case Granted => (m[FingerExtraction := true], true, None)
  {
  }
}
