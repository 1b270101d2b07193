/**
 * The client's session facade (Client/src/webServices/ClienteImp.java). Its message log only
 * grows: every operation appends "\n" and a line.
 */
module ClienteImp {
  import opened Wrappers
  import opened Sdk
  import CL = ClientLicencias
  import opened ClientLector

  /** Java prints a null String as "null", which is how the log starts. */
  const NullText: string := "null"

  const NotReadMessage: string := "Aun no se ha leido huella desde el lector"
  const OpenedMessage: string := "Apertura"
  const DeniedMessage: string := "No se pudo obtener Licencias"
  const TimeoutMessage: string := "Tiempo de espera agotado"
  const NoLicenceMessage: string := "No se ha obtenido Licencia"
  const NoScannerDetectedMessage: string := "No se ha detectado lector"
  const InternalErrorMessage: string := "Error interno"
  const NoScannerMessage: string := "No existe lector"
  const LowQualityMessage: string := "La huella es de baja calidad"
  const NotCapturedMessage: string := "La huella no ha sido leida"
  const CapturedMessage: string := "La huella ha sido leida correctamente"
  const ClosedMessage: string := "Cierre"
  const NotOpenedMessage: string := "No se ha invocado aun el metodo abrir"

  /** One log entry as appended: `mensaje = mensaje + "\n" + text`. */
  function Line(text: string): string
  {
    "\n" + text
  }

  /**
   * `abrir`'s answer to the licence reply: 0 when obtained, -3 when denied, -1 on timeout
   * and -2 on any other exception, each with its line; the codes are all distinct.
   */
  function OpenAnswer(reply: LicenceReply): (a: (int, string))
    ensures a.0 == 0 <==> reply == Granted
    ensures a.0 == -3 <==> reply == Denied
    ensures a.0 == -1 <==> reply == Threw(TimeoutException)
    ensures a.0 == -2 <==> reply == Threw(IOException)
  {
    match reply
    case Granted => (0, OpenedMessage)
    case Denied => (-3, DeniedMessage)
    case Threw(TimeoutException) => (-1, TimeoutMessage)
    case Threw(IOException) => (-2, NoLicenceMessage)
  }

  class ClienteImp {
    const lector: Lector
    const licencia: CL.Licencias
    var primeraLectura: bool
    var isOpen: bool
    var mensaje: string

    constructor ()
      ensures fresh(lector) && fresh(licencia)
      ensures primeraLectura && !isOpen && mensaje == NullText
      ensures lector.subject.None? && lector.selected.None? && lector.clientScanner.None?
      ensures lector.scannerList == [] && !lector.badObject && licencia.licenses == map[]
    {
      lector := new Lector();
      licencia := new CL.Licencias();
      primeraLectura := true;
      isOpen := false;
      mensaje := NullText;
    }

    /** `getSubject()`: the captured subject, or a logged exception before any capture. */
    method GetSubject() returns (r: Reply<CaptureSubject>)
      modifies this
      ensures lector.subject.None? ==> mensaje == old(mensaje) + Line(NotReadMessage) && r == Thrown(NotReadMessage)
      ensures lector.subject.Some? ==> mensaje == old(mensaje) && r == Returned(lector.subject.value)
      ensures isOpen == old(isOpen) && primeraLectura == old(primeraLectura)
    {
      if lector.subject.None? {
        mensaje := mensaje + Line(NotReadMessage);
        return Thrown(NotReadMessage);
      }
      return Returned(lector.subject.value);
    }

    /** `abrir()`: marks the session open before asking for the licence, then answers by the reply. */
    method Abrir(obtain: string -> LicenceReply) returns (code: int)
      modifies this, licencia
      ensures isOpen && primeraLectura == old(primeraLectura)
      ensures licencia.requiredLicenses == [CL.FingerExtraction]
      ensures licencia.licenses == CL.ObtainInOrder(old(licencia.licenses), [CL.FingerExtraction], obtain).0
      ensures (code, mensaje) == (OpenAnswer(obtain(CL.FingerExtraction)).0,
                                  old(mensaje) + Line(OpenAnswer(obtain(CL.FingerExtraction)).1))
    {
      isOpen := true;
      var obtained, err := licencia.ObtenerLicencias(obtain);
      CL.OneCallRecordsReply(old(licencia.licenses), obtain);
      if err.Some? {
        match err.value {
          case TimeoutException =>
            mensaje := mensaje + Line(TimeoutMessage);
            return -1;
          case IOException =>
            mensaje := mensaje + Line(NoLicenceMessage);
            return -2;
        }
      }
      if !obtained {
        mensaje := mensaje + Line(DeniedMessage);
        return -3;
      }
      mensaje := mensaje + Line(OpenedMessage);
      return 0;
    }

    /**
     * `eco()`: rescans; 0 with the selected scanner's description when one is selected, -1
     * when none is, -2 when enumeration throws.
     */
    method Eco(devices: Option<seq<Device>>) returns (code: int)
      modifies this, lector
      ensures isOpen == old(isOpen) && primeraLectura == old(primeraLectura)
      ensures lector.subject == old(lector.subject) && lector.clientScanner == old(lector.clientScanner)
      ensures lector.badObject == old(lector.badObject)
      ensures lector.scannerList == devices.GetOr([])
      ensures devices.None? ==>
                code == -2 && mensaje == old(mensaje) + Line(InternalErrorMessage) && lector.selected.None?
      ensures devices.Some? ==>
                && lector.selected == SelectScanner(old(lector.clientScanner), devices.value)
                && (lector.selected.Some? ==>
                      code == 0 && mensaje == old(mensaje) + Line(lector.selected.value.description))
                && (lector.selected.None? ==>
                      code == -1 && mensaje == old(mensaje) + Line(NoScannerDetectedMessage))
    {
      var ok := lector.UpdateScannerList(devices);
      if !ok {
        mensaje := mensaje + Line(InternalErrorMessage);
        return -2;
      }
      if lector.selected.Some? {
        mensaje := mensaje + Line(lector.selected.value.description);
        return 0;
      } else {
        mensaje := mensaje + Line(NoScannerDetectedMessage);
        return -1;
      }
    }

    /**
     * `leerHuella()`: the first-read test assigns instead of comparing, so every call rescans
     * and leaves `primeraLectura` false. -2 when no scanner is selected; otherwise captures and
     * answers -1 for a bad object, 0 for a capture. Since a selected scanner's poll ends only
     * in one of those two, the "not read" line is never appended.
     */
    method LeerHuella(devices: Option<seq<Device>>, statuses: seq<TaskStatus>) returns (r: Reply<int>)
      requires devices.Some? && SelectScanner(lector.clientScanner, devices.value).Some? ==> Exits(statuses)
      modifies this, lector
      ensures !primeraLectura && isOpen == old(isOpen)
      ensures lector.scannerList == devices.GetOr([])
      ensures devices.None? ==>
                && r == Escaped && mensaje == old(mensaje) && lector.selected.None?
                && lector.subject == old(lector.subject) && lector.badObject == old(lector.badObject)
                && lector.clientScanner == old(lector.clientScanner)
      ensures devices.Some? ==>
        var sel := SelectScanner(old(lector.clientScanner), devices.value);
        && lector.selected == sel
        && (sel.None? ==>
              && r == Returned(-2) && mensaje == old(mensaje) + Line(NoScannerMessage)
              && lector.subject == old(lector.subject) && lector.badObject == old(lector.badObject)
              && lector.clientScanner == old(lector.clientScanner))
        && (sel.Some? ==>
              && lector.clientScanner == sel && lector.subject == Some(CaptureSubject(1))
              && lector.badObject == !Poll(statuses).Captured?
              && (Poll(statuses).Captured? ==> r == Returned(0) && mensaje == old(mensaje) + Line(CapturedMessage))
              && (!Poll(statuses).Captured? ==> r == Returned(-1) && mensaje == old(mensaje) + Line(LowQualityMessage)))
    {
      primeraLectura := true;
      if primeraLectura {
        primeraLectura := false;
        var listed := lector.UpdateScannerList(devices);
        if !listed {
          return Escaped;
        }
        if lector.selected.None? {
          mensaje := mensaje + Line(NoScannerMessage);
          return Returned(-2);
        }
      }
      var res := lector.StartCapturing(statuses);
      if lector.badObject {
        mensaje := mensaje + Line(LowQualityMessage);
        return Returned(-1);
      }
      if !res {
        // The "not read" branch: unreachable once a scanner is selected.
        assert false;
      }
      mensaje := mensaje + Line(CapturedMessage);
      return Returned(0);
    }

    /** `cerrar()`: 0 with "Cierre" once `abrir` has run (whatever it answered), else -1. */
    method Cerrar() returns (code: int)
      modifies this
      ensures isOpen == old(isOpen) && primeraLectura == old(primeraLectura)
      ensures isOpen ==> code == 0 && mensaje == old(mensaje) + Line(ClosedMessage)
      ensures !isOpen ==> code == -1 && mensaje == old(mensaje) + Line(NotOpenedMessage)
    {
      if isOpen {
        mensaje := mensaje + Line(ClosedMessage);
        return 0;
      } else {
        mensaje := mensaje + Line(NotOpenedMessage);
        return -1;
      }
    }
  }
}
