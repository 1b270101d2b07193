/**
 * The local client facade (Client/src/local/InterfazCliente.java). The same session as the
 * web-service client, except that each operation overwrites the message, `abrir` ignores
 * whether the licence was granted, `leerHuella` does not tell a bad object from any other
 * failed capture, and `cerrar` leaves the message alone when it succeeds.
 */
module InterfazCliente {
  import opened Wrappers
  import opened Sdk
  import CL = ClientLicencias
  import opened ClientLector

  const TimeoutMessage: string := "Tiempo de espera agotado"
  const NoActivatorMessage: string := "No se ha ejecutado el activador"
  const NoScannerDetectedMessage: string := "No se ha detectado lector"
  const InternalErrorMessage: string := "Error interno"
  const NoScannerMessage: string := "No existe lector"
  const NotCapturedMessage: string := "La huella no ha sido leida"
  const CapturedMessage: string := "La huella ha sido leida correctamente"
  const NotOpenedMessage: string := "No se ha invocado aun el metodo abrir"

  class InterfazCliente {
    const lector: Lector
    const licencia: CL.Licencias
    var primeraLectura: bool
    var isOpen: bool
    /** `null` until an operation sets it. */
    var mensaje: Option<string>

    constructor ()
      ensures fresh(lector) && fresh(licencia)
      ensures primeraLectura && !isOpen && mensaje.None?
      ensures lector.subject.None? && lector.selected.None? && lector.clientScanner.None?
      ensures lector.scannerList == [] && !lector.badObject && licencia.licenses == map[]
    {
      lector := new Lector();
      licencia := new CL.Licencias();
      primeraLectura := true;
      isOpen := false;
      mensaje := None;
    }

    /**
     * `abrir()`: marks the session open, then 0 whenever licence acquisition returns, granted
     * or not, with the message untouched; -1 on timeout and -2 on any other exception.
     */
    method Abrir(obtain: string -> LicenceReply) returns (code: int)
      modifies this, licencia
      ensures isOpen && primeraLectura == old(primeraLectura)
      ensures licencia.requiredLicenses == [CL.FingerExtraction]
      ensures licencia.licenses == CL.ObtainInOrder(old(licencia.licenses), [CL.FingerExtraction], obtain).0
      ensures code == 0 <==> !obtain(CL.FingerExtraction).Threw?
      ensures code == 0 ==> mensaje == old(mensaje)
      ensures obtain(CL.FingerExtraction) == Threw(TimeoutException) ==> code == -1 && mensaje == Some(TimeoutMessage)
      ensures obtain(CL.FingerExtraction) == Threw(IOException) ==> code == -2 && mensaje == Some(NoActivatorMessage)
    {
      isOpen := true;
      var _, err := licencia.ObtenerLicencias(obtain);
      CL.OneCallRecordsReply(old(licencia.licenses), obtain);
      if err.Some? {
        match err.value {
          case TimeoutException =>
            mensaje := Some(TimeoutMessage);
            return -1;
          case IOException =>
            mensaje := Some(NoActivatorMessage);
            return -2;
        }
      }
      return 0;
    }

    /**
     * `eco()`: rescans; 0 with the message set to the selected scanner's description, -1
     * when none is selected, -2 when enumeration throws.
     */
    method Eco(devices: Option<seq<Device>>) returns (code: int)
      modifies this, lector
      ensures isOpen == old(isOpen) && primeraLectura == old(primeraLectura)
      ensures lector.subject == old(lector.subject) && lector.clientScanner == old(lector.clientScanner)
      ensures lector.badObject == old(lector.badObject)
      ensures lector.scannerList == devices.GetOr([])
      ensures devices.None? ==> code == -2 && mensaje == Some(InternalErrorMessage) && lector.selected.None?
      ensures devices.Some? ==>
                && lector.selected == SelectScanner(old(lector.clientScanner), devices.value)
                && (lector.selected.Some? ==> code == 0 && mensaje == Some(lector.selected.value.description))
                && (lector.selected.None? ==> code == -1 && mensaje == Some(NoScannerDetectedMessage))
    {
      var ok := lector.UpdateScannerList(devices);
      if !ok {
        mensaje := Some(InternalErrorMessage);
        return -2;
      }
      if lector.selected.Some? {
        mensaje := Some(lector.selected.value.description);
        return 0;
      } else {
        mensaje := Some(NoScannerDetectedMessage);
        return -1;
      }
    }

    /**
     * `leerHuella()`: rescans on every call (the first-read test assigns), -2 when no
     * scanner is selected, otherwise 0 exactly when the capture succeeded and -1 for any
     * other end of the poll, bad objects included.
     */
    method LeerHuella(devices: Option<seq<Device>>, statuses: seq<TaskStatus>) returns (r: Reply<int>)
      requires devices.Some? && SelectScanner(lector.clientScanner, devices.value).Some? ==> Exits(statuses)
      modifies this, lector
      ensures !primeraLectura && isOpen == old(isOpen)
      ensures lector.scannerList == devices.GetOr([])
      ensures devices.None? ==>
                && r == Escaped && mensaje == old(mensaje) && lector.selected.None?
                && lector.subject == old(lector.subject) && lector.badObject == old(lector.badObject)
                && lector.clientScanner == old(lector.clientScanner)
      ensures devices.Some? ==>
        var sel := SelectScanner(old(lector.clientScanner), devices.value);
        && lector.selected == sel
        && (sel.None? ==>
              && r == Returned(-2) && mensaje == Some(NoScannerMessage)
              && lector.subject == old(lector.subject) && lector.badObject == old(lector.badObject)
              && lector.clientScanner == old(lector.clientScanner))
        && (sel.Some? ==>
              && lector.clientScanner == sel && lector.subject == Some(CaptureSubject(1))
              && lector.badObject == !Poll(statuses).Captured?
              && (Poll(statuses).Captured? ==> r == Returned(0) && mensaje == Some(CapturedMessage))
              && (!Poll(statuses).Captured? ==> r == Returned(-1) && mensaje == Some(NotCapturedMessage)))
    {
      primeraLectura := true;
      if primeraLectura {
        primeraLectura := false;
        var listed := lector.UpdateScannerList(devices);
        if !listed {
          return Escaped;
        }
        if lector.selected.None? {
          mensaje := Some(NoScannerMessage);
          return Returned(-2);
        }
      }
      var res := lector.StartCapturing(statuses);
      if !res {
        mensaje := Some(NotCapturedMessage);
        return Returned(-1);
      }
      mensaje := Some(CapturedMessage);
      return Returned(0);
    }

    /** `cerrar()`: 0 with the message untouched once `abrir` has run, else -1. */
    method Cerrar() returns (code: int)
      modifies this
      ensures isOpen == old(isOpen) && primeraLectura == old(primeraLectura)
      ensures isOpen ==> code == 0 && mensaje == old(mensaje)
      ensures !isOpen ==> code == -1 && mensaje == Some(NotOpenedMessage)
    {
      if isOpen {
        return 0;
      } else {
        mensaje := Some(NotOpenedMessage);
        return -1;
      }
    }
  }
}
