/**
 * The web-service facade of the server (Server/src/webServices/InterServerImp.java). Its
 * message log only grows: every operation appends "\n" and a line, and every exception it
 * throws carries the whole log. The file list is never cleared between calls.
 */
module InterServerImp {
  import opened Wrappers
  import opened Decimal
  import opened Sdk
  import opened Naming
  import opened ServerLector
  import opened IdentifyFinger
  import M = Mapeador
  import opened ServerLicencias
  import opened Verdicts

  /** Java prints a null String as "null", which is how the log starts. */
  const NullText: string := "null"

  const LicencesObtainedMessage: string := "Las licencias se han obtenido correctamente"
  const NoLicenceMessage: string := "No se ha obtenido la licencia"
  const ActivatorMessage: string := "Se ha ejecutado el activador?"
  const NoConnectionMessage: string := "No hay conexion para la obtencion de licencias"
  const SaveProblemMessage: string := "Problema con el nombre con que se guarda o la ruta donde se guarda"

  /** One log entry as appended: `mensaje = mensaje + "\n" + text`. */
  function Line(text: string): string
  {
    "\n" + text
  }

  function SavedMessage(directorio: string, nomFinal: string): string
  {
    "Huella creada en: " + directorio + " con el nombre " + nomFinal
  }

  /**
   * What `obtenerLicencias` appends: a line only when the licence was obtained, two lines on
   * IOException, one on TimeoutException, nothing on a denial.
   */
  function LicenceLog(reply: LicenceReply): string
  {
    match reply
    case Granted => Line(LicencesObtainedMessage)
    case Denied => ""
    case Threw(IOException) => Line(NoLicenceMessage) + Line(ActivatorMessage)
    case Threw(TimeoutException) => Line(NoConnectionMessage)
  }

  class InterServerImp {
    const directorio: string
    var mensaje: string
    var licencia: Licencias
    const mapeador: M.Mapeador
    var listaHuellas: seq<string>
    /** `f.exists()` for the directory as seen by the last `cargarArchivos`. */
    var directoryExists: bool

    /** The dispatcher's reader always holds a subject: nothing here sets it to null. */
    ghost predicate Valid()
      reads this, mapeador, mapeador.lector
    {
      mapeador.lector.subject.Some?
    }

    /** `directorio` is the value the configuration file gives (reading it is not modelled). */
    constructor (directorio: string)
      ensures Valid() && this.directorio == directorio
      ensures mensaje == NullText && listaHuellas == [] && !directoryExists
      ensures fresh(mapeador) && fresh(mapeador.lector) && fresh(mapeador.identifyFinger)
      ensures fresh(licencia) && licencia.requiredLicenses == [] && licencia.licenses == map[]
      ensures mapeador.identifyFinger.posicion == NotYetIdentified
    {
      this.directorio := directorio;
      mapeador := new M.Mapeador();
      licencia := new Licencias();
      listaHuellas := [];
      mensaje := NullText;
      directoryExists := false;
    }

    /**
     * `obtenerLicencias()`: -1 only when acquisition throws; 0 otherwise, even when the
     * licence was denied.
     */
    method ObtenerLicencias(obtain: string -> LicenceReply) returns (code: int)
      modifies this
      ensures fresh(licencia) && licencia.requiredLicenses == [FingerMatching]
      ensures licencia.licenses ==
              if obtain(FingerMatching).Threw? then map[] else map[FingerMatching := obtain(FingerMatching) == Granted]
      ensures code == (if obtain(FingerMatching).Threw? then -1 else 0)
      ensures mensaje == old(mensaje) + LicenceLog(obtain(FingerMatching))
      ensures listaHuellas == old(listaHuellas) && directoryExists == old(directoryExists)
    {
      var l := new Licencias();
      licencia := l;
      var err := l.ParsearLicenses(obtain);
      FreshCallRecordsFingerMatching(obtain);
      if err.Some? {
        match err.value {
          case IOException =>
            mensaje := mensaje + Line(NoLicenceMessage);
            mensaje := mensaje + Line(ActivatorMessage);
          case TimeoutException =>
            mensaje := mensaje + Line(NoConnectionMessage);
        }
        return -1;
      }
      var b := l.GetLicenseState(FingerMatching);
      if b.value {
        mensaje := mensaje + Line(LicencesObtainedMessage);
      }
      code := 0;
    }

    /**
     * `guardarHuella(nombre, huellaBytes)`: loads the bytes; rejects a template without
     * fingers (per the SDK, `fingersPresent`) before touching the disk; else saves it as
     * `directorio + FileName(time, nombre)` and answers 0, or -1 when the write fails.
     */
    method GuardarHuella(nombre: string, huellaBytes: Template, fingersPresent: bool, time: Long,
                         files: map<string, Template>, writeOk: bool)
      returns (r: Reply<int>, files': map<string, Template>)
      requires Valid()
      modifies this, mapeador, mapeador.lector, mapeador.identifyFinger
      ensures Valid() && mapeador.lector.subject == Some(Subject(huellaBytes))
      ensures unchanged(mapeador.identifyFinger)
      ensures mapeador.pathRead == old(mapeador.pathRead) && mapeador.path == old(mapeador.path)
      ensures mapeador.fingers == old(mapeador.fingers) && mapeador.subjectIdentify == old(mapeador.subjectIdentify)
      ensures listaHuellas == old(listaHuellas) && directoryExists == old(directoryExists)
      ensures licencia == old(licencia)
      ensures !fingersPresent ==>
                && mensaje == old(mensaje) + Line(LowQualityMessage) && r == Thrown(mensaje)
                && files' == files && mapeador.pathSave == old(mapeador.pathSave)
      ensures fingersPresent ==>
                var nomFinal := FileName(time, nombre);
                && mapeador.pathSave == directorio + nomFinal
                && (writeOk ==>
                      && r == Returned(0) && files' == files[directorio + nomFinal := huellaBytes]
                      && mensaje == old(mensaje) + Line(SavedMessage(directorio, nomFinal)))
                && (!writeOk ==>
                      && r == Returned(-1) && files' == files
                      && mensaje == old(mensaje) + Line(SaveProblemMessage))
    {
      mapeador.lector.subject := Some(Subject(huellaBytes));
      if !fingersPresent {
        mensaje := mensaje + Line(LowQualityMessage);
        return Thrown(mensaje), files;
      }
      var nomFinal := FileName(time, nombre);
      var ubicacion := directorio + nomFinal;
      mapeador.pathSave := ubicacion;
      var saved;
      saved, files' := mapeador.Manejador(M.Guardar, files, writeOk, Matcher(_ => true, (_, _, _) => MatchNotFound));
      if saved {
        mensaje := mensaje + Line(SavedMessage(directorio, nomFinal));
        r := Returned(0);
      } else {
        mensaje := mensaje + Line(SaveProblemMessage);
        r := Returned(-1);
      }
    }

    /**
     * `cargarArchivos()`: appends the directory's entries, in enumeration order, to the list,
     * which is never cleared; a missing directory (None) leaves it unchanged.
     */
    method CargarArchivos(listing: Option<seq<string>>)
      modifies this
      ensures directoryExists == listing.Some?
      ensures listaHuellas == old(listaHuellas) + listing.GetOr([])
      ensures mensaje == old(mensaje) && licencia == old(licencia)
    {
      directoryExists := listing.Some?;
      if listing.Some? {
        var ficheros := listing.value;
        for x := 0 to |ficheros|
          invariant listaHuellas == old(listaHuellas) + ficheros[..x]
          invariant directoryExists == listing.Some?
          invariant mensaje == old(mensaje) && licencia == old(licencia)
        {
          assert ficheros[..x + 1] == ficheros[..x] + [ficheros[x]];
          listaHuellas := listaHuellas + [ficheros[x]];
        }
        assert ficheros[..|ficheros|] == ficheros;
      }
    }

    /** `identify(huellas)`: hands the list and directory to the dispatcher and reads back `posicion`. */
    method Identify(huellas: seq<string>, files: map<string, Template>, matcher: Matcher) returns (aux: int)
      requires Valid()
      modifies mapeador, mapeador.lector, mapeador.identifyFinger
      ensures Valid() && unchanged(mapeador.lector)
      ensures aux == mapeador.identifyFinger.posicion
      ensures aux == Identification(old(mapeador.identifyFinger.posicion), huellas, directorio, files,
                                    mapeador.lector.subject.value.template, matcher).0
      ensures mapeador.fingers == huellas && mapeador.path == directorio
      ensures mapeador.pathRead == old(mapeador.pathRead) && mapeador.pathSave == old(mapeador.pathSave)
      ensures mapeador.subjectIdentify == old(mapeador.subjectIdentify)
      ensures mapeador.identifyFinger.names == huellas && mapeador.identifyFinger.path == directorio
      ensures mapeador.identifyFinger.subjectIdentify == mapeador.subjectIdentify
      ensures mapeador.identifyFinger.subject == mapeador.lector.subject
    {
      mapeador.fingers := huellas;
      mapeador.path := directorio;
      var _, _ := mapeador.Manejador(M.Identificar, files, false, matcher);
      aux := mapeador.identifyFinger.posicion;
    }

    /**
     * `identificarHuella(huella)`: loads the bytes; rejects a template without fingers before
     * listing the directory; otherwise appends the listing to the list, identifies against
     * the whole list and answers by the outcome table, the name being the text after the
     * first `-` of the matched entry.
     */
    method IdentificarHuella(huella: Template, fingersPresent: bool, listing: Option<seq<string>>,
                             files: map<string, Template>, matcher: Matcher)
      returns (r: Reply<string>)
      requires Valid()
      modifies this, mapeador, mapeador.lector, mapeador.identifyFinger
      ensures Valid() && mapeador.lector.subject == Some(Subject(huella))
      ensures licencia == old(licencia)
      ensures mapeador.pathRead == old(mapeador.pathRead) && mapeador.pathSave == old(mapeador.pathSave)
      ensures mapeador.subjectIdentify == old(mapeador.subjectIdentify)
      ensures !fingersPresent ==>
                && mensaje == old(mensaje) + Line(LowQualityMessage) && r == Thrown(mensaje)
                && listaHuellas == old(listaHuellas) && directoryExists == old(directoryExists)
                && unchanged(mapeador.identifyFinger)
                && mapeador.fingers == old(mapeador.fingers) && mapeador.path == old(mapeador.path)
      ensures fingersPresent ==>
                && mapeador.fingers == listaHuellas && mapeador.path == directorio
                && mapeador.identifyFinger.names == listaHuellas && mapeador.identifyFinger.path == directorio
                && mapeador.identifyFinger.subjectIdentify == mapeador.subjectIdentify
                && mapeador.identifyFinger.subject == Some(Subject(huella))
      ensures fingersPresent ==>
                var resultado := Identification(old(mapeador.identifyFinger.posicion), listaHuellas,
                                                directorio, files, huella, matcher).0;
                && listaHuellas == old(listaHuellas) + listing.GetOr([])
                && directoryExists == listing.Some?
                && mapeador.identifyFinger.posicion == resultado
                && match Classify(resultado, listing.Some?, |listaHuellas|)
                   case NotRead => mensaje == old(mensaje) + Line(NotReadMessage) && r == Thrown(mensaje)
                   case DirectoryMissing =>
                     mensaje == old(mensaje) + Line(DirectoryMissingMessage) && r == Thrown(mensaje)
                   case NoMatch => mensaje == old(mensaje) + Line(NoMatchMessage) && r == Thrown(mensaje)
                   case Match(i) =>
                     && mensaje == old(mensaje) + Line(YouArePrefix + DisplayName(listaHuellas[i]))
                     && r == Returned(DisplayName(listaHuellas[i]))
                   case BadIndex(p) => mensaje == old(mensaje) && r == IndexOutOfBounds(p)
    {
      mapeador.lector.subject := Some(Subject(huella));
      if !fingersPresent {
        mensaje := mensaje + Line(LowQualityMessage);
        return Thrown(mensaje);
      }
      CargarArchivos(listing);
      var resultado := Identify(listaHuellas, files, matcher);
      if resultado == NotYetIdentified {
        mensaje := mensaje + Line(NotReadMessage);
        return Thrown(mensaje);
      }
      if resultado == NoMatchFound {
        if !directoryExists {
          mensaje := mensaje + Line(DirectoryMissingMessage);
          return Thrown(mensaje);
        } else {
          mensaje := mensaje + Line(NoMatchMessage);
          return Thrown(mensaje);
        }
      }
      if !(0 <= resultado < |listaHuellas|) {
        return IndexOutOfBounds(resultado);
      }
      var nomHuellaFile := listaHuellas[resultado];
      var posCaracter := IndexOf(nomHuellaFile, Separator) + 1;
      mensaje := mensaje + Line(YouArePrefix + nomHuellaFile[posCaracter..]);
      r := Returned(nomHuellaFile[posCaracter..]);
    }
  }

  /**
   * `main`: the configuration step (not modelled) yields `directorio` and the code
   * `configCode`; licences are requested only when that code is 0, and the service is
   * published only when both codes are 0.
   */
  method Launch(directorio: string, configCode: int, obtain: string -> LicenceReply)
    returns (servidor: InterServerImp, published: bool)
    ensures fresh(servidor) && servidor.Valid() && servidor.directorio == directorio
    ensures published <==> configCode == 0 && !obtain(FingerMatching).Threw?
    ensures configCode != 0 ==> servidor.licencia.requiredLicenses == []
    ensures configCode == 0 ==> servidor.licencia.requiredLicenses == [FingerMatching]
  {
    servidor := new InterServerImp(directorio);
    published := false;
    if configCode == 0 {
      var ol := servidor.ObtenerLicencias(obtain);
      published := ol == 0;
    }
  }
}
