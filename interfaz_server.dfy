/**
 * The local (non web-service) server facade (Server/src/local/InterfazServer.java). Unlike
 * the web-service facade it overwrites the message on every operation, rebuilds the file list
 * on every identification, has no quality gate, takes the subject itself (possibly null) and
 * starts without a dispatcher until one is set or `leerArchivo` creates one.
 */
module InterfazServer {
  import opened Wrappers
  import opened Decimal
  import opened Sdk
  import opened Naming
  import opened ServerLector
  import opened IdentifyFinger
  import M = Mapeador
  import opened ServerLicencias
  import opened Verdicts

  const NoActivatorMessage: string := "No se ha ejecutado el activador"
  const NoConnectionMessage: string := "No hay conexion para la obtencion de licencias"
  const SaveProblemMessage: string := "Problema con el nombre con que se guarda o la ruta donde se guarda"
  const ReadOkMessage: string := "La huella se leyo correctamente"
  const ReadProblemMessage: string :=
    "Problema con la lectura de archivo. La ruta o el nombre de la huella de entrada es invalido"

  function SavedMessage(directorio: string, nomFinal: string): string
  {
    "Huella creada en: " + directorio + " con el nombre " + nomFinal
  }

  /**
   * The `posicion` the dispatcher leaves after "identificar": identification runs only for
   * a non-null subject; a null one leaves the previous value.
   */
  function PosicionAfter(posicion: int, subject: Option<Subject>, names: seq<string>, path: string,
                         files: map<string, Template>, matcher: Matcher): int
  {
    if subject.Some? then Identification(posicion, names, path, files, subject.value.template, matcher).0
    else posicion
  }

  /**
   * Whatever the matcher does, as long as the ids it reports are ids of the corpus, the
   * dispatcher leaves `posicion` at its old value, at -2, or at an index of the list.
   */
  lemma PosicionAfterRange(posicion: int, subject: Option<Subject>, names: seq<string>, path: string,
                           files: map<string, Template>, matcher: Matcher)
    requires |names| <= MaxInt + 1
    requires subject.Some? && Corpus(names, path, files).Some? &&
             matcher.identify(subject.value.template, Corpus(names, path, files).value, Settings).Matched? ==>
               IdsBelow(matcher.identify(subject.value.template, Corpus(names, path, files).value, Settings).ids, |names|)
    ensures var r := PosicionAfter(posicion, subject, names, path, files, matcher);
            r == posicion || r == NoMatchFound || 0 <= r < |names|
  {
    if subject.Some? && Corpus(names, path, files).Some? {
      var c := Corpus(names, path, files).value;
      var outcome := matcher.identify(subject.value.template, c, Settings);
      if matcher.enrol(c) && outcome.Matched? && outcome.ids != [] {
        LastMatchWins(posicion, outcome.ids, |names|);
      }
    }
  }

  /**
   * A stale answer: when one listed file cannot be read, identification throws before any
   * assignment, so a position left by an earlier call is answered as a match on whatever
   * file now sits at that index of the rebuilt list.
   */
  lemma StalePositionAnswersCurrentEntry(p: int, s: Subject, names: seq<string>, dir: string,
                                         files: map<string, Template>, matcher: Matcher, k: int)
    requires 0 <= p < |names| && 0 <= k < |names| && dir + names[k] !in files
    ensures PosicionAfter(p, Some(s), names, dir, files, matcher) == p
    ensures Classify(PosicionAfter(p, Some(s), names, dir, files, matcher), true, |names|) == Match(p)
  {
    UnreadableFileKeepsPosicion(p, names, dir, files, s.template, matcher, k);
  }

  class InterfazServer {
    /** The directory the configuration file gives (reading it is not modelled). */
    const directorio: string
    /** `null` until an operation sets it. */
    var mensaje: Option<string>
    var licencia: Licencias?
    var mapeador: M.Mapeador?
    var listaHuellas: seq<string>
    /** `f.exists()` for the directory as seen by the last `cargarArchivos`. */
    var directoryExists: bool

    /** The implicit constructor: every field at its Java default. */
    constructor (directorio: string)
      ensures this.directorio == directorio && mensaje.None? && licencia == null && mapeador == null
      ensures listaHuellas == [] && !directoryExists
    {
      this.directorio := directorio;
      mensaje := None;
      licencia := null;
      mapeador := null;
      listaHuellas := [];
      directoryExists := false;
    }

    /** `setMapeador`. */
    method SetMapeador(m: M.Mapeador?)
      modifies this
      ensures mapeador == m && mensaje == old(mensaje) && listaHuellas == old(listaHuellas)
      ensures licencia == old(licencia) && directoryExists == old(directoryExists)
    {
      mapeador := m;
    }

    /**
     * `obtenerLicencias()`: 0 exactly when the licence was granted; -1 on a denial (message
     * untouched) and on either exception (message overwritten).
     */
    method ObtenerLicencias(obtain: string -> LicenceReply) returns (code: int)
      modifies this
      ensures fresh(licencia) && licencia.requiredLicenses == [FingerMatching]
      ensures code == (if obtain(FingerMatching) == Granted then 0 else -1)
      ensures obtain(FingerMatching) == Threw(IOException) ==> mensaje == Some(NoActivatorMessage)
      ensures obtain(FingerMatching) == Threw(TimeoutException) ==> mensaje == Some(NoConnectionMessage)
      ensures !obtain(FingerMatching).Threw? ==> mensaje == old(mensaje)
      ensures mapeador == old(mapeador) && listaHuellas == old(listaHuellas)
      ensures directoryExists == old(directoryExists)
    {
      var l := new Licencias();
      licencia := l;
      var err := l.ParsearLicenses(obtain);
      FreshCallRecordsFingerMatching(obtain);
      if err.Some? {
        match err.value {
          case IOException => mensaje := Some(NoActivatorMessage);
          case TimeoutException => mensaje := Some(NoConnectionMessage);
        }
        return -1;
      }
      var b := l.GetLicenseState(FingerMatching);
      if b.value {
        return 0;
      } else {
        return -1;
      }
    }

    /** `cargarArchivos()`: appends the directory's entries in enumeration order. */
    method CargarArchivos(listing: Option<seq<string>>)
      modifies this
      ensures directoryExists == listing.Some?
      ensures listaHuellas == old(listaHuellas) + listing.GetOr([])
      ensures mensaje == old(mensaje) && mapeador == old(mapeador) && licencia == old(licencia)
    {
      directoryExists := listing.Some?;
      if listing.Some? {
        var ficheros := listing.value;
        for x := 0 to |ficheros|
          invariant listaHuellas == old(listaHuellas) + ficheros[..x]
          invariant directoryExists == listing.Some?
          invariant mensaje == old(mensaje) && mapeador == old(mapeador) && licencia == old(licencia)
        {
          assert ficheros[..x + 1] == ficheros[..x] + [ficheros[x]];
          listaHuellas := listaHuellas + [ficheros[x]];
        }
        assert ficheros[..|ficheros|] == ficheros;
      }
    }

    /**
     * `guardarHuella(nombre, huella)`: stores the given subject (no quality check) as
     * `directorio + FileName(time, nombre)`; 0 when the dispatcher reports success, which a
     * null subject does without writing, -1 when the write fails.
     */
    method GuardarHuella(nombre: string, huella: Option<Subject>, time: Long,
                         files: map<string, Template>, writeOk: bool)
      returns (code: int, files': map<string, Template>)
      requires mapeador != null
      modifies this, mapeador, mapeador.lector, mapeador.identifyFinger
      ensures mapeador == old(mapeador) && mapeador.lector.subject == huella
      ensures unchanged(mapeador.identifyFinger)
      ensures mapeador.pathSave == directorio + FileName(time, nombre)
      ensures mapeador.pathRead == old(mapeador.pathRead) && mapeador.path == old(mapeador.path)
      ensures mapeador.fingers == old(mapeador.fingers) && mapeador.subjectIdentify == old(mapeador.subjectIdentify)
      ensures listaHuellas == old(listaHuellas) && licencia == old(licencia)
      ensures directoryExists == old(directoryExists)
      ensures code == (if huella.None? || writeOk then 0 else -1)
      ensures code == 0 ==> mensaje == Some(SavedMessage(directorio, FileName(time, nombre)))
      ensures code == -1 ==> mensaje == Some(SaveProblemMessage)
      ensures files' == (if huella.Some? && writeOk
                         then files[directorio + FileName(time, nombre) := huella.value.template]
                         else files)
    {
      mapeador.lector.subject := huella;
      var nomFinal := FileName(time, nombre);
      var ubicacion := directorio + nomFinal;
      mapeador.pathSave := ubicacion;
      var saved;
      saved, files' := mapeador.Manejador(M.Guardar, files, writeOk, Matcher(_ => true, (_, _, _) => MatchNotFound));
      if saved {
        mensaje := Some(SavedMessage(directorio, nomFinal));
        return 0, files';
      } else {
        mensaje := Some(SaveProblemMessage);
        return -1, files';
      }
    }

    /**
     * `leerArchivo(path)`: replaces the dispatcher with a fresh one and reads `path` into
     * its reader; 0 exactly when the file could be read.
     */
    method LeerArchivo(path: string, files: map<string, Template>) returns (code: int)
      modifies this
      ensures fresh(mapeador) && fresh(mapeador.lector) && fresh(mapeador.identifyFinger)
      ensures mapeador.pathRead == path
      ensures mapeador.identifyFinger.posicion == NotYetIdentified
      ensures code == (if path in files then 0 else -1)
      ensures mapeador.lector.subject == Some(if path in files then Subject(files[path]) else FreshSubject)
      ensures mensaje == Some(if path in files then ReadOkMessage else ReadProblemMessage)
      ensures listaHuellas == old(listaHuellas) && licencia == old(licencia)
      ensures directoryExists == old(directoryExists)
    {
      var m := new M.Mapeador();
      mapeador := m;
      m.pathRead := path;
      var ok, _ := m.Manejador(M.LeerArchivo, files, false, Matcher(_ => true, (_, _, _) => MatchNotFound));
      if ok {
        mensaje := Some(ReadOkMessage);
        return 0;
      }
      mensaje := Some(ReadProblemMessage);
      code := -1;
    }

    /** `identify(huellas)`: hands the list and directory to the dispatcher and reads back `posicion`. */
    method Identify(huellas: seq<string>, files: map<string, Template>, matcher: Matcher) returns (aux: int)
      requires mapeador != null
      modifies mapeador, mapeador.lector, mapeador.identifyFinger
      ensures unchanged(mapeador.lector)
      ensures aux == mapeador.identifyFinger.posicion
      ensures aux == PosicionAfter(old(mapeador.identifyFinger.posicion), mapeador.lector.subject,
                                   huellas, directorio, files, matcher)
      ensures mapeador.fingers == huellas && mapeador.path == directorio
      ensures mapeador.identifyFinger.names == huellas && mapeador.identifyFinger.path == directorio
      ensures mapeador.pathRead == old(mapeador.pathRead) && mapeador.pathSave == old(mapeador.pathSave)
      ensures mapeador.subjectIdentify == old(mapeador.subjectIdentify)
      ensures mapeador.identifyFinger.subjectIdentify == mapeador.subjectIdentify
      ensures mapeador.identifyFinger.subject ==
              if mapeador.lector.subject.Some? then mapeador.lector.subject else old(mapeador.identifyFinger.subject)
    {
      mapeador.fingers := huellas;
      mapeador.path := directorio;
      var _, _ := mapeador.Manejador(M.Identificar, files, false, matcher);
      aux := mapeador.identifyFinger.posicion;
    }

    /**
     * `identificarHuella(huella)`: the list becomes exactly the current listing, then the
     * outcome table answers as on the web-service side, with each message overwriting the last.
     */
    method IdentificarHuella(huella: Option<Subject>, listing: Option<seq<string>>,
                             files: map<string, Template>, matcher: Matcher)
      returns (r: Reply<string>)
      requires mapeador != null
      modifies this, mapeador, mapeador.lector, mapeador.identifyFinger
      ensures mapeador == old(mapeador) && mapeador.lector.subject == huella
      ensures licencia == old(licencia)
      ensures listaHuellas == listing.GetOr([]) && directoryExists == listing.Some?
      ensures mapeador.fingers == listaHuellas && mapeador.path == directorio
      ensures mapeador.identifyFinger.names == listaHuellas && mapeador.identifyFinger.path == directorio
      ensures mapeador.pathRead == old(mapeador.pathRead) && mapeador.pathSave == old(mapeador.pathSave)
      ensures mapeador.subjectIdentify == old(mapeador.subjectIdentify)
      ensures mapeador.identifyFinger.subjectIdentify == mapeador.subjectIdentify
      ensures mapeador.identifyFinger.subject ==
              if mapeador.lector.subject.Some? then mapeador.lector.subject else old(mapeador.identifyFinger.subject)
      ensures
        var resultado := PosicionAfter(old(mapeador.identifyFinger.posicion), huella, listaHuellas,
                                       directorio, files, matcher);
        && mapeador.identifyFinger.posicion == resultado
        && match Classify(resultado, listing.Some?, |listaHuellas|)
           case NotRead => mensaje == Some(NotReadMessage) && r == Thrown(NotReadMessage)
           case DirectoryMissing => mensaje == Some(DirectoryMissingMessage) && r == Thrown(DirectoryMissingMessage)
           case NoMatch => mensaje == Some(NoMatchMessage) && r == Thrown(NoMatchMessage)
           case Match(i) =>
             && mensaje == Some(YouArePrefix + DisplayName(listaHuellas[i]))
             && r == Returned(DisplayName(listaHuellas[i]))
           case BadIndex(p) => mensaje == old(mensaje) && r == IndexOutOfBounds(p)
    {
      mapeador.lector.subject := huella;
      listaHuellas := [];
      CargarArchivos(listing);
      var aux2 := Identify(listaHuellas, files, matcher);
      if aux2 == NotYetIdentified {
        mensaje := Some(NotReadMessage);
        return Thrown(NotReadMessage);
      }
      if aux2 == NoMatchFound {
        if !directoryExists {
          mensaje := Some(DirectoryMissingMessage);
          return Thrown(DirectoryMissingMessage);
        } else {
          mensaje := Some(NoMatchMessage);
          return Thrown(NoMatchMessage);
        }
      }
      if !(0 <= aux2 < |listaHuellas|) {
        return IndexOutOfBounds(aux2);
      }
      var nomHuellaFile := listaHuellas[aux2];
      var posCaracter := IndexOf(nomHuellaFile, Separator) + 1;
      mensaje := Some(YouArePrefix + nomHuellaFile[posCaracter..]);
      r := Returned(nomHuellaFile[posCaracter..]);
    }
  }
}
