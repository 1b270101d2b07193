/** The server's operation dispatcher (Server/src/local/Mapeador.java). */
module Mapeador {
  import opened Wrappers
  import opened Sdk
  import opened ServerLector
  import opened IdentifyFinger

  /** The `operaciones` table: the strings `manejador` accepts, in order. */
  const Guardar: string := "guardar"
  const LeerArchivo: string := "leerArchivo"
  const Identificar: string := "identificar"
  const Operaciones: seq<string> := [Guardar, LeerArchivo, Identificar]

  class Mapeador {
    const lector: Lector
    const identifyFinger: IdentifyFinger
    var pathRead: string
    var pathSave: string
    var path: string
    var fingers: seq<string>
    var subjectIdentify: Option<string>

    constructor ()
      ensures fresh(lector) && fresh(identifyFinger)
      ensures lector.subject == Some(FreshSubject)
      ensures identifyFinger.posicion == NotYetIdentified && identifyFinger.subject.None?
      ensures identifyFinger.names == [] && identifyFinger.path == ""
      ensures pathRead == "" && pathSave == "" && path == "" && fingers == [] && subjectIdentify.None?
    {
      lector := new Lector();
      identifyFinger := new IdentifyFinger();
      pathRead, pathSave, path, fingers, subjectIdentify := "", "", "", [], None;
    }

    /**
     * `manejador(p)`: dispatches on exact equality with the `operaciones` entries. "guardar"
     * reports whether saving threw no IOException, "leerArchivo" whether reading did, and
     * "identificar" always reports false, swallowing whatever identification throws.
     */
    method Manejador(p: string, files: map<string, Template>, writeOk: bool, matcher: Matcher)
      returns (res: bool, files': map<string, Template>)
      modifies lector, identifyFinger
      ensures p !in Operaciones ==>
                !res && files' == files && unchanged(lector) && unchanged(identifyFinger)
      ensures p == Guardar ==>
                && res == (lector.subject.None? || writeOk)
                && files' == (if lector.subject.Some? && writeOk
                              then files[pathSave := lector.subject.value.template] else files)
                && unchanged(lector) && unchanged(identifyFinger)
      ensures p == LeerArchivo ==>
                && res == (pathRead in files)
                && lector.subject == Some(if res then Subject(files[pathRead]) else FreshSubject)
                && files' == files && unchanged(identifyFinger)
      ensures p == Identificar ==>
                && !res && files' == files && unchanged(lector)
                && identifyFinger.names == fingers && identifyFinger.path == path
                && identifyFinger.subjectIdentify == subjectIdentify
                && (lector.subject.Some? ==>
                      && identifyFinger.subject == lector.subject
                      && identifyFinger.posicion ==
                         Identification(old(identifyFinger.posicion), fingers, path, files,
                                        lector.subject.value.template, matcher).0)
                && (lector.subject.None? ==>
                      && identifyFinger.subject == old(identifyFinger.subject)
                      && identifyFinger.posicion == old(identifyFinger.posicion))
    {
      res := false;
      files' := files;
      if p == Operaciones[0] {
        res, files' := lector.SaveTemplate(pathSave, files, writeOk);
      }
      if p == Operaciones[1] {
        res := lector.ReadFromFile(pathRead, files);
      }
      if p == Operaciones[2] {
        identifyFinger.names := fingers;
        identifyFinger.path := path;
        identifyFinger.subjectIdentify := subjectIdentify;
        if lector.subject.Some? {
          identifyFinger.subject := lector.subject;
          var _ := identifyFinger.Identify(files, matcher);
        } else {
          res := false;
        }
      }
    }
  }
}
