/** The server's template holder (Server/src/local/Lector.java). */
module ServerLector {
  import opened Wrappers
  import opened Sdk

  /** An `NSubject` as far as the server uses it: the template it holds (empty: none). */
  datatype Subject = Subject(template: Template)

  /** A freshly created `NSubject`, holding no template. */
  const FreshSubject: Subject := Subject([])

  class Lector {
    /** The subject to save or identify; None stands for null (no template loaded). */
    var subject: Option<Subject>

    constructor ()
      ensures subject == Some(FreshSubject)
    {
      subject := Some(FreshSubject);
    }

    /**
     * Replaces the subject by a fresh one and then loads the file into it. A read that fails
     * (None from `files`) leaves the fresh subject, which holds no template.
     */
    method ReadFromFile(path: string, files: map<string, Template>) returns (ok: bool)
      modifies this
      ensures ok <==> path in files
      ensures subject == Some(if ok then Subject(files[path]) else FreshSubject)
    {
      subject := Some(FreshSubject);
      if path !in files {
        return false;
      }
      subject := Some(Subject(files[path]));
      ok := true;
    }

    /**
     * Writes the subject's template to exactly `path`; `writeOk` says whether the file
     * system accepts the write (false: an IOException). With a null subject nothing is
     * written and nothing is thrown.
     */
    method SaveTemplate(path: string, files: map<string, Template>, writeOk: bool)
      returns (ok: bool, files': map<string, Template>)
      ensures subject.None? ==> ok && files' == files
      ensures subject.Some? ==> ok == writeOk
      ensures subject.Some? && writeOk ==> files' == files[path := subject.value.template]
      ensures !ok ==> files' == files
    {
      files' := files;
      ok := true;
      if subject.Some? {
        if writeOk {
          files' := files[path := subject.value.template];
        } else {
          ok := false;
        }
      }
    }
  }
}
