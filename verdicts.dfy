/**
 * How both server facades (Server/src/webServices/InterServerImp.java and
 * Server/src/local/InterfazServer.java) turn the `posicion` left by an identification into
 * an answer, and what that pipeline guarantees end to end.
 */
module Verdicts {
  import opened Decimal
  import opened Sdk
  import opened Naming
  import opened IdentifyFinger

  const NotReadMessage: string := "Aun no se ha leido huella desde el lector"
  const DirectoryMissingMessage: string := "Directorio no existe"
  const NoMatchMessage: string := "Ninguna huella hace match"
  const YouArePrefix: string := "Usted es: "
  const LowQualityMessage: string := "La huella enviada al servidor esta vacia o es de baja calidad"

  /** The answer to an identification request. */
  datatype Verdict =
    | NotRead              // posicion == -1: nothing identified yet (or a stale initial value)
    | DirectoryMissing     // posicion == -2 and the directory does not exist
    | NoMatch              // posicion == -2 and the directory exists
    | Match(index: nat)    // a list index: the matched file name
    | BadIndex(position: int) // any other value: `get(posicion)` throws IndexOutOfBoundsException

  /** The outcome table of `identificarHuella`, tested in the source's order: -1, then -2, then the list lookup. */
  function Classify(resultado: int, directoryExists: bool, count: nat): (v: Verdict)
    ensures v == NotRead <==> resultado == NotYetIdentified
    ensures v == DirectoryMissing <==> resultado == NoMatchFound && !directoryExists
    ensures v == NoMatch <==> resultado == NoMatchFound && directoryExists
    ensures v.Match? <==> 0 <= resultado < count
    ensures v.Match? ==> v.index == resultado
    ensures v.BadIndex? <==> resultado < NoMatchFound || resultado >= count
  {
    if resultado == NotYetIdentified then NotRead
    else if resultado == NoMatchFound then
      if directoryExists then NoMatch else DirectoryMissing
    else if 0 <= resultado < count then Match(resultado)
    else BadIndex(resultado)
  }

  /**
   * Save then identify: a template stored under `FileName(time, nombre)` at list index i,
   * reported by the matcher as the match, is answered with exactly `nombre`.
   */
  lemma SaveThenIdentify(posicion: int, names: seq<string>, dir: string, files: map<string, Template>,
                         query: Template, matcher: Matcher, i: int, time: int, nombre: string)
    requires 0 <= i < |names| <= MaxInt + 1
    requires time >= 0 && names[i] == FileName(time, nombre)
    requires Corpus(names, dir, files).Some?
    requires matcher.enrol(Corpus(names, dir, files).value)
    requires matcher.identify(query, Corpus(names, dir, files).value, Settings) == Matched([LongToString(i)])
    ensures var v := Classify(Identification(posicion, names, dir, files, query, matcher).0, true, |names|);
            v == Match(i) && DisplayName(names[i]) == nombre
  {
    ParseIntOfFormat(i);
    var ids := [LongToString(i)];
    assert ApplyMatches(posicion, ids) == ApplyMatches(i, ids[1..]) == (i, true);
    RecoverDisplayName(time, nombre);
  }

  /**
   * Whenever the matcher's results come from the enrolled corpus, the answer is the list entry
   * whose file was enrolled under the id of the last result.
   */
  lemma AnswerIsTheMatchedFile(posicion: int, names: seq<string>, dir: string, files: map<string, Template>,
                               query: Template, matcher: Matcher)
    requires |names| <= MaxInt + 1
    requires Corpus(names, dir, files).Some?
    requires matcher.enrol(Corpus(names, dir, files).value)
    requires matcher.identify(query, Corpus(names, dir, files).value, Settings).Matched?
    requires matcher.identify(query, Corpus(names, dir, files).value, Settings).ids != []
    requires IdsBelow(matcher.identify(query, Corpus(names, dir, files).value, Settings).ids, |names|)
    ensures var v := Classify(Identification(posicion, names, dir, files, query, matcher).0, true, |names|);
            var ids := matcher.identify(query, Corpus(names, dir, files).value, Settings).ids;
            v.Match? && v.index < |names| && LongToString(v.index) == ids[|ids| - 1] &&
            dir + names[v.index] in files
  {
    MatchedIndexInRange(posicion, names, dir, files, query, matcher);
    CorpusAt(names, dir, files);
  }

  /** An existing but empty store, for which the matcher finds nothing, answers "no match". */
  lemma EmptyStoreAnswersNoMatch(posicion: int, dir: string, files: map<string, Template>,
                                 query: Template, matcher: Matcher)
    requires matcher.enrol([]) && matcher.identify(query, [], Settings) == MatchNotFound
    ensures Classify(Identification(posicion, [], dir, files, query, matcher).0, true, 0) == NoMatch
  {
  }

  /**
   * A missing directory lists nothing; if the matcher then finds nothing the answer is
   * "directory missing", distinct from "no match".
   */
  lemma MissingDirectoryIsDistinguished(posicion: int, dir: string, files: map<string, Template>,
                                        query: Template, matcher: Matcher)
    requires matcher.enrol([]) && matcher.identify(query, [], Settings) == MatchNotFound
    ensures Classify(Identification(posicion, [], dir, files, query, matcher).0, false, 0) == DirectoryMissing
    ensures DirectoryMissing != NoMatch
  {
  }
}
