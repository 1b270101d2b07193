/**
 * Identification against the stored corpus (Server/src/local/IdentifyFinger.java): every
 * listed file is enrolled under its list index, the matcher is run, and the result is
 * left in `posicion`.
 */
module IdentifyFinger {
  import opened Wrappers
  import opened Decimal
  import opened Sdk
  import opened ServerLector

  /** The matching threshold and details flag fixed before identifying. */
  const MatchingThreshold: int := 40
  const MatchingWithDetails: bool := true
  const Settings: MatchSettings := MatchSettings(MatchingThreshold, MatchingWithDetails)

  /** The value `posicion` has before any identification. */
  const NotYetIdentified: int := -1

  /** The value `posicion` takes when the matcher reports MATCH_NOT_FOUND. */
  const NoMatchFound: int := -2

  /**
   * The enrolment corpus: subject i reads the file `path + names[i]` and gets id
   * `String.format("%d", i)`. None when some file cannot be read (an IOException).
   */
  function Corpus(names: seq<string>, path: string, files: map<string, Template>): Option<seq<Enrolled>>
  {
    if |names| == 0 then Some([])
    else
      match Corpus(names[..|names| - 1], path, files)
      case None => None
      case Some(c) =>
        var file := path + names[|names| - 1];
        if file in files then Some(c + [Enrolled(LongToString(|names| - 1), files[file])]) else None
  }

  /** The corpus, entry by entry: it exists iff every listed file is readable, and entry i is file i under id i. */
  lemma {:induction false} CorpusAt(names: seq<string>, path: string, files: map<string, Template>)
    ensures Corpus(names, path, files).Some? <==> forall i :: 0 <= i < |names| ==> path + names[i] in files
    ensures Corpus(names, path, files).Some? ==>
              var c := Corpus(names, path, files).value;
              |c| == |names| &&
              forall i :: 0 <= i < |names| ==> c[i] == Enrolled(LongToString(i), files[path + names[i]])
  {
    if |names| > 0 {
      var init := names[..|names| - 1];
      CorpusAt(init, path, files);
      assert forall i :: 0 <= i < |init| ==> init[i] == names[i];
    }
  }

  /**
   * The matching-result loop: `posicion` becomes each parsed id in turn, so it ends as the
   * last one; an id that does not parse throws (false), keeping what was set so far.
   */
  function ApplyMatches(posicion: int, ids: seq<string>): (int, bool)
    decreases |ids|
  {
    if ids == [] then (posicion, true)
    else
      match ParseInt(ids[0])
      case None => (posicion, false)
      case Some(v) => ApplyMatches(v, ids[1..])
  }

  /**
   * One call of `identify()`: the new `posicion` and whether it returned normally (false:
   * it threw, because a file could not be read, the enrolment failed or an id did not parse).
   */
  function Identification(posicion: int, names: seq<string>, path: string,
                          files: map<string, Template>, query: Template, matcher: Matcher): (int, bool)
  {
    match Corpus(names, path, files)
    case None => (posicion, false)
    case Some(c) =>
      if !matcher.enrol(c) then (posicion, false)
      else
        match matcher.identify(query, c, Settings)
        case MatchNotFound => (NoMatchFound, true)
        case Matched(ids) => ApplyMatches(posicion, ids)
  }

  /** Every id is the numeral of an index below `n`, as the ids of a corpus of `n` subjects are. */
  ghost predicate IdsBelow(ids: seq<string>, n: int)
  {
    forall k :: 0 <= k < |ids| ==> IsIndexId(ids[k], n)
  }

  /** `id` is `String.format("%d", j)` for some index j below `n`. */
  ghost predicate IsIndexId(id: string, n: int)
  {
    exists j :: 0 <= j < n && id == LongToString(j)
  }

  /** When the ids are corpus ids, the result is the index whose id came last. */
  lemma {:induction false} LastMatchWins(posicion: int, ids: seq<string>, n: int)
    requires n <= MaxInt + 1
    requires ids != [] && IdsBelow(ids, n)
    ensures var (p, ok) := ApplyMatches(posicion, ids);
            ok && 0 <= p < n && LongToString(p) == ids[|ids| - 1]
    decreases |ids|
  {
    assert IsIndexId(ids[0], n);
    var j :| 0 <= j < n && ids[0] == LongToString(j);
    ParseIntOfFormat(j);
    if |ids| > 1 {
      assert IdsBelow(ids[1..], n) by {
        forall k | 0 <= k < |ids| - 1
          ensures IsIndexId(ids[1..][k], n)
        {
          assert ids[1..][k] == ids[k + 1];
        }
      }
      LastMatchWins(j, ids[1..], n);
    }
  }

  /** MATCH_NOT_FOUND after a successful enrolment sets `posicion` to -2. */
  lemma NotFoundGivesMinusTwo(posicion: int, names: seq<string>, path: string,
                              files: map<string, Template>, query: Template, matcher: Matcher)
    requires forall i :: 0 <= i < |names| ==> path + names[i] in files
    requires matcher.enrol(Corpus(names, path, files).GetOr([]))
    requires matcher.identify(query, Corpus(names, path, files).GetOr([]), Settings) == MatchNotFound
    ensures Identification(posicion, names, path, files, query, matcher) == (NoMatchFound, true)
  {
    CorpusAt(names, path, files);
  }

  /** A file that cannot be read throws before any assignment, so `posicion` keeps its old value. */
  lemma UnreadableFileKeepsPosicion(posicion: int, names: seq<string>, path: string,
                                    files: map<string, Template>, query: Template, matcher: Matcher, i: int)
    requires 0 <= i < |names| && path + names[i] !in files
    ensures Identification(posicion, names, path, files, query, matcher) == (posicion, false)
  {
    CorpusAt(names, path, files);
  }

  /**
   * On status OK with non-empty results whose ids come from the enrolled corpus, `posicion`
   * is the index of the last result, an index of the list, and that corpus entry was read
   * from `path + names[posicion]`.
   */
  lemma MatchedIndexInRange(posicion: int, names: seq<string>, path: string,
                            files: map<string, Template>, query: Template, matcher: Matcher)
    requires |names| <= MaxInt + 1
    requires Corpus(names, path, files).Some?
    requires matcher.enrol(Corpus(names, path, files).value)
    requires matcher.identify(query, Corpus(names, path, files).value, Settings).Matched?
    requires matcher.identify(query, Corpus(names, path, files).value, Settings).ids != []
    requires IdsBelow(matcher.identify(query, Corpus(names, path, files).value, Settings).ids, |names|)
    ensures var (p, ok) := Identification(posicion, names, path, files, query, matcher);
            var c := Corpus(names, path, files).value;
            var ids := matcher.identify(query, c, Settings).ids;
            ok && 0 <= p < |names| && p < |c| && c[p].id == ids[|ids| - 1] &&
            path + names[p] in files && c[p].template == files[path + names[p]]
  {
    CorpusAt(names, path, files);
    var c := Corpus(names, path, files).value;
    var ids := matcher.identify(query, c, Settings).ids;
    LastMatchWins(posicion, ids, |names|);
  }

  class IdentifyFinger {
    var names: seq<string>
    var subjectIdentify: Option<string>
    var path: string
    var subject: Option<Subject>
    var posicion: int

    constructor ()
      ensures names == [] && subjectIdentify.None? && path == "" && subject.None?
      ensures posicion == NotYetIdentified
    {
      names := [];
      subjectIdentify := None;
      path := "";
      subject := None;
      posicion := NotYetIdentified;
    }

    /** `createSubject`: reads one file into a subject with the given id; false: IOException. */
    static method CreateSubject(fileName: string, subjectId: string, files: map<string, Template>)
      returns (s: Enrolled, ok: bool)
      ensures ok <==> fileName in files
      ensures ok ==> s == Enrolled(subjectId, files[fileName])
    {
      if fileName !in files {
        return Enrolled(subjectId, []), false;
      }
      s, ok := Enrolled(subjectId, files[fileName]), true;
    }

    /**
     * `identify()`: enrols the corpus, identifies the subject with the fixed settings and
     * updates `posicion`; `ok` false stands for the Throwable it throws.
     */
    method Identify(files: map<string, Template>, matcher: Matcher) returns (ok: bool)
      requires subject.Some?
      modifies this`posicion
      ensures (posicion, ok) ==
              Identification(old(posicion), names, path, files, subject.value.template, matcher)
    {
      var corpus: seq<Enrolled> := [];
      for i := 0 to |names|
        invariant Corpus(names[..i], path, files) == Some(corpus)
        invariant posicion == old(posicion)
      {
        assert names[..i + 1][..i] == names[..i];
        var s, read := CreateSubject(path + names[i], LongToString(i), files);
        if !read {
          assert names[..i + 1][i] == names[i];
          CorpusAt(names[..i + 1], path, files);
          CorpusAt(names, path, files);
          return false;
        }
        corpus := corpus + [s];
      }
      assert names[..|names|] == names;
      if !matcher.enrol(corpus) {
        return false;
      }
      var outcome := matcher.identify(subject.value.template, corpus, Settings);
      if outcome.MatchNotFound? {
        posicion := NoMatchFound;
        return true;
      }
      var ids := outcome.ids;
      assert ids[0..] == ids;
      for k := 0 to |ids|
        invariant ApplyMatches(old(posicion), ids) == ApplyMatches(posicion, ids[k..])
      {
        assert ids[k..][1..] == ids[k + 1..];
        var v := ParseInt(ids[k]);
        if v.None? {
          return false;
        }
        posicion := v.value;
      }
      ok := true;
    }
  }
}
