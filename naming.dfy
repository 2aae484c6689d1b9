/** Canonical-name assignment (`assign_canonical_names` and
    `_unreachable_name_for` in docbuilder.py): the score a name gets, the
    rule that decides whether a visit renames a doc, and the unique names
    given to values no variable reaches.  The module-level `_name_scores`
    dictionary and `_unreachable_names` set are the fields of a registry
    object; dotted names are written as their dotted strings. */
module CanonicalNames {
  import opened Wrappers
  import Strings

  /** `sys.maxint` on a 64-bit build: the score of a name a doc already
      had before its first visit. */
  const MaxInt: int := 0x7fff_ffff_ffff_ffff

  /** The value of `is_imported` or `is_alias`: UNKNOWN, true or false. */
  datatype Flag = UnknownFlag | Yes | No

  /** The score of a variable's name inside a doc with score `score`:
      one less, then 10 less for an UNKNOWN or 100 less for a true
      `is_imported`, then 10 less for an UNKNOWN or 1000 less for a true
      `is_alias`. */
  function ChildScore(score: int, isImported: Flag, isAlias: Flag): (r: int)
    ensures score - 1101 <= r <= score - 1
    ensures r == score - 1 <==> isImported == No && isAlias == No
  {
    var imported := match isImported case UnknownFlag => 10 case Yes => 100 case No => 0;
    var alias := match isAlias case UnknownFlag => 10 case Yes => 1000 case No => 0;
    score - 1 - imported - alias
  }

  /** How the penalties rank the names of one parent: a variable known not
      to be an alias beats every alias, and with the same `is_alias` one
      known not to be imported beats every other. */
  lemma ChildScoreRanking(score: int, i1: Flag, i2: Flag, a: Flag)
    ensures a != Yes ==> ChildScore(score, i1, a) > ChildScore(score, i2, Yes)
    ensures i2 != No ==> ChildScore(score, No, a) > ChildScore(score, i2, a)
  {
  }

  /** What a visit of `doc` with `name` and `score` does: None when it stops
      at once; otherwise the new scores and names and the name and score
      it passes on to the doc's variables. */
  datatype Visit = Visit(scores: map<nat, int>, names: map<nat, string>, name: string, score: int)

  /** The first half of `assign_canonical_names`.  `names` holds the known
      canonical names; a doc without one has the name UNKNOWN.  The source
      tests `doc not in scores or score > scores[doc]` once more before
      renaming; past the first test that always holds. */
  function VisitStep(scores: map<nat, int>, names: map<nat, string>, doc: nat, name: string, score: int): (r: Option<Visit>)
    ensures r.Some? ==> doc in r.value.scores && r.value.names.Keys == names.Keys + {doc}
    ensures r.Some? ==> forall d :: d != doc ==> (d in r.value.scores <==> d in scores)
  {
    if doc in scores && score <= scores[doc] then None
    else if doc !in scores && doc in names then Some(Visit(scores[doc := MaxInt], names, names[doc], 0))
    else Some(Visit(scores[doc := score], names[doc := name], name, score))
  }

  /** A doc is visited again only with a strictly better score, and a visit
      never lowers a recorded score: what keeps the recursion from cycling. */
  lemma VisitRaisesScore(scores: map<nat, int>, names: map<nat, string>, doc: nat, name: string, score: int)
    requires VisitStep(scores, names, doc, name, score).Some?
    ensures doc in scores ==> score > scores[doc]
    ensures var v := VisitStep(scores, names, doc, name, score).value;
            doc in scores ==> v.scores[doc] > scores[doc]
  {
  }

  /** A name the doc had before its first visit is never replaced: it is
      kept, scored MaxInt, and every later visit with a score up to MaxInt
      stops. */
  lemma FirstNameKept(scores: map<nat, int>, names: map<nat, string>, doc: nat, name: string, score: int, later: int)
    requires doc !in scores && doc in names && later <= MaxInt
    ensures var v := VisitStep(scores, names, doc, name, score);
            v.Some? && v.value.name == names[doc] && v.value.score == 0 && v.value.names == names &&
            VisitStep(v.value.scores, v.value.names, doc, name, later).None?
  {
  }

  /** `assign_canonical_names`'s recursion passes `name + '.' + var_name`
      to each variable's value. */
  function ChildName(name: string, varName: string): string {
    Strings.Join([name, varName], ".")
  }

  /** What `_unreachable_name_for` looks at in a value doc.  `topLevel` is
      the canonical name of a module with a one-piece name and no package;
      `pyName` is the `__name__` of its Python value when that makes a
      valid dotted name. */
  datatype UnreachableDoc = UnreachableDoc(topLevel: Option<string>, pyName: Option<string>)

  /** The name an unreachable value starts from: `UNREACHABLE.__name__`, or
      `UNREACHABLE` alone (the marker string is a parameter). */
  function UnreachableBase(marker: string, doc: UnreachableDoc): string {
    if doc.pyName.Some? then ChildName(marker, doc.pyName.value) else marker
  }

  /** The canonical-name registry: `_name_scores`, the canonical names of the
      value docs, and `_unreachable_names`. */
  class NameRegistry {
    var scores: map<nat, int>
    var names: map<nat, string>
    var unreachable: set<string>

    constructor(names: map<nat, string>)
      ensures scores == map[] && this.names == names && unreachable == {}
    {
      scores := map[];
      this.names := names;
      unreachable := {};
    }

    /** The first half of `assign_canonical_names`: whether to go on to the
        doc's variables, and with which name and score. */
    method Visit(doc: nat, name: string, score: int) returns (proceed: bool, name': string, score': int)
      modifies this`scores, this`names
      ensures var v := VisitStep(old(scores), old(names), doc, name, score);
              if v.None? then !proceed && scores == old(scores) && names == old(names)
              else proceed && scores == v.value.scores && names == v.value.names &&
                   name' == v.value.name && score' == v.value.score
    {
      if doc in scores && score <= scores[doc] {
        return false, name, score;
      }
      name', score' := name, score;
      if doc !in scores && doc in names {
        scores := scores[doc := MaxInt];
        name' := names[doc];
        score' := 0;
      } else if doc !in scores || score > scores[doc] {
        names := names[doc := name];
        scores := scores[doc := score];
      }
      proceed := true;
    }

    /** `_unreachable_name_for`: a top-level module no root doc names keeps
        its name with score -1000; any other value gets the first free name
        `base`, `base-2`, `base-3`, ..., which is recorded, with score
        -10000. */
    method UnreachableNameFor(doc: UnreachableDoc, rootNames: seq<string>, marker: string) returns (name: string, score: int)
      modifies this`unreachable
      ensures doc.topLevel.Some? && doc.topLevel.value !in rootNames ==>
                name == doc.topLevel.value && score == -1000 && unreachable == old(unreachable)
      ensures !(doc.topLevel.Some? && doc.topLevel.value !in rootNames) ==>
                score == -10000 && name !in old(unreachable) && unreachable == old(unreachable) + {name} &&
                Strings.IsUniquified(name, UnreachableBase(marker, doc), '-', old(unreachable))
    {
      if doc.topLevel.Some? && doc.topLevel.value !in rootNames {
        return doc.topLevel.value, -1000;
      }
      name := Strings.Uniquify(UnreachableBase(marker, doc), '-', unreachable);
      unreachable := unreachable + {name};
      score := -10000;
    }
  }
}
