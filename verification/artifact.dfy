/**
 * The common base of the code artifacts (classes, interfaces, functions,
 * packages): a name, a lazily created uuid, the compilation unit the
 * artifact was found in and its doc comment.
 */
module ArtifactBase {
  import opened Common

  /** A compilation unit; `name` is None for a unit without a file name. */
  datatype CompilationUnit = CompilationUnit(id: Id, name: Option<string>)

  /** getUuid on values: the stored uuid, or `candidate` when none is set
      yet. The pair is the returned uuid and the uuid stored afterwards. */
  function LazyUuid(stored: Option<Id>, candidate: Id): (r: (Id, Option<Id>))
    ensures r.1 == Some(r.0)
    ensures stored.Some? ==> r.0 == stored.value
    ensures stored.None? ==> r.0 == candidate
  {
    match stored
    case Some(u) => (u, stored)
    case None => (candidate, Some(candidate))
  }

  /** The uuids returned by consecutive getUuid calls, the k-th call offered
      `candidates[k]` as its fresh value. */
  function UuidsReturned(stored: Option<Id>, candidates: seq<Id>): (r: seq<Id>)
    decreases |candidates|
  {
    if candidates == [] then []
    else
      var (u, next) := LazyUuid(stored, candidates[0]);
      [u] + UuidsReturned(next, candidates[1..])
  }

  /** The uuid is created once and then stays stable: every call of a
      sequence of getUuid calls returns what the first one returned. */
  lemma {:induction false} UuidStable(stored: Option<Id>, candidates: seq<Id>)
    requires candidates != []
    ensures var us := UuidsReturned(stored, candidates);
      && |us| == |candidates|
      && (forall k | 0 <= k < |us| :: us[k] == us[0])
      && us[0] == (if stored.Some? then stored.value else candidates[0])
    decreases |candidates|
  {
    var (u, next) := LazyUuid(stored, candidates[0]);
    var rest := candidates[1..];
    if rest != [] {
      UuidStable(next, rest);
      assert UuidsReturned(next, rest)[0] == u;
    }
  }

  /** setSourceFile on values: the new unit is taken only when there is no
      unit yet or the current unit has no name. */
  function AdoptUnit(current: Option<CompilationUnit>, unit: CompilationUnit): (r: Option<CompilationUnit>)
    ensures r.Some?
    ensures r == Some(unit) <==> current.None? || current.value.name.None? || current == Some(unit)
  {
    if current.None? || current.value.name.None? then Some(unit) else current
  }

  /** The unit kept after a sequence of setSourceFile calls. */
  function AdoptAll(current: Option<CompilationUnit>, units: seq<CompilationUnit>): (r: Option<CompilationUnit>)
    decreases |units|
  {
    if units == [] then current else AdoptAll(AdoptUnit(current, units[0]), units[1..])
  }

  /** The index of the first unit with a name, if any. */
  function FirstNamed(units: seq<CompilationUnit>): (r: Option<nat>)
    ensures r.Some? ==> r.value < |units| && units[r.value].name.Some?
    ensures r.Some? ==> forall k | 0 <= k < r.value :: units[k].name.None?
    ensures r.None? ==> forall k | 0 <= k < |units| :: units[k].name.None?
    decreases |units|
  {
    if units == [] then None
    else if units[0].name.Some? then Some(0)
    else match FirstNamed(units[1..])
      case None => None
      case Some(k) => Some(k + 1)
  }

  /** The first named compilation unit wins: starting without a unit, or
      with an unnamed one, a sequence of setSourceFile calls keeps the first
      named unit it offers, and the last one when none is named. */
  lemma {:induction false} FirstNamedUnitWins(current: Option<CompilationUnit>, units: seq<CompilationUnit>)
    requires current.None? || current.value.name.None?
    requires units != []
    ensures AdoptAll(current, units)
         == match FirstNamed(units)
            case Some(k) => Some(units[k])
            case None => Some(units[|units| - 1])
    decreases |units|
  {
    var next := AdoptUnit(current, units[0]);
    assert next == Some(units[0]);
    if units[0].name.Some? {
      NamedUnitKept(units[0], units[1..]);
    } else if |units| > 1 {
      FirstNamedUnitWins(next, units[1..]);
      assert units[1..][|units[1..]| - 1] == units[|units| - 1];
    }
  }

  /** Once a named unit is set, no later setSourceFile call replaces it. */
  lemma {:induction false} NamedUnitKept(unit: CompilationUnit, units: seq<CompilationUnit>)
    requires unit.name.Some?
    ensures AdoptAll(Some(unit), units) == Some(unit)
    decreases |units|
  {
    if units != [] {
      NamedUnitKept(unit, units[1..]);
    }
  }

  /** An artifact and the fields its setters overwrite. */
  class Artifact {
    var name: string
    var uuid: Option<Id>
    var sourceFile: Option<CompilationUnit>
    var docComment: Option<string>

    /** A new artifact has the given name and no uuid, unit or comment. */
    constructor (name: string)
      ensures this.name == name
      ensures uuid == None && sourceFile == None && docComment == None
    {
      this.name := name;
      uuid := None;
      sourceFile := None;
      docComment := None;
    }

    method GetName() returns (r: string)
      ensures r == name
    {
      r := name;
    }

    method SetName(name: string)
      modifies this`name
      ensures this.name == name
    {
      this.name := name;
    }

    /** getUuid: the stored uuid, or the fresh value `candidate` (standing
        for md5(microtime())), which is then stored. */
    method GetUuid(candidate: Id) returns (r: Id)
      modifies this`uuid
      ensures (r, uuid) == LazyUuid(old(uuid), candidate)
    {
      if uuid.None? {
        uuid := Some(candidate);
      }
      r := uuid.value;
    }

    method SetUuid(uuid: Id)
      modifies this`uuid
      ensures this.uuid == Some(uuid)
    {
      this.uuid := Some(uuid);
    }

    method GetSourceFile() returns (r: Option<CompilationUnit>)
      ensures r == sourceFile
    {
      r := sourceFile;
    }

    /** setSourceFile: only a missing or unnamed unit is replaced. */
    method SetSourceFile(unit: CompilationUnit)
      modifies this`sourceFile
      ensures sourceFile == AdoptUnit(old(sourceFile), unit)
    {
      if sourceFile.None? || sourceFile.value.name.None? {
        sourceFile := Some(unit);
      }
    }

    method GetDocComment() returns (r: Option<string>)
      ensures r == docComment
    {
      r := docComment;
    }

    method SetDocComment(docComment: string)
      modifies this`docComment
      ensures this.docComment == Some(docComment)
    {
      this.docComment := Some(docComment);
    }
  }
}
