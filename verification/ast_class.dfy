/**
 * The state of a class artifact as its self-contained unit tests pin it
 * down: the set-once class modifiers, the start and end line taken from the
 * token list, the method list and the parent link of an added method, the
 * package reference with its name, and the defaults of a new class.
 */
module AstClassModel {
  import opened Common

  /** The modifier flags of the State constants. A bitset of the source is
      a set of flags here. */
  datatype Modifier =
    | Public | Protected | Private | Static | Abstract | Final
    | ImplicitAbstract | ExplicitAbstract

  /** The flags that may be given to a class. */
  const ClassModifiers: set<Modifier> := {ImplicitAbstract, ExplicitAbstract, Final}

  /** The visibility flags. */
  const Visibilities: set<Modifier> := {Public, Protected, Private}

  /** A token: type, image, start line, end line, start column, end column. */
  datatype Token = Token(kind: int, image: string, startLine: int, endLine: int, startColumn: int, endColumn: int)

  /** What setModifiers does: it stores the flags, or it raises
      BadMethodCallException (flags already set) or InvalidArgumentException
      (flags a class cannot carry). */
  datatype ModifierOutcome = Stored | BadMethodCall | InvalidArgument

  /** A flag set a class may carry: class flags only. */
  predicate ValidClassModifiers(mods: set<Modifier>)
  {
    mods <= ClassModifiers
  }

  /** The outcome of setModifiers(requested) on a class that carries
      `current`: overwriting is refused first, then invalid flags. */
  function ModifierCheck(current: set<Modifier>, requested: set<Modifier>): (r: ModifierOutcome)
    ensures r == Stored ==> current == {} && ValidClassModifiers(requested)
    ensures current != {} ==> r == BadMethodCall
    ensures current == {} && !ValidClassModifiers(requested) ==> r == InvalidArgument
  {
    if current != {} then BadMethodCall
    else if !ValidClassModifiers(requested) then InvalidArgument
    else Stored
  }

  /** Modifiers are set once: after a non-empty set was stored, every
      further call is refused, even one with the same flags. */
  lemma ModifiersSetOnce(requested: set<Modifier>, again: set<Modifier>)
    requires requested != {}
    requires ModifierCheck({}, requested) == Stored
    ensures ModifierCheck(requested, again) == BadMethodCall
  {
  }

  /** The plain abstract flag is not a class flag: a new class refuses any
      set holding it, such as abstract together with final. */
  lemma AbstractFinalRefused(requested: set<Modifier>)
    requires Abstract in requested
    ensures ModifierCheck({}, requested) == InvalidArgument
  {
  }

  /** A new class accepts final alone and explicit-abstract alone. */
  lemma SingleClassFlagsStored()
    ensures ModifierCheck({}, {Final}) == Stored
    ensures ModifierCheck({}, {ExplicitAbstract}) == Stored
  {
  }

  /** getStartLine: the start line of the first token, 0 without tokens. */
  function StartLine(tokens: seq<Token>): (r: int)
    ensures tokens == [] ==> r == 0
    ensures tokens != [] ==> r == tokens[0].startLine
  {
    if tokens == [] then 0 else tokens[0].startLine
  }

  /** getEndLine: the end line of the last token, 0 without tokens. */
  function EndLine(tokens: seq<Token>): (r: int)
    ensures tokens == [] ==> r == 0
    ensures tokens != [] ==> r == tokens[|tokens| - 1].endLine
  {
    if tokens == [] then 0 else tokens[|tokens| - 1].endLine
  }

  /** The lines are positional, not extreme: with a later token that starts
      earlier and an earlier one that ends later, the first token's start
      line and the last token's end line are reported. */
  lemma LinesComeFromFirstAndLastToken(first: Token, last: Token)
    requires last.startLine < first.startLine && last.endLine < first.endLine
    ensures StartLine([first, last]) == first.startLine
    ensures StartLine([first, last]) != last.startLine
    ensures EndLine([first, last]) == last.endLine
    ensures EndLine([first, last]) != first.endLine
  {
  }

  /** A namespace (package). */
  class AstNamespace {
    const name: string

    constructor (name: string)
      ensures this.name == name
    {
      this.name := name;
    }
  }

  /** A method; its parent is the class it was added to. */
  class AstMethod {
    const name: string
    var parent: AstClass?

    constructor (name: string)
      ensures this.name == name && parent == null
    {
      this.name := name;
      parent := null;
    }
  }

  /** A class and the fields its tests observe. */
  class AstClass {
    const name: string
    var modifiers: set<Modifier>
    var tokens: seq<Token>
    var methods: seq<AstMethod>
    var package: AstNamespace?
    var packageName: Option<string>
    var userDefined: bool
    var parentClassReference: Option<Id>
    var interfaceReferences: seq<Id>

    /** A new class: the name it was given, no modifiers, no tokens, no
        methods, no package, no parent or interface references, and not
        user defined. */
    constructor (name: string)
      ensures this.name == name
      ensures modifiers == {} && tokens == [] && methods == []
      ensures package == null && packageName == None
      ensures !userDefined && parentClassReference == None && interfaceReferences == []
    {
      this.name := name;
      modifiers := {};
      tokens := [];
      methods := [];
      package := null;
      packageName := None;
      userDefined := false;
      parentClassReference := None;
      interfaceReferences := [];
    }

    method GetModifiers() returns (r: set<Modifier>)
      ensures r == modifiers
    {
      r := modifiers;
    }

    /** setModifiers: stores the flags once; a refused call leaves the
        class as it was. */
    method SetModifiers(requested: set<Modifier>) returns (outcome: ModifierOutcome)
      modifies this`modifiers
      ensures outcome == ModifierCheck(old(modifiers), requested)
      ensures modifiers == (if outcome == Stored then requested else old(modifiers))
      ensures ValidClassModifiers(old(modifiers)) ==> ValidClassModifiers(modifiers)
    {
      if modifiers != {} {
        return BadMethodCall;
      }
      if !ValidClassModifiers(requested) {
        return InvalidArgument;
      }
      modifiers := requested;
      outcome := Stored;
    }

    /** isAbstract: the explicit-abstract flag is set. */
    method IsAbstract() returns (r: bool)
      ensures r <==> ExplicitAbstract in modifiers
    {
      r := ExplicitAbstract in modifiers;
    }

    /** isFinal: the final flag is set. */
    method IsFinal() returns (r: bool)
      ensures r <==> Final in modifiers
    {
      r := Final in modifiers;
    }

    method SetTokens(tokens: seq<Token>)
      modifies this`tokens
      ensures this.tokens == tokens
    {
      this.tokens := tokens;
    }

    method GetStartLine() returns (r: int)
      ensures r == StartLine(tokens)
    {
      if tokens == [] {
        r := 0;
      } else {
        r := tokens[0].startLine;
      }
    }

    method GetEndLine() returns (r: int)
      ensures r == EndLine(tokens)
    {
      if tokens == [] {
        r := 0;
      } else {
        r := tokens[|tokens| - 1].endLine;
      }
    }

    /** addMethod: appends the method, makes this class its parent and
        returns it. */
    method AddMethod(m: AstMethod) returns (r: AstMethod)
      modifies this`methods, m`parent
      ensures methods == old(methods) + [m]
      ensures |methods| == |old(methods)| + 1
      ensures m.parent == this && r == m
    {
      m.parent := this;
      methods := methods + [m];
      r := m;
    }

    method GetPackage() returns (r: AstNamespace?)
      ensures r == package
    {
      r := package;
    }

    method GetPackageName() returns (r: Option<string>)
      ensures r == packageName
    {
      r := packageName;
    }

    /** setPackage: the package and its name. */
    method SetPackage(p: AstNamespace)
      modifies this`package, this`packageName
      ensures package == p && packageName == Some(p.name)
    {
      package := p;
      packageName := Some(p.name);
    }

    /** unsetPackage: neither a package nor a package name afterwards. */
    method UnsetPackage()
      modifies this`package, this`packageName
      ensures package == null && packageName == None
    {
      package := null;
      packageName := None;
    }

    method IsUserDefined() returns (r: bool)
      ensures r == userDefined
    {
      r := userDefined;
    }

    method SetUserDefined()
      modifies this`userDefined
      ensures userDefined
    {
      userDefined := true;
    }
  }
}
