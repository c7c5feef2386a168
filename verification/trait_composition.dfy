/**
 * The method table of a class that uses traits (getAllMethods), as far as
 * the tests fix it: a method declared on the class wins over any trait
 * method of the same name; an `insteadof` precedence rule excludes the
 * method of the losing trait; two surviving methods of different traits
 * under one name raise a collision error; a visibility adaptation replaces
 * only the visibility flags of the method it names.
 *
 * Aliases are given as extra candidate methods under their alias name.
 * Methods inherited from parent classes are not part of this model.
 */
module TraitComposition {
  import opened Common
  import opened AstClassModel

  /** A method under the name it is known by, the artifact it comes from
      (the class or a trait) and its flags. */
  datatype MethodDecl = MethodDecl(name: string, origin: Id, modifiers: set<Modifier>)

  /** The name-keyed method table, or the collision error with the name
      that collided. */
  datatype Composition = Composed(methods: map<string, MethodDecl>) | MethodCollision(name: string)

  /** A trait method takes part in the composition unless the class
      declares its name itself or a precedence rule excludes it. */
  predicate Survives(c: MethodDecl, own: set<string>, excluded: set<(string, Id)>)
  {
    c.name !in own && (c.name, c.origin) !in excluded
  }

  /** Merging the trait methods in order: a surviving method under a name
      already taken by another trait's method is a collision. */
  function Merge(acc: map<string, MethodDecl>, candidates: seq<MethodDecl>, own: set<string>,
                 excluded: set<(string, Id)>): (r: Composition)
    decreases |candidates|
  {
    if candidates == [] then Composed(acc)
    else
      var c := candidates[0];
      if !Survives(c, own, excluded) then Merge(acc, candidates[1..], own, excluded)
      else if c.name in acc && acc[c.name].origin != c.origin then MethodCollision(c.name)
      else Merge(acc[c.name := c], candidates[1..], own, excluded)
  }

  /** A visibility adaptation: the visibility flags are replaced, all other
      flags kept. */
  function Adapt(m: MethodDecl, overrides: map<string, Modifier>): (r: MethodDecl)
  {
    if m.name in overrides then m.(modifiers := (m.modifiers - Visibilities) + {overrides[m.name]}) else m
  }

  /** getAllMethods: the class's own methods, then the merged and adapted
      trait methods under the names the class leaves free. */
  function AllMethods(own: map<string, MethodDecl>, candidates: seq<MethodDecl>,
                      excluded: set<(string, Id)>, overrides: map<string, Modifier>): (r: Composition)
  {
    match Merge(map[], candidates, own.Keys, excluded)
    case MethodCollision(n) => MethodCollision(n)
    case Composed(traitMethods) =>
      Composed(own + map n | n in traitMethods :: Adapt(traitMethods[n], overrides))
  }

  /** What a successful merge holds: every entry sits under its own name,
      is not declared by the class, and is either an entry it started with
      or a surviving candidate; the names it started with are kept. */
  lemma {:induction false} MergeEntries(acc: map<string, MethodDecl>, candidates: seq<MethodDecl>,
                                        own: set<string>, excluded: set<(string, Id)>)
    requires forall n | n in acc :: acc[n].name == n && Survives(acc[n], own, excluded)
    ensures Merge(acc, candidates, own, excluded).Composed? ==>
      var m := Merge(acc, candidates, own, excluded).methods;
      && acc.Keys <= m.Keys
      && forall n | n in m ::
           && m[n].name == n
           && Survives(m[n], own, excluded)
           && ((n in acc && m[n] == acc[n]) || m[n] in candidates)
    decreases |candidates|
  {
    if candidates != [] {
      var c := candidates[0];
      var rest := candidates[1..];
      if !Survives(c, own, excluded) {
        MergeEntries(acc, rest, own, excluded);
        assert forall x | x in rest :: x in candidates;
      } else if !(c.name in acc && acc[c.name].origin != c.origin) {
        var next := acc[c.name := c];
        MergeEntries(next, rest, own, excluded);
        assert forall x | x in rest :: x in candidates;
      }
    }
  }

  /** Once a name is taken by a method of one trait, a later surviving
      method of another trait under that name is a collision. */
  lemma {:induction false} TakenNameCollides(acc: map<string, MethodDecl>, candidates: seq<MethodDecl>,
                                             own: set<string>, excluded: set<(string, Id)>, k: nat)
    requires k < |candidates| && Survives(candidates[k], own, excluded)
    requires candidates[k].name in acc && acc[candidates[k].name].origin != candidates[k].origin
    ensures Merge(acc, candidates, own, excluded).MethodCollision?
    decreases |candidates|
  {
    var c := candidates[0];
    var n := candidates[k].name;
    if k > 0 && !Survives(c, own, excluded) {
      assert candidates[1..][k - 1] == candidates[k];
      TakenNameCollides(acc, candidates[1..], own, excluded, k - 1);
    } else if k > 0 && !(c.name in acc && acc[c.name].origin != c.origin) {
      var next := acc[c.name := c];
      assert next[n].origin == acc[n].origin;
      assert candidates[1..][k - 1] == candidates[k];
      TakenNameCollides(next, candidates[1..], own, excluded, k - 1);
    }
  }

  /** An unresolved collision raises the error: two surviving methods of
      different traits under one name make the merge fail. */
  lemma {:induction false} CollisionRaised(acc: map<string, MethodDecl>, candidates: seq<MethodDecl>,
                                           own: set<string>, excluded: set<(string, Id)>, i: nat, j: nat)
    requires i < j < |candidates|
    requires Survives(candidates[i], own, excluded) && Survives(candidates[j], own, excluded)
    requires candidates[i].name == candidates[j].name && candidates[i].origin != candidates[j].origin
    ensures Merge(acc, candidates, own, excluded).MethodCollision?
    decreases |candidates|
  {
    var c := candidates[0];
    var rest := candidates[1..];
    if Survives(c, own, excluded) && c.name in acc && acc[c.name].origin != c.origin {
    } else if i == 0 {
      var next := acc[c.name := c];
      assert rest[j - 1] == candidates[j];
      TakenNameCollides(next, rest, own, excluded, j - 1);
    } else {
      var next := if Survives(c, own, excluded) then acc[c.name := c] else acc;
      assert rest[i - 1] == candidates[i] && rest[j - 1] == candidates[j];
      CollisionRaised(next, rest, own, excluded, i - 1, j - 1);
    }
  }

  /** The collision error of getAllMethods. */
  lemma TraitCollisionFails(own: map<string, MethodDecl>, candidates: seq<MethodDecl>,
                            excluded: set<(string, Id)>, overrides: map<string, Modifier>, i: nat, j: nat)
    requires i < j < |candidates|
    requires Survives(candidates[i], own.Keys, excluded) && Survives(candidates[j], own.Keys, excluded)
    requires candidates[i].name == candidates[j].name && candidates[i].origin != candidates[j].origin
    ensures AllMethods(own, candidates, excluded, overrides).MethodCollision?
  {
    CollisionRaised(map[], candidates, own.Keys, excluded, i, j);
  }

  /** A method redeclared on the class wins: every own method is in the
      table as declared, and every other entry is an adapted trait method
      that no precedence rule excluded. */
  lemma OwnMethodsWin(own: map<string, MethodDecl>, candidates: seq<MethodDecl>,
                      excluded: set<(string, Id)>, overrides: map<string, Modifier>)
    ensures AllMethods(own, candidates, excluded, overrides).Composed? ==>
      var m := AllMethods(own, candidates, excluded, overrides).methods;
      && (forall n | n in own :: n in m && m[n] == own[n])
      && (forall n | n in m && n !in own ::
            exists c | c in candidates && c.name == n :: Survives(c, own.Keys, excluded) && m[n] == Adapt(c, overrides))
  {
    MergeEntries(map[], candidates, own.Keys, excluded);
  }

  /** A visibility adaptation keeps the abstract and static flags (and every
      other non-visibility flag) and leaves exactly the requested
      visibility. */
  lemma VisibilityChangeKeepsOtherFlags(m: MethodDecl, overrides: map<string, Modifier>)
    requires m.name in overrides && overrides[m.name] in Visibilities
    ensures Adapt(m, overrides).modifiers - Visibilities == m.modifiers - Visibilities
    ensures Adapt(m, overrides).modifiers * Visibilities == {overrides[m.name]}
    ensures (Abstract in m.modifiers <==> Abstract in Adapt(m, overrides).modifiers)
    ensures (Static in m.modifiers <==> Static in Adapt(m, overrides).modifiers)
  {
  }
}
