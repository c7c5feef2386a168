/**
 * Value-level specification of the coupling analyzer
 * (PHP_Depend_Metrics_Coupling_Analyzer).
 *
 * The analyzer keeps a temporary dependency map from type identifiers to a
 * pair of identifier sets: `ce`, the types this type depends on (efferent
 * coupling), and `ca`, the artifacts that depend on it (afferent coupling).
 * A traversal over the namespaces fills the map and two project counters,
 * `calls` and `fanout`; a post-processing step turns the map into per-node
 * records {ca, cbo, ce}. This module states each of those steps as a
 * function and proves what the steps promise; the class in module
 * CouplingAnalyzer performs them in place and is proved equal to them.
 */
module CouplingModel {
  import opened Common

  /** One entry of the temporary dependency map. */
  datatype Coupling = Coupling(ce: set<Id>, ca: set<Id>)

  /** The metrics record stored per node after post-processing. */
  datatype NodeMetrics = NodeMetrics(ca: nat, cbo: nat, ce: nat)

  /** The project summary: number of distinct calls and the fanout. */
  datatype ProjectMetrics = ProjectMetrics(calls: nat, fanout: nat)

  /** A member-primary-prefix ancestor of an invocation, seen through its
      first child: either some other node with an image (the receiver), or
      the invocation itself. */
  datatype PrefixParent = HeadedBy(image: string) | HeadedByInvocation

  /** An invocation found in a routine body: its own image (the invoked
      name) and its member-primary-prefix ancestors, outermost first. */
  datatype Invocation = Invocation(image: string, parents: seq<PrefixParent>)

  /** A function or a method, reduced to what the analyzer reads from it:
      the referenced type identifiers and the invocations in its body. */
  datatype Routine = Routine(
    id: Id,
    returnClass: Option<Id>,
    exceptionClasses: seq<Id>,
    dependencies: seq<Id>,
    invocations: seq<Invocation>)

  /** A property, reduced to the type of its declaration (null when the
      property has no class type). */
  datatype Property = Property(classType: Option<Id>)

  datatype TypeKind = ClassKind | InterfaceKind

  /** A class or interface with the methods and properties it declares. */
  datatype TypeDecl = TypeDecl(kind: TypeKind, id: Id, methods: seq<Routine>, properties: seq<Property>)

  /** A namespace with its types and its functions. */
  datatype Namespace = Namespace(types: seq<TypeDecl>, functions: seq<Routine>)

  /** The analyzer's accumulating state during a traversal. */
  datatype Acc = Acc(calls: nat, fanout: nat, deps: map<Id, Coupling>)

  /** `sub(a, b)` is `a.isSubtypeOf(b)`, supplied by the hierarchy resolver. */
  type Subtype = (Id, Id) -> bool

  const EmptyAcc := Acc(0, 0, map[])

  // ---------------------------------------------------------------------
  // The dependency map

  /** initDependencyMap: an empty entry for `id`, unless one exists. */
  function InitEntry(deps: map<Id, Coupling>, id: Id): (r: map<Id, Coupling>)
  {
    if id in deps then deps else deps[id := Coupling({}, {})]
  }

  /** calculateCoupling(declaring, coupled). */
  function Couple(deps: map<Id, Coupling>, declaring: Id, coupled: Option<Id>, sub: Subtype): (r: map<Id, Coupling>)
  {
    var d := InitEntry(deps, declaring);
    if coupled.None? then d
    else if sub(coupled.value, declaring) || sub(declaring, coupled.value) then d
    else
      var c := coupled.value;
      var d1 := InitEntry(d, c);
      var d2 := d1[declaring := Coupling(d1[declaring].ce + {c}, d1[declaring].ca)];
      d2[c := Coupling(d2[c].ce, d2[c].ca + {declaring})]
  }

  /** calculateCoupling applied to each type of `ts` in turn. */
  function CoupleAll(deps: map<Id, Coupling>, declaring: Id, ts: seq<Id>, sub: Subtype): (r: map<Id, Coupling>)
    decreases |ts|
  {
    if ts == [] then deps else CoupleAll(Couple(deps, declaring, Some(ts[0]), sub), declaring, ts[1..], sub)
  }

  /** One step of visitFunction's last loop: `fn` becomes an afferent
      dependent of type `t`. */
  function AddAfferentOne(deps: map<Id, Coupling>, t: Id, fn: Id): (r: map<Id, Coupling>)
  {
    var d := InitEntry(deps, t);
    d[t := Coupling(d[t].ce, d[t].ca + {fn})]
  }

  function AddAfferent(deps: map<Id, Coupling>, ts: seq<Id>, fn: Id): (r: map<Id, Coupling>)
    decreases |ts|
  {
    if ts == [] then deps else AddAfferent(AddAfferentOne(deps, ts[0], fn), ts[1..], fn)
  }

  // ---------------------------------------------------------------------
  // Fanout of a function: referenced types, deduplicated by identity

  function OptSeq(o: Option<Id>): (r: seq<Id>)
  {
    if o.Some? then [o.value] else []
  }

  /** Appends each element of `ts` that is not yet in `acc`, in order. */
  function AppendNew(acc: seq<Id>, ts: seq<Id>): (r: seq<Id>)
    decreases |ts|
  {
    if ts == [] then acc
    else if ts[0] in acc then AppendNew(acc, ts[1..])
    else AppendNew(acc + [ts[0]], ts[1..])
  }

  /** AppendNew keeps `acc` as a prefix, adds exactly the elements of `ts`,
      and adds none twice. */
  lemma {:induction false} AppendNewProps(acc: seq<Id>, ts: seq<Id>)
    ensures var r := AppendNew(acc, ts);
      && Elems(r) == Elems(acc) + Elems(ts)
      && (NoDup(acc) ==> NoDup(r))
      && |acc| <= |r| && r[..|acc|] == acc
    decreases |ts|
  {
    if ts != [] {
      assert Elems(ts) == {ts[0]} + Elems(ts[1..]) by { assert ts == [ts[0]] + ts[1..]; }
      if ts[0] in acc {
        AppendNewProps(acc, ts[1..]);
      } else {
        AppendNewProps(acc + [ts[0]], ts[1..]);
        var r := AppendNew(acc, ts);
        assert r[..|acc| + 1][..|acc|] == r[..|acc|];
      }
    }
  }

  /** The `$fanouts` list built by visitFunction: the return class, then
      the exception classes, then the dependencies, each kept only the first
      time it occurs. */
  function DistinctTypes(returnClass: Option<Id>, exceptions: seq<Id>, dependencies: seq<Id>): (r: seq<Id>)
  {
    AppendNew(AppendNew(OptSeq(returnClass), exceptions), dependencies)
  }

  /** Each type referenced by the return class, the exception classes or
      the dependencies is in the list exactly once, so the list is as long
      as the number of distinct types. */
  lemma DistinctTypesProps(returnClass: Option<Id>, exceptions: seq<Id>, dependencies: seq<Id>)
    ensures var r := DistinctTypes(returnClass, exceptions, dependencies);
      && NoDup(r)
      && Elems(r) == Elems(OptSeq(returnClass)) + Elems(exceptions) + Elems(dependencies)
      && |r| == |Elems(OptSeq(returnClass)) + Elems(exceptions) + Elems(dependencies)|
  {
    var r0 := AppendNew(OptSeq(returnClass), exceptions);
    AppendNewProps(OptSeq(returnClass), exceptions);
    AppendNewProps(r0, dependencies);
    NoDupCard(AppendNew(r0, dependencies));
  }

  // ---------------------------------------------------------------------
  // Call counting

  /** The receiver part of a call signature: each prefix ancestor's head
      image followed by ".", skipping the ancestors headed by the invocation
      itself. */
  function ReceiverImages(parents: seq<PrefixParent>): (r: string)
    decreases |parents|
  {
    if parents == [] then "" else HeadImage(parents[0]) + ReceiverImages(parents[1..])
  }

  /** The part one prefix ancestor contributes to a call signature. */
  function HeadImage(p: PrefixParent): (r: string)
  {
    match p
    case HeadedBy(image) => image + "."
    case HeadedByInvocation => ""
  }

  /** The receiver part grows at the end, one prefix ancestor at a time. */
  lemma {:induction false} ReceiverImagesSnoc(parents: seq<PrefixParent>, p: PrefixParent)
    ensures ReceiverImages(parents + [p]) == ReceiverImages(parents) + HeadImage(p)
    decreases |parents|
  {
    if parents != [] {
      assert (parents + [p])[1..] == parents[1..] + [p];
      ReceiverImagesSnoc(parents[1..], p);
    } else {
      assert ReceiverImages([p]) == HeadImage(p) + ReceiverImages([p][1..]);
    }
  }

  /** The call signature image of an invocation. */
  function Image(inv: Invocation): (r: string)
  {
    ReceiverImages(inv.parents) + inv.image + "()"
  }

  /** The distinct call signatures of a routine body. */
  function Signatures(invs: seq<Invocation>): (r: set<string>)
  {
    set inv | inv in invs :: Image(inv)
  }

  lemma SignaturesSnoc(invs: seq<Invocation>, inv: Invocation)
    ensures Signatures(invs + [inv]) == Signatures(invs) + {Image(inv)}
  {
    assert forall i | i in invs + [inv] :: i in invs || i == inv;
  }

  /** A routine never has more distinct signatures than invocations. */
  lemma {:induction false} SignaturesBound(invs: seq<Invocation>)
    ensures |Signatures(invs)| <= |invs|
  {
    if invs != [] {
      var front := invs[..|invs| - 1];
      assert invs == front + [invs[|invs| - 1]];
      SignaturesSnoc(front, invs[|invs| - 1]);
      SignaturesBound(front);
    }
  }

  /** A call whose signature image is already present (a repeated call, or
      a different invocation spelling the same image) adds no signature. */
  lemma RepeatedCallCountsOnce(invs: seq<Invocation>, inv: Invocation)
    requires Image(inv) in Signatures(invs)
    ensures Signatures(invs + [inv]) == Signatures(invs)
    ensures |Signatures(invs + [inv])| == |Signatures(invs)|
  {
    SignaturesSnoc(invs, inv);
    assert Signatures(invs) + {Image(inv)} == Signatures(invs);
  }

  /** A call whose signature is new adds exactly one to the count. */
  lemma NewSignatureCountsOne(invs: seq<Invocation>, inv: Invocation)
    requires Image(inv) !in Signatures(invs)
    ensures |Signatures(invs + [inv])| == |Signatures(invs)| + 1
  {
    SignaturesSnoc(invs, inv);
  }

  // ---------------------------------------------------------------------
  // The traversal

  /** visitFunction. */
  function VisitFunctionSpec(a: Acc, f: Routine): (r: Acc)
  {
    var ts := DistinctTypes(f.returnClass, f.exceptionClasses, f.dependencies);
    Acc(a.calls + |Signatures(f.invocations)|, a.fanout + |ts|, AddAfferent(a.deps, ts, f.id))
  }

  /** visitMethod: the return class (possibly null), then every exception
      class, then every dependency is coupled to the declaring type. */
  function VisitMethodSpec(a: Acc, declaring: Id, m: Routine, sub: Subtype): (r: Acc)
  {
    var d0 := Couple(a.deps, declaring, m.returnClass, sub);
    var d1 := CoupleAll(d0, declaring, m.exceptionClasses, sub);
    var d2 := CoupleAll(d1, declaring, m.dependencies, sub);
    Acc(a.calls + |Signatures(m.invocations)|, a.fanout, d2)
  }

  /** visitProperty. */
  function VisitPropertySpec(a: Acc, declaring: Id, p: Property, sub: Subtype): (r: Acc)
  {
    Acc(a.calls, a.fanout, Couple(a.deps, declaring, p.classType, sub))
  }

  function VisitMethodsSpec(a: Acc, declaring: Id, ms: seq<Routine>, sub: Subtype): (r: Acc)
    decreases |ms|
  {
    if ms == [] then a else VisitMethodsSpec(VisitMethodSpec(a, declaring, ms[0], sub), declaring, ms[1..], sub)
  }

  function VisitPropertiesSpec(a: Acc, declaring: Id, ps: seq<Property>, sub: Subtype): (r: Acc)
    decreases |ps|
  {
    if ps == [] then a else VisitPropertiesSpec(VisitPropertySpec(a, declaring, ps[0], sub), declaring, ps[1..], sub)
  }

  /** visitClass / visitInterface: initialise the type's entry, then walk
      its methods and its properties. */
  function VisitTypeSpec(a: Acc, t: TypeDecl, sub: Subtype): (r: Acc)
  {
    var a0 := Acc(a.calls, a.fanout, InitEntry(a.deps, t.id));
    VisitPropertiesSpec(VisitMethodsSpec(a0, t.id, t.methods, sub), t.id, t.properties, sub)
  }

  function VisitTypesSpec(a: Acc, ts: seq<TypeDecl>, sub: Subtype): (r: Acc)
    decreases |ts|
  {
    if ts == [] then a else VisitTypesSpec(VisitTypeSpec(a, ts[0], sub), ts[1..], sub)
  }

  function VisitFunctionsSpec(a: Acc, fs: seq<Routine>): (r: Acc)
    decreases |fs|
  {
    if fs == [] then a else VisitFunctionsSpec(VisitFunctionSpec(a, fs[0]), fs[1..])
  }

  function VisitNamespaceSpec(a: Acc, n: Namespace, sub: Subtype): (r: Acc)
  {
    VisitFunctionsSpec(VisitTypesSpec(a, n.types, sub), n.functions)
  }

  function TraverseSpec(a: Acc, ns: seq<Namespace>, sub: Subtype): (r: Acc)
    decreases |ns|
  {
    if ns == [] then a else TraverseSpec(VisitNamespaceSpec(a, ns[0], sub), ns[1..], sub)
  }

  // ---------------------------------------------------------------------
  // Post-processing

  /** The per-node records derived from the dependency map. */
  function MetricsOf(deps: map<Id, Coupling>): (r: map<Id, NodeMetrics>)
  {
    map id | id in deps :: NodeMetrics(|deps[id].ca|, |deps[id].ce|, |deps[id].ce|)
  }

  /** The sum of |ce| over the entries of `deps` whose keys are in `keys`. */
  ghost function SumCe(deps: map<Id, Coupling>, keys: set<Id>): (r: nat)
    requires keys <= deps.Keys
    decreases keys
  {
    if keys == {} then 0
    else
      var k :| k in keys;
      |deps[k].ce| + SumCe(deps, keys - {k})
  }

  /** The sum does not depend on which entry is taken first. */
  lemma {:induction false} SumCeRemove(deps: map<Id, Coupling>, keys: set<Id>, k: Id)
    requires keys <= deps.Keys && k in keys
    ensures SumCe(deps, keys) == |deps[k].ce| + SumCe(deps, keys - {k})
    decreases keys
  {
    var j :| j in keys && SumCe(deps, keys) == |deps[j].ce| + SumCe(deps, keys - {j});
    if j != k {
      SumCeRemove(deps, keys - {j}, k);
      SumCeRemove(deps, keys - {k}, j);
      assert keys - {j} - {k} == keys - {k} - {j};
    }
  }

  /** Moving one key from the pending part of a map to the processed part
      adds that key's record, on top of whatever records existed before. */
  lemma MetricsOfStep(before: map<Id, NodeMetrics>, all: map<Id, Coupling>, pending: set<Id>, k: Id)
    requires k in pending && k in all
    ensures (before + MetricsOf(all - pending))[k := NodeMetrics(|all[k].ca|, |all[k].ce|, |all[k].ce|)]
         == before + MetricsOf(all - (pending - {k}))
  {
    assert (all - (pending - {k})).Keys == (all - pending).Keys + {k};
    assert MetricsOf(all - (pending - {k}))
        == MetricsOf(all - pending)[k := NodeMetrics(|all[k].ca|, |all[k].ce|, |all[k].ce|)];
  }

  /** One step of the fanout collection loops of visitFunction. */
  lemma AppendNewStep(acc: seq<Id>, ts: seq<Id>, i: nat)
    requires i < |ts|
    ensures AppendNew(acc, ts[i..])
         == AppendNew(if ts[i] in acc then acc else acc + [ts[i]], ts[i + 1..])
  {
    assert ts[i..][1..] == ts[i + 1..];
  }

  /** One step of the afferent loop of visitFunction. */
  lemma AddAfferentStep(deps: map<Id, Coupling>, ts: seq<Id>, j: nat, fn: Id)
    requires j < |ts|
    ensures AddAfferent(deps, ts[j..], fn) == AddAfferent(AddAfferentOne(deps, ts[j], fn), ts[j + 1..], fn)
  {
    assert ts[j..][1..] == ts[j + 1..];
  }

  /** One step of the walk over the functions of a namespace. */
  lemma VisitFunctionsStep(a: Acc, fs: seq<Routine>, j: nat)
    requires j < |fs|
    ensures VisitFunctionsSpec(a, fs[j..]) == VisitFunctionsSpec(VisitFunctionSpec(a, fs[j]), fs[j + 1..])
  {
    assert fs[j..][1..] == fs[j + 1..];
  }

  /** The whole run of `analyze` on a fresh analyzer: the traversal starting
      from the reset state, then post-processing. */
  datatype Outcome = Outcome(calls: nat, fanout: nat, nodeMetrics: map<Id, NodeMetrics>)

  ghost function Analysis(ns: seq<Namespace>, sub: Subtype): (r: Outcome)
  {
    var r := TraverseSpec(EmptyAcc, ns, sub);
    Outcome(r.calls, r.fanout + SumCe(r.deps, r.deps.Keys), MetricsOf(r.deps))
  }

  /** The identifiers of every class and interface of the namespaces. */
  function TypeIds(ns: seq<Namespace>): (r: set<Id>)
  {
    set n, t | n in ns && t in n.types :: t.id
  }

  // ---------------------------------------------------------------------
  // Invariants of the dependency map

  /** Every efferent edge a -> b has its afferent mirror: b has an entry
      and a is among b's dependents. */
  ghost predicate Mirrored(deps: map<Id, Coupling>)
  {
    forall a, b | a in deps && b in deps[a].ce :: b in deps && a in deps[b].ca
  }

  /** No efferent edge joins a subtype to one of its supertypes, in either
      direction. */
  ghost predicate HierarchyFree(deps: map<Id, Coupling>, sub: Subtype)
  {
    forall a, b | a in deps && b in deps[a].ce :: !sub(a, b) && !sub(b, a)
  }

  /** `r` is a later state of the map `d`: no entry disappears, no edge is
      dropped, and both invariants carry over. */
  ghost predicate Evolves(d: map<Id, Coupling>, r: map<Id, Coupling>, sub: Subtype)
  {
    && d.Keys <= r.Keys
    && (forall k | k in d :: d[k].ce <= r[k].ce && d[k].ca <= r[k].ca)
    && (Mirrored(d) ==> Mirrored(r))
    && (HierarchyFree(d, sub) ==> HierarchyFree(r, sub))
  }

  lemma EvolvesTrans(d1: map<Id, Coupling>, d2: map<Id, Coupling>, d3: map<Id, Coupling>, sub: Subtype)
    requires Evolves(d1, d2, sub) && Evolves(d2, d3, sub)
    ensures Evolves(d1, d3, sub)
  {
  }

  // ---------------------------------------------------------------------
  // Properties of the single steps

  /** initDependencyMap never overwrites an entry and is idempotent. */
  lemma InitEntryKeepsExisting(deps: map<Id, Coupling>, id: Id, sub: Subtype)
    ensures id in InitEntry(deps, id)
    ensures id in deps ==> InitEntry(deps, id) == deps
    ensures id !in deps ==> InitEntry(deps, id)[id] == Coupling({}, {})
    ensures InitEntry(InitEntry(deps, id), id) == InitEntry(deps, id)
    ensures InitEntry(deps, id).Keys == deps.Keys + {id}
    ensures Evolves(deps, InitEntry(deps, id), sub)
  {
  }

  /** The three outcomes of calculateCoupling. */
  lemma CoupleOutcomes(deps: map<Id, Coupling>, declaring: Id, coupled: Option<Id>, sub: Subtype)
    ensures var r := Couple(deps, declaring, coupled, sub);
      && (coupled.None? ==> r == InitEntry(deps, declaring))
      && (coupled.Some? && (sub(coupled.value, declaring) || sub(declaring, coupled.value))
          ==> r == InitEntry(deps, declaring))
      && (coupled.Some? && !sub(coupled.value, declaring) && !sub(declaring, coupled.value) ==>
            && r.Keys == deps.Keys + {declaring, coupled.value}
            && coupled.value in r[declaring].ce
            && declaring in r[coupled.value].ca
            && (forall k | k in deps && k != declaring && k != coupled.value :: r[k] == deps[k]))
  {
  }

  /** The entry `k` has in `deps`, or the empty entry it would get. */
  function EntryOrEmpty(deps: map<Id, Coupling>, k: Id): (r: Coupling)
  {
    if k in deps then deps[k] else Coupling({}, {})
  }

  /** The entries of `deps` with the edge from `declaring` to `c` added at
      both ends. */
  ghost predicate EdgeAdded(deps: map<Id, Coupling>, r: map<Id, Coupling>, declaring: Id, c: Id)
  {
    && r.Keys == deps.Keys + {declaring, c}
    && forall k | k in r ::
         && r[k].ce == EntryOrEmpty(deps, k).ce + (if k == declaring then {c} else {})
         && r[k].ca == EntryOrEmpty(deps, k).ca + (if k == c then {declaring} else {})
  }

  /** The edge-adding outcome of calculateCoupling, entry by entry. */
  lemma CoupleEntries(deps: map<Id, Coupling>, declaring: Id, c: Id, sub: Subtype)
    requires !sub(c, declaring) && !sub(declaring, c)
    ensures EdgeAdded(deps, Couple(deps, declaring, Some(c), sub), declaring, c)
  {
  }

  /** An added edge is recorded at both ends. */
  lemma EdgeAddedMirrored(deps: map<Id, Coupling>, r: map<Id, Coupling>, declaring: Id, c: Id)
    requires EdgeAdded(deps, r, declaring, c)
    requires Mirrored(deps)
    ensures Mirrored(r)
  {
    forall a, b | a in r && b in r[a].ce
      ensures b in r && a in r[b].ca
    {
      if a == declaring && b == c {
        assert r[b].ca == EntryOrEmpty(deps, b).ca + {declaring};
      } else {
        assert b in EntryOrEmpty(deps, a).ce;
        assert b in deps && a in deps[b].ca;
        assert EntryOrEmpty(deps, b) == deps[b];
      }
    }
  }

  /** An added edge between unrelated types never joins related types. */
  lemma EdgeAddedHierarchyFree(deps: map<Id, Coupling>, r: map<Id, Coupling>, declaring: Id, c: Id, sub: Subtype)
    requires EdgeAdded(deps, r, declaring, c)
    requires !sub(c, declaring) && !sub(declaring, c)
    requires HierarchyFree(deps, sub)
    ensures HierarchyFree(r, sub)
  {
    forall a, b | a in r && b in r[a].ce
      ensures !sub(a, b) && !sub(b, a)
    {
      if a != declaring || b != c {
        assert a in deps && b in deps[a].ce;
      }
    }
  }

  lemma CoupleEvolves(deps: map<Id, Coupling>, declaring: Id, coupled: Option<Id>, sub: Subtype)
    ensures var r := Couple(deps, declaring, coupled, sub);
      Evolves(deps, r, sub) && declaring in r
  {
    InitEntryKeepsExisting(deps, declaring, sub);
    if coupled.Some? && !sub(coupled.value, declaring) && !sub(declaring, coupled.value) {
      var c := coupled.value;
      CoupleEntries(deps, declaring, c, sub);
      var r := Couple(deps, declaring, coupled, sub);
      if Mirrored(deps) {
        EdgeAddedMirrored(deps, r, declaring, c);
      }
      if HierarchyFree(deps, sub) {
        EdgeAddedHierarchyFree(deps, r, declaring, c, sub);
      }
    }
  }

  lemma {:induction false} CoupleAllEvolves(deps: map<Id, Coupling>, declaring: Id, ts: seq<Id>, sub: Subtype)
    ensures Evolves(deps, CoupleAll(deps, declaring, ts, sub), sub)
    decreases |ts|
  {
    if ts != [] {
      var d := Couple(deps, declaring, Some(ts[0]), sub);
      CoupleEvolves(deps, declaring, Some(ts[0]), sub);
      CoupleAllEvolves(d, declaring, ts[1..], sub);
      EvolvesTrans(deps, d, CoupleAll(d, declaring, ts[1..], sub), sub);
    }
  }

  /** One step of visitFunction's bookkeeping: the type gets an entry with
      the function among its dependents; nothing else changes. */
  lemma AddAfferentOneShape(deps: map<Id, Coupling>, t: Id, fn: Id)
    ensures var r := AddAfferentOne(deps, t, fn);
      && r.Keys == deps.Keys + {t}
      && fn in r[t].ca
      && (forall k | k in r :: r[k].ce == (if k in deps then deps[k].ce else {}))
      && (forall k | k in deps :: deps[k].ca <= r[k].ca)
      && (forall k | k in deps && k != t :: r[k] == deps[k])
  {
  }

  lemma AddAfferentOneEvolves(deps: map<Id, Coupling>, t: Id, fn: Id, sub: Subtype)
    ensures Evolves(deps, AddAfferentOne(deps, t, fn), sub)
  {
    var r := AddAfferentOne(deps, t, fn);
    AddAfferentOneShape(deps, t, fn);
    forall a, b | a in r && b in r[a].ce
      ensures Mirrored(deps) ==> b in r && a in r[b].ca
    {
      assert a in deps && b in deps[a].ce;
    }
  }

  /** visitFunction's bookkeeping: every referenced type gets an entry with
      the function among its dependents; no efferent set changes, no
      dependent is dropped, and every other entry stays as it was. */
  lemma {:induction false} AddAfferentShape(deps: map<Id, Coupling>, ts: seq<Id>, fn: Id)
    ensures var r := AddAfferent(deps, ts, fn);
      && r.Keys == deps.Keys + Elems(ts)
      && (forall t | t in ts :: fn in r[t].ca)
      && (forall k | k in r :: r[k].ce == (if k in deps then deps[k].ce else {}))
      && (forall k | k in deps :: deps[k].ca <= r[k].ca)
      && (forall k | k in deps && k !in ts :: r[k] == deps[k])
    decreases |ts|
  {
    if ts != [] {
      var d := AddAfferentOne(deps, ts[0], fn);
      AddAfferentOneShape(deps, ts[0], fn);
      AddAfferentShape(d, ts[1..], fn);
      assert Elems(ts) == {ts[0]} + Elems(ts[1..]) by { assert ts == [ts[0]] + ts[1..]; }
      assert forall t | t in ts :: t == ts[0] || t in ts[1..];
    }
  }

  /** The bookkeeping of visitFunction keeps the map invariants. */
  lemma {:induction false} AddAfferentEvolves(deps: map<Id, Coupling>, ts: seq<Id>, fn: Id, sub: Subtype)
    ensures Evolves(deps, AddAfferent(deps, ts, fn), sub)
    decreases |ts|
  {
    if ts != [] {
      var d := AddAfferentOne(deps, ts[0], fn);
      AddAfferentOneEvolves(deps, ts[0], fn, sub);
      AddAfferentEvolves(d, ts[1..], fn, sub);
      EvolvesTrans(deps, d, AddAfferent(deps, ts, fn), sub);
    }
  }

  // ---------------------------------------------------------------------
  // Properties of the traversal

  lemma MethodEvolves(a: Acc, declaring: Id, m: Routine, sub: Subtype)
    ensures var r := VisitMethodSpec(a, declaring, m, sub);
      Evolves(a.deps, r.deps, sub) && declaring in r.deps
  {
    var d0 := Couple(a.deps, declaring, m.returnClass, sub);
    var d1 := CoupleAll(d0, declaring, m.exceptionClasses, sub);
    var d2 := CoupleAll(d1, declaring, m.dependencies, sub);
    CoupleEvolves(a.deps, declaring, m.returnClass, sub);
    CoupleAllEvolves(d0, declaring, m.exceptionClasses, sub);
    CoupleAllEvolves(d1, declaring, m.dependencies, sub);
    EvolvesTrans(a.deps, d0, d1, sub);
    EvolvesTrans(a.deps, d1, d2, sub);
  }

  lemma {:induction false} MethodsEvolve(a: Acc, declaring: Id, ms: seq<Routine>, sub: Subtype)
    ensures Evolves(a.deps, VisitMethodsSpec(a, declaring, ms, sub).deps, sub)
    decreases |ms|
  {
    if ms != [] {
      var a1 := VisitMethodSpec(a, declaring, ms[0], sub);
      MethodEvolves(a, declaring, ms[0], sub);
      MethodsEvolve(a1, declaring, ms[1..], sub);
      EvolvesTrans(a.deps, a1.deps, VisitMethodsSpec(a1, declaring, ms[1..], sub).deps, sub);
    }
  }

  lemma {:induction false} PropertiesEvolve(a: Acc, declaring: Id, ps: seq<Property>, sub: Subtype)
    ensures Evolves(a.deps, VisitPropertiesSpec(a, declaring, ps, sub).deps, sub)
    decreases |ps|
  {
    if ps != [] {
      var a1 := VisitPropertySpec(a, declaring, ps[0], sub);
      CoupleEvolves(a.deps, declaring, ps[0].classType, sub);
      PropertiesEvolve(a1, declaring, ps[1..], sub);
      EvolvesTrans(a.deps, a1.deps, VisitPropertiesSpec(a1, declaring, ps[1..], sub).deps, sub);
    }
  }

  lemma TypeEvolves(a: Acc, t: TypeDecl, sub: Subtype)
    ensures var r := VisitTypeSpec(a, t, sub);
      Evolves(a.deps, r.deps, sub) && t.id in r.deps
  {
    var a0 := Acc(a.calls, a.fanout, InitEntry(a.deps, t.id));
    var a1 := VisitMethodsSpec(a0, t.id, t.methods, sub);
    var a2 := VisitPropertiesSpec(a1, t.id, t.properties, sub);
    InitEntryKeepsExisting(a.deps, t.id, sub);
    MethodsEvolve(a0, t.id, t.methods, sub);
    PropertiesEvolve(a1, t.id, t.properties, sub);
    EvolvesTrans(a.deps, a0.deps, a1.deps, sub);
    EvolvesTrans(a.deps, a1.deps, a2.deps, sub);
  }

  lemma {:induction false} TypesEvolve(a: Acc, ts: seq<TypeDecl>, sub: Subtype)
    ensures var r := VisitTypesSpec(a, ts, sub);
      Evolves(a.deps, r.deps, sub) && (forall t | t in ts :: t.id in r.deps)
    decreases |ts|
  {
    if ts != [] {
      var a1 := VisitTypeSpec(a, ts[0], sub);
      TypeEvolves(a, ts[0], sub);
      TypesEvolve(a1, ts[1..], sub);
      EvolvesTrans(a.deps, a1.deps, VisitTypesSpec(a1, ts[1..], sub).deps, sub);
      assert forall t | t in ts :: t == ts[0] || t in ts[1..];
    }
  }

  lemma {:induction false} FunctionsEvolve(a: Acc, fs: seq<Routine>, sub: Subtype)
    ensures Evolves(a.deps, VisitFunctionsSpec(a, fs).deps, sub)
    decreases |fs|
  {
    if fs != [] {
      var a1 := VisitFunctionSpec(a, fs[0]);
      var ts := DistinctTypes(fs[0].returnClass, fs[0].exceptionClasses, fs[0].dependencies);
      AddAfferentEvolves(a.deps, ts, fs[0].id, sub);
      FunctionsEvolve(a1, fs[1..], sub);
      EvolvesTrans(a.deps, a1.deps, VisitFunctionsSpec(a1, fs[1..]).deps, sub);
    }
  }

  lemma {:induction false} TraverseEvolves(a: Acc, ns: seq<Namespace>, sub: Subtype)
    ensures var r := TraverseSpec(a, ns, sub);
      Evolves(a.deps, r.deps, sub) && TypeIds(ns) <= r.deps.Keys
    decreases |ns|
  {
    if ns != [] {
      var n := ns[0];
      var a0 := VisitTypesSpec(a, n.types, sub);
      var a1 := VisitFunctionsSpec(a0, n.functions);
      var r := TraverseSpec(a1, ns[1..], sub);
      TypesEvolve(a, n.types, sub);
      FunctionsEvolve(a0, n.functions, sub);
      EvolvesTrans(a.deps, a0.deps, a1.deps, sub);
      TraverseEvolves(a1, ns[1..], sub);
      EvolvesTrans(a.deps, a1.deps, r.deps, sub);
      forall id | id in TypeIds(ns) ensures id in r.deps {
        var m, t :| m in ns && t in m.types && t.id == id;
        if m != n {
          assert m in ns[1..];
          assert id in TypeIds(ns[1..]);
        }
      }
    }
  }

  /** What a complete traversal from the reset state leaves in the
      dependency map: an entry for every visited class and interface, every
      efferent edge mirrored by an afferent one, and no edge between a type
      and one of its sub- or supertypes. */
  lemma TraversalMap(ns: seq<Namespace>, sub: Subtype)
    ensures var deps := TraverseSpec(EmptyAcc, ns, sub).deps;
      && TypeIds(ns) <= deps.Keys
      && Mirrored(deps)
      && HierarchyFree(deps, sub)
  {
    TraverseEvolves(EmptyAcc, ns, sub);
  }

  /** After a full run, every visited class and interface has a metrics
      record, even without any coupling, and its CBO equals its Ce. */
  lemma AnalysisCoversVisitedTypes(ns: seq<Namespace>, sub: Subtype)
    ensures var out := Analysis(ns, sub);
      && TypeIds(ns) <= out.nodeMetrics.Keys
      && (forall id | id in out.nodeMetrics :: out.nodeMetrics[id].cbo == out.nodeMetrics[id].ce)
  {
    TraversalMap(ns, sub);
  }

  /** With a reflexive subtype relation (every type is a subtype of itself,
      as isSubtypeOf is), no type is ever coupled to itself. */
  lemma NoSelfCoupling(ns: seq<Namespace>, sub: Subtype)
    requires forall x :: sub(x, x)
    ensures var deps := TraverseSpec(EmptyAcc, ns, sub).deps;
      forall id | id in deps :: id !in deps[id].ce
  {
    TraversalMap(ns, sub);
  }
}
