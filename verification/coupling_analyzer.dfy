/**
 * The coupling analyzer as the object it is: its five fields are updated
 * in place by a single traversal, guarded so that it runs only once. Every
 * method is proved equal to the corresponding function of module
 * CouplingModel, where the properties of those functions are proved.
 *
 * Listener notifications (fireStart... / fireEnd...) are observational and
 * are not modelled. The default tree walk that the analyzer inherits is
 * written out in VisitNamespace and VisitTypeMembers.
 */
module CouplingAnalyzer {
  import opened Common
  import opened CouplingModel

  /** The call-signature image of one invocation: the head image of every
      enclosing member-primary-prefix whose first child is not the
      invocation itself, each followed by ".", then the invoked name and
      "()". */
  method SignatureImage(inv: Invocation) returns (image: string)
    ensures image == Image(inv)
  {
    image := "";
    var parents := inv.parents;
    var i := 0;
    while i < |parents|
      invariant 0 <= i <= |parents|
      invariant image == ReceiverImages(parents[..i])
    {
      assert parents[..i + 1] == parents[..i] + [parents[i]];
      ReceiverImagesSnoc(parents[..i], parents[i]);
      match parents[i] {
        case HeadedBy(childImage) =>
          image := image + (childImage + ".");
        case HeadedByInvocation =>
      }
      i := i + 1;
    }
    assert parents[..i] == parents;
    image := image + inv.image + "()";
  }

  class Analyzer {
    /** Has this analyzer not yet processed the source? */
    var uninitialized: bool
    /** The number of distinct calls. */
    var calls: nat
    /** The number of fanouts. */
    var fanout: nat
    /** Temporary map from type uuids to their ce and ca sets. */
    var dependencyMap: map<Id, Coupling>
    /** The metrics record of each node, keyed by uuid. */
    var nodeMetrics: map<Id, NodeMetrics>

    /** The part of the state a traversal accumulates. */
    function Current(): (r: Acc)
      reads this
    {
      Acc(calls, fanout, dependencyMap)
    }

    /** The state after a complete run on `ns`. */
    ghost predicate Finalized(ns: seq<Namespace>, sub: Subtype)
      reads this
    {
      var out := Analysis(ns, sub);
      && calls == out.calls
      && fanout == out.fanout
      && nodeMetrics == out.nodeMetrics
      && dependencyMap == map[]
    }

    constructor ()
      ensures uninitialized
      ensures calls == 0 && fanout == 0
      ensures dependencyMap == map[] && nodeMetrics == map[]
    {
      uninitialized := true;
      calls, fanout := 0, 0;
      dependencyMap, nodeMetrics := map[], map[];
    }

    /** getProjectMetrics. */
    method GetProjectMetrics() returns (r: ProjectMetrics)
      ensures r.calls == calls && r.fanout == fanout
    {
      r := ProjectMetrics(calls, fanout);
    }

    /** getNodeMetrics: the stored record of a known node, and the empty
        result (None) for any other. */
    method GetNodeMetrics(id: Id) returns (r: Option<NodeMetrics>)
      ensures r.Some? <==> id in nodeMetrics
      ensures r.Some? ==> r.value == nodeMetrics[id]
    {
      if id in nodeMetrics {
        r := Some(nodeMetrics[id]);
      } else {
        r := None;
      }
    }

    /** analyze: the traversal runs only while the analyzer is
        uninitialized; any later call leaves every field as it is. */
    method Analyze(ns: seq<Namespace>, sub: Subtype)
      modifies this
      ensures old(uninitialized) ==> !uninitialized && Finalized(ns, sub)
      ensures !old(uninitialized) ==> unchanged(this)
    {
      if uninitialized {
        DoAnalyze(ns, sub);
        uninitialized := false;
      }
    }

    /** doAnalyze: reset, visit every namespace, post-process. */
    method DoAnalyze(ns: seq<Namespace>, sub: Subtype)
      modifies this`calls, this`fanout, this`dependencyMap, this`nodeMetrics
      ensures Finalized(ns, sub)
    {
      Reset();
      var i := 0;
      while i < |ns|
        invariant 0 <= i <= |ns|
        invariant TraverseSpec(Current(), ns[i..], sub) == TraverseSpec(EmptyAcc, ns, sub)
        invariant nodeMetrics == map[]
      {
        assert ns[i..][1..] == ns[i + 1..];
        VisitNamespace(ns[i], sub);
        i := i + 1;
      }
      PostProcessTemporaryCouplingMap();
    }

    /** reset: the state every run starts from. */
    method Reset()
      modifies this`calls, this`fanout, this`dependencyMap, this`nodeMetrics
      ensures Current() == EmptyAcc && nodeMetrics == map[]
    {
      calls := 0;
      fanout := 0;
      nodeMetrics := map[];
      dependencyMap := map[];
    }

    /** postProcessTemporaryCouplingMap: one record {ca, cbo, ce} per entry,
        |ce| of every entry added to the fanout, and the map emptied. */
    method PostProcessTemporaryCouplingMap()
      modifies this`nodeMetrics, this`fanout, this`dependencyMap
      ensures nodeMetrics == old(nodeMetrics) + MetricsOf(old(dependencyMap))
      ensures fanout == old(fanout) + SumCe(old(dependencyMap), old(dependencyMap).Keys)
      ensures dependencyMap == map[]
    {
      var all := dependencyMap;
      var pending := dependencyMap.Keys;
      while pending != {}
        invariant pending <= all.Keys
        invariant nodeMetrics == old(nodeMetrics) + MetricsOf(all - pending)
        invariant fanout + SumCe(all, pending) == old(fanout) + SumCe(all, all.Keys)
        decreases pending
      {
        var uuid :| uuid in pending;
        var metrics := all[uuid];
        MetricsOfStep(old(nodeMetrics), all, pending, uuid);
        nodeMetrics := nodeMetrics[uuid := NodeMetrics(|metrics.ca|, |metrics.ce|, |metrics.ce|)];
        fanout := fanout + |metrics.ce|;
        SumCeRemove(all, pending, uuid);
        pending := pending - {uuid};
      }
      assert all - pending == all;
      dependencyMap := map[];
    }

    /** The default walk of a namespace: its types, then its functions. */
    method VisitNamespace(n: Namespace, sub: Subtype)
      modifies this`calls, this`fanout, this`dependencyMap
      ensures Current() == VisitNamespaceSpec(old(Current()), n, sub)
    {
      VisitTypes(n.types, sub);
      VisitFunctions(n.functions);
    }

    /** The classes and interfaces of a namespace, in order. */
    method VisitTypes(types: seq<TypeDecl>, sub: Subtype)
      modifies this`calls, this`fanout, this`dependencyMap
      ensures Current() == VisitTypesSpec(old(Current()), types, sub)
    {
      var i := 0;
      while i < |types|
        invariant 0 <= i <= |types|
        invariant VisitTypesSpec(Current(), types[i..], sub) == VisitTypesSpec(old(Current()), types, sub)
      {
        assert types[i..][1..] == types[i + 1..];
        var t := types[i];
        if t.kind == ClassKind {
          VisitClass(t, sub);
        } else {
          VisitInterface(t, sub);
        }
        i := i + 1;
      }
    }

    /** The functions of a namespace, in order. */
    method VisitFunctions(functions: seq<Routine>)
      modifies this`calls, this`fanout, this`dependencyMap
      ensures Current() == VisitFunctionsSpec(old(Current()), functions)
    {
      var j := 0;
      assert functions[0..] == functions;
      while j < |functions|
        invariant 0 <= j <= |functions|
        invariant VisitFunctionsSpec(Current(), functions[j..]) == VisitFunctionsSpec(old(Current()), functions)
      {
        ghost var before := Current();
        VisitFunctionsStep(before, functions, j);
        VisitFunction(functions[j]);
        assert Current() == VisitFunctionSpec(before, functions[j]);
        j := j + 1;
      }
    }

    /** visitFunction: collect the referenced types once each, count each
        towards the fanout, make the function an afferent dependent of each,
        then count the calls. */
    method VisitFunction(f: Routine)
      modifies this`calls, this`fanout, this`dependencyMap
      ensures calls == old(calls) + |Signatures(f.invocations)|
      ensures fanout == old(fanout) + |DistinctTypes(f.returnClass, f.exceptionClasses, f.dependencies)|
      ensures dependencyMap
           == AddAfferent(old(dependencyMap), DistinctTypes(f.returnClass, f.exceptionClasses, f.dependencies), f.id)
    {
      var fanouts: seq<Id> := [];
      if f.returnClass.Some? {
        fanouts := fanouts + [f.returnClass.value];
        fanout := fanout + 1;
      }
      assert fanouts == OptSeq(f.returnClass);
      fanouts := AppendNewTypes(fanouts, f.exceptionClasses);
      fanouts := AppendNewTypes(fanouts, f.dependencies);
      RegisterAfferent(fanouts, f.id);
      CountCalls(f.invocations);
    }

    /** One `foreach` of visitFunction over referenced types: each type not
        yet in `fanouts` is appended and counted towards the fanout. */
    method AppendNewTypes(fanouts: seq<Id>, types: seq<Id>) returns (r: seq<Id>)
      modifies this`fanout
      ensures r == AppendNew(fanouts, types)
      ensures fanout + |fanouts| == old(fanout) + |r|
    {
      r := fanouts;
      assert types[0..] == types;
      var i := 0;
      while i < |types|
        invariant 0 <= i <= |types|
        invariant AppendNew(r, types[i..]) == AppendNew(fanouts, types)
        invariant fanout + |fanouts| == old(fanout) + |r|
      {
        AppendNewStep(r, types, i);
        var t := types[i];
        if t !in r {
          r := r + [t];
          fanout := fanout + 1;
        }
        i := i + 1;
      }
      assert types[i..] == [];
    }

    /** The last `foreach` of visitFunction: the function becomes an
        afferent dependent of every collected type. */
    method RegisterAfferent(fanouts: seq<Id>, fn: Id)
      modifies this`dependencyMap
      ensures dependencyMap == AddAfferent(old(dependencyMap), fanouts, fn)
    {
      assert fanouts[0..] == fanouts;
      var j := 0;
      while j < |fanouts|
        invariant 0 <= j <= |fanouts|
        invariant AddAfferent(dependencyMap, fanouts[j..], fn) == AddAfferent(old(dependencyMap), fanouts, fn)
      {
        var t := fanouts[j];
        ghost var before := dependencyMap;
        AddAfferentStep(before, fanouts, j, fn);
        InitDependencyMap(t);
        var entry := dependencyMap[t];
        dependencyMap := dependencyMap[t := Coupling(entry.ce, entry.ca + {fn})];
        assert dependencyMap == AddAfferentOne(before, t, fn);
        j := j + 1;
      }
    }

    /** visitClass: the class gets an entry even if it couples to nothing. */
    method VisitClass(t: TypeDecl, sub: Subtype)
      modifies this`calls, this`fanout, this`dependencyMap
      ensures Current() == VisitTypeSpec(old(Current()), t, sub)
    {
      InitDependencyMap(t.id);
      VisitTypeMembers(t, sub);
    }

    /** visitInterface: the interface gets an entry even if it couples to
        nothing. */
    method VisitInterface(t: TypeDecl, sub: Subtype)
      modifies this`calls, this`fanout, this`dependencyMap
      ensures Current() == VisitTypeSpec(old(Current()), t, sub)
    {
      InitDependencyMap(t.id);
      VisitTypeMembers(t, sub);
    }

    /** The default walk of a type: its methods, then its properties. */
    method VisitTypeMembers(t: TypeDecl, sub: Subtype)
      modifies this`calls, this`fanout, this`dependencyMap
      ensures Current() == VisitPropertiesSpec(VisitMethodsSpec(old(Current()), t.id, t.methods, sub), t.id, t.properties, sub)
    {
      var i := 0;
      while i < |t.methods|
        invariant 0 <= i <= |t.methods|
        invariant VisitMethodsSpec(Current(), t.id, t.methods[i..], sub)
               == VisitMethodsSpec(old(Current()), t.id, t.methods, sub)
      {
        assert t.methods[i..][1..] == t.methods[i + 1..];
        VisitMethod(t.id, t.methods[i], sub);
        i := i + 1;
      }
      var j := 0;
      while j < |t.properties|
        invariant 0 <= j <= |t.properties|
        invariant VisitPropertiesSpec(Current(), t.id, t.properties[j..], sub)
               == VisitPropertiesSpec(VisitMethodsSpec(old(Current()), t.id, t.methods, sub), t.id, t.properties, sub)
      {
        assert t.properties[j..][1..] == t.properties[j + 1..];
        VisitProperty(t.id, t.properties[j], sub);
        j := j + 1;
      }
    }

    /** visitMethod: couple the declaring type to the return class, to each
        exception class and to each dependency, then count the calls. */
    method VisitMethod(declaring: Id, m: Routine, sub: Subtype)
      modifies this`calls, this`fanout, this`dependencyMap
      ensures Current() == VisitMethodSpec(old(Current()), declaring, m, sub)
    {
      CalculateCoupling(declaring, m.returnClass, sub);
      ghost var d0 := dependencyMap;
      var i := 0;
      while i < |m.exceptionClasses|
        invariant 0 <= i <= |m.exceptionClasses|
        invariant CoupleAll(dependencyMap, declaring, m.exceptionClasses[i..], sub)
               == CoupleAll(d0, declaring, m.exceptionClasses, sub)
        invariant calls == old(calls) && fanout == old(fanout)
      {
        assert m.exceptionClasses[i..][1..] == m.exceptionClasses[i + 1..];
        CalculateCoupling(declaring, Some(m.exceptionClasses[i]), sub);
        i := i + 1;
      }
      ghost var d1 := dependencyMap;
      i := 0;
      while i < |m.dependencies|
        invariant 0 <= i <= |m.dependencies|
        invariant CoupleAll(dependencyMap, declaring, m.dependencies[i..], sub)
               == CoupleAll(d1, declaring, m.dependencies, sub)
        invariant calls == old(calls) && fanout == old(fanout)
      {
        assert m.dependencies[i..][1..] == m.dependencies[i + 1..];
        CalculateCoupling(declaring, Some(m.dependencies[i]), sub);
        i := i + 1;
      }
      CountCalls(m.invocations);
    }

    /** visitProperty: couple the declaring class to the property's type. */
    method VisitProperty(declaring: Id, p: Property, sub: Subtype)
      modifies this`dependencyMap
      ensures dependencyMap == Couple(old(dependencyMap), declaring, p.classType, sub)
    {
      CalculateCoupling(declaring, p.classType, sub);
    }

    /** calculateCoupling: a null type only initialises the declaring
        type's entry; a sub- or supertype adds no edge; otherwise the edge
        is recorded in both directions. */
    method CalculateCoupling(declaring: Id, coupled: Option<Id>, sub: Subtype)
      modifies this`dependencyMap
      ensures dependencyMap == Couple(old(dependencyMap), declaring, coupled, sub)
    {
      InitDependencyMap(declaring);
      if coupled.None? {
        return;
      }
      var c := coupled.value;
      if sub(c, declaring) || sub(declaring, c) {
        return;
      }
      InitDependencyMap(c);
      var e := dependencyMap[declaring];
      dependencyMap := dependencyMap[declaring := Coupling(e.ce + {c}, e.ca)];
      var f := dependencyMap[c];
      dependencyMap := dependencyMap[c := Coupling(f.ce, f.ca + {declaring})];
    }

    /** initDependencyMap: an empty entry, only when none exists. */
    method InitDependencyMap(id: Id)
      modifies this`dependencyMap
      ensures dependencyMap == InitEntry(old(dependencyMap), id)
    {
      if id in dependencyMap {
        return;
      }
      dependencyMap := dependencyMap[id := Coupling({}, {})];
    }

    /** countCalls: the number of distinct call signatures in the body. */
    method CountCalls(invocations: seq<Invocation>)
      modifies this`calls
      ensures calls == old(calls) + |Signatures(invocations)|
    {
      var invoked: set<string> := {};
      var i := 0;
      while i < |invocations|
        invariant 0 <= i <= |invocations|
        invariant invoked == Signatures(invocations[..i])
        invariant calls == old(calls)
      {
        var image := SignatureImage(invocations[i]);
        assert invocations[..i + 1] == invocations[..i] + [invocations[i]];
        SignaturesSnoc(invocations[..i], invocations[i]);
        invoked := invoked + {image};
        i := i + 1;
      }
      assert invocations[..|invocations|] == invocations;
      calls := calls + |invoked|;
    }
  }
}
