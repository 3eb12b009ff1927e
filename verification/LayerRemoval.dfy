/**
 Which layers a release is about to remove, and when it fails: both can be read off before the call.
 */
module LayerRemoval {
  import opened LayerState
  import opened LayerSafety
  import opened LayerRetention

  /** The layers that go when one reference to `o` is given up: those up to the first that something else
      refers to. */
  function Doomed(objs: map<Obj, RoLayer>, refCount: map<Obj, int>, o: Obj): seq<Obj>
    requires Acyclic(objs) && o in objs && forall x :: x in objs ==> x in refCount
    decreases o
  {
    if refCount[o] != 1 then []
    else if objs[o].parent.None? then [o]
    else [o] + Doomed(objs, refCount, objs[o].parent.value)
  }

  /** A removal on the way fails. */
  predicate Faulty(path: seq<Obj>, io: Faults) {
    exists i :: 0 <= i < |path| && (path[i] in io.driver || path[i] in io.meta)
  }

  lemma FaultyCons(o: Obj, rest: seq<Obj>, io: Faults)
    ensures Faulty([o] + rest, io) <==> o in io.driver || o in io.meta || Faulty(rest, io)
  {
    var path := [o] + rest;
    if Faulty(rest, io) {
      var i :| 0 <= i < |rest| && (rest[i] in io.driver || rest[i] in io.meta);
      assert path[i + 1] == rest[i];
    }
    if o in io.driver || o in io.meta {
      assert path[0] == o;
    }
    if Faulty(path, io) {
      var i :| 0 <= i < |path| && (path[i] in io.driver || path[i] in io.meta);
      assert i > 0 ==> path[i] == rest[i - 1];
    }
  }

  /** What is doomed above does not depend on the counts of younger layers. */
  lemma {:induction false} DoomedFrame(objs: map<Obj, RoLayer>, refCount: map<Obj, int>, x: Obj, n: int, o: Obj)
    requires Acyclic(objs) && o in objs && (forall y :: y in objs ==> y in refCount) && o < x
    ensures Doomed(objs, refCount[x := n], o) == Doomed(objs, refCount, o)
    decreases o
  {
    if refCount[o] == 1 && objs[o].parent.Some? {
      DoomedFrame(objs, refCount, x, n, objs[o].parent.value);
    }
  }

  /** One turn of the loop, told by the count and the faults. */
  lemma TurnTold(s: State, o: Obj, removed: seq<Metadata>, depth: nat, io: Faults)
    requires Good(s.core, Some(o)) && InMap(s.core.objs, s.core.layerMap, o) && (depth > 0 ==> removed != [])
    ensures var r, last := ReleaseTurn(s, o, removed, depth, io), s.core.refCount[o] == 1;
      && (r.Stop? && r.result.Failed? <==> last && (o in io.driver || o in io.meta))
      && (r.Climb? <==> last && o !in io.driver && o !in io.meta && s.core.objs[o].parent.Some?)
      && (r.Climb? ==> r.s.core.objs == s.core.objs && r.s.core.refCount == s.core.refCount[o := 0])
  {
    LastReference(s.core, o);
  }

  /** A release fails exactly if the removal of a layer it is about to remove fails. */
  lemma {:induction false} ReleaseLoopFails(s: State, o: Obj, removed: seq<Metadata>, depth: nat, io: Faults)
    requires Good(s.core, Some(o)) && InMap(s.core.objs, s.core.layerMap, o) && (depth > 0 ==> removed != [])
    ensures ReleaseLoop(s, o, removed, depth, io).1.Failed? <==> Faulty(Doomed(s.core.objs, s.core.refCount, o), io)
    decreases o
  {
    ReleaseTurnGood(s, o, removed, depth, io);
    TurnTold(s, o, removed, depth, io);
    var r := ReleaseTurn(s, o, removed, depth, io);
    var k := s.core;
    DoomedFaulty(k.objs, k.refCount, o, io);
    if r.Climb? {
      DoomedFrame(k.objs, k.refCount, o, 0, r.parent);
      ReleaseLoopFails(r.s, r.parent, removed + [MetadataOf(k.objs, o)], depth + 1, io);
    }
  }

  /** A fault among the doomed layers is at the first, or among those above it. */
  lemma DoomedFaulty(objs: map<Obj, RoLayer>, refCount: map<Obj, int>, o: Obj, io: Faults)
    requires Acyclic(objs) && o in objs && forall x :: x in objs ==> x in refCount
    ensures Faulty(Doomed(objs, refCount, o), io) <==> (
      && refCount[o] == 1
      && (o in io.driver || o in io.meta
          || (objs[o].parent.Some? && Faulty(Doomed(objs, refCount, objs[o].parent.value), io))))
  {
    if refCount[o] == 1 {
      var rest := if objs[o].parent.None? then [] else Doomed(objs, refCount, objs[o].parent.value);
      FaultyCons(o, rest, io);
      assert Doomed(objs, refCount, o) == [o] + rest;
    }
  }

  /** `Release` of a live handle fails exactly if the removal of one of the doomed layers does. */
  lemma ReleaseFailsIff(s: State, h: Handle, io: Faults)
    requires Inv(s) && h in s.core.handles
    ensures h.obj in s.core.objs && Release(s, h, io).1.Released? && !Release(s, h, io).1.result.Panic?
    ensures Release(s, h, io).1.result.Failed? <==> Faulty(Doomed(s.core.objs, s.core.refCount, h.obj), io)
  {
    assert InMap(s.core.objs, s.core.layerMap, h.obj);
    ReleaseGood(s, h, io);
    DropHandleGood(s.core, h);
    ReleaseLoopFails(s.(core := DropReference(s.core, h)), h.obj, [], 0, io);
  }

  /** Without faults the doomed layers are the ones that go. */
  lemma {:induction false} DoomedGo(s: State, o: Obj, removed: seq<Metadata>, depth: nat)
    requires Good(s.core, Some(o)) && InMap(s.core.objs, s.core.layerMap, o) && (depth > 0 ==> removed != [])
    ensures var path := Doomed(s.core.objs, s.core.refCount, o);
      && IsRemoval(s.core, o, path, ReleaseLoop(s, o, removed, depth, NoFaults).0.core)
      && Reports(s.core.objs, removed, path, ReleaseLoop(s, o, removed, depth, NoFaults).1)
    decreases o
  {
    ReleaseTurnGood(s, o, removed, depth, NoFaults);
    TurnTold(s, o, removed, depth, NoFaults);
    LastReference(s.core, o);
    TurnCases(s, o, removed, depth, NoFaults);
    var r := ReleaseTurn(s, o, removed, depth, NoFaults);
    var k := s.core;
    if r.Climb? {
      var more := removed + [MetadataOf(k.objs, o)];
      DoomedGo(r.s, r.parent, more, depth + 1);
      DoomedFrame(k.objs, k.refCount, o, 0, r.parent);
      var (t, res) := ReleaseLoop(r.s, r.parent, more, depth + 1, NoFaults);
      ConsRemoval(k, o, Doomed(k.objs, k.refCount, r.parent), r.s.core, t.core, removed, res);
    } else {
      LastDoomed(k, o, r.s.core, removed, r.result);
    }
  }

  lemma LastDoomed(k: Core, o: Obj, m: Core, removed: seq<Metadata>, res: ReleaseResult)
    requires Acyclic(k.objs) && InMap(k.objs, k.layerMap, o) && (forall x :: x in k.objs ==> x in k.refCount)
    requires if k.refCount[o] == 1
             then k.objs[o].parent.None? && m.layerMap == k.layerMap - {k.objs[o].chainID}
                  && res == Removed(removed + [MetadataOf(k.objs, o)])
             else m.layerMap == k.layerMap && res == Removed(removed)
    ensures IsRemoval(k, o, Doomed(k.objs, k.refCount, o), m)
    ensures Reports(k.objs, removed, Doomed(k.objs, k.refCount, o), res)
  {
  }
}
