/**
 Repeated layers are taken out of a pulled schema 1 manifest, and the parent chain of the rest is checked.
 */
module ManifestLayers {

  /** What is read from the V1 compatibility string of a history entry. */
  datatype V1Image = V1Image(id: string, parent: string)

  datatype Parsed = Unreadable | Readable(image: V1Image)

  type Reader = string -> Parsed
  type Validator = string -> bool

  datatype FixResult = Fixed | BadHistory | BadID | BaseHasParent | DuplicateID | BadParent

  function IDs(imgs: seq<V1Image>): (ids: seq<string>)
    ensures |ids| == |imgs|
  {
    seq(|imgs|, i requires 0 <= i < |imgs| => imgs[i].id)
  }

  // ----- What is to be achieved -----

  /** The last entry of a run of equal IDs. */
  predicate LastOfRun(ids: seq<string>, i: nat)
    requires i < |ids|
  {
    i == |ids| - 1 || ids[i] != ids[i + 1]
  }

  /** The entries from `i` on that stand last in a run of equal IDs, in order. */
  function Survivors<T>(xs: seq<T>, ids: seq<string>, i: nat): seq<T>
    requires |xs| == |ids| && i <= |ids|
    decreases |ids| - i
  {
    if i == |ids| then []
    else (if LastOfRun(ids, i) then [xs[i]] else []) + Survivors(xs, ids, i + 1)
  }

  /** An ID comes back only directly after itself. */
  ghost predicate Contiguous(ids: seq<string>) {
    forall i, j :: 0 <= i < j < |ids| && ids[i] == ids[j] ==> ids[j - 1] == ids[j]
  }

  /** Where the ID changes, the next entry is the parent. */
  ghost predicate ChainedFrom(imgs: seq<V1Image>, i: nat) {
    forall k :: i <= k < |imgs| - 1 && imgs[k].id != imgs[k + 1].id ==> imgs[k].parent == imgs[k + 1].id
  }

  ghost predicate AllValid(read: Reader, valid: Validator, history: seq<string>) {
    forall i :: 0 <= i < |history| ==> read(history[i]).Readable? && valid(read(history[i]).image.id)
  }

  /** Entry `i` can be read and has a valid ID. */
  ghost predicate EntryOk(read: Reader, valid: Validator, history: seq<string>, i: nat)
    requires i < |history|
  {
    read(history[i]).Readable? && valid(read(history[i]).image.id)
  }

  /** Entry `i` is the first that is not in order. */
  ghost predicate FirstBad(read: Reader, valid: Validator, history: seq<string>, i: nat) {
    i < |history| && !EntryOk(read, valid, history, i) && forall j: nat :: j < i ==> EntryOk(read, valid, history, j)
  }

  ghost predicate ImagesOf(read: Reader, history: seq<string>, imgs: seq<V1Image>) {
    |imgs| == |history| && forall i :: 0 <= i < |imgs| ==> read(history[i]) == Readable(imgs[i])
  }

  // ----- What the survivors are like -----

  /** Indices of the survivors. */
  ghost function Kept(ids: seq<string>, i: nat): seq<nat>
    requires i <= |ids|
    decreases |ids| - i
  {
    if i == |ids| then []
    else (if LastOfRun(ids, i) then [i] else []) + Kept(ids, i + 1)
  }

  /** The survivors are the entries at the kept indices; these increase, and are those that stand last. */
  lemma {:induction false} KeptAreLast<T>(xs: seq<T>, ids: seq<string>, i: nat)
    requires |xs| == |ids| && i <= |ids|
    ensures var ks := Kept(ids, i);
      && |ks| == |Survivors(xs, ids, i)|
      && (forall k :: 0 <= k < |ks| ==>
            i <= ks[k] < |ids| && LastOfRun(ids, ks[k]) && Survivors(xs, ids, i)[k] == xs[ks[k]])
      && (forall j, k :: 0 <= j < k < |ks| ==> ks[j] < ks[k])
    decreases |ids| - i
  {
    if i < |ids| {
      KeptAreLast(xs, ids, i + 1);
    }
  }

  lemma {:induction false} LastAreKept(ids: seq<string>, i: nat, j: nat)
    requires i <= j < |ids| && LastOfRun(ids, j)
    ensures j in Kept(ids, i)
    decreases |ids| - i
  {
    if i < j {
      LastAreKept(ids, i + 1, j);
    }
  }

  /** In a run of equal IDs nothing else occurs. */
  lemma {:induction false} RunIsConstant(ids: seq<string>, i: nat, j: nat)
    requires Contiguous(ids) && i <= j < |ids| && ids[i] == ids[j]
    ensures forall k :: i <= k <= j ==> ids[k] == ids[i]
    decreases j
  {
    if i < j {
      RunIsConstant(ids, i, j - 1);
    }
  }

  /** The survivors have distinct IDs. */
  lemma SurvivorsDistinct(imgs: seq<V1Image>, j: nat, k: nat)
    requires Contiguous(IDs(imgs)) && j < k < |Survivors(imgs, IDs(imgs), 0)|
    ensures Survivors(imgs, IDs(imgs), 0)[j].id != Survivors(imgs, IDs(imgs), 0)[k].id
  {
    var ids := IDs(imgs);
    var ks := Kept(ids, 0);
    KeptAreLast(imgs, ids, 0);
    assert LastOfRun(ids, ks[j]) && ks[j] < ks[k];
    if ids[ks[j]] == ids[ks[k]] {
      RunIsConstant(ids, ks[j], ks[k]);
      assert false;
    }
  }

  /** From a kept index to the next one there is one run. */
  lemma {:induction false} NextKept(ids: seq<string>, i: nat)
    requires i < |ids|
    ensures var ks := Kept(ids, i); ks != [] && i <= ks[0] < |ids| && forall k :: i <= k <= ks[0] ==> ids[k] == ids[i]
    decreases |ids| - i
  {
    if !LastOfRun(ids, i) {
      NextKept(ids, i + 1);
    }
  }

  /** Each survivor's parent is the next survivor. */
  lemma {:induction false} SurvivorsChained(imgs: seq<V1Image>, i: nat, k: nat)
    requires i <= |imgs| && ChainedFrom(imgs, i) && k < |Survivors(imgs, IDs(imgs), i)| - 1
    ensures Survivors(imgs, IDs(imgs), i)[k].parent == Survivors(imgs, IDs(imgs), i)[k + 1].id
    decreases |imgs| - i
  {
    var ids := IDs(imgs);
    if LastOfRun(ids, i) {
      if k > 0 {
        SurvivorsChained(imgs, i + 1, k - 1);
      } else {
        assert i < |imgs| - 1;
        NextKept(ids, i + 1);
        KeptAreLast(imgs, ids, i + 1);
        assert imgs[i].parent == imgs[i + 1].id == ids[i + 1];
      }
    } else {
      SurvivorsChained(imgs, i + 1, k);
    }
  }

  lemma SurvivorsUnfold<T>(xs: seq<T>, ids: seq<string>, i: nat)
    requires |xs| == |ids| && i < |ids|
    ensures Survivors(xs, ids, i) == (if LastOfRun(ids, i) then [xs[i]] else []) + Survivors(xs, ids, i + 1)
  {
  }

  /** The last survivor is the last entry. */
  lemma {:induction false} SurvivorsLast<T>(xs: seq<T>, ids: seq<string>, i: nat)
    requires |xs| == |ids| && i < |ids|
    ensures var s := Survivors(xs, ids, i); s != [] && s[|s| - 1] == xs[|xs| - 1]
    decreases |ids| - i
  {
    var first, rest := if LastOfRun(ids, i) then [xs[i]] else [], Survivors(xs, ids, i + 1);
    SurvivorsUnfold(xs, ids, i);
    if i < |ids| - 1 {
      SurvivorsLast(xs, ids, i + 1);
      assert (first + rest)[|first + rest| - 1] == rest[|rest| - 1];
    } else {
      assert first + rest == [xs[i]];
    }
  }

  /** Every ID is still there. */
  lemma {:induction false} EveryIDSurvives(imgs: seq<V1Image>, i: nat, j: nat)
    requires i <= j < |imgs|
    ensures exists k :: 0 <= k < |Survivors(imgs, IDs(imgs), i)| && Survivors(imgs, IDs(imgs), i)[k].id == imgs[j].id
    decreases |imgs| - j
  {
    var ids := IDs(imgs);
    if LastOfRun(ids, j) {
      LastAreKept(ids, i, j);
      KeptAreLast(imgs, ids, i);
      var ks := Kept(ids, i);
      var k :| 0 <= k < |ks| && ks[k] == j;
      assert Survivors(imgs, ids, i)[k] == imgs[j];
    } else {
      assert ids[j] == ids[j + 1];
      EveryIDSurvives(imgs, i, j + 1);
    }
  }

  /** Layers, history and images stay aligned: all three take their `k`-th entry from the same place. */
  lemma SurvivorsAligned(layers: seq<string>, history: seq<string>, imgs: seq<V1Image>, k: nat)
    requires |layers| == |history| == |imgs| && k < |Survivors(imgs, IDs(imgs), 0)|
    ensures var ids := IDs(imgs);
      && |Survivors(layers, ids, 0)| == |Survivors(history, ids, 0)| == |Survivors(imgs, ids, 0)| == |Kept(ids, 0)|
      && var i := Kept(ids, 0)[k];
         && i < |imgs| && Survivors(layers, ids, 0)[k] == layers[i]
         && Survivors(history, ids, 0)[k] == history[i] && Survivors(imgs, ids, 0)[k] == imgs[i]
  {
    KeptAreLast(layers, IDs(imgs), 0);
    KeptAreLast(history, IDs(imgs), 0);
    KeptAreLast(imgs, IDs(imgs), 0);
  }

  /** The IDs are distinct, and each entry's parent is the next one, up to a base without parent. */
  ghost predicate IsChain(s: seq<V1Image>) {
    && s != [] && s[|s| - 1].parent == ""
    && (forall j, k :: 0 <= j < k < |s| ==> s[j].id != s[k].id)
    && (forall k :: 0 <= k < |s| - 1 ==> s[k].parent == s[k + 1].id)
  }

  /** What is left of a manifest that was fixed is the history of a chain of images. */
  lemma FixedManifestIsChain(read: Reader, history: seq<string>, imgs: seq<V1Image>)
    requires imgs != [] && ImagesOf(read, history, imgs)
    requires imgs[|imgs| - 1].parent == "" && Contiguous(IDs(imgs)) && ChainedFrom(imgs, 0)
    ensures IsChain(Survivors(imgs, IDs(imgs), 0))
    ensures ImagesOf(read, Survivors(history, IDs(imgs), 0), Survivors(imgs, IDs(imgs), 0))
  {
    var ids := IDs(imgs);
    var s := Survivors(imgs, ids, 0);
    SurvivorsLast(imgs, ids, 0);
    forall j, k | 0 <= j < k < |s| ensures s[j].id != s[k].id {
      SurvivorsDistinct(imgs, j, k);
    }
    forall k | 0 <= k < |s| - 1 ensures s[k].parent == s[k + 1].id {
      SurvivorsChained(imgs, 0, k);
    }
    SurvivorsAligned(history, history, imgs, 0);
    forall k | 0 <= k < |s| ensures read(Survivors(history, ids, 0)[k]) == Readable(s[k]) {
      SurvivorsAligned(history, history, imgs, k);
    }
  }

  /** The entries before `i` as they were, and the survivors of the rest. */
  ghost predicate Trimmed<T>(xs: seq<T>, all: seq<T>, ids: seq<string>, i: nat)
    requires |all| == |ids| && i <= |ids|
  {
    xs == all[..i] + Survivors(all, ids, i)
  }

  lemma TrimmedAtLast<T>(all: seq<T>, ids: seq<string>)
    requires |all| == |ids| > 0
    ensures Trimmed(all, all, ids, |ids| - 1)
  {
    var i := |ids| - 1;
    assert Survivors(all, ids, i) == [all[i]] + [];
  }

  lemma TrimmedNext<T>(xs: seq<T>, all: seq<T>, ids: seq<string>, i: nat)
    requires |all| == |ids| && i + 1 < |ids| && Trimmed(xs, all, ids, i + 1)
    ensures i < |xs|
    ensures Trimmed(if ids[i] == ids[i + 1] then xs[..i] + xs[i + 1..] else xs, all, ids, i)
  {
    assert all[..i + 1] == all[..i] + [all[i]];
    if ids[i] == ids[i + 1] {
      assert Survivors(all, ids, i) == [] + Survivors(all, ids, i + 1);
    }
  }

  // ----- The manifest -----

  class Manifest {
    var fsLayers: seq<string>
    var history: seq<string>

    constructor (fsLayers: seq<string>, history: seq<string>)
      ensures this.fsLayers == fsLayers && this.history == history
    {
      this.fsLayers, this.history := fsLayers, history;
    }

    /** The history is read and its IDs are checked. */
    method ReadImages(read: Reader, valid: Validator) returns (imgs: seq<V1Image>, r: FixResult)
      ensures r.Fixed? <==> AllValid(read, valid, history)
      ensures r.Fixed? ==> ImagesOf(read, history, imgs)
      ensures r.Fixed? || r.BadHistory? || r.BadID?
      ensures r.BadHistory? ==> exists i: nat :: FirstBad(read, valid, history, i) && read(history[i]).Unreadable?
      ensures r.BadID? ==> exists i: nat :: FirstBad(read, valid, history, i) && read(history[i]).Readable?
    {
      imgs := [];
      for i := 0 to |history|
        invariant |imgs| == i
        invariant forall j :: 0 <= j < i ==> read(history[j]) == Readable(imgs[j]) && valid(imgs[j].id)
      {
        var p := read(history[i]);
        assert forall j: nat :: j < i ==> EntryOk(read, valid, history, j);
        if p.Unreadable? {
          assert FirstBad(read, valid, history, i);
          return imgs, BadHistory;
        }
        if !valid(p.image.id) {
          assert FirstBad(read, valid, history, i);
          return imgs, BadID;
        }
        imgs := imgs + [p.image];
      }
      return imgs, Fixed;
    }

    /** `fixManifestLayers`, on what `verifySchema1Manifest` lets through. */
    method FixManifestLayers(read: Reader, valid: Validator) returns (r: FixResult, ghost imgs: seq<V1Image>)
      requires |fsLayers| == |history| > 0
      modifies this
      ensures r.Fixed? <==> (
        && AllValid(read, valid, old(history)) && ImagesOf(read, old(history), imgs)
        && imgs[|imgs| - 1].parent == "" && Contiguous(IDs(imgs)) && ChainedFrom(imgs, 0))
      ensures r.Fixed? ==>
        fsLayers == Survivors(old(fsLayers), IDs(imgs), 0) && history == Survivors(old(history), IDs(imgs), 0)
      ensures r.BadHistory? ==>
        exists i: nat :: FirstBad(read, valid, old(history), i) && read(old(history)[i]).Unreadable?
      ensures r.BadID? ==>
        exists i: nat :: FirstBad(read, valid, old(history), i) && read(old(history)[i]).Readable?
      ensures r.BadHistory? || r.BadID? <==> !AllValid(read, valid, old(history))
      ensures !r.BadHistory? && !r.BadID? ==> ImagesOf(read, old(history), imgs)
      ensures r.BaseHasParent? <==> AllValid(read, valid, old(history)) && imgs[|imgs| - 1].parent != ""
      ensures r.DuplicateID? <==>
        AllValid(read, valid, old(history)) && imgs[|imgs| - 1].parent == "" && !Contiguous(IDs(imgs))
      ensures r.BadParent? <==>
        && AllValid(read, valid, old(history)) && imgs[|imgs| - 1].parent == "" && Contiguous(IDs(imgs))
        && !ChainedFrom(imgs, 0)
      ensures !r.Fixed? && !r.BadParent? ==> fsLayers == old(fsLayers) && history == old(history)
    {
      var all;
      all, r := ReadImages(read, valid);
      imgs := all;
      if !r.Fixed? {
        return;
      }
      if all[|all| - 1].parent != "" {
        return BaseHasParent, imgs;
      }
      var unique := CheckDuplicates(all);
      if !unique {
        return DuplicateID, imgs;
      }
      var chained := RemoveRepeats(all);
      return (if chained then Fixed else BadParent), imgs;
    }

    /** The backwards loop: repeated entries go, and the parents of the others are checked. */
    method RemoveRepeats(imgs: seq<V1Image>) returns (ok: bool)
      requires |fsLayers| == |history| == |imgs| > 0
      modifies this
      ensures ok <==> ChainedFrom(imgs, 0)
      ensures ok ==>
        fsLayers == Survivors(old(fsLayers), IDs(imgs), 0) && history == Survivors(old(history), IDs(imgs), 0)
    {
      ghost var ids := IDs(imgs);
      ghost var layers0, history0 := fsLayers, history;
      var i := |imgs| - 1;
      TrimmedAtLast(layers0, ids);
      TrimmedAtLast(history0, ids);
      while i > 0
        invariant 0 <= i < |imgs| && ChainedFrom(imgs, i)
        invariant Trimmed(fsLayers, layers0, ids, i) && Trimmed(history, history0, ids, i)
      {
        i := i - 1;
        TrimmedNext(fsLayers, layers0, ids, i);
        TrimmedNext(history, history0, ids, i);
        if imgs[i].id == imgs[i + 1].id {
          RemoveAt(i);
        } else if imgs[i].parent != imgs[i + 1].id {
          return false;
        }
      }
      assert layers0[..0] == [] && history0[..0] == [];
      return true;
    }

    method RemoveAt(i: nat)
      requires i < |fsLayers| && i < |history|
      modifies this
      ensures fsLayers == old(fsLayers)[..i] + old(fsLayers)[i + 1..]
      ensures history == old(history)[..i] + old(history)[i + 1..]
    {
      fsLayers := fsLayers[..i] + fsLayers[i + 1..];
      history := history[..i] + history[i + 1..];
    }
  }

  /** The loop that looks for an ID that comes back after another one. */
  method CheckDuplicates(imgs: seq<V1Image>) returns (unique: bool)
    ensures unique <==> Contiguous(IDs(imgs))
  {
    var ids := IDs(imgs);
    var idmap: set<string> := {};
    var lastID := "";
    for i := 0 to |imgs|
      invariant forall x :: x in idmap <==> x in ids[..i]
      invariant i > 0 ==> lastID == ids[i - 1]
      invariant Contiguous(ids[..i])
    {
      if imgs[i].id != lastID && imgs[i].id in idmap {
        var j :| 0 <= j < i && ids[..i][j] == ids[i];
        assert ids[j] == ids[i] && ids[i - 1] != ids[i];
        return false;
      }
      lastID := imgs[i].id;
      idmap := idmap + {lastID};
      assert ids[..i + 1] == ids[..i] + [ids[i]];
    }
    assert ids[..|imgs|] == ids;
    return true;
  }
}
