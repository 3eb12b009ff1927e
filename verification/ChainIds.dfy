/**
 Content addresses of layer chains: `CreateChainID` folds the DiffIDs of a chain, from the base
 layer to the top one, into one digest (the "Layer ChainID" section of config.md in the OCI Image
 Format Specification).

 The digest algorithm is a parameter `h`.  Nothing is assumed of it beyond the lexical form of a
 digest (`LexicalDigest`); where the absence of collisions matters, a lemma either produces the
 collision or asks for `Injective(h)`.
 */
module ChainIds {

  type Digest = string -> string

  const MAX_LAYER_DEPTH: nat := 125

  /** Digests are non-empty and hold no blank, so that a blank separates two of them. */
  ghost predicate LexicalDigest(h: Digest) {
    forall x: string :: h(x) != "" && ' ' !in h(x)
  }

  ghost predicate Injective(h: Digest) {
    forall x: string, y: string :: h(x) == h(y) ==> x == y
  }

  /** The string whose digest extends a chain by one layer. */
  function Link(parent: string, diffID: string): string {
    parent + " " + diffID
  }

  /** Content that could be mistaken for a link: two digests with a blank between.  No tar archive has this
      form. */
  ghost predicate LooksLikeLink(h: Digest, content: string) {
    exists a: string, b: string :: content == Link(h(a), h(b))
  }

  function CreateChainIDFromParent(h: Digest, parent: string, dgsts: seq<string>): string
    decreases |dgsts|
  {
    if |dgsts| == 0 then parent
    else if parent == "" then CreateChainIDFromParent(h, dgsts[0], dgsts[1..])
    else CreateChainIDFromParent(h, h(Link(parent, dgsts[0])), dgsts[1..])
  }

  function CreateChainID(h: Digest, dgsts: seq<string>): string {
    CreateChainIDFromParent(h, "", dgsts)
  }

  /** The DiffIDs of a list of layer archives. */
  function DiffIDs(h: Digest, tars: seq<string>): seq<string> {
    seq(|tars|, i requires 0 <= i < |tars| => h(tars[i]))
  }

  /** Folding is compositional: a chain may be addressed in one go or piece by piece. */
  lemma {:induction false} FoldConcat(h: Digest, parent: string, a: seq<string>, b: seq<string>)
    ensures CreateChainIDFromParent(h, parent, a + b)
         == CreateChainIDFromParent(h, CreateChainIDFromParent(h, parent, a), b)
    decreases |a|
  {
    if a == [] {
      assert a + b == b;
    } else {
      assert (a + b)[1..] == a[1..] + b;
      FoldConcat(h, if parent == "" then a[0] else h(Link(parent, a[0])), a[1..], b);
    }
  }

  /** The recursion the specification states: the last DiffID is linked to the chain below it. */
  lemma FoldLast(h: Digest, ds: seq<string>, d: string)
    ensures CreateChainID(h, ds + [d])
         == var below := CreateChainID(h, ds); if below == "" then d else h(Link(below, d))
  {
    FoldConcat(h, "", ds, [d]);
  }

  lemma LinkOne(h: Digest, parent: string, d: string)
    requires parent != ""
    ensures CreateChainIDFromParent(h, parent, [d]) == h(Link(parent, d))
  {
    assert [d][1..] == [];
  }

  lemma {:induction false} FoldLexical(h: Digest, ds: seq<string>)
    requires LexicalDigest(h)
    requires forall i :: 0 <= i < |ds| ==> ds[i] != "" && ' ' !in ds[i]
    ensures ' ' !in CreateChainID(h, ds)
    ensures CreateChainID(h, ds) == "" <==> ds == []
  {
    if ds != [] {
      var n := |ds| - 1;
      assert ds == ds[..n] + [ds[n]];
      FoldLast(h, ds[..n], ds[n]);
    }
  }

  /** Where two strings without blanks are linked, the blank shows where. */
  lemma LinkInjective(a: string, b: string, c: string, d: string)
    requires ' ' !in a && ' ' !in b
    requires Link(a, b) == Link(c, d)
    ensures a == c && b == d
  {
    var l := Link(a, b);
    assert l[|a|] == ' ' && l[|c|] == ' ';
    assert forall i :: 0 <= i < |a| ==> l[i] == a[i] && l[i] != ' ';
    assert forall i :: |a| < i < |l| ==> l[i] == b[i - |a| - 1] && l[i] != ' ';
    assert |a| == |c|;
    assert b == l[|a| + 1..] == d;
  }

  lemma DiffIDsLast(h: Digest, tars: seq<string>)
    requires tars != []
    ensures DiffIDs(h, tars) == DiffIDs(h, tars[..|tars| - 1]) + [h(tars[|tars| - 1])]
  {
  }

  /** The content whose digest is the ChainID of some archives: the archive alone, or the link of the last to the
      chain below. */
  function ChainContent(h: Digest, tars: seq<string>): string
    requires tars != []
  {
    var below, last := tars[..|tars| - 1], tars[|tars| - 1];
    if below == [] then last else Link(CreateChainID(h, DiffIDs(h, below)), h(last))
  }

  lemma ChainContentDigest(h: Digest, tars: seq<string>)
    requires LexicalDigest(h) && tars != []
    ensures CreateChainID(h, DiffIDs(h, tars)) == h(ChainContent(h, tars))
  {
    var below, last := tars[..|tars| - 1], tars[|tars| - 1];
    DiffIDsLast(h, tars);
    FoldLast(h, DiffIDs(h, below), h(last));
    FoldLexical(h, DiffIDs(h, below));
  }

  /** The ChainID of some archives is a digest. */
  lemma ChainIsDigest(h: Digest, tars: seq<string>) returns (x: string)
    requires LexicalDigest(h) && tars != []
    ensures CreateChainID(h, DiffIDs(h, tars)) == h(x)
  {
    ChainContentDigest(h, tars);
    x := ChainContent(h, tars);
  }

  /** It looks like a link exactly if there is more than one of them. */
  lemma ChainContentLooks(h: Digest, tars: seq<string>)
    requires LexicalDigest(h) && tars != [] && forall i :: 0 <= i < |tars| ==> !LooksLikeLink(h, tars[i])
    ensures LooksLikeLink(h, ChainContent(h, tars)) <==> |tars| > 1
  {
    if |tars| > 1 {
      var z := ChainIsDigest(h, tars[..|tars| - 1]);
      assert ChainContent(h, tars) == Link(h(z), h(tars[|tars| - 1]));
    }
  }

  /** Two different chains of archives with the same ChainID exhibit a collision of the digest. */
  lemma {:induction false} EqualChainIDsCollide(h: Digest, a: seq<string>, b: seq<string>)
    returns (x: string, y: string)
    requires LexicalDigest(h)
    requires forall i :: 0 <= i < |a| ==> !LooksLikeLink(h, a[i])
    requires forall i :: 0 <= i < |b| ==> !LooksLikeLink(h, b[i])
    requires CreateChainID(h, DiffIDs(h, a)) == CreateChainID(h, DiffIDs(h, b))
    requires DiffIDs(h, a) != DiffIDs(h, b)
    ensures x != y && h(x) == h(y)
    decreases |a|
  {
    FoldLexical(h, DiffIDs(h, a));
    FoldLexical(h, DiffIDs(h, b));
    assert a != [] && b != [];
    ChainContentDigest(h, a);
    ChainContentDigest(h, b);
    x, y := ChainContent(h, a), ChainContent(h, b);
    if x == y {
      ChainContentLooks(h, a);
      ChainContentLooks(h, b);
      DiffIDsLast(h, a);
      DiffIDsLast(h, b);
      if |a| > 1 {
        SameBelow(h, a, b);
        x, y := EqualChainIDsCollide(h, a[..|a| - 1], b[..|b| - 1]);
      }
    }
  }

  /** Equal links of two chains: the chains below have one ChainID, and the top DiffIDs are equal. */
  lemma SameBelow(h: Digest, a: seq<string>, b: seq<string>)
    requires LexicalDigest(h) && |a| > 1 && |b| > 1 && ChainContent(h, a) == ChainContent(h, b)
    ensures CreateChainID(h, DiffIDs(h, a[..|a| - 1])) == CreateChainID(h, DiffIDs(h, b[..|b| - 1]))
    ensures h(a[|a| - 1]) == h(b[|b| - 1])
  {
    var p, q := CreateChainID(h, DiffIDs(h, a[..|a| - 1])), CreateChainID(h, DiffIDs(h, b[..|b| - 1]));
    FoldLexical(h, DiffIDs(h, a[..|a| - 1]));
    LinkInjective(p, h(a[|a| - 1]), q, h(b[|b| - 1]));
  }

  /** Under a collision-free digest a ChainID determines the DiffIDs below it. */
  lemma EqualChainIDsEqualDiffIDs(h: Digest, a: seq<string>, b: seq<string>)
    requires LexicalDigest(h) && Injective(h)
    requires forall i :: 0 <= i < |a| ==> !LooksLikeLink(h, a[i])
    requires forall i :: 0 <= i < |b| ==> !LooksLikeLink(h, b[i])
    ensures CreateChainID(h, DiffIDs(h, a)) == CreateChainID(h, DiffIDs(h, b))
       <==> DiffIDs(h, a) == DiffIDs(h, b)
  {
    if CreateChainID(h, DiffIDs(h, a)) == CreateChainID(h, DiffIDs(h, b))
      && DiffIDs(h, a) != DiffIDs(h, b) {
      var x, y := EqualChainIDsCollide(h, a, b);
      assert false;
    }
  }
}
