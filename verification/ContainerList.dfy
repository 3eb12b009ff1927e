/**
 Which containers `ps` shows: a loop that may stop early and changes its filter as it goes, against the
 pipeline of simple stages it amounts to.
 */
module ContainerList {
  import opened ImageState
  import opened LayerState

  datatype Container = Container(id: string, name: string, running: bool, exitCode: int, state: string, image: ID)

  /** What the user asked for.  `matches` stands for the tests by name, ID, label and isolation. */
  datatype Config = Config(
    all: bool, limit: int,
    since: Option<string>,
    exitAllowed: seq<int>,
    matches: Container -> bool,
    status: string -> bool,
    ancestorFilter: bool, images: set<ID>)

  type Reducer<!T> = Container -> Option<T>

  datatype Listing<T> = Listed(rows: seq<T>) | ReducerFailed

  // ----- The stages -----

  function Keep(s: seq<Container>, p: Container -> bool): seq<Container> {
    if s == [] then [] else (if p(s[0]) then [s[0]] else []) + Keep(s[1..], p)
  }

  /** What comes after the container with this ID; nothing if there is none. */
  function DropThrough(s: seq<Container>, id: Option<string>): seq<Container> {
    if id.None? then s
    else if s == [] then []
    else if s[0].id == id.value then s[1..]
    else DropThrough(s[1..], id)
  }

  /** What comes before the container with this ID. */
  function CutAt(s: seq<Container>, id: Option<string>): seq<Container> {
    if s == [] || Some(s[0].id) == id then [] else [s[0]] + CutAt(s[1..], id)
  }

  function Take(s: seq<Container>, limit: int, taken: nat): seq<Container> {
    if limit <= 0 then s
    else if taken >= limit then []
    else if |s| <= limit - taken then s
    else s[..limit - taken]
  }

  predicate Shown(cfg: Config, c: Container) {
    c.running || cfg.all || cfg.limit > 0 || cfg.since.Some?
  }

  predicate Selected(cfg: Config, c: Container) {
    && (cfg.exitAllowed != [] ==> !c.running && c.exitCode in cfg.exitAllowed)
    && cfg.status(c.state)
    && (cfg.ancestorFilter ==> c.image in cfg.images)
  }

  /** What is left to be shown of `s`, with `taken` shown already. */
  function Pipeline(cfg: Config, before: Option<string>, taken: nat, s: seq<Container>): seq<Container> {
    var matching := Keep(s, cfg.matches);
    var after := DropThrough(matching, before);
    var shown := Keep(after, c => Shown(cfg, c));
    var until := CutAt(shown, cfg.since);
    Take(Keep(until, c => Selected(cfg, c)), cfg.limit, taken)
  }

  function Reduce<T>(reducer: Reducer<T>, s: seq<Container>): Listing<T> {
    if s == [] then Listed([])
    else if reducer(s[0]).None? then ReducerFailed
    else
      match Reduce(reducer, s[1..])
      case Listed(rows) => Listed([reducer(s[0]).value] + rows)
      case ReducerFailed => ReducerFailed
  }

  function Prepend<T>(rows: seq<T>, l: Listing<T>): Listing<T> {
    if l.Listed? then Listed(rows + l.rows) else l
  }

  // ----- How the pipeline takes one container -----

  lemma SkipUnmatched(cfg: Config, before: Option<string>, taken: nat, c: Container, s: seq<Container>)
    requires !cfg.matches(c)
    ensures Pipeline(cfg, before, taken, [c] + s) == Pipeline(cfg, before, taken, s)
  {
    KeepCons(c, s, cfg.matches);
  }

  lemma KeepCons(c: Container, s: seq<Container>, p: Container -> bool)
    ensures Keep([c] + s, p) == if p(c) then [c] + Keep(s, p) else Keep(s, p)
  {
    assert ([c] + s)[1..] == s;
  }

  lemma SkipUntilBefore(cfg: Config, before: Option<string>, taken: nat, c: Container, s: seq<Container>)
    requires cfg.matches(c) && before.Some?
    ensures Pipeline(cfg, before, taken, [c] + s)
         == Pipeline(cfg, if c.id == before.value then None else before, taken, s)
  {
    KeepCons(c, s, cfg.matches);
    var m := Keep(s, cfg.matches);
    assert ([c] + m)[1..] == m;
  }

  lemma SkipHidden(cfg: Config, taken: nat, c: Container, s: seq<Container>)
    requires !Shown(cfg, c)
    ensures Pipeline(cfg, None, taken, [c] + s) == Pipeline(cfg, None, taken, s)
  {
    KeepCons(c, s, cfg.matches);
    var m := Keep(s, cfg.matches);
    KeepCons(c, m, x => Shown(cfg, x));
  }

  /** The stages after the container has been matched, with nothing to drop, and shown. */
  lemma ShownCons(cfg: Config, taken: nat, c: Container, s: seq<Container>)
    requires cfg.matches(c) && Shown(cfg, c)
    ensures Pipeline(cfg, None, taken, [c] + s)
         == Take(Keep(CutAt([c] + Keep(Keep(s, cfg.matches), x => Shown(cfg, x)), cfg.since), x => Selected(cfg, x)),
                 cfg.limit, taken)
  {
    KeepCons(c, s, cfg.matches);
    KeepCons(c, Keep(s, cfg.matches), x => Shown(cfg, x));
  }

  lemma StopAtSince(cfg: Config, taken: nat, c: Container, s: seq<Container>)
    requires cfg.matches(c) && Shown(cfg, c) && cfg.since == Some(c.id)
    ensures Pipeline(cfg, None, taken, [c] + s) == []
  {
    ShownCons(cfg, taken, c, s);
  }

  lemma StopAtLimit(cfg: Config, before: Option<string>, taken: nat, s: seq<Container>)
    requires cfg.limit > 0 && taken == cfg.limit
    ensures Pipeline(cfg, before, taken, s) == []
  {
  }

  lemma TakeCons(c: Container, s: seq<Container>, limit: int, taken: nat)
    requires limit > 0 ==> taken < limit
    ensures Take([c] + s, limit, taken) == [c] + Take(s, limit, taken + 1)
  {
  }

  lemma TakeOrSkip(cfg: Config, taken: nat, c: Container, s: seq<Container>)
    requires cfg.matches(c) && Shown(cfg, c) && cfg.since != Some(c.id) && (cfg.limit > 0 ==> taken < cfg.limit)
    ensures Pipeline(cfg, None, taken, [c] + s)
         == if Selected(cfg, c) then [c] + Pipeline(cfg, None, taken + 1, s) else Pipeline(cfg, None, taken, s)
  {
    ShownCons(cfg, taken, c, s);
    var rest := Keep(Keep(s, cfg.matches), x => Shown(cfg, x));
    assert ([c] + rest)[1..] == rest;
    KeepCons(c, CutAt(rest, cfg.since), x => Selected(cfg, x));
    TakeCons(c, Keep(CutAt(rest, cfg.since), x => Selected(cfg, x)), cfg.limit, taken);
  }

  lemma ReduceCons<T>(reducer: Reducer<T>, c: Container, s: seq<Container>)
    requires reducer(c).Some?
    ensures Reduce(reducer, [c] + s) == Prepend([reducer(c).value], Reduce(reducer, s))
  {
    assert ([c] + s)[1..] == s;
  }

  // ----- Which containers are shown, by their positions -----

  /** The container at `i` is looked at: it matches, it comes after a matching one with the before-ID, if that is given,
      and it is running, or the user asked for all containers, for a number of them, or for those since another. */
  ghost predicate LookedAt(cfg: Config, before: Option<string>, cs: seq<Container>, i: nat)
    requires i < |cs|
  {
    && cfg.matches(cs[i])
    && (before.Some? ==> Passed(cfg, before.value, cs, i))
    && (cs[i].running || cfg.all || cfg.limit > 0 || cfg.since.Some?)
  }

  /** A matching container with the ID stands before position `n`. */
  ghost predicate Passed(cfg: Config, id: string, cs: seq<Container>, n: nat)
    requires n <= |cs|
  {
    exists b: nat :: b < n && cfg.matches(cs[b]) && cs[b].id == id
  }

  /** The container with the since-ID is looked at before position `n`. */
  ghost predicate Ended(cfg: Config, before: Option<string>, cs: seq<Container>, n: nat)
    requires n <= |cs|
  {
    exists j: nat :: j < n && LookedAt(cfg, before, cs, j) && cfg.since == Some(cs[j].id)
  }

  /** The container at `i` is looked at before the end, and is one with an exit code, a status and an image the user
      asked for. */
  ghost predicate Wanted(cfg: Config, before: Option<string>, cs: seq<Container>, i: nat)
    requires i < |cs|
  {
    && LookedAt(cfg, before, cs, i) && !Ended(cfg, before, cs, i + 1)
    && (cfg.exitAllowed == [] || (!cs[i].running && cs[i].exitCode in cfg.exitAllowed))
    && cfg.status(cs[i].state)
    && (!cfg.ancestorFilter || cs[i].image in cfg.images)
  }

  ghost function WantedBefore(cfg: Config, before: Option<string>, cs: seq<Container>, n: nat): set<nat>
    requires n <= |cs|
  {
    set i: nat | i < n && Wanted(cfg, before, cs, i)
  }

  /** The container at `i` is shown: it is wanted, and fewer wanted ones than the limit stand before it. */
  ghost predicate Chosen(cfg: Config, before: Option<string>, cs: seq<Container>, i: nat)
    requires i < |cs|
  {
    Wanted(cfg, before, cs, i) && (cfg.limit > 0 ==> |WantedBefore(cfg, before, cs, i)| < cfg.limit)
  }

  /** The positions of the chosen ones among the first `n`, in order. */
  ghost function Picks(cfg: Config, before: Option<string>, cs: seq<Container>, n: nat): seq<nat>
    requires n <= |cs|
  {
    if n == 0 then []
    else Picks(cfg, before, cs, n - 1) + if Chosen(cfg, before, cs, n - 1) then [n - 1] else []
  }

  ghost predicate Increasing(ix: seq<nat>) {
    forall j, k :: 0 <= j < k < |ix| ==> ix[j] < ix[k]
  }

  lemma {:induction false} PicksAre(cfg: Config, before: Option<string>, cs: seq<Container>, n: nat)
    requires n <= |cs|
    ensures Increasing(Picks(cfg, before, cs, n))
    ensures forall i: nat :: i in Picks(cfg, before, cs, n) <==> i < n && Chosen(cfg, before, cs, i)
  {
    if n == 0 {
      assert Picks(cfg, before, cs, 0) == [];
    } else {
      PicksAre(cfg, before, cs, n - 1);
      var some := Picks(cfg, before, cs, n - 1);
      if Chosen(cfg, before, cs, n - 1) {
        IncreasingMore(some, n - 1);
      } else {
        assert some + [] == some;
      }
    }
  }

  lemma IncreasingMore(ix: seq<nat>, n: nat)
    requires Increasing(ix) && forall i :: i in ix ==> i < n
    ensures Increasing(ix + [n]) && forall i :: i in ix + [n] <==> i in ix || i == n
  {
    forall j, k | 0 <= j < k < |ix + [n]| ensures (ix + [n])[j] < (ix + [n])[k] {
      assert ix[j] in ix;
    }
  }

  lemma WantedNext(cfg: Config, before: Option<string>, cs: seq<Container>, n: nat)
    requires n < |cs|
    ensures |WantedBefore(cfg, before, cs, n + 1)|
         == |WantedBefore(cfg, before, cs, n)| + if Wanted(cfg, before, cs, n) then 1 else 0
  {
    var w := WantedBefore(cfg, before, cs, n);
    if Wanted(cfg, before, cs, n) {
      assert WantedBefore(cfg, before, cs, n + 1) == w + {n};
    } else {
      assert WantedBefore(cfg, before, cs, n + 1) == w;
    }
  }

  lemma PicksNext(cfg: Config, before: Option<string>, cs: seq<Container>, n: nat)
    requires n < |cs|
    ensures |Picks(cfg, before, cs, n + 1)|
         == |Picks(cfg, before, cs, n)|
            + if Wanted(cfg, before, cs, n) && (cfg.limit > 0 ==> |WantedBefore(cfg, before, cs, n)| < cfg.limit)
              then 1 else 0
  {
  }

  /** There are as many positions as wanted containers, up to the limit. */
  lemma {:induction false} PicksCount(cfg: Config, before: Option<string>, cs: seq<Container>, n: nat)
    requires n <= |cs|
    ensures var w := |WantedBefore(cfg, before, cs, n)|;
      |Picks(cfg, before, cs, n)| == if cfg.limit > 0 && w > cfg.limit then cfg.limit else w
  {
    if n > 0 {
      PicksCount(cfg, before, cs, n - 1);
      WantedNext(cfg, before, cs, n - 1);
      PicksNext(cfg, before, cs, n - 1);
    } else {
      assert WantedBefore(cfg, before, cs, 0) == {};
    }
  }

  function Pulled(cs: seq<Container>, ix: seq<nat>): seq<Container>
    requires forall j :: 0 <= j < |ix| ==> ix[j] < |cs|
  {
    seq(|ix|, j requires 0 <= j < |ix| => cs[ix[j]])
  }

  /** The before-ID that is still being looked for at position `n`. */
  ghost function BeforeAt(cfg: Config, before: Option<string>, cs: seq<Container>, n: nat): Option<string>
    requires n <= |cs|
  {
    if before.Some? && !Passed(cfg, before.value, cs, n) then before else None
  }

  ghost predicate InRange(cs: seq<Container>, ix: seq<nat>) {
    forall j :: 0 <= j < |ix| ==> ix[j] < |cs|
  }

  /** What the pipeline has still to give at position `n`. */
  ghost function Still(cfg: Config, before: Option<string>, cs: seq<Container>, n: nat): seq<Container>
    requires n <= |cs|
  {
    if Ended(cfg, before, cs, n) then []
    else Pipeline(cfg, BeforeAt(cfg, before, cs, n), |Picks(cfg, before, cs, n)|, cs[n..])
  }

  lemma PassedNext(cfg: Config, id: string, cs: seq<Container>, n: nat)
    requires n < |cs|
    ensures Passed(cfg, id, cs, n + 1) <==> Passed(cfg, id, cs, n) || (cfg.matches(cs[n]) && cs[n].id == id)
  {
  }

  lemma EndedNext(cfg: Config, before: Option<string>, cs: seq<Container>, n: nat)
    requires n < |cs|
    ensures Ended(cfg, before, cs, n + 1)
       <==> Ended(cfg, before, cs, n) || (LookedAt(cfg, before, cs, n) && cfg.since == Some(cs[n].id))
  {
  }

  /** One container more. */
  lemma StillNext(cfg: Config, before: Option<string>, cs: seq<Container>, n: nat)
    requires n < |cs|
    ensures Still(cfg, before, cs, n)
         == (if Chosen(cfg, before, cs, n) then [cs[n]] else []) + Still(cfg, before, cs, n + 1)
  {
    EndedNext(cfg, before, cs, n);
    if before.Some? {
      PassedNext(cfg, before.value, cs, n);
    }
    if !Ended(cfg, before, cs, n) {
      assert cs[n..] == [cs[n]] + cs[n + 1..];
      if LookedAt(cfg, before, cs, n) {
        LookedAtNext(cfg, before, cs, n);
      } else {
        PassedOverNext(cfg, before, cs, n);
      }
    }
  }

  lemma PassedOverNext(cfg: Config, before: Option<string>, cs: seq<Container>, n: nat)
    requires n < |cs| && !Ended(cfg, before, cs, n) && !LookedAt(cfg, before, cs, n)
    ensures Still(cfg, before, cs, n) == Still(cfg, before, cs, n + 1)
  {
    EndedNext(cfg, before, cs, n);
    if before.Some? {
      PassedNext(cfg, before.value, cs, n);
    }
    var c, rest, taken := cs[n], cs[n + 1..], |Picks(cfg, before, cs, n)|;
    assert cs[n..] == [c] + rest;
    var b := BeforeAt(cfg, before, cs, n);
    if !cfg.matches(c) {
      SkipUnmatched(cfg, b, taken, c, rest);
    } else if b.Some? {
      SkipUntilBefore(cfg, b, taken, c, rest);
    } else {
      SkipHidden(cfg, taken, c, rest);
    }
  }

  lemma LookedAtNext(cfg: Config, before: Option<string>, cs: seq<Container>, n: nat)
    requires n < |cs| && !Ended(cfg, before, cs, n) && LookedAt(cfg, before, cs, n)
    ensures Still(cfg, before, cs, n)
         == (if Chosen(cfg, before, cs, n) then [cs[n]] else []) + Still(cfg, before, cs, n + 1)
  {
    EndedNext(cfg, before, cs, n);
    if before.Some? {
      PassedNext(cfg, before.value, cs, n);
    }
    var c, rest, taken := cs[n], cs[n + 1..], |Picks(cfg, before, cs, n)|;
    assert cs[n..] == [c] + rest;
    PicksCount(cfg, before, cs, n);
    if cfg.since == Some(c.id) {
      StopAtSince(cfg, taken, c, rest);
    } else if cfg.limit > 0 && taken == cfg.limit {
      StopAtLimit(cfg, None, taken, [c] + rest);
      StopAtLimit(cfg, None, taken, rest);
    } else {
      TakeOrSkip(cfg, taken, c, rest);
    }
  }

  lemma PulledMore(cs: seq<Container>, ix: seq<nat>, n: nat)
    requires InRange(cs, ix) && n < |cs|
    ensures Pulled(cs, ix + [n]) == Pulled(cs, ix) + [cs[n]]
  {
  }

  /** The chosen ones from position `n` on. */
  ghost function ChosenFrom(cfg: Config, before: Option<string>, cs: seq<Container>, n: nat): seq<Container>
    requires n <= |cs|
    decreases |cs| - n
  {
    if n == |cs| then []
    else (if Chosen(cfg, before, cs, n) then [cs[n]] else []) + ChosenFrom(cfg, before, cs, n + 1)
  }

  /** What the pipeline has still to give are the chosen ones that are left. */
  lemma {:induction false} StillChosen(cfg: Config, before: Option<string>, cs: seq<Container>, n: nat)
    requires n <= |cs|
    ensures Still(cfg, before, cs, n) == ChosenFrom(cfg, before, cs, n)
    decreases |cs| - n
  {
    if n == |cs| {
      StillAtEnds(cfg, before, cs);
    } else {
      StillNext(cfg, before, cs, n);
      StillChosen(cfg, before, cs, n + 1);
    }
  }

  /** The chosen ones are those at the positions of the chosen ones. */
  lemma {:induction false} ChosenAt(cfg: Config, before: Option<string>, cs: seq<Container>, n: nat)
    requires n <= |cs|
    ensures InRange(cs, Picks(cfg, before, cs, n))
    ensures ChosenFrom(cfg, before, cs, 0)
         == Pulled(cs, Picks(cfg, before, cs, n)) + ChosenFrom(cfg, before, cs, n)
  {
    if n == 0 {
      assert Pulled(cs, []) == [];
    } else {
      ChosenAt(cfg, before, cs, n - 1);
      PulledNext(cs, Picks(cfg, before, cs, n - 1), Chosen(cfg, before, cs, n - 1), n - 1,
                 ChosenFrom(cfg, before, cs, n));
    }
  }

  lemma PulledNext(cs: seq<Container>, ix: seq<nat>, chosen: bool, n: nat, rest: seq<Container>)
    requires InRange(cs, ix) && n < |cs|
    ensures InRange(cs, ix + if chosen then [n] else [])
    ensures Pulled(cs, ix) + ((if chosen then [cs[n]] else []) + rest)
         == Pulled(cs, ix + if chosen then [n] else []) + rest
  {
    if chosen {
      PulledMore(cs, ix, n);
      Regroup(Pulled(cs, ix), [cs[n]], rest);
    } else {
      assert ix + [] == ix && [] + rest == rest;
    }
  }

  lemma Regroup(a: seq<Container>, b: seq<Container>, c: seq<Container>)
    ensures a + (b + c) == a + b + c
  {
  }

  /** What `ps` shows are the chosen containers, in their order. */
  lemma PipelineShowsChosen(cfg: Config, before: Option<string>, cs: seq<Container>)
    ensures InRange(cs, Picks(cfg, before, cs, |cs|))
    ensures Pipeline(cfg, before, 0, cs) == Pulled(cs, Picks(cfg, before, cs, |cs|))
  {
    StillAtEnds(cfg, before, cs);
    StillChosen(cfg, before, cs, 0);
    AllChosen(cfg, before, cs);
  }

  lemma AllChosen(cfg: Config, before: Option<string>, cs: seq<Container>)
    ensures InRange(cs, Picks(cfg, before, cs, |cs|))
    ensures ChosenFrom(cfg, before, cs, 0) == Pulled(cs, Picks(cfg, before, cs, |cs|))
  {
    ChosenAt(cfg, before, cs, |cs|);
    var all := Pulled(cs, Picks(cfg, before, cs, |cs|));
    assert all + [] == all;
  }

  lemma StillAtEnds(cfg: Config, before: Option<string>, cs: seq<Container>)
    ensures Still(cfg, before, cs, 0) == Pipeline(cfg, before, 0, cs)
    ensures Still(cfg, before, cs, |cs|) == []
  {
    assert cs[0..] == cs && cs[|cs|..] == [];
    NothingLeft(cfg, BeforeAt(cfg, before, cs, |cs|), |Picks(cfg, before, cs, |cs|)|);
  }

  /** A listing has a row for each container, or the reducer fails for one of them. */
  lemma {:induction false} ReduceRows<T>(reducer: Reducer<T>, s: seq<Container>)
    ensures match Reduce(reducer, s)
      case Listed(rows) => |rows| == |s| && forall j :: 0 <= j < |s| ==> reducer(s[j]) == Some(rows[j])
      case ReducerFailed => exists j :: 0 <= j < |s| && reducer(s[j]).None?
  {
    if s != [] && reducer(s[0]).Some? {
      ReduceRows(reducer, s[1..]);
      match Reduce(reducer, s[1..])
      case Listed(rows) =>
        var all := [reducer(s[0]).value] + rows;
        forall j | 0 <= j < |s| ensures reducer(s[j]) == Some(all[j]) {
          assert j > 0 ==> s[1..][j - 1] == s[j];
        }
      case ReducerFailed =>
        var j :| 0 <= j < |s[1..]| && reducer(s[1..][j]).None?;
        assert s[j + 1] == s[1..][j];
    }
  }

  /** The listing of the containers at positions `ix`: a row for each, or a failure. */
  ghost predicate Rows<T>(reducer: Reducer<T>, cs: seq<Container>, ix: seq<nat>, l: Listing<T>)
    requires InRange(cs, ix)
  {
    match l
    case Listed(rows) => |rows| == |ix| && forall j :: 0 <= j < |ix| ==> reducer(cs[ix[j]]) == Some(rows[j])
    case ReducerFailed => exists j :: 0 <= j < |ix| && reducer(cs[ix[j]]).None?
  }

  lemma PulledRows<T>(reducer: Reducer<T>, cs: seq<Container>, ix: seq<nat>)
    requires InRange(cs, ix)
    ensures Rows(reducer, cs, ix, Reduce(reducer, Pulled(cs, ix)))
  {
    var s := Pulled(cs, ix);
    ReduceRows(reducer, s);
    match Reduce(reducer, s)
    case Listed(rows) =>
      forall j | 0 <= j < |ix| ensures reducer(cs[ix[j]]) == Some(rows[j]) {
        assert s[j] == cs[ix[j]];
      }
    case ReducerFailed =>
      var j :| 0 <= j < |s| && reducer(s[j]).None?;
      assert reducer(cs[ix[j]]).None?;
  }

  // ----- The loop -----

  datatype Action = Include | Exclude | StopIteration

  class ListContext {
    const cfg: Config
    var idx: nat
    var before: Option<string>

    constructor (cfg: Config, before: Option<string>)
      ensures this.cfg == cfg && this.before == before && idx == 0
    {
      this.cfg, this.before, idx := cfg, before, 0;
    }

    /** `includeContainerInList`, which forgets the before-container once it has come by. */
    method IncludeContainer(c: Container, ghost rest: seq<Container>) returns (action: Action)
      requires cfg.limit > 0 ==> idx <= cfg.limit
      modifies this`before
      ensures action.StopIteration? <==>
        && cfg.matches(c) && old(before).None? && (c.running || cfg.all || cfg.limit > 0 || cfg.since.Some?)
        && (cfg.since == Some(c.id) || (cfg.limit > 0 && idx == cfg.limit))
      ensures action.Include? <==>
        && cfg.matches(c) && old(before).None? && (c.running || cfg.all || cfg.limit > 0 || cfg.since.Some?)
        && cfg.since != Some(c.id) && !(cfg.limit > 0 && idx == cfg.limit)
        && (cfg.exitAllowed == [] || (!c.running && c.exitCode in cfg.exitAllowed)) && cfg.status(c.state)
        && (!cfg.ancestorFilter || c.image in cfg.images)
      ensures before == if cfg.matches(c) && old(before) == Some(c.id) then None else old(before)
      ensures action.Exclude? ==> Pipeline(cfg, old(before), idx, [c] + rest) == Pipeline(cfg, before, idx, rest)
      ensures action.StopIteration? ==> Pipeline(cfg, old(before), idx, [c] + rest) == []
      ensures action.Include? ==>
        && Pipeline(cfg, old(before), idx, [c] + rest) == [c] + Pipeline(cfg, before, idx + 1, rest)
        && (cfg.limit > 0 ==> idx < cfg.limit)
    {
      if !cfg.matches(c) {
        SkipUnmatched(cfg, before, idx, c, rest);
      } else if before.Some? {
        SkipUntilBefore(cfg, before, idx, c, rest);
      } else if !Shown(cfg, c) {
        SkipHidden(cfg, idx, c, rest);
      } else if cfg.since == Some(c.id) {
        StopAtSince(cfg, idx, c, rest);
      } else if cfg.limit > 0 && idx == cfg.limit {
        StopAtLimit(cfg, before, idx, [c] + rest);
      } else {
        TakeOrSkip(cfg, idx, c, rest);
      }
      if !c.running && !cfg.all && cfg.limit <= 0 && before.None? && cfg.since.None? {
        return Exclude;
      }
      if !cfg.matches(c) {
        return Exclude;
      }
      if before.Some? {
        if c.id == before.value {
          before := None;
        }
        return Exclude;
      }
      if cfg.since.Some? && c.id == cfg.since.value {
        return StopIteration;
      }
      if cfg.limit > 0 && idx == cfg.limit {
        return StopIteration;
      }
      if |cfg.exitAllowed| > 0 {
        var skip := SkipByExitCode(cfg.exitAllowed, c);
        if skip {
          return Exclude;
        }
      }
      if !cfg.status(c.state) {
        return Exclude;
      }
      if cfg.ancestorFilter {
        if |cfg.images| == 0 {
          return Exclude;
        }
        if c.image !in cfg.images {
          return Exclude;
        }
      }
      return Include;
    }

    /** The body of the loop: one container is taken, passed over, or the end. */
    method Visit<T>(c: Container, rows: seq<T>, reducer: Reducer<T>, ghost all: Listing<T>, ghost rest: seq<Container>)
      returns (more: seq<T>, over: bool, l: Listing<T>)
      requires cfg.limit > 0 ==> idx <= cfg.limit
      requires Remains(all, rows, reducer, Pipeline(cfg, before, idx, [c] + rest))
      modifies this
      ensures cfg.limit > 0 ==> idx <= cfg.limit
      ensures if over then l == all else Remains(all, more, reducer, Pipeline(cfg, before, idx, rest))
    {
      more, over, l := rows, false, Listed(rows);
      var action := IncludeContainer(c, rest);
      if action.StopIteration? {
        RemainsNothing(all, rows, reducer);
        return rows, true, Listed(rows);
      }
      if action.Include? {
        RemainsOne(all, rows, reducer, c, Pipeline(cfg, before, idx + 1, rest));
        var t := reducer(c);
        if t.None? {
          return rows, true, ReducerFailed;
        }
        more := rows + [t.value];
        idx := idx + 1;
      }
    }

    /** `reduceContainers`: the loop shows what the pipeline leaves, in its order.  `ix` lists the positions of the
        containers that are shown. */
    method ReduceContainers<T>(containers: seq<Container>, reducer: Reducer<T>)
      returns (l: Listing<T>, ghost ix: seq<nat>)
      requires idx == 0
      modifies this
      ensures l == Reduce(reducer, Pipeline(cfg, old(before), 0, containers))
      ensures Increasing(ix) && InRange(containers, ix)
      ensures forall i: nat :: i in ix <==> i < |containers| && Chosen(cfg, old(before), containers, i)
      ensures Rows(reducer, containers, ix, l)
    {
      ix := Picks(cfg, before, containers, |containers|);
      PipelineShowsChosen(cfg, before, containers);
      PicksAre(cfg, before, containers, |containers|);
      PulledRows(reducer, containers, ix);
      l := ReduceLoop(containers, reducer);
    }

    method ReduceLoop<T>(containers: seq<Container>, reducer: Reducer<T>) returns (l: Listing<T>)
      requires idx == 0
      modifies this
      ensures l == Reduce(reducer, Pipeline(cfg, old(before), 0, containers))
    {
      var rows: seq<T> := [];
      ghost var all := Reduce(reducer, Pipeline(cfg, before, 0, containers));
      assert containers[0..] == containers;
      for i := 0 to |containers|
        invariant cfg.limit > 0 ==> idx <= cfg.limit
        invariant Remains(all, rows, reducer, Pipeline(cfg, before, idx, containers[i..]))
      {
        assert containers[i..] == [containers[i]] + containers[i + 1..];
        var over;
        rows, over, l := Visit(containers[i], rows, reducer, all, containers[i + 1..]);
        if over {
          return;
        }
      }
      NothingLeft(cfg, before, idx);
      RemainsNothing(all, rows, reducer);
      l := Listed(rows);
    }
  }

  /** The listing is what there is already and what the rest will give. */
  ghost predicate Remains<T>(all: Listing<T>, rows: seq<T>, reducer: Reducer<T>, rest: seq<Container>) {
    all == Prepend(rows, Reduce(reducer, rest))
  }

  lemma RemainsNothing<T>(all: Listing<T>, rows: seq<T>, reducer: Reducer<T>)
    requires Remains(all, rows, reducer, [])
    ensures all == Listed(rows)
  {
    assert rows + [] == rows;
  }

  lemma RemainsOne<T>(all: Listing<T>, rows: seq<T>, reducer: Reducer<T>, c: Container, rest: seq<Container>)
    requires Remains(all, rows, reducer, [c] + rest)
    ensures if reducer(c).Some? then Remains(all, rows + [reducer(c).value], reducer, rest) else all == ReducerFailed
  {
    if reducer(c).Some? {
      ReduceCons(reducer, c, rest);
      PrependTwice(rows, [reducer(c).value], Reduce(reducer, rest));
    }
  }

  lemma PrependTwice<T>(a: seq<T>, b: seq<T>, l: Listing<T>)
    ensures Prepend(a, Prepend(b, l)) == Prepend(a + b, l)
  {
    if l.Listed? {
      assert a + (b + l.rows) == a + b + l.rows;
    }
  }

  lemma NothingLeft(cfg: Config, before: Option<string>, taken: nat)
    ensures Pipeline(cfg, before, taken, []) == []
  {
  }

  /** The loop over the exit codes asked for. */
  method SkipByExitCode(exitAllowed: seq<int>, c: Container) returns (skip: bool)
    ensures skip <==> c.running || c.exitCode !in exitAllowed
  {
    skip := true;
    for i := 0 to |exitAllowed|
      invariant skip && (c.running || c.exitCode !in exitAllowed[..i])
    {
      if exitAllowed[i] == c.exitCode && !c.running {
        return false;
      }
    }
  }
}
