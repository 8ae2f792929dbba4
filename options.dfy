/**
 * psychopath.Option: the traversal configuration record and its builders.
 *
 * The record itself is the class `Option`, whose builder methods edit it in
 * place and return it. A `Function<Option, Option>` built from those builders
 * is a `Transform`: the sequence of builder calls it makes, so that
 * `f.andThen(g)` is `f + g`. `ApplyAll` runs a transform on a record value
 * and is what every builder method is proved against.
 */
module Options {
  import opened Wrappers
  import opened Paths

  /** Java's `int`. */
  newtype int32 = x: int | -0x8000_0000 <= x < 0x8000_0000

  const MaxInt: int32 := 0x7fff_ffff

  /** A `BiPredicate<Path, BasicFileAttributes>`, known only by its identity. */
  datatype Filter = Filter(id: nat)

  /** The fields of an Option record, as a value. */
  datatype OptionState = OptionState(
    patterns: seq<string>,
    filter: Nullable<Filter>,
    acceptRoot: bool,
    relativePath: Nullable<Path>,
    depth: int32)

  /** The record `new Option()` starts from. */
  function Default(): OptionState {
    OptionState([], Null, true, Null, MaxInt)
  }

  /** One builder call. */
  datatype Edit =
    | DepthEdit(n: int32)                          // depth(n)
    | GlobEdit(globs: Nullable<seq<string>>)       // glob(patterns...)
    | TakeEdit(take: Nullable<Filter>)             // take(filter)
    | IgnoreRootEdit                               // ignoreRoot()
    | AllocateInEdit(directory: Nullable<Path>)    // allocateIn(directory)

  /** A `Function<Option, Option>` that chains builder calls. */
  type Transform = seq<Edit>

  predicate Distinct(ps: seq<string>) {
    forall i, j | 0 <= i < j < |ps| :: ps[i] != ps[j]
  }

  /** The builder calls that throw IllegalArgumentException: `Set.of` with a repeated pattern, `allocateIn` with an absolute directory. */
  predicate Throws(e: Edit) {
    || (e.GlobEdit? && e.globs.Value? && !Distinct(e.globs.value))
    || (e.AllocateInEdit? && e.directory.Value? && e.directory.value.absolute)
  }

  /** The effect of one builder call on the record. */
  function Step(s: OptionState, e: Edit): Result<OptionState> {
    match e
    case DepthEdit(n) => Ok(s.(depth := n))
    case GlobEdit(ps) =>
      if ps.Null? then Ok(s)
      else if !Distinct(ps.value) then Err(IllegalArgument)
      else Ok(s.(patterns := s.patterns + ps.value))
    case TakeEdit(f) => if f.Null? then Ok(s) else Ok(s.(filter := f))
    case IgnoreRootEdit => Ok(s.(acceptRoot := false))
    case AllocateInEdit(d) =>
      if d.Null? then Ok(s)
      else if d.value.absolute then Err(IllegalArgument)
      else Ok(s.(relativePath := d))
  }

  /** Applying a transform: its builder calls from first to last, stopping at the first that throws. */
  function ApplyAll(t: Transform, s: OptionState): Result<OptionState>
    decreases |t|
  {
    if t == [] then Ok(s)
    else
      match Step(s, t[0])
      case Err(x) => Err(x)
      case Ok(s') => ApplyAll(t[1..], s')
  }

  /** The record a transform produces from `new Option()`. */
  function Effective(t: Transform): Result<OptionState> {
    ApplyAll(t, Default())
  }

  /** Continues a possibly failed application with a further transform. */
  function Continue(r: Result<OptionState>, u: Transform): Result<OptionState> {
    match r
    case Err(x) => Err(x)
    case Ok(s) => ApplyAll(u, s)
  }

  // Reference definitions, read from the last builder call backwards.

  function Init(t: Transform): Transform
    requires t != []
  {
    t[..|t| - 1]
  }

  /** All glob arguments, in call order. */
  function Globs(t: Transform): seq<string>
    decreases |t|
  {
    if t == [] then []
    else
      var e := t[|t| - 1];
      Globs(Init(t)) + if e.GlobEdit? && e.globs.Value? then e.globs.value else []
  }

  /** The depth of the last `depth` call, or `d` when there is none. */
  function LastDepth(t: Transform, d: int32): int32
    decreases |t|
  {
    if t == [] then d
    else if t[|t| - 1].DepthEdit? then t[|t| - 1].n
    else LastDepth(Init(t), d)
  }

  /** The filter of the last non-null `take` call, or `f` when there is none. */
  function LastFilter(t: Transform, f: Nullable<Filter>): Nullable<Filter>
    decreases |t|
  {
    if t == [] then f
    else if t[|t| - 1].TakeEdit? && t[|t| - 1].take.Value? then t[|t| - 1].take
    else LastFilter(Init(t), f)
  }

  /** The directory of the last non-null `allocateIn` call, or `r` when there is none. */
  function LastRelocation(t: Transform, r: Nullable<Path>): Nullable<Path>
    decreases |t|
  {
    if t == [] then r
    else if t[|t| - 1].AllocateInEdit? && t[|t| - 1].directory.Value? then t[|t| - 1].directory
    else LastRelocation(Init(t), r)
  }

  predicate IgnoresRoot(t: Transform) {
    exists i | 0 <= i < |t| :: t[i].IgnoreRootEdit?
  }

  /** `f.andThen(g)` applied to a record is `g` applied to the result of `f`. */
  lemma {:induction false} ApplyAllAppend(t: Transform, u: Transform, s: OptionState)
    ensures ApplyAll(t + u, s) == Continue(ApplyAll(t, s), u)
    decreases |t|
  {
    if t == [] {
      assert t + u == u;
    } else {
      assert (t + u)[0] == t[0];
      assert (t + u)[1..] == t[1..] + u;
      match Step(s, t[0])
      case Err(x) =>
      case Ok(s') => ApplyAllAppend(t[1..], u, s');
    }
  }

  /** The reference definitions for one more builder call. */
  lemma SnocUnfolds(init: Transform, e: Edit, s: OptionState)
    ensures Init(init + [e]) == init && (init + [e])[|init + [e]| - 1] == e
    ensures IgnoresRoot(init + [e]) <==> IgnoresRoot(init) || e.IgnoreRootEdit?
    ensures (forall i | 0 <= i < |init + [e]| :: !Throws((init + [e])[i]))
        <==> (forall i | 0 <= i < |init| :: !Throws(init[i])) && !Throws(e)
  {
    var t := init + [e];
    assert forall i | 0 <= i < |init| :: t[i] == init[i];
    assert t[|t| - 1] == e;
    if IgnoresRoot(init) {
      var i :| 0 <= i < |init| && init[i].IgnoreRootEdit?;
      assert t[i].IgnoreRootEdit?;
    }
  }

  /**
   * A transform succeeds exactly when none of its builder calls throws, and
   * then its record holds the old patterns followed by every glob argument,
   * the last filter taken, `acceptRoot` cleared by any `ignoreRoot`, the last
   * relocation and the last depth.
   */
  lemma {:induction false} ApplyAllCharacterised(t: Transform, s: OptionState)
    ensures ApplyAll(t, s).Ok? <==> forall i | 0 <= i < |t| :: !Throws(t[i])
    ensures ApplyAll(t, s).Err? ==> ApplyAll(t, s).error == IllegalArgument
    ensures ApplyAll(t, s).Ok? ==> ApplyAll(t, s).value == OptionState(
      s.patterns + Globs(t),
      LastFilter(t, s.filter),
      s.acceptRoot && !IgnoresRoot(t),
      LastRelocation(t, s.relativePath),
      LastDepth(t, s.depth))
    decreases |t|
  {
    if t != [] {
      var init, e := Init(t), t[|t| - 1];
      assert t == init + [e];
      ApplyAllCharacterised(init, s);
      ApplyAllAppend(init, [e], s);
      SnocUnfolds(init, e, s);
      if ApplyAll(init, s).Ok? {
        var s' := ApplyAll(init, s).value;
        assert ApplyAll([e], s') == Step(s', e);
        assert ApplyAll(t, s) == Step(s', e);
        StepExtendsReference(init, e, s, s');
      }
    }
  }

  /** One more builder call moves the record along the reference definitions. */
  lemma StepExtendsReference(init: Transform, e: Edit, s: OptionState, s': OptionState)
    requires s' == OptionState(s.patterns + Globs(init), LastFilter(init, s.filter), s.acceptRoot && !IgnoresRoot(init),
      LastRelocation(init, s.relativePath), LastDepth(init, s.depth))
    requires IgnoresRoot(init + [e]) <==> IgnoresRoot(init) || e.IgnoreRootEdit?
    ensures Step(s', e).Ok? <==> !Throws(e)
    ensures Step(s', e).Err? ==> Step(s', e).error == IllegalArgument
    ensures Step(s', e).Ok? ==> Step(s', e).value == OptionState(
      s.patterns + Globs(init + [e]),
      LastFilter(init + [e], s.filter),
      s.acceptRoot && !IgnoresRoot(init + [e]),
      LastRelocation(init + [e], s.relativePath),
      LastDepth(init + [e], s.depth))
  {
    var t := init + [e];
    assert Init(t) == init && t[|t| - 1] == e;
    if e.GlobEdit? && e.globs.Value? {
      assert s'.patterns + e.globs.value == s.patterns + Globs(t);
    } else {
      assert Globs(t) == Globs(init) + [];
    }
  }

  /** The last `depth` call wins, however many builder calls without one follow it. */
  lemma DepthLastWins(t: Transform, n: int32, u: Transform, s: OptionState)
    requires forall i | 0 <= i < |u| :: !u[i].DepthEdit?
    requires ApplyAll(t + [DepthEdit(n)] + u, s).Ok?
    ensures ApplyAll(t + [DepthEdit(n)] + u, s).value.depth == n
  {
    ApplyAllCharacterised(t + [DepthEdit(n)] + u, s);
    LastDepthSkips(t + [DepthEdit(n)], u, s.depth);
  }

  lemma {:induction false} LastDepthSkips(t: Transform, u: Transform, d: int32)
    requires forall i | 0 <= i < |u| :: !u[i].DepthEdit?
    ensures LastDepth(t + u, d) == LastDepth(t, d)
    decreases |u|
  {
    if u != [] {
      assert Init(t + u) == t + Init(u);
      LastDepthSkips(t, Init(u), d);
    } else {
      assert t + u == t;
    }
  }

  /** Builder calls only ever append patterns: the patterns before a transform stay as a prefix. */
  lemma GlobAppendOnly(t: Transform, s: OptionState)
    requires ApplyAll(t, s).Ok?
    ensures |s.patterns| <= |ApplyAll(t, s).value.patterns|
    ensures ApplyAll(t, s).value.patterns[..|s.patterns|] == s.patterns
  {
    ApplyAllCharacterised(t, s);
    assert (s.patterns + Globs(t))[..|s.patterns|] == s.patterns;
  }

  /** `glob` with distinct patterns grows the list by exactly those patterns. */
  lemma GlobGrows(s: OptionState, ps: seq<string>)
    requires Distinct(ps)
    ensures Step(s, GlobEdit(Value(ps))).Ok?
    ensures var p := Step(s, GlobEdit(Value(ps))).value.patterns;
      |p| == |s.patterns| + |ps| && p[..|s.patterns|] == s.patterns && multiset(p[|s.patterns|..]) == multiset(ps)
  {
    var p := s.patterns + ps;
    assert p[..|s.patterns|] == s.patterns;
    assert p[|s.patterns|..] == ps;
  }

  /** A repeated pattern makes `glob` throw; `glob(null)` changes nothing. */
  lemma GlobRejectsRepeats(s: OptionState, ps: seq<string>)
    ensures Step(s, GlobEdit(Null)) == Ok(s)
    ensures (exists i, j | 0 <= i < j < |ps| :: ps[i] == ps[j]) ==> Step(s, GlobEdit(Value(ps))) == Err(IllegalArgument)
  {
  }

  /** A second `take` replaces the first filter rather than combining with it; `take(null)` changes nothing. */
  lemma TakeReplaces(s: OptionState, f: Filter, g: Filter)
    ensures ApplyAll([TakeEdit(Value(f)), TakeEdit(Value(g))], s) == Ok(s.(filter := Value(g)))
    ensures ApplyAll([TakeEdit(Value(f)), TakeEdit(Null)], s) == Ok(s.(filter := Value(f)))
  {
    var sf := s.(filter := Value(f));
    assert [TakeEdit(Value(f)), TakeEdit(Value(g))][1..] == [TakeEdit(Value(g))];
    assert [TakeEdit(Value(f)), TakeEdit(Null)][1..] == [TakeEdit(Null)];
    assert ApplyAll([TakeEdit(Value(g))], sf) == Ok(sf.(filter := Value(g)));
    assert ApplyAll([TakeEdit(Null)], sf) == Ok(sf);
  }

  /** Calling `ignoreRoot` again after any transform changes nothing. */
  lemma IgnoreRootIdempotent(t: Transform, s: OptionState)
    ensures ApplyAll(t + [IgnoreRootEdit, IgnoreRootEdit], s) == ApplyAll(t + [IgnoreRootEdit], s)
  {
    ApplyAllAppend(t, [IgnoreRootEdit, IgnoreRootEdit], s);
    ApplyAllAppend(t, [IgnoreRootEdit], s);
    if ApplyAll(t, s).Ok? {
      var s' := ApplyAll(t, s).value;
      assert [IgnoreRootEdit, IgnoreRootEdit][1..] == [IgnoreRootEdit];
      assert ApplyAll([IgnoreRootEdit, IgnoreRootEdit], s') == ApplyAll([IgnoreRootEdit], s'.(acceptRoot := false));
    }
  }

  /** A transform that relocates to an absolute directory throws, wherever the call stands in it. */
  lemma AbsoluteRelocationThrows(t: Transform, d: Path, u: Transform, s: OptionState)
    requires d.absolute
    ensures ApplyAll(t + [AllocateInEdit(Value(d))] + u, s) == Err(IllegalArgument)
  {
    var w := t + [AllocateInEdit(Value(d))] + u;
    ApplyAllCharacterised(w, s);
    assert Throws(w[|t|]);
  }

  /** A fresh record accepts the root, has no pattern, filter or relocation, and digs to the deepest `int`. */
  lemma DefaultIsUnrestricted()
    ensures Effective([]) == Ok(OptionState([], Null, true, Null, 0x7fff_ffff))
  {
  }

  /** The Option record, edited in place by its builders. */
  class Option {
    var patterns: seq<string>
    var filter: Nullable<Filter>
    var acceptRoot: bool
    var relativePath: Nullable<Path>
    var depth: int32

    function State(): OptionState
      reads this
    {
      OptionState(patterns, filter, acceptRoot, relativePath, depth)
    }

    constructor ()
      ensures State() == Default()
    {
      patterns := [];
      filter := Null;
      acceptRoot := true;
      relativePath := Null;
      depth := MaxInt;
    }

    /** `depth(depthToSearch)`. */
    method Depth(depthToSearch: int32) returns (r: Option)
      modifies this
      ensures r == this
      ensures State() == old(State()).(depth := depthToSearch)
      ensures Step(old(State()), DepthEdit(depthToSearch)) == Ok(State())
    {
      depth := depthToSearch;
      r := this;
    }

    /** `glob(patterns...)`; `Set.of` throws on a repeated pattern before anything is added. */
    method Glob(ps: Nullable<seq<string>>) returns (r: Result<Option>)
      modifies this
      ensures ps.Null? ==> r == Ok(this) && State() == old(State())
      ensures ps.Value? && !Distinct(ps.value) ==> r == Err(IllegalArgument) && State() == old(State())
      ensures ps.Value? && Distinct(ps.value) ==> r == Ok(this) && State() == old(State()).(patterns := old(patterns) + ps.value)
      ensures Step(old(State()), GlobEdit(ps)) == if r.Ok? then Ok(State()) else Err(r.error)
    {
      if ps.Value? {
        if !Distinct(ps.value) {
          return Err(IllegalArgument);
        }
        patterns := patterns + ps.value;
      }
      r := Ok(this);
    }

    /** `take(filter)`. */
    method Take(f: Nullable<Filter>) returns (r: Option)
      modifies this
      ensures r == this
      ensures State() == if f.Null? then old(State()) else old(State()).(filter := f)
      ensures Step(old(State()), TakeEdit(f)) == Ok(State())
    {
      if f.Value? {
        filter := f;
      }
      r := this;
    }

    /** `ignoreRoot()`. */
    method IgnoreRoot() returns (r: Option)
      modifies this
      ensures r == this
      ensures State() == old(State()).(acceptRoot := false)
      ensures Step(old(State()), IgnoreRootEdit) == Ok(State())
    {
      acceptRoot := false;
      r := this;
    }

    /** `allocateIn(relativePath)`; an absolute directory throws and leaves the record as it was. */
    method AllocateIn(d: Nullable<Path>) returns (r: Result<Option>)
      modifies this
      ensures d.Null? ==> r == Ok(this) && State() == old(State())
      ensures d.Value? && d.value.absolute ==> r == Err(IllegalArgument) && State() == old(State())
      ensures d.Value? && !d.value.absolute ==> r == Ok(this) && State() == old(State()).(relativePath := d)
      ensures Step(old(State()), AllocateInEdit(d)) == if r.Ok? then Ok(State()) else Err(r.error)
    {
      if d.Value? {
        if d.value.absolute {
          return Err(IllegalArgument);
        }
        relativePath := d;
      }
      r := Ok(this);
    }
  }
}
