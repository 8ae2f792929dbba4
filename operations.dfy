/**
 * The operations a psychopath Folder is made of, and how each routes a bulk
 * action. An operation is a value; running an action on it yields the
 * requests it hands to File and Directory (which do the real file-system
 * work, not modelled here), in order, and the exception that stopped the
 * stream, if one did.
 */
module Operations {
  import opened Wrappers
  import opened Paths
  import opened Options

  /** A located entry: a file or a directory. */
  datatype Location = FileLocation(path: Path) | DirectoryLocation(path: Path)

  /** The Operation variants of Folder. */
  datatype Op =
    | FileOperation(file: Path)                                  // a single file
    | DirectoryOperation(directory: Path, option: Transform)     // a directory and its stored option transform
    | Allocator(delegator: Op, relative: Path)                   // relocates another operation under `relative`
    | LayerOperation(operation: Op, overlay: Transform)          // overlays a transform on another operation
    | SignalOperation(entries: seq<Location>, stored: Transform) // the anonymous operation over a signal of locations

  /** Transfer modes of the directory walker: 0 = copy, 1 = move. */
  datatype Mode = Copy | Move

  /** Listing modes of the directory walker: 3 = files, 4 = directories. */
  datatype WalkKind = FileWalk | DirectoryWalk

  /** The archive entry types `detectEntryBuilder` chooses from. */
  datatype EntryFormat = Jar | Zip | SevenZ

  /** `File.match(patterns)`: the glob matcher, which is not part of this model. */
  type Matcher = (Path, seq<string>) -> bool

  /** A bulk action as it reaches one operation. */
  datatype Action =
    | DeleteAction(patterns: seq<string>)                                        // delete(patterns...)
    | TransferAction(mode: Mode, destination: Path, option: Transform)           // copyTo / moveTo(destination, option)
    | PackAction(format: EntryFormat, relative: Path, option: Transform)         // packTo(archive, builder, relative, option)
    | WalkAction(kind: WalkKind, patterns: seq<string>, matches: Matcher)        // walkFiles / walkDirectories(patterns...)

  /** What an operation asks File, Directory and the archive writer to do. */
  datatype Request =
    | DeleteFile(file: Path)                                              // file.delete()
    | TransferFile(mode: Mode, file: Path, destination: Path)             // file.copyTo / moveTo(destination)
    | ListFile(base: Path, file: Path)                                    // the pair (base, file)
    | PackFile(format: EntryFormat, base: Path, file: Path, relative: Path)  // pack(archive, builder, base, file, relative)
    | DeleteTree(directory: Path, option: Transform)                     // directory.delete(option)
    | TransferTree(mode: Mode, directory: Path, destination: Path, option: Transform)  // directory.copyTo / moveTo(destination, option)
    | WalkTree(kind: WalkKind, directory: Path, option: Transform)        // directory.walkFiles / walkDirectories(option), paired with directory
    | PackTree(format: EntryFormat, directory: Path, option: Transform, base: Path, relative: Path)  // pack of every file of directory.walkFiles(option)

  /** A finite stream: the requests issued, then the exception that ended it, if any. */
  datatype Emission = Emission(requests: seq<Request>, failure: Nullable<Exception>)

  const Nothing: Emission := Emission([], Null)

  function Emit(qs: seq<Request>): Emission {
    Emission(qs, Null)
  }

  /** `flatMap` concatenation: the second stream runs only when the first ends normally. */
  function Then(x: Emission, y: Emission): Emission {
    if x.failure.Value? then x else Emission(x.requests + y.requests, y.failure)
  }

  /** The base directory of the entry names of a packed directory. */
  function PackBase(d: Path, acceptRoot: bool): Path {
    if !IsRoot(d) && acceptRoot then Parent(d) else d
  }

  /** The archive entry name of `file`: `relative.file(base.relativize(file))`. */
  function EntryName(relative: Path, base: Path, file: Path): seq<string>
    requires base.absolute == file.absolute
  {
    Resolve(relative, Relativize(base, file)).segments
  }

  /** FileOperation: acts on its one file and ignores every option transform. */
  function RunFile(f: Path, a: Action): Emission {
    match a
    case DeleteAction(_) => Emit([DeleteFile(f)])
    case TransferAction(mode, destination, _) => Emit([TransferFile(mode, f, destination)])
    case PackAction(format, relative, _) => Emit([PackFile(format, Parent(f), f, relative)])
    case WalkAction(kind, patterns, matches) =>
      if kind == FileWalk && (|patterns| == 0 || matches(f, patterns)) then Emit([ListFile(Parent(f), f)])
      else Nothing
  }

  /** DirectoryOperation: the stored transform runs before the call site's. */
  function RunDirectory(d: Path, own: Transform, a: Action): Emission {
    match a
    case DeleteAction(patterns) => Emit([DeleteTree(d, own + [GlobEdit(Value(patterns))])])
    case TransferAction(mode, destination, t) => Emit([TransferTree(mode, d, destination, own + t)])
    case PackAction(format, relative, t) =>
      var combined := own + t;
      (match Effective(combined)
       case Err(x) => Emission([], Value(x))
       case Ok(o) => Emit([PackTree(format, d, combined, PackBase(d, o.acceptRoot), relative)]))
    case WalkAction(kind, patterns, _) => Emit([WalkTree(kind, d, own + [GlobEdit(Value(patterns))])])
  }

  /** `buildOperation` for one location: a directory keeps the option, a file drops it. */
  function BuildOperation(e: Location, option: Transform): Op {
    match e
    case FileLocation(f) => FileOperation(f)
    case DirectoryLocation(d) => DirectoryOperation(d, option)
  }

  /** `buildOperation(entries, option)`. */
  function BuildOperations(es: seq<Location>, option: Transform): (r: seq<Op>)
    ensures |r| == |es|
    ensures forall i | 0 <= i < |es| :: r[i] == if es[i].FileLocation? then FileOperation(es[i].path) else DirectoryOperation(es[i].path, option)
  {
    seq(|es|, i requires 0 <= i < |es| => BuildOperation(es[i], option))
  }

  function RunEntry(e: Location, option: Transform, a: Action): Emission {
    match e
    case FileLocation(f) => RunFile(f, a)
    case DirectoryLocation(d) => RunDirectory(d, option, a)
  }

  /** The built operations of a signal, run one after another. */
  function RunEntries(es: seq<Location>, option: Transform, a: Action): Emission
    decreases |es|
  {
    if es == [] then Nothing else Then(RunEntry(es[0], option, a), RunEntries(es[1..], option, a))
  }

  /**
   * The signal-backed operation as written: in moveTo, copyTo and packTo the
   * parameter `option` shadows the stored one, so those build their
   * operations with the call site's transform, which the directory operations
   * then apply twice.
   */
  function SignalAsWritten(es: seq<Location>, stored: Transform, a: Action): Emission {
    match a
    case TransferAction(_, _, t) => RunEntries(es, t, a)
    case PackAction(_, _, t) => RunEntries(es, t, a)
    case _ => RunEntries(es, stored, a)
  }

  /** Running an action on an operation. The signal-backed operation builds its operations with its stored transform. */
  function Run(op: Op, a: Action): Emission
    decreases op
  {
    match op
    case FileOperation(f) => RunFile(f, a)
    case DirectoryOperation(d, own) => RunDirectory(d, own, a)
    case Allocator(o, rel) =>
      (match a
       case TransferAction(mode, destination, t) => Run(o, TransferAction(mode, Resolve(destination, rel), t))
       case PackAction(format, _, t) => Run(o, PackAction(format, rel, t))
       case _ => Run(o, a))
    case LayerOperation(o, overlay) =>
      (match a
       case TransferAction(mode, destination, t) => Run(o, TransferAction(mode, destination, overlay + t))
       case PackAction(format, relative, t) => Run(o, PackAction(format, relative, overlay + t))
       case _ => Run(o, a))
    case SignalOperation(es, stored) => RunEntries(es, stored, a)
  }

  /** Running an action on every operation, in order. */
  function RunAll(ops: seq<Op>, a: Action): Emission
    decreases |ops|
  {
    if ops == [] then Nothing else Then(Run(ops[0], a), RunAll(ops[1..], a))
  }

  /** `entry()`: the locations an operation stands for. */
  function Entry(op: Op): seq<Location> {
    match op
    case FileOperation(f) => [FileLocation(f)]
    case DirectoryOperation(d, _) => [DirectoryLocation(d)]
    case Allocator(o, _) => Entry(o)
    case LayerOperation(o, _) => Entry(o)
    case SignalOperation(es, _) => es
  }

  // Reference definitions: what the wrappers of an operation add up to.

  /** Where transfers land: every Allocator on the way appends its relative directory. */
  function Destination(op: Op, destination: Path): Path {
    match op
    case Allocator(o, rel) => Destination(o, Resolve(destination, rel))
    case LayerOperation(o, _) => Destination(o, destination)
    case _ => destination
  }

  /** The pack-relative directory: the innermost Allocator's, or the call site's when there is none. */
  function PackRelative(op: Op, relative: Path): Path {
    match op
    case Allocator(o, rel) => PackRelative(o, rel)
    case LayerOperation(o, _) => PackRelative(o, relative)
    case _ => relative
  }

  /** The transform a directory sees on copy, move and pack: stored, then the layers from inside out, then the call site's. */
  function CallTransform(op: Op, t: Transform): Transform {
    match op
    case FileOperation(_) => t
    case DirectoryOperation(_, own) => own + t
    case Allocator(o, _) => CallTransform(o, t)
    case LayerOperation(o, overlay) => CallTransform(o, overlay + t)
    case SignalOperation(_, stored) => stored + t
  }

  /** The operation with every Allocator and LayerOperation taken off. */
  function Core(op: Op): Op {
    match op
    case Allocator(o, _) => Core(o)
    case LayerOperation(o, _) => Core(o)
    case _ => op
  }

  /** Every Allocator on the way relocates by a relative directory. */
  predicate RelativeAllocators(op: Op) {
    match op
    case Allocator(o, rel) => !rel.absolute && RelativeAllocators(o)
    case LayerOperation(o, _) => RelativeAllocators(o)
    case _ => true
  }

  /** The request belongs to the action: same kind, same transfer mode, same archive format. */
  predicate Fits(q: Request, a: Action) {
    match a
    case DeleteAction(_) => q.DeleteFile? || q.DeleteTree?
    case TransferAction(mode, _, _) => (q.TransferFile? || q.TransferTree?) && q.mode == mode
    case PackAction(format, _, _) => (q.PackFile? || q.PackTree?) && q.format == format
    case WalkAction(kind, _, _) => (q.ListFile? && kind == FileWalk) || (q.WalkTree? && q.kind == kind)
  }

  /** Delete and the walks select; they carry no destination or transform of the call site. */
  predicate Selects(a: Action) {
    a.DeleteAction? || a.WalkAction?
  }

  // Streams.

  lemma ThenNothing(x: Emission)
    ensures Then(x, Nothing) == x && Then(Nothing, x) == x
  {
    assert x.requests + [] == x.requests;
  }

  lemma ThenAssociative(x: Emission, y: Emission, z: Emission)
    ensures Then(Then(x, y), z) == Then(x, Then(y, z))
  {
  }

  /** Running two lists of operations one after the other is running their concatenation. */
  lemma {:induction false} RunAllAppend(xs: seq<Op>, ys: seq<Op>, a: Action)
    ensures RunAll(xs + ys, a) == Then(RunAll(xs, a), RunAll(ys, a))
    decreases |xs|
  {
    if xs == [] {
      assert xs + ys == ys;
    } else {
      assert (xs + ys)[0] == xs[0];
      assert (xs + ys)[1..] == xs[1..] + ys;
      RunAllAppend(xs[1..], ys, a);
      ThenAssociative(Run(xs[0], a), RunAll(xs[1..], a), RunAll(ys, a));
    }
  }

  /** The signal-backed operation behaves as the operations `buildOperation` makes from its entries. */
  lemma {:induction false} SignalIsExpansion(es: seq<Location>, stored: Transform, a: Action)
    ensures Run(SignalOperation(es, stored), a) == RunAll(BuildOperations(es, stored), a)
    decreases |es|
  {
    var built := BuildOperations(es, stored);
    if es != [] {
      SignalIsExpansion(es[1..], stored, a);
      assert built[1..] == BuildOperations(es[1..], stored);
      assert Run(built[0], a) == RunEntry(es[0], stored, a);
    }
  }

  /** Adding one directory through a signal is the same as adding it as a DirectoryOperation, and one file as a FileOperation. */
  lemma SignalAgreesWithDirectUse(d: Path, f: Path, stored: Transform, a: Action)
    ensures Run(SignalOperation([DirectoryLocation(d)], stored), a) == Run(DirectoryOperation(d, stored), a)
    ensures Run(SignalOperation([FileLocation(f)], stored), a) == Run(FileOperation(f), a)
  {
    var ds, fs := [DirectoryLocation(d)], [FileLocation(f)];
    assert ds[1..] == [] && fs[1..] == [];
    assert RunEntries(ds, stored, a) == Then(RunDirectory(d, stored, a), Nothing);
    assert RunEntries(fs, stored, a) == Then(RunFile(f, a), Nothing);
    ThenNothing(RunDirectory(d, stored, a));
    ThenNothing(RunFile(f, a));
  }

  /** As written, copy, move and pack of the signal-backed operation never see its stored transform. */
  lemma SignalAsWrittenIgnoresStored(es: seq<Location>, stored: Transform, other: Transform, a: Action)
    requires a.TransferAction? || a.PackAction?
    ensures SignalAsWritten(es, stored, a) == SignalAsWritten(es, other, a)
    ensures SignalAsWritten(es, stored, a) == RunAll(BuildOperations(es, a.option), a)
  {
    SignalIsExpansion(es, a.option, a);
  }

  /** As written, the stored transform still reaches delete and the walks. */
  lemma SignalAsWrittenSelects(es: seq<Location>, stored: Transform, a: Action)
    requires Selects(a)
    ensures SignalAsWritten(es, stored, a) == Run(SignalOperation(es, stored), a)
  {
  }

  /**
   * `add(location, o -> o.ignoreRoot())` followed by a copy: as written the
   * directory is copied with the call site's transform only, so the stored
   * ignoreRoot is lost.
   */
  lemma SignalShadowingExample(d: Path, destination: Path)
    ensures SignalAsWritten([DirectoryLocation(d)], [IgnoreRootEdit], TransferAction(Copy, destination, []))
         == Emit([TransferTree(Copy, d, destination, [])])
    ensures Run(SignalOperation([DirectoryLocation(d)], [IgnoreRootEdit]), TransferAction(Copy, destination, []))
         == Emit([TransferTree(Copy, d, destination, [IgnoreRootEdit])])
  {
    var ds := [DirectoryLocation(d)];
    var a := TransferAction(Copy, destination, []);
    assert ds[1..] == [];
    assert [IgnoreRootEdit] + [] == [IgnoreRootEdit];
    var none: Transform := [];
    assert none + none == none;
    assert SignalAsWritten(ds, [IgnoreRootEdit], a) == RunEntries(ds, [], a);
    assert RunEntries(ds, [], a) == Then(RunDirectory(d, [], a), Nothing);
    assert RunEntries(ds, [IgnoreRootEdit], a) == Then(RunDirectory(d, [IgnoreRootEdit], a), Nothing);
    ThenNothing(Emit([TransferTree(Copy, d, destination, [])]));
    ThenNothing(Emit([TransferTree(Copy, d, destination, [IgnoreRootEdit])]));
  }

  // Routing, variant by variant.

  /** FileOperation: delete, copy and move ignore patterns and transforms; the file walk lists the file exactly when there are no patterns or it matches; the directory walk lists nothing. */
  lemma FileOperationRouting(f: Path, ps: seq<string>, m: Mode, destination: Path, t: Transform, u: Transform, matches: Matcher)
    ensures Run(FileOperation(f), DeleteAction(ps)) == Emit([DeleteFile(f)])
    ensures Run(FileOperation(f), TransferAction(m, destination, t)) == Run(FileOperation(f), TransferAction(m, destination, u))
    ensures Run(FileOperation(f), TransferAction(m, destination, t)).requests == [TransferFile(m, f, destination)]
    ensures var r := Run(FileOperation(f), WalkAction(FileWalk, ps, matches));
      r.failure.Null? && (|r.requests| == 1 <==> |ps| == 0 || matches(f, ps)) && (|r.requests| != 1 ==> r.requests == [])
    ensures var r := Run(FileOperation(f), WalkAction(FileWalk, ps, matches));
      forall q | q in r.requests :: q == ListFile(Parent(f), f)
    ensures Run(FileOperation(f), WalkAction(DirectoryWalk, ps, matches)) == Nothing
  {
  }

  /** DirectoryOperation: the stored transform comes first, then the glob of the patterns or the call site's transform. */
  lemma DirectoryOperationRouting(d: Path, own: Transform, ps: seq<string>, m: Mode, destination: Path, t: Transform, k: WalkKind, matches: Matcher)
    ensures Run(DirectoryOperation(d, own), DeleteAction(ps)).requests == [DeleteTree(d, own + [GlobEdit(Value(ps))])]
    ensures Run(DirectoryOperation(d, own), TransferAction(m, destination, t)).requests == [TransferTree(m, d, destination, own + t)]
    ensures Run(DirectoryOperation(d, own), WalkAction(k, ps, matches)).requests == [WalkTree(k, d, own + [GlobEdit(Value(ps))])]
  {
  }

  /**
   * DirectoryOperation.packTo names entries from the parent of the directory
   * when it is not a root and the combined transform accepts the root, and
   * from the directory itself otherwise; a transform that throws ends the stream.
   */
  lemma DirectoryPackBase(d: Path, own: Transform, format: EntryFormat, relative: Path, t: Transform)
    ensures var r := Run(DirectoryOperation(d, own), PackAction(format, relative, t));
      match Effective(own + t)
      case Err(x) => r == Emission([], Value(x))
      case Ok(o) =>
        && r.failure.Null?
        && r.requests == [PackTree(format, d, own + t, if !IsRoot(d) && o.acceptRoot then Parent(d) else d, relative)]
  {
  }

  /** The entry of a packed file is named by the relative directory and the file's own name. */
  lemma FileEntryName(f: Path, relative: Path)
    requires !IsRoot(f)
    ensures EntryName(relative, Parent(f), f) == relative.segments + [Name(f)]
  {
    var p := Parent(f);
    assert f.segments[..|p.segments|] == p.segments;
    RelativizeBelow(p, f);
    assert f.segments[|p.segments|..] == [Name(f)];
  }

  /**
   * The entry of a file found `below` a packed directory: the directory's own
   * name is kept when the root is accepted, and dropped when it is ignored.
   */
  lemma DirectoryEntryName(d: Path, below: seq<string>, acceptRoot: bool, relative: Path)
    ensures var f := Path(d.absolute, d.segments + below);
      EntryName(relative, PackBase(d, acceptRoot), f)
      == relative.segments + (if !IsRoot(d) && acceptRoot then [Name(d)] else []) + below
  {
    var f := Path(d.absolute, d.segments + below);
    var base := PackBase(d, acceptRoot);
    if !IsRoot(d) && acceptRoot {
      assert base.segments + [Name(d)] == d.segments;
      assert f.segments == base.segments + ([Name(d)] + below);
    } else {
      assert f.segments == base.segments + below;
    }
    assert f.segments[..|base.segments|] == base.segments;
    RelativizeBelow(base, f);
  }

  /** LayerOperation overlays copy, move and pack; it lets delete, the walks and `entry()` through untouched. */
  lemma LayerRouting(o: Op, overlay: Transform, a: Action, m: Mode, destination: Path, format: EntryFormat, relative: Path, t: Transform)
    ensures Selects(a) ==> Run(LayerOperation(o, overlay), a) == Run(o, a)
    ensures Run(LayerOperation(o, overlay), TransferAction(m, destination, t)) == Run(o, TransferAction(m, destination, overlay + t))
    ensures Run(LayerOperation(o, overlay), PackAction(format, relative, t)) == Run(o, PackAction(format, relative, overlay + t))
    ensures Entry(LayerOperation(o, overlay)) == Entry(o)
  {
  }

  /** Allocator relocates copy and move under its directory and packs under its own relative directory; delete, the walks and `entry()` pass unchanged. */
  lemma AllocatorRouting(o: Op, rel: Path, a: Action, m: Mode, destination: Path, format: EntryFormat, relative: Path, t: Transform)
    ensures Selects(a) ==> Run(Allocator(o, rel), a) == Run(o, a)
    ensures Run(Allocator(o, rel), TransferAction(m, destination, t)) == Run(o, TransferAction(m, Resolve(destination, rel), t))
    ensures Run(Allocator(o, rel), PackAction(format, relative, t)) == Run(o, PackAction(format, rel, t))
    ensures Entry(Allocator(o, rel)) == Entry(o)
  {
  }

  // Properties of whole operation trees.

  lemma {:induction false} RunEntriesFits(es: seq<Location>, option: Transform, a: Action)
    ensures forall q | q in RunEntries(es, option, a).requests :: Fits(q, a)
    ensures !a.PackAction? ==> RunEntries(es, option, a).failure.Null?
    ensures RunEntries(es, option, a).failure.Value? ==> RunEntries(es, option, a).failure.value == IllegalArgument
    decreases |es|
  {
    if es != [] {
      RunEntriesFits(es[1..], option, a);
      if es[0].DirectoryLocation? && a.PackAction? {
        ApplyAllCharacterised(option + a.option, Default());
      }
    }
  }

  /**
   * An action only ever produces requests of its own kind, and only pack can
   * end in an exception: the IllegalArgumentException of a transform.
   */
  lemma {:induction false} RunFits(op: Op, a: Action)
    ensures forall q | q in Run(op, a).requests :: Fits(q, a)
    ensures !a.PackAction? ==> Run(op, a).failure.Null?
    ensures Run(op, a).failure.Value? ==> Run(op, a).failure.value == IllegalArgument
  {
    match op
    case FileOperation(_) =>
    case DirectoryOperation(_, own) =>
      if a.PackAction? {
        ApplyAllCharacterised(own + a.option, Default());
      }
    case Allocator(o, rel) =>
      match a {
        case TransferAction(m, d, t) => RunFits(o, TransferAction(m, Resolve(d, rel), t));
        case PackAction(f, _, t) => RunFits(o, PackAction(f, rel, t));
        case DeleteAction(_) => RunFits(o, a);
        case WalkAction(_, _, _) => RunFits(o, a);
      }
    case LayerOperation(o, overlay) =>
      match a {
        case TransferAction(m, d, t) => RunFits(o, TransferAction(m, d, overlay + t));
        case PackAction(f, r, t) => RunFits(o, PackAction(f, r, overlay + t));
        case DeleteAction(_) => RunFits(o, a);
        case WalkAction(_, _, _) => RunFits(o, a);
      }
    case SignalOperation(es, stored) => RunEntriesFits(es, stored, a);
  }

  lemma {:induction false} RunEntriesTransfer(es: seq<Location>, option: Transform, m: Mode, destination: Path, t: Transform)
    ensures forall q | q in RunEntries(es, option, TransferAction(m, destination, t)).requests ::
      (q.TransferFile? || q.TransferTree?) && q.destination == destination && (q.TransferTree? ==> q.option == option + t)
    decreases |es|
  {
    if es != [] {
      RunEntriesTransfer(es[1..], option, m, destination, t);
    }
  }

  /**
   * Copy and move: every request lands at the destination the Allocators
   * add up to, and every directory sees the stored transform, then the
   * layers from inside out, then the call site's.
   */
  lemma {:induction false} TransferRouting(op: Op, m: Mode, destination: Path, t: Transform)
    ensures forall q | q in Run(op, TransferAction(m, destination, t)).requests ::
      (q.TransferFile? || q.TransferTree?) && q.destination == Destination(op, destination) && (q.TransferTree? ==> q.option == CallTransform(op, t))
  {
    match op
    case FileOperation(_) =>
    case DirectoryOperation(_, _) =>
    case Allocator(o, rel) => TransferRouting(o, m, Resolve(destination, rel), t);
    case LayerOperation(o, overlay) => TransferRouting(o, m, destination, overlay + t);
    case SignalOperation(es, stored) => RunEntriesTransfer(es, stored, m, destination, t);
  }

  /** With relative Allocators, every transfer lands at or below the destination given at the call site. */
  lemma {:induction false} DestinationUnder(op: Op, destination: Path)
    requires RelativeAllocators(op)
    ensures Under(destination, Destination(op, destination))
  {
    match op
    case Allocator(o, rel) =>
      ResolveUnder(destination, rel);
      DestinationUnder(o, Resolve(destination, rel));
      UnderTrans(destination, Resolve(destination, rel), Destination(o, Resolve(destination, rel)));
    case LayerOperation(o, _) => DestinationUnder(o, destination);
    case FileOperation(_) => assert destination.segments[..|destination.segments|] == destination.segments;
    case DirectoryOperation(_, _) => assert destination.segments[..|destination.segments|] == destination.segments;
    case SignalOperation(_, _) => assert destination.segments[..|destination.segments|] == destination.segments;
  }

  /** Nested relocation: an Allocator inside an Allocator lands in destination/outer/inner. */
  lemma NestedAllocation(o: Op, inner: Path, outer: Path, destination: Path)
    requires !inner.absolute && !outer.absolute
    requires !o.Allocator? && !o.LayerOperation?
    ensures Destination(Allocator(Allocator(o, inner), outer), destination)
         == Path(destination.absolute, destination.segments + outer.segments + inner.segments)
  {
    var x := Resolve(Resolve(destination, outer), inner);
    assert x.segments == destination.segments + outer.segments + inner.segments;
    assert Destination(o, x) == x;
    assert Destination(Allocator(Allocator(o, inner), outer), destination) == Destination(o, x);
  }

  lemma {:induction false} RunEntriesPack(es: seq<Location>, option: Transform, format: EntryFormat, relative: Path, t: Transform)
    ensures forall q | q in RunEntries(es, option, PackAction(format, relative, t)).requests ::
      (q.PackFile? || q.PackTree?) && q.relative == relative && (q.PackTree? ==> q.option == option + t)
    decreases |es|
  {
    if es != [] {
      RunEntriesPack(es[1..], option, format, relative, t);
    }
  }

  /**
   * Pack: every entry is named under the innermost Allocator's relative
   * directory (the call site's when there is none), and every directory is
   * walked with the same transform chain as for copy and move.
   */
  lemma {:induction false} PackRouting(op: Op, format: EntryFormat, relative: Path, t: Transform)
    ensures forall q | q in Run(op, PackAction(format, relative, t)).requests ::
      (q.PackFile? || q.PackTree?) && q.relative == PackRelative(op, relative) && (q.PackTree? ==> q.option == CallTransform(op, t))
  {
    match op
    case FileOperation(_) =>
    case DirectoryOperation(_, _) =>
    case Allocator(o, rel) => PackRouting(o, format, rel, t);
    case LayerOperation(o, overlay) => PackRouting(o, format, relative, overlay + t);
    case SignalOperation(es, stored) => RunEntriesPack(es, stored, format, relative, t);
  }

  /** With nested Allocators, the innermost relative directory is the one entries are named under. */
  lemma InnermostPackRelative(o: Op, inner: Path, outer: Path, relative: Path)
    requires !o.Allocator? && !o.LayerOperation?
    ensures PackRelative(Allocator(Allocator(o, inner), outer), relative) == inner
  {
    assert PackRelative(Allocator(Allocator(o, inner), outer), relative) == PackRelative(o, inner);
  }

  /** Nested layers: the inner overlay runs before the outer one, and both before the call site's transform. */
  lemma LayerOrder(d: Path, own: Transform, inner: Transform, outer: Transform, t: Transform)
    ensures CallTransform(LayerOperation(LayerOperation(DirectoryOperation(d, own), inner), outer), t) == own + inner + outer + t
  {
    var layered := LayerOperation(DirectoryOperation(d, own), inner);
    assert CallTransform(LayerOperation(layered, outer), t) == CallTransform(layered, outer + t);
    assert CallTransform(layered, outer + t) == CallTransform(DirectoryOperation(d, own), inner + (outer + t));
    assert own + (inner + (outer + t)) == own + inner + outer + t;
  }

  /** Relocation and layering never change what delete and the walks select: they act as the bare operation underneath. */
  lemma {:induction false} SelectionIgnoresWrappers(op: Op, a: Action)
    requires Selects(a)
    ensures Run(op, a) == Run(Core(op), a)
    ensures Entry(op) == Entry(Core(op))
  {
    match op
    case Allocator(o, _) => SelectionIgnoresWrappers(o, a);
    case LayerOperation(o, _) => SelectionIgnoresWrappers(o, a);
    case FileOperation(_) =>
    case DirectoryOperation(_, _) =>
    case SignalOperation(_, _) =>
  }

  // Lists of operations, as a Folder holds them.

  /** `entries()`: the locations of every operation, in order. */
  function AllEntries(ops: seq<Op>): seq<Location>
    decreases |ops|
  {
    if ops == [] then [] else Entry(ops[0]) + AllEntries(ops[1..])
  }

  lemma {:induction false} AllEntriesAppend(xs: seq<Op>, ys: seq<Op>)
    ensures AllEntries(xs + ys) == AllEntries(xs) + AllEntries(ys)
    decreases |xs|
  {
    if xs == [] {
      assert xs + ys == ys;
    } else {
      assert (xs + ys)[0] == xs[0];
      assert (xs + ys)[1..] == xs[1..] + ys;
      AllEntriesAppend(xs[1..], ys);
    }
  }

  /** A location is listed exactly when some operation of the list stands for it. */
  lemma {:induction false} AllEntriesMembership(ops: seq<Op>)
    ensures forall e :: e in AllEntries(ops) <==> exists i | 0 <= i < |ops| :: e in Entry(ops[i])
    decreases |ops|
  {
    if ops != [] {
      AllEntriesMembership(ops[1..]);
      forall e
        ensures e in AllEntries(ops) <==> exists i | 0 <= i < |ops| :: e in Entry(ops[i])
      {
        if e in AllEntries(ops[1..]) {
          var j :| 0 <= j < |ops[1..]| && e in Entry(ops[1..][j]);
          assert e in Entry(ops[j + 1]);
        }
        if exists i | 0 <= i < |ops| :: e in Entry(ops[i]) {
          var i :| 0 <= i < |ops| && e in Entry(ops[i]);
          if i > 0 {
            assert e in Entry(ops[1..][i - 1]);
          }
        }
      }
    }
  }

  /** The location a request acts on: the file or the directory it carries. */
  function Carried(q: Request): Location {
    match q
    case DeleteFile(f) => FileLocation(f)
    case TransferFile(_, f, _) => FileLocation(f)
    case ListFile(_, f) => FileLocation(f)
    case PackFile(_, _, f, _) => FileLocation(f)
    case DeleteTree(d, _) => DirectoryLocation(d)
    case TransferTree(_, d, _, _) => DirectoryLocation(d)
    case WalkTree(_, d, _) => DirectoryLocation(d)
    case PackTree(_, d, _, _, _) => DirectoryLocation(d)
  }

  lemma {:induction false} RunEntriesCarries(es: seq<Location>, option: Transform, a: Action)
    ensures forall q | q in RunEntries(es, option, a).requests :: Carried(q) in es
    decreases |es|
  {
    if es != [] {
      RunEntriesCarries(es[1..], option, a);
      assert RunEntries(es, option, a) == Then(RunEntry(es[0], option, a), RunEntries(es[1..], option, a));
    }
  }

  /** Whatever the wrappers, an operation only ever acts on the locations its `entry()` stands for. */
  lemma {:induction false} RunCarriesEntries(op: Op, a: Action)
    ensures forall q | q in Run(op, a).requests :: Carried(q) in Entry(op)
  {
    match op
    case FileOperation(_) =>
    case DirectoryOperation(_, _) =>
    case Allocator(o, rel) =>
      match a {
        case TransferAction(m, d, t) => RunCarriesEntries(o, TransferAction(m, Resolve(d, rel), t));
        case PackAction(f, _, t) => RunCarriesEntries(o, PackAction(f, rel, t));
        case DeleteAction(_) => RunCarriesEntries(o, a);
        case WalkAction(_, _, _) => RunCarriesEntries(o, a);
      }
    case LayerOperation(o, overlay) =>
      match a {
        case TransferAction(m, d, t) => RunCarriesEntries(o, TransferAction(m, d, overlay + t));
        case PackAction(f, r, t) => RunCarriesEntries(o, PackAction(f, r, overlay + t));
        case DeleteAction(_) => RunCarriesEntries(o, a);
        case WalkAction(_, _, _) => RunCarriesEntries(o, a);
      }
    case SignalOperation(es, stored) => RunEntriesCarries(es, stored, a);
  }

  /** A folder's bulk actions only ever act on the folder's own entries. */
  lemma {:induction false} RunAllCarriesEntries(ops: seq<Op>, a: Action)
    ensures forall q | q in RunAll(ops, a).requests :: Carried(q) in AllEntries(ops)
    decreases |ops|
  {
    if ops != [] {
      RunCarriesEntries(ops[0], a);
      RunAllCarriesEntries(ops[1..], a);
    }
  }

  lemma {:induction false} RunAllFits(ops: seq<Op>, a: Action)
    ensures forall q | q in RunAll(ops, a).requests :: Fits(q, a)
    ensures !a.PackAction? ==> RunAll(ops, a).failure.Null?
    ensures RunAll(ops, a).failure.Value? ==> RunAll(ops, a).failure.value == IllegalArgument
    decreases |ops|
  {
    if ops != [] {
      RunFits(ops[0], a);
      RunAllFits(ops[1..], a);
    }
  }

  /** With relative Allocators only, everything copied or moved lands at or below the destination. */
  lemma {:induction false} RunAllTransferUnder(ops: seq<Op>, m: Mode, destination: Path, t: Transform)
    requires forall i | 0 <= i < |ops| :: RelativeAllocators(ops[i])
    ensures forall q | q in RunAll(ops, TransferAction(m, destination, t)).requests ::
      (q.TransferFile? || q.TransferTree?) && Under(destination, q.destination)
    decreases |ops|
  {
    if ops != [] {
      TransferRouting(ops[0], m, destination, t);
      DestinationUnder(ops[0], destination);
      forall q | q in Run(ops[0], TransferAction(m, destination, t)).requests
        ensures Under(destination, q.destination)
      {
        assert q.destination == Destination(ops[0], destination);
      }
      RunAllTransferUnder(ops[1..], m, destination, t);
    }
  }

  // The call site's transform comes last.

  /** `u` is the tail of `t`. */
  predicate EndsWith(t: Transform, u: Transform) {
    |u| <= |t| && t[|t| - |u|..] == u
  }

  lemma EndsWithTail(t: Transform, v: Transform, u: Transform)
    requires EndsWith(t, v + u)
    ensures EndsWith(t, u)
  {
    assert t[|t| - |u|..] == t[|t| - |v + u|..][|v|..];
  }

  lemma EndsWithPrefixed(v: Transform, u: Transform)
    ensures EndsWith(v + u, u)
  {
    assert (v + u)[|v + u| - |u|..] == u;
  }

  /** Requests whose transforms end with an overlay and then `t` end with `t`. */
  lemma OverlaidCallSite(qs: seq<Request>, overlay: Transform, t: Transform)
    requires forall q | q in qs && OnTree(q) :: EndsWith(q.option, overlay + t)
    ensures forall q | q in qs && OnTree(q) :: EndsWith(q.option, t)
  {
    forall q | q in qs && OnTree(q)
      ensures EndsWith(q.option, t)
    {
      EndsWithTail(q.option, overlay, t);
    }
  }

  /** What the call site contributes: the glob of the patterns for delete and the walks, its transform for copy, move and pack. */
  function CallSite(a: Action): Transform {
    match a
    case DeleteAction(patterns) => [GlobEdit(Value(patterns))]
    case TransferAction(_, _, t) => t
    case PackAction(_, _, t) => t
    case WalkAction(_, patterns, _) => [GlobEdit(Value(patterns))]
  }

  /** The request carries a transform for a directory. */
  predicate OnTree(q: Request) {
    q.DeleteTree? || q.TransferTree? || q.WalkTree? || q.PackTree?
  }

  lemma RunEntryCallSite(e: Location, option: Transform, a: Action)
    ensures forall q | q in RunEntry(e, option, a).requests && OnTree(q) :: EndsWith(q.option, CallSite(a))
  {
    EndsWithPrefixed(option, CallSite(a));
  }

  lemma {:induction false} RunEntriesCallSite(es: seq<Location>, option: Transform, a: Action)
    ensures forall q | q in RunEntries(es, option, a).requests && OnTree(q) :: EndsWith(q.option, CallSite(a))
    decreases |es|
  {
    if es != [] {
      var x, y := RunEntry(es[0], option, a), RunEntries(es[1..], option, a);
      RunEntryCallSite(es[0], option, a);
      RunEntriesCallSite(es[1..], option, a);
      assert RunEntries(es, option, a) == Then(x, y);
    }
  }

  /** Whatever the stored transforms and layers, the call site's transform is the last one a directory applies. */
  lemma {:induction false} RunCallSite(op: Op, a: Action)
    ensures forall q | q in Run(op, a).requests && OnTree(q) :: EndsWith(q.option, CallSite(a))
    decreases op, 1
  {
    match op
    case FileOperation(_) =>
    case DirectoryOperation(_, own) => EndsWithPrefixed(own, CallSite(a));
    case Allocator(o, rel) => RunAllocatorCallSite(o, rel, a);
    case LayerOperation(o, overlay) => RunLayerCallSite(o, overlay, a);
    case SignalOperation(es, stored) => RunEntriesCallSite(es, stored, a);
  }

  lemma {:induction false} RunAllocatorCallSite(o: Op, rel: Path, a: Action)
    ensures forall q | q in Run(Allocator(o, rel), a).requests && OnTree(q) :: EndsWith(q.option, CallSite(a))
    decreases Allocator(o, rel), 0
  {
    match a
    case TransferAction(m, d, t) => RunCallSite(o, TransferAction(m, Resolve(d, rel), t));
    case PackAction(f, _, t) => RunCallSite(o, PackAction(f, rel, t));
    case DeleteAction(_) => RunCallSite(o, a);
    case WalkAction(_, _, _) => RunCallSite(o, a);
  }

  lemma {:induction false} RunLayerCallSite(o: Op, overlay: Transform, a: Action)
    ensures forall q | q in Run(LayerOperation(o, overlay), a).requests && OnTree(q) :: EndsWith(q.option, CallSite(a))
    decreases LayerOperation(o, overlay), 0
  {
    match a
    case TransferAction(m, d, t) =>
      RunCallSite(o, TransferAction(m, d, overlay + t));
      OverlaidCallSite(Run(o, TransferAction(m, d, overlay + t)).requests, overlay, t);
    case PackAction(f, r, t) =>
      RunCallSite(o, PackAction(f, r, overlay + t));
      OverlaidCallSite(Run(o, PackAction(f, r, overlay + t)).requests, overlay, t);
    case DeleteAction(_) => RunCallSite(o, a);
    case WalkAction(_, _, _) => RunCallSite(o, a);
  }


  lemma {:induction false} RunAllCallSite(ops: seq<Op>, a: Action)
    ensures forall q | q in RunAll(ops, a).requests && OnTree(q) :: EndsWith(q.option, CallSite(a))
    decreases |ops|
  {
    if ops != [] {
      RunCallSite(ops[0], a);
      RunAllCallSite(ops[1..], a);
    }
  }

  // The operations as Folder.java is written: the signal-backed operation's
  // copy, move and pack build and run with the call site's transform.

  /** `Run` with the signal-backed operation as written (`SignalAsWritten`). */
  function RunAsWritten(op: Op, a: Action): Emission
    decreases op
  {
    match op
    case FileOperation(f) => RunFile(f, a)
    case DirectoryOperation(d, own) => RunDirectory(d, own, a)
    case Allocator(o, rel) =>
      (match a
       case TransferAction(mode, destination, t) => RunAsWritten(o, TransferAction(mode, Resolve(destination, rel), t))
       case PackAction(format, _, t) => RunAsWritten(o, PackAction(format, rel, t))
       case _ => RunAsWritten(o, a))
    case LayerOperation(o, overlay) =>
      (match a
       case TransferAction(mode, destination, t) => RunAsWritten(o, TransferAction(mode, destination, overlay + t))
       case PackAction(format, relative, t) => RunAsWritten(o, PackAction(format, relative, overlay + t))
       case _ => RunAsWritten(o, a))
    case SignalOperation(es, stored) => SignalAsWritten(es, stored, a)
  }

  /** `RunAll` with the signal-backed operation as written. */
  function RunAllAsWritten(ops: seq<Op>, a: Action): Emission
    decreases |ops|
  {
    if ops == [] then Nothing else Then(RunAsWritten(ops[0], a), RunAllAsWritten(ops[1..], a))
  }

  /** The transform a directory sees on copy, move and pack as written: a signal drops its stored transform and applies the incoming one twice. */
  function CallTransformAsWritten(op: Op, t: Transform): Transform {
    match op
    case FileOperation(_) => t
    case DirectoryOperation(_, own) => own + t
    case Allocator(o, _) => CallTransformAsWritten(o, t)
    case LayerOperation(o, overlay) => CallTransformAsWritten(o, overlay + t)
    case SignalOperation(_, _) => t + t
  }

  /** As written, delete and the walks act as intended on every operation tree. */
  lemma {:induction false} RunAsWrittenSelects(op: Op, a: Action)
    requires Selects(a)
    ensures RunAsWritten(op, a) == Run(op, a)
  {
    match op
    case Allocator(o, _) => RunAsWrittenSelects(o, a);
    case LayerOperation(o, _) => RunAsWrittenSelects(o, a);
    case FileOperation(_) =>
    case DirectoryOperation(_, _) =>
    case SignalOperation(es, stored) => SignalAsWrittenSelects(es, stored, a);
  }

  /** Without a signal-backed operation underneath, the code as written and the intended operation agree on every action. */
  lemma {:induction false} RunAsWrittenWithoutSignal(op: Op, a: Action)
    requires !Core(op).SignalOperation?
    ensures RunAsWritten(op, a) == Run(op, a)
  {
    match op
    case FileOperation(_) =>
    case DirectoryOperation(_, _) =>
    case Allocator(o, rel) =>
      match a {
        case TransferAction(m, d, t) => RunAsWrittenWithoutSignal(o, TransferAction(m, Resolve(d, rel), t));
        case PackAction(f, _, t) => RunAsWrittenWithoutSignal(o, PackAction(f, rel, t));
        case DeleteAction(_) => RunAsWrittenWithoutSignal(o, a);
        case WalkAction(_, _, _) => RunAsWrittenWithoutSignal(o, a);
      }
    case LayerOperation(o, overlay) =>
      match a {
        case TransferAction(m, d, t) => RunAsWrittenWithoutSignal(o, TransferAction(m, d, overlay + t));
        case PackAction(f, r, t) => RunAsWrittenWithoutSignal(o, PackAction(f, r, overlay + t));
        case DeleteAction(_) => RunAsWrittenWithoutSignal(o, a);
        case WalkAction(_, _, _) => RunAsWrittenWithoutSignal(o, a);
      }
  }

  /** As written, too, an action yields requests of its own kind only, and only pack fails, with IllegalArgumentException. */
  lemma {:induction false} RunAsWrittenFits(op: Op, a: Action)
    ensures forall q | q in RunAsWritten(op, a).requests :: Fits(q, a)
    ensures !a.PackAction? ==> RunAsWritten(op, a).failure.Null?
    ensures RunAsWritten(op, a).failure.Value? ==> RunAsWritten(op, a).failure.value == IllegalArgument
  {
    match op
    case FileOperation(_) =>
    case DirectoryOperation(_, own) =>
      if a.PackAction? {
        ApplyAllCharacterised(own + a.option, Default());
      }
    case Allocator(o, rel) =>
      match a {
        case TransferAction(m, d, t) => RunAsWrittenFits(o, TransferAction(m, Resolve(d, rel), t));
        case PackAction(f, _, t) => RunAsWrittenFits(o, PackAction(f, rel, t));
        case DeleteAction(_) => RunAsWrittenFits(o, a);
        case WalkAction(_, _, _) => RunAsWrittenFits(o, a);
      }
    case LayerOperation(o, overlay) =>
      match a {
        case TransferAction(m, d, t) => RunAsWrittenFits(o, TransferAction(m, d, overlay + t));
        case PackAction(f, r, t) => RunAsWrittenFits(o, PackAction(f, r, overlay + t));
        case DeleteAction(_) => RunAsWrittenFits(o, a);
        case WalkAction(_, _, _) => RunAsWrittenFits(o, a);
      }
    case SignalOperation(es, stored) =>
      match a {
        case TransferAction(_, _, t) => RunEntriesFits(es, t, a);
        case PackAction(_, _, t) => RunEntriesFits(es, t, a);
        case DeleteAction(_) => RunEntriesFits(es, stored, a);
        case WalkAction(_, _, _) => RunEntriesFits(es, stored, a);
      }
  }

  /** As written, copy and move still land where the Allocators add up to; a signal's directories see the incoming transform twice. */
  lemma {:induction false} RunAsWrittenTransferRouting(op: Op, m: Mode, destination: Path, t: Transform)
    ensures forall q | q in RunAsWritten(op, TransferAction(m, destination, t)).requests ::
      (q.TransferFile? || q.TransferTree?) && q.destination == Destination(op, destination) && (q.TransferTree? ==> q.option == CallTransformAsWritten(op, t))
  {
    match op
    case FileOperation(_) =>
    case DirectoryOperation(_, _) =>
    case Allocator(o, rel) => RunAsWrittenTransferRouting(o, m, Resolve(destination, rel), t);
    case LayerOperation(o, overlay) => RunAsWrittenTransferRouting(o, m, destination, overlay + t);
    case SignalOperation(es, _) => RunEntriesTransfer(es, t, m, destination, t);
  }

  /** As written, pack still names entries under the innermost Allocator's relative directory; a signal's directories see the incoming transform twice. */
  lemma {:induction false} RunAsWrittenPackRouting(op: Op, format: EntryFormat, relative: Path, t: Transform)
    ensures forall q | q in RunAsWritten(op, PackAction(format, relative, t)).requests ::
      (q.PackFile? || q.PackTree?) && q.relative == PackRelative(op, relative) && (q.PackTree? ==> q.option == CallTransformAsWritten(op, t))
  {
    match op
    case FileOperation(_) =>
    case DirectoryOperation(_, _) =>
    case Allocator(o, rel) => RunAsWrittenPackRouting(o, format, rel, t);
    case LayerOperation(o, overlay) => RunAsWrittenPackRouting(o, format, relative, overlay + t);
    case SignalOperation(es, _) => RunEntriesPack(es, t, format, relative, t);
  }

  /** As written, the call site's transform is still the last one every directory applies. */
  lemma {:induction false} RunAsWrittenCallSite(op: Op, a: Action)
    ensures forall q | q in RunAsWritten(op, a).requests && OnTree(q) :: EndsWith(q.option, CallSite(a))
    decreases op, 1
  {
    match op
    case FileOperation(_) =>
    case DirectoryOperation(_, own) => EndsWithPrefixed(own, CallSite(a));
    case Allocator(o, rel) => RunAsWrittenAllocatorCallSite(o, rel, a);
    case LayerOperation(o, overlay) => RunAsWrittenLayerCallSite(o, overlay, a);
    case SignalOperation(es, stored) =>
      match a {
        case TransferAction(_, _, t) => RunEntriesCallSite(es, t, a);
        case PackAction(_, _, t) => RunEntriesCallSite(es, t, a);
        case DeleteAction(_) => RunEntriesCallSite(es, stored, a);
        case WalkAction(_, _, _) => RunEntriesCallSite(es, stored, a);
      }
  }

  lemma {:induction false} RunAsWrittenAllocatorCallSite(o: Op, rel: Path, a: Action)
    ensures forall q | q in RunAsWritten(Allocator(o, rel), a).requests && OnTree(q) :: EndsWith(q.option, CallSite(a))
    decreases Allocator(o, rel), 0
  {
    match a
    case TransferAction(m, d, t) => RunAsWrittenCallSite(o, TransferAction(m, Resolve(d, rel), t));
    case PackAction(f, _, t) => RunAsWrittenCallSite(o, PackAction(f, rel, t));
    case DeleteAction(_) => RunAsWrittenCallSite(o, a);
    case WalkAction(_, _, _) => RunAsWrittenCallSite(o, a);
  }

  lemma {:induction false} RunAsWrittenLayerCallSite(o: Op, overlay: Transform, a: Action)
    ensures forall q | q in RunAsWritten(LayerOperation(o, overlay), a).requests && OnTree(q) :: EndsWith(q.option, CallSite(a))
    decreases LayerOperation(o, overlay), 0
  {
    match a
    case TransferAction(m, d, t) =>
      RunAsWrittenCallSite(o, TransferAction(m, d, overlay + t));
      OverlaidCallSite(RunAsWritten(o, TransferAction(m, d, overlay + t)).requests, overlay, t);
    case PackAction(f, r, t) =>
      RunAsWrittenCallSite(o, PackAction(f, r, overlay + t));
      OverlaidCallSite(RunAsWritten(o, PackAction(f, r, overlay + t)).requests, overlay, t);
    case DeleteAction(_) => RunAsWrittenCallSite(o, a);
    case WalkAction(_, _, _) => RunAsWrittenCallSite(o, a);
  }


  // The same over lists of operations.

  lemma {:induction false} RunAllAsWrittenSelects(ops: seq<Op>, a: Action)
    requires Selects(a)
    ensures RunAllAsWritten(ops, a) == RunAll(ops, a)
    decreases |ops|
  {
    if ops != [] {
      RunAsWrittenSelects(ops[0], a);
      RunAllAsWrittenSelects(ops[1..], a);
    }
  }

  lemma {:induction false} RunAllAsWrittenWithoutSignal(ops: seq<Op>, a: Action)
    requires forall i | 0 <= i < |ops| :: !Core(ops[i]).SignalOperation?
    ensures RunAllAsWritten(ops, a) == RunAll(ops, a)
    decreases |ops|
  {
    if ops != [] {
      RunAsWrittenWithoutSignal(ops[0], a);
      RunAllAsWrittenWithoutSignal(ops[1..], a);
    }
  }

  lemma {:induction false} RunAllAsWrittenFits(ops: seq<Op>, a: Action)
    ensures forall q | q in RunAllAsWritten(ops, a).requests :: Fits(q, a)
    ensures !a.PackAction? ==> RunAllAsWritten(ops, a).failure.Null?
    ensures RunAllAsWritten(ops, a).failure.Value? ==> RunAllAsWritten(ops, a).failure.value == IllegalArgument
    decreases |ops|
  {
    if ops != [] {
      RunAsWrittenFits(ops[0], a);
      RunAllAsWrittenFits(ops[1..], a);
    }
  }

  lemma {:induction false} RunAllAsWrittenCallSite(ops: seq<Op>, a: Action)
    ensures forall q | q in RunAllAsWritten(ops, a).requests && OnTree(q) :: EndsWith(q.option, CallSite(a))
    decreases |ops|
  {
    if ops != [] {
      RunAsWrittenCallSite(ops[0], a);
      RunAllAsWrittenCallSite(ops[1..], a);
    }
  }

  lemma {:induction false} RunAllAsWrittenTransferUnder(ops: seq<Op>, m: Mode, destination: Path, t: Transform)
    requires forall i | 0 <= i < |ops| :: RelativeAllocators(ops[i])
    ensures forall q | q in RunAllAsWritten(ops, TransferAction(m, destination, t)).requests ::
      (q.TransferFile? || q.TransferTree?) && Under(destination, q.destination)
    decreases |ops|
  {
    if ops != [] {
      RunAsWrittenTransferRouting(ops[0], m, destination, t);
      DestinationUnder(ops[0], destination);
      forall q | q in RunAsWritten(ops[0], TransferAction(m, destination, t)).requests
        ensures Under(destination, q.destination)
      {
        assert q.destination == Destination(ops[0], destination);
      }
      RunAllAsWrittenTransferUnder(ops[1..], m, destination, t);
    }
  }

  /**
   * A folder holding one directory added through a signal with `ignoreRoot`,
   * copied with the patterns `ps`: as written the copy applies `glob(ps)`
   * twice and loses `ignoreRoot`; as intended it applies `ignoreRoot`, then `glob(ps)`.
   */
  lemma FolderShadowingExample(d: Path, destination: Path, ps: seq<string>)
    ensures RunAllAsWritten([SignalOperation([DirectoryLocation(d)], [IgnoreRootEdit])], TransferAction(Copy, destination, [GlobEdit(Value(ps))]))
         == Emit([TransferTree(Copy, d, destination, [GlobEdit(Value(ps)), GlobEdit(Value(ps))])])
    ensures RunAll([SignalOperation([DirectoryLocation(d)], [IgnoreRootEdit])], TransferAction(Copy, destination, [GlobEdit(Value(ps))]))
         == Emit([TransferTree(Copy, d, destination, [IgnoreRootEdit, GlobEdit(Value(ps))])])
  {
    var ops := [SignalOperation([DirectoryLocation(d)], [IgnoreRootEdit])];
    var ds := [DirectoryLocation(d)];
    var g: Transform := [GlobEdit(Value(ps))];
    var a := TransferAction(Copy, destination, g);
    assert ops[1..] == [] && ds[1..] == [];
    assert RunEntries(ds, g, a) == Then(RunDirectory(d, g, a), Nothing);
    assert RunEntries(ds, [IgnoreRootEdit], a) == Then(RunDirectory(d, [IgnoreRootEdit], a), Nothing);
    ThenNothing(RunDirectory(d, g, a));
    ThenNothing(RunDirectory(d, [IgnoreRootEdit], a));
    assert RunAsWritten(ops[0], a) == RunEntries(ds, g, a) == Emit([TransferTree(Copy, d, destination, g + g)]);
    assert Run(ops[0], a) == RunEntries(ds, [IgnoreRootEdit], a) == Emit([TransferTree(Copy, d, destination, [IgnoreRootEdit] + g)]);
    assert RunAllAsWritten(ops, a) == Then(RunAsWritten(ops[0], a), Nothing);
    assert RunAll(ops, a) == Then(Run(ops[0], a), Nothing);
    assert g + g == [GlobEdit(Value(ps)), GlobEdit(Value(ps))];
    assert [IgnoreRootEdit] + g == [IgnoreRootEdit, GlobEdit(Value(ps))];
    ThenNothing(RunAsWritten(ops[0], a));
    ThenNothing(Run(ops[0], a));
  }
}
