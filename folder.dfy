/**
 * psychopath.Folder: a virtual folder. It is an ordered list of operations
 * that its add methods extend in place; every bulk action runs over that
 * list in order, and its streams concatenate.
 */
module Folders {
  import opened Wrappers
  import opened Paths
  import opened Options
  import opened Files
  import opened Operations

  /** The extension an archive format is written with; `detectEntryBuilder` is its inverse. */
  function FormatExtension(f: EntryFormat): string {
    match f
    case Jar => "jar"
    case Zip => "zip"
    case SevenZ => "7z"
  }

  /** `detectEntryBuilder(extension)`: the entry type of a jar, zip or 7z archive; any other extension throws. */
  function DetectEntryBuilder(extension: string): (r: Result<EntryFormat>)
    ensures r.Ok? ==> FormatExtension(r.value) == extension
    ensures r.Err? ==> r.error == UnknownArchiveFormat
  {
    if extension == "jar" then Ok(Jar)
    else if extension == "zip" then Ok(Zip)
    else if extension == "7z" then Ok(SevenZ)
    else Err(UnknownArchiveFormat)
  }

  /** Every format is detected from its own extension, and only from it. */
  lemma DetectRoundTrip(f: EntryFormat, extension: string)
    ensures DetectEntryBuilder(FormatExtension(f)) == Ok(f)
    ensures DetectEntryBuilder(extension).Ok? <==> exists g :: FormatExtension(g) == extension
  {
    if exists g :: FormatExtension(g) == extension {
      var g :| FormatExtension(g) == extension;
      assert DetectEntryBuilder(FormatExtension(g)) == Ok(g);
    }
  }

  /** `add(entries, option)` wraps each operation of `entries` in a LayerOperation. */
  function Layered(ops: seq<Op>, t: Transform): (r: seq<Op>)
    ensures |r| == |ops|
    ensures forall i | 0 <= i < |ops| :: r[i] == LayerOperation(ops[i], t)
  {
    seq(|ops|, i requires 0 <= i < |ops| => LayerOperation(ops[i], t))
  }

  /** `addIn(relative, entries)` wraps each operation of the new folder in an Allocator. */
  function Allocated(ops: seq<Op>, relative: Path): (r: seq<Op>)
    ensures |r| == |ops|
    ensures forall i | 0 <= i < |ops| :: r[i] == Allocator(ops[i], relative)
  {
    seq(|ops|, i requires 0 <= i < |ops| => Allocator(ops[i], relative))
  }

  /**
   * A folder merged with an overlay transform acts as the original one whose
   * copies, moves and packs see the overlay before the call site's
   * transform; delete and the walks are unchanged.
   */
  lemma {:induction false} LayeredRun(ops: seq<Op>, t: Transform, a: Action, m: Mode, destination: Path, format: EntryFormat, relative: Path, u: Transform)
    ensures Selects(a) ==> RunAll(Layered(ops, t), a) == RunAll(ops, a)
    ensures RunAll(Layered(ops, t), TransferAction(m, destination, u)) == RunAll(ops, TransferAction(m, destination, t + u))
    ensures RunAll(Layered(ops, t), PackAction(format, relative, u)) == RunAll(ops, PackAction(format, relative, t + u))
    decreases |ops|
  {
    if ops != [] {
      assert Layered(ops, t)[1..] == Layered(ops[1..], t);
      LayeredRun(ops[1..], t, a, m, destination, format, relative, u);
    }
  }

  /**
   * A folder added under a relative directory acts as the original one whose
   * copies and moves land in `destination.resolve(relative)` and whose packs
   * name entries under `relative`; delete and the walks are unchanged.
   */
  lemma {:induction false} AllocatedRun(ops: seq<Op>, rel: Path, a: Action, m: Mode, destination: Path, format: EntryFormat, relative: Path, u: Transform)
    ensures Selects(a) ==> RunAll(Allocated(ops, rel), a) == RunAll(ops, a)
    ensures RunAll(Allocated(ops, rel), TransferAction(m, destination, u)) == RunAll(ops, TransferAction(m, Resolve(destination, rel), u))
    ensures RunAll(Allocated(ops, rel), PackAction(format, relative, u)) == RunAll(ops, PackAction(format, rel, u))
    decreases |ops|
  {
    if ops != [] {
      assert Allocated(ops, rel)[1..] == Allocated(ops[1..], rel);
      AllocatedRun(ops[1..], rel, a, m, destination, format, relative, u);
    }
  }

  /** Wrapping operations in layers or in Allocators keeps the locations they stand for. */
  lemma {:induction false} WrappedEntries(ops: seq<Op>, t: Transform, rel: Path)
    ensures AllEntries(Layered(ops, t)) == AllEntries(ops)
    ensures AllEntries(Allocated(ops, rel)) == AllEntries(ops)
    decreases |ops|
  {
    if ops != [] {
      assert Layered(ops, t)[1..] == Layered(ops[1..], t);
      assert Allocated(ops, rel)[1..] == Allocated(ops[1..], rel);
      WrappedEntries(ops[1..], t, rel);
    }
  }

  /** A transform followed by `glob(z)` selects by its own patterns, then `z`. */
  lemma GlobAfter(x: Transform, z: seq<string>)
    ensures Effective(x + [GlobEdit(Value(z))]).Ok? ==> Effective(x + [GlobEdit(Value(z))]).value.patterns == Globs(x) + z
  {
    ApplyAllCharacterised(x + [GlobEdit(Value(z))], Default());
    assert Init(x + [GlobEdit(Value(z))]) == x;
  }

  /**
   * `add(a, x).add(b, y).delete(z)`: each directory is deleted through its own
   * transform followed by the glob of `z`, and that selects by the patterns
   * of its own transform followed by `z`.
   */
  lemma CompositionLaw(a: Path, x: Transform, b: Path, y: Transform, z: seq<string>)
    ensures RunAll([DirectoryOperation(a, x), DirectoryOperation(b, y)], DeleteAction(z))
         == Emit([DeleteTree(a, x + [GlobEdit(Value(z))]), DeleteTree(b, y + [GlobEdit(Value(z))])])
    ensures Effective(x + [GlobEdit(Value(z))]).Ok? ==> Effective(x + [GlobEdit(Value(z))]).value.patterns == Globs(x) + z
    ensures Effective(y + [GlobEdit(Value(z))]).Ok? ==> Effective(y + [GlobEdit(Value(z))]).value.patterns == Globs(y) + z
  {
    var ops := [DirectoryOperation(a, x), DirectoryOperation(b, y)];
    var action := DeleteAction(z);
    assert ops[1..] == [DirectoryOperation(b, y)];
    assert ops[1..][1..] == [];
    ThenNothing(Run(DirectoryOperation(b, y), action));
    assert RunAll(ops[1..], action) == Emit([DeleteTree(b, y + [GlobEdit(Value(z))])]);
    assert RunAll(ops, action) == Then(Emit([DeleteTree(a, x + [GlobEdit(Value(z))])]), RunAll(ops[1..], action));
    GlobAfter(x, z);
    GlobAfter(y, z);
  }

  class Folder {
    /** The member operations, in the order they were added. */
    var operations: seq<Op>

    constructor ()
      ensures operations == []
    {
      operations := [];
    }

    /** Every Allocator of every member relocates by a relative directory. */
    predicate RelativeAllocations()
      reads this
    {
      forall i | 0 <= i < |operations| :: RelativeAllocators(operations[i])
    }

    /** `add(Signal entries, option)`: a null signal changes nothing; otherwise one signal-backed operation is appended. */
    method AddSignal(entries: Nullable<seq<Location>>, option: Transform) returns (r: Folder)
      modifies this
      ensures r == this
      ensures operations == old(operations) + if entries.Null? then [] else [SignalOperation(entries.value, option)]
      ensures AllEntries(operations) == AllEntries(old(operations)) + if entries.Null? then [] else entries.value
    {
      if entries.Value? {
        AllEntriesAppend(operations, [SignalOperation(entries.value, option)]);
        operations := operations + [SignalOperation(entries.value, option)];
      } else {
        assert AllEntries(operations) + [] == AllEntries(operations);
      }
      r := this;
    }

    /** `add(Location entry, option)`: the signal of that one location. */
    method AddLocation(entry: Location, option: Transform) returns (r: Folder)
      modifies this
      ensures r == this
      ensures operations == old(operations) + [SignalOperation([entry], option)]
      ensures AllEntries(operations) == AllEntries(old(operations)) + [entry]
    {
      r := AddSignal(Value([entry]), option);
    }

    /** `add(String entry, option)` and `add(Path entry, option)`, given the location the entry names: null changes nothing. */
    method AddEntry(entry: Nullable<Location>, option: Transform) returns (r: Folder)
      modifies this
      ensures r == this
      ensures operations == old(operations) + if entry.Null? then [] else [SignalOperation([entry.value], option)]
      ensures AllEntries(operations) == AllEntries(old(operations)) + if entry.Null? then [] else [entry.value]
    {
      if entry.Value? {
        r := AddLocation(entry.value, option);
      } else {
        assert AllEntries(operations) + [] == AllEntries(operations);
        r := this;
      }
    }

    /** `add(Folder entries)`: the operations of `entries` are appended as they are, even when `entries` is this folder. */
    method AddFolder(entries: Nullable<Folder>) returns (r: Folder)
      modifies this
      ensures r == this
      ensures operations == old(operations) + if entries.Null? then [] else old(entries.value.operations)
      ensures AllEntries(operations) == AllEntries(old(operations)) + if entries.Null? then [] else AllEntries(old(entries.value.operations))
    {
      if entries.Value? {
        var added := entries.value.operations;
        AllEntriesAppend(operations, added);
        operations := operations + added;
      } else {
        assert AllEntries(operations) + [] == AllEntries(operations);
      }
      r := this;
    }

    /**
     * `add(Folder entries, option)`: every operation of `entries` is appended
     * inside a LayerOperation with `option`. Merging a non-empty folder into
     * itself appends one layer and then fails the list iterator's
     * modification check.
     */
    method AddFolderWith(entries: Nullable<Folder>, option: Transform) returns (r: Result<Folder>)
      modifies this
      ensures entries.Null? ==> r == Ok(this) && operations == old(operations)
      ensures entries.Value? && entries.value != this ==>
        r == Ok(this) && operations == old(operations) + Layered(old(entries.value.operations), option)
      ensures entries.Value? && entries.value == this && old(operations) == [] ==> r == Ok(this) && operations == []
      ensures entries.Value? && entries.value == this && old(operations) != [] ==>
        r == Err(ConcurrentModification) && operations == old(operations) + [LayerOperation(old(operations)[0], option)]
    {
      if entries.Null? {
        return Ok(this);
      }
      var source := entries.value;
      var cursor := 0;
      var stale := false;  // the iterated list was changed after the iterator was made
      while cursor < |source.operations|
        invariant source != this ==> source.operations == old(source.operations)
        invariant source != this ==> cursor <= |source.operations|
        invariant source != this ==> operations == old(operations) + Layered(old(source.operations)[..cursor], option)
        invariant source != this ==> !stale
        invariant source == this ==> cursor <= 1 && cursor <= |old(operations)| && (stale <==> cursor == 1)
        invariant source == this ==> operations == old(operations) + Layered(old(operations)[..cursor], option)
        decreases if source == this then (if stale then 0 else 1) else |source.operations| - cursor
      {
        if stale {
          return Err(ConcurrentModification);
        }
        var operation := source.operations[cursor];
        assert old(source.operations)[..cursor + 1] == old(source.operations)[..cursor] + [operation];
        operations := operations + [LayerOperation(operation, option)];
        cursor := cursor + 1;
        if source == this {
          stale := true;
        }
      }
      assert source != this ==> old(source.operations)[..cursor] == old(source.operations);
      assert source == this ==> cursor == 0 && old(operations) == [];
      return Ok(this);
    }

    /** `add(Directory base, option)`: a null directory changes nothing; otherwise a DirectoryOperation is appended. */
    method AddDirectory(base: Nullable<Path>, option: Transform) returns (r: Folder)
      modifies this
      ensures r == this
      ensures operations == old(operations) + if base.Null? then [] else [DirectoryOperation(base.value, option)]
      ensures AllEntries(operations) == AllEntries(old(operations)) + if base.Null? then [] else [DirectoryLocation(base.value)]
    {
      if base.Value? {
        AllEntriesAppend(operations, [DirectoryOperation(base.value, option)]);
        operations := operations + [DirectoryOperation(base.value, option)];
      } else {
        assert AllEntries(operations) + [] == AllEntries(operations);
      }
      r := this;
    }

    /** `add(Directory base, String... patterns)`: the directory with the transform `o -> o.glob(patterns)`. */
    method AddPatterns(base: Nullable<Path>, patterns: seq<string>) returns (r: Folder)
      modifies this
      ensures r == this
      ensures operations == old(operations) + if base.Null? then [] else [DirectoryOperation(base.value, [GlobEdit(Value(patterns))])]
    {
      r := AddDirectory(base, [GlobEdit(Value(patterns))]);
    }

    /**
     * `addIn(relative, entries)`, given the operations the callback leaves in
     * the fresh folder it is handed (null when there is no callback): each of
     * them is appended inside an Allocator for `relative`.
     */
    method AddIn(relative: Path, filled: Nullable<seq<Op>>) returns (r: Folder)
      modifies this
      ensures r == this
      ensures operations == old(operations) + if filled.Null? then [] else Allocated(filled.value, relative)
      ensures AllEntries(operations) == AllEntries(old(operations)) + if filled.Null? then [] else AllEntries(filled.value)
      ensures old(RelativeAllocations()) && !relative.absolute && filled.Value?
              && (forall i | 0 <= i < |filled.value| :: RelativeAllocators(filled.value[i]))
              ==> RelativeAllocations()
    {
      if filled.Value? {
        var added := Allocated(filled.value, relative);
        AllEntriesAppend(operations, added);
        WrappedEntries(filled.value, [], relative);
        operations := operations + added;
      } else {
        assert AllEntries(operations) + [] == AllEntries(operations);
      }
      r := this;
    }

    /** `delete(patterns)`: only deletions, and the folder itself adds no failure. */
    function Delete(patterns: seq<string>): (r: Emission)
      reads this
      ensures r.failure.Null?
      ensures forall q | q in r.requests :: q.DeleteFile? || q.DeleteTree?
      ensures forall q | q in r.requests && q.DeleteTree? :: EndsWith(q.option, [GlobEdit(Value(patterns))])
      ensures forall q | q in r.requests :: Carried(q) in AllEntries(operations)
    {
      RunAllFits(operations, DeleteAction(patterns));
      RunAllCarriesEntries(operations, DeleteAction(patterns));
      RunAllCallSite(operations, DeleteAction(patterns));
      RunAll(operations, DeleteAction(patterns))
    }

    /**
     * `copyTo(destination, patterns)`: a null destination throws at once;
     * otherwise only copies, the folder itself adds no failure, and with relative
     * Allocators everything lands at or below the destination.
     */
    function CopyTo(destination: Nullable<Path>, patterns: seq<string>): (r: Result<Emission>)
      reads this
      ensures r.Err? <==> destination.Null?
      ensures r.Err? ==> r.error == NullPointer
      ensures r.Ok? ==> r.value.failure.Null? && forall q | q in r.value.requests :: (q.TransferFile? || q.TransferTree?) && q.mode == Copy
      ensures r.Ok? && RelativeAllocations() ==> forall q | q in r.value.requests :: (q.TransferFile? || q.TransferTree?) && Under(destination.value, q.destination)
      ensures r.Ok? ==> forall q | q in r.value.requests && q.TransferTree? :: EndsWith(q.option, [GlobEdit(Value(patterns))])
      ensures r.Ok? ==> forall q | q in r.value.requests :: Carried(q) in AllEntries(operations)
    {
      if destination.Null? then Err(NullPointer)
      else
        var action := TransferAction(Copy, destination.value, [GlobEdit(Value(patterns))]);
        RunAllFits(operations, action);
        RunAllCallSite(operations, action);
        RunAllCarriesEntries(operations, action);
        assert RelativeAllocations() ==> forall q | q in RunAll(operations, action).requests :: Under(destination.value, q.destination) by {
          if RelativeAllocations() {
            RunAllTransferUnder(operations, Copy, destination.value, [GlobEdit(Value(patterns))]);
          }
        }
        Ok(RunAll(operations, action))
    }

    /** `moveTo(destination, patterns)`: as `copyTo`, with moves. */
    function MoveTo(destination: Nullable<Path>, patterns: seq<string>): (r: Result<Emission>)
      reads this
      ensures r.Err? <==> destination.Null?
      ensures r.Err? ==> r.error == NullPointer
      ensures r.Ok? ==> r.value.failure.Null? && forall q | q in r.value.requests :: (q.TransferFile? || q.TransferTree?) && q.mode == Move
      ensures r.Ok? && RelativeAllocations() ==> forall q | q in r.value.requests :: (q.TransferFile? || q.TransferTree?) && Under(destination.value, q.destination)
      ensures r.Ok? ==> forall q | q in r.value.requests && q.TransferTree? :: EndsWith(q.option, [GlobEdit(Value(patterns))])
      ensures r.Ok? ==> forall q | q in r.value.requests :: Carried(q) in AllEntries(operations)
    {
      if destination.Null? then Err(NullPointer)
      else
        var action := TransferAction(Move, destination.value, [GlobEdit(Value(patterns))]);
        RunAllFits(operations, action);
        RunAllCallSite(operations, action);
        RunAllCarriesEntries(operations, action);
        assert RelativeAllocations() ==> forall q | q in RunAll(operations, action).requests :: Under(destination.value, q.destination) by {
          if RelativeAllocations() {
            RunAllTransferUnder(operations, Move, destination.value, [GlobEdit(Value(patterns))]);
          }
        }
        Ok(RunAll(operations, action))
    }

    /**
     * `packTo(archive, patterns)`: an archive that is not a jar, zip or 7z
     * throws; otherwise only entries of that format are written, the call site's
     * relative directory is the empty one, and the stream can only end in
     * the IllegalArgumentException of a transform.
     */
    function PackTo(archive: Path, patterns: seq<string>): (r: Result<Emission>)
      reads this
      ensures r.Ok? <==> Extension(archive) == "jar" || Extension(archive) == "zip" || Extension(archive) == "7z"
      ensures r.Err? ==> r.error == UnknownArchiveFormat
      ensures r.Ok? ==> forall q | q in r.value.requests :: (q.PackFile? || q.PackTree?) && FormatExtension(q.format) == Extension(archive)
      ensures r.Ok? && r.value.failure.Value? ==> r.value.failure.value == IllegalArgument
      ensures r.Ok? ==> forall q | q in r.value.requests && q.PackTree? :: EndsWith(q.option, [GlobEdit(Value(patterns))])
      ensures r.Ok? ==> forall q | q in r.value.requests :: Carried(q) in AllEntries(operations)
    {
      match DetectEntryBuilder(Extension(archive))
      case Err(x) => Err(x)
      case Ok(format) =>
        var action := PackAction(format, Here, [GlobEdit(Value(patterns))]);
        RunAllFits(operations, action);
        RunAllCallSite(operations, action);
        RunAllCarriesEntries(operations, action);
        Ok(RunAll(operations, action))
    }

    /** `walkFilesWithBase(patterns)`: only files paired with their base, or directories walked for files; the folder itself adds no failure. */
    function WalkFilesWithBase(patterns: seq<string>, matches: Matcher): (r: Emission)
      reads this
      ensures r.failure.Null?
      ensures forall q | q in r.requests :: q.ListFile? || (q.WalkTree? && q.kind == FileWalk)
      ensures forall q | q in r.requests && q.WalkTree? :: EndsWith(q.option, [GlobEdit(Value(patterns))])
      ensures forall q | q in r.requests :: Carried(q) in AllEntries(operations)
    {
      RunAllFits(operations, WalkAction(FileWalk, patterns, matches));
      RunAllCallSite(operations, WalkAction(FileWalk, patterns, matches));
      RunAllCarriesEntries(operations, WalkAction(FileWalk, patterns, matches));
      RunAll(operations, WalkAction(FileWalk, patterns, matches))
    }

    /** `walkDirectoriesWithBase(patterns)`: only directories walked for directories; single files contribute nothing. */
    function WalkDirectoriesWithBase(patterns: seq<string>, matches: Matcher): (r: Emission)
      reads this
      ensures r.failure.Null?
      ensures forall q | q in r.requests :: q.WalkTree? && q.kind == DirectoryWalk
      ensures forall q | q in r.requests && q.WalkTree? :: EndsWith(q.option, [GlobEdit(Value(patterns))])
      ensures forall q | q in r.requests :: Carried(q) in AllEntries(operations)
    {
      RunAllFits(operations, WalkAction(DirectoryWalk, patterns, matches));
      RunAllCallSite(operations, WalkAction(DirectoryWalk, patterns, matches));
      RunAllCarriesEntries(operations, WalkAction(DirectoryWalk, patterns, matches));
      RunAll(operations, WalkAction(DirectoryWalk, patterns, matches))
    }

    /** `entries()`: a location is listed exactly when some member operation stands for it. */
    function Entries(): (r: seq<Location>)
      reads this
      ensures forall e :: e in r <==> exists i | 0 <= i < |operations| :: e in Entry(operations[i])
    {
      AllEntriesMembership(operations);
      AllEntries(operations)
    }

    /**
     * The bulk actions with the signal-backed operation as written: delete
     * and the walks are the ones above; copy, move and pack keep their kinds,
     * their failures, the call site's glob last and, with relative
     * Allocators, the destination bound.
     */
    lemma BulkActionsAsWritten(destination: Path, m: Mode, format: EntryFormat, relative: Path, patterns: seq<string>, matches: Matcher)
      ensures RunAllAsWritten(operations, DeleteAction(patterns)) == Delete(patterns)
      ensures RunAllAsWritten(operations, WalkAction(FileWalk, patterns, matches)) == WalkFilesWithBase(patterns, matches)
      ensures RunAllAsWritten(operations, WalkAction(DirectoryWalk, patterns, matches)) == WalkDirectoriesWithBase(patterns, matches)
      ensures var e := RunAllAsWritten(operations, TransferAction(m, destination, [GlobEdit(Value(patterns))]));
        && e.failure.Null?
        && (forall q | q in e.requests :: (q.TransferFile? || q.TransferTree?) && q.mode == m)
        && (forall q | q in e.requests && q.TransferTree? :: EndsWith(q.option, [GlobEdit(Value(patterns))]))
        && (RelativeAllocations() ==> forall q | q in e.requests :: (q.TransferFile? || q.TransferTree?) && Under(destination, q.destination))
      ensures var e := RunAllAsWritten(operations, PackAction(format, relative, [GlobEdit(Value(patterns))]));
        && (e.failure.Value? ==> e.failure.value == IllegalArgument)
        && (forall q | q in e.requests :: (q.PackFile? || q.PackTree?) && q.format == format)
        && (forall q | q in e.requests && q.PackTree? :: EndsWith(q.option, [GlobEdit(Value(patterns))]))
    {
      var g: Transform := [GlobEdit(Value(patterns))];
      RunAllAsWrittenSelects(operations, DeleteAction(patterns));
      RunAllAsWrittenSelects(operations, WalkAction(FileWalk, patterns, matches));
      RunAllAsWrittenSelects(operations, WalkAction(DirectoryWalk, patterns, matches));
      RunAllAsWrittenFits(operations, TransferAction(m, destination, g));
      RunAllAsWrittenCallSite(operations, TransferAction(m, destination, g));
      if RelativeAllocations() {
        RunAllAsWrittenTransferUnder(operations, m, destination, g);
      }
      RunAllAsWrittenFits(operations, PackAction(format, relative, g));
      RunAllAsWrittenCallSite(operations, PackAction(format, relative, g));
    }

    /** `copyToNow(destination, patterns)`: runs each operation's copy to completion, issuing exactly what `copyTo` streams. */
    method CopyToNow(destination: Nullable<Path>, patterns: seq<string>) returns (r: Result<seq<Request>>)
      ensures r.Err? <==> destination.Null?
      ensures r.Err? ==> r.error == NullPointer
      ensures r.Ok? ==> CopyTo(destination, patterns) == Ok(Emit(r.value))
    {
      if destination.Null? {
        return Err(NullPointer);
      }
      var action := TransferAction(Copy, destination.value, [GlobEdit(Value(patterns))]);
      var done: seq<Request> := [];
      for i := 0 to |operations|
        invariant Emit(done) == RunAll(operations[..i], action)
      {
        var e := Run(operations[i], action);
        RunFits(operations[i], action);
        assert operations[..i + 1] == operations[..i] + [operations[i]];
        RunAllAppend(operations[..i], [operations[i]], action);
        assert [operations[i]][1..] == [];
        ThenNothing(e);
        done := done + e.requests;
      }
      assert operations[..|operations|] == operations;
      return Ok(done);
    }
  }
}
