# Psychopath virtual folders, modelled in Dafny

Psychopath is a Java file-system library. Its `Folder` is a virtual folder.
It is an ordered list of *operations* that its `add` and `addIn` methods
extend in place. Its bulk actions (`delete`, `copyTo`, `moveTo`, `packTo`,
`walkFiles`, `walkDirectories`, `entries`) run over that list in order and
concatenate the resulting streams.

There are five kinds of operation:

- a single file;
- a directory with a stored option transform;
- an `Allocator`, which relocates another operation under a relative directory;
- a `LayerOperation`, which overlays a transform on another operation;
- the anonymous operation over a signal of locations.

Each kind routes an action differently: it may drop, keep or combine option transforms, it may relocate destinations, and it may rename archive entries.

The model has these parts:

- `wrappers.dfy`: Java's `null` and thrown exceptions as values (`Nullable`, `Result`, `Exception`).
- `paths.dfy`: the part of `java.nio.file.Path` the folder relies on: resolve, relativize, parent and resolveSibling over segment sequences.
- `files.dfy`: `File.base()`, `File.extension()` and the renamers `base(String)` and `extension(String)`.
- `options.dfy`: the `Option` record and its builders. The record is a class whose builder methods edit it in place, and each is proved against a step function on record values. A `Function<Option, Option>` made of builder calls is a `Transform`, the sequence of those calls, so `andThen` is concatenation. `ApplyAll` characterises what any transform produces.
- `operations.dfy`: the operation variants as a datatype, and `Run`, which gives the requests an action sends to `File`, `Directory` and the archive writer. A stream is an `Emission`: the requests in order, then the exception that ended it, if one did. `flatMap` is `Then`, which stops at the first failure.
- `folder.dfy`: the `Folder` class. Its field `operations` is a `seq` that the add methods reassign. Its bulk actions are functions of that field. `copyToNow` is a loop over the operations.

`File`, `Directory` and the archive writer do the real file-system work on each request. That work is outside the model: requests are values, and the directory walker and the glob matcher are not modelled.

Three behaviours of the code shape the model:

- Composing two transforms concatenates their patterns. The last `depth` call wins, the last `take` replaces the filter, and the last `allocateIn` replaces the relocation. `ignoreRoot` cannot be undone.
- A layered operation composes its overlay only for copy, move and pack. Delete and the two walks bypass it (`Operations.LayerRouting`).
- The signal-backed operation's `copyTo`, `moveTo` and `packTo` lose the stored option, because a parameter shadows it (see "## Findings"). The folder's bulk actions are modelled with the intended operation (`Operations.Run`). `Operations.RunAsWritten` is the operation as written, and `Folders.Folder.BulkActionsAsWritten` shows which of the folder's promises hold for it as well.

## Model

| member | source | states |
|---|---|---|
| Paths.Resolve | src/main/java/psychopath/Folder.java:663-673 | No contract of its own. `destination.directory(relative)` read as `Path.resolve`: an absolute argument replaces the base, and a relative one is appended to it. Its properties are `Paths.ResolveUnder` and `Paths.ResolveRelativize` |
| Paths.Relativize | src/main/java/psychopath/Folder.java:499-502 | `directory.relativize(file)`: the result is relative. Apart from that, the body drops the common prefix and climbs with ".." (`Paths.RelativizeBelow`, `Paths.ResolveRelativize`) |
| Paths.ResolveSibling | src/main/java/psychopath/File.java:66-69 | No contract of its own. `path.resolveSibling(name)` is `getParent().resolve(name)`, or `name` when there is no parent. A non-empty name replaces the last segment. The empty name gives the parent itself, because resolving an empty path is the identity. Its properties are in `Paths.SiblingKeepsParent` |
| Paths.Parent | src/main/java/psychopath/Folder.java:750-752 | The parent keeps absoluteness; appending the name gives the path back; a root is its own parent |
| Paths.RelativizeBelow | src/main/java/psychopath/Folder.java:499-502 | A file below a base relativizes to exactly the segments below the base |
| Paths.ResolveRelativize | src/main/java/psychopath/Folder.java:499-502 | Resolving the relativized path against its base gives the file back |
| Paths.SiblingKeepsParent | src/main/java/psychopath/File.java:66-69 | A sibling keeps the path's absoluteness. For a non-empty name it has the same parent and depth and carries that name; the empty name gives the parent itself |
| Paths.ResolveUnder | src/main/java/psychopath/Folder.java:663-673 | Resolving a relative directory stays at or below the starting directory |
| Paths.UnderTrans | src/main/java/psychopath/Folder.java:663-673 | Lying at or below is transitive, so nested relocations stay inside the destination |
| Files.LastIndexOf | src/main/java/psychopath/File.java:56 | The result is -1 exactly when the character is absent; otherwise that index holds it and no later index does |
| Files.Base | src/main/java/psychopath/File.java:54-58 | No contract of its own. The body is `name.lastIndexOf(".")`, then the whole name when that is -1, and `substring(0, index)` otherwise. Its properties are `Files.BaseWithoutDot`, `Files.SplitRoundTrip` and `Files.TrailingDotHasEmptyExtension` |
| Files.Extension | src/main/java/psychopath/File.java:76-80 | No contract of its own. The body is "" when `lastIndexOf(".")` is -1, and `substring(index + 1)` otherwise. Its properties are `Files.ExtensionHasNoDot` and `Files.ExtensionEmptyIff` |
| Files.WithBase | src/main/java/psychopath/File.java:66-69 | No contract of its own. The body is `resolveSibling` with the new base alone when `extension().isEmpty()`, and with `newBase + "." + extension()` otherwise. Its properties are `Files.WithBaseSpec` and `Files.WithOwnBaseIsIdentity` |
| Files.WithExtension | src/main/java/psychopath/File.java:88-90 | No contract of its own. The body is `resolveSibling(base() + "." + newExtension)`. Its properties are `Files.WithExtensionSpec` and `Files.WithOwnExtensionIsIdentity` |
| Files.LastDotOfJoin | src/main/java/psychopath/File.java:66-69 | The last '.' of `b + "." + e` is the joining one when `e` has no '.' |
| Files.ExtensionHasNoDot | src/main/java/psychopath/File.java:76-80 | An extension never contains '.' |
| Files.ExtensionEmptyIff | src/main/java/psychopath/File.java:76-80 | The extension is empty exactly when the name has no '.' or ends in '.' |
| Files.TrailingDotHasEmptyExtension | src/main/java/psychopath/File.java:54-80 | "a." has a '.', an empty extension and base "a" |
| Files.BaseWithoutDot | src/main/java/psychopath/File.java:54-58 | Without '.', the base is the whole name and the extension is empty |
| Files.SplitRoundTrip | src/main/java/psychopath/File.java:54-80 | With a '.', base + "." + extension spells the name again |
| Files.WithExtensionSpec | src/main/java/psychopath/File.java:88-90 | `extension(e)` names `base() + "." + e`; for `e` without '.' the new file reads back extension `e` and the old base |
| Files.WithBaseSpec | src/main/java/psychopath/File.java:66-69 | `base(b)` names `b` or `b + "." + extension()`; a non-empty extension is kept and `b` reads back, and so does a non-empty `b` without '.' when there was no extension. `base("")` with no extension gives the parent directory |
| Files.DottedBaseDoesNotReadBack | src/main/java/psychopath/File.java:66-69 | `base("x.y")` on "README" reads back base "x", not "x.y" |
| Files.RenamersKeepParent | src/main/java/psychopath/File.java:66-90 | Both renamers keep absoluteness and change only the last segment, except that `base("")` on a name with no extension gives the parent directory |
| Files.WithOwnBaseIsIdentity | src/main/java/psychopath/File.java:66-69 | Renaming a file with a non-empty name to its current base is the identity unless the name ends in '.' |
| Files.WithOwnExtensionIsIdentity | src/main/java/psychopath/File.java:88-90 | Renaming to the current extension is the identity when the name has a '.' |
| Options.Step | src/main/java/psychopath/Option.java:48-136 | No contract of its own. One builder call on the record: `depth` sets the depth; `glob` does nothing on null, throws on repeats, and appends otherwise; `take` replaces a non-null filter; `ignoreRoot` clears `acceptRoot`; `allocateIn` does nothing on null, throws on an absolute directory, and stores a relative one. The `Options.Option` methods are proved against it |
| Options.ApplyAll | src/main/java/psychopath/Option.java:48-136 | No contract of its own. `Function<Option, Option>` applied: the builder calls run in order, and the first one that throws ends the chain. Characterised by `Options.ApplyAllCharacterised` |
| Options.ApplyAllAppend | src/main/java/psychopath/Option.java:48-136 | Applying `t + u` is applying `t`, then `u` to its result (`andThen`) |
| Options.ApplyAllCharacterised | src/main/java/psychopath/Option.java:22-136 | A transform succeeds exactly when no call throws, and any failure is IllegalArgumentException. On success the record has the old patterns plus every glob argument, the last filter, `acceptRoot` cleared by any `ignoreRoot`, the last relocation and the last depth |
| Options.DepthLastWins | src/main/java/psychopath/Option.java:48-51 | The last `depth` call decides the depth |
| Options.LastDepthSkips | src/main/java/psychopath/Option.java:48-51 | Calls other than `depth` leave the last depth unchanged |
| Options.GlobAppendOnly | src/main/java/psychopath/Option.java:59-64 | Patterns are only ever appended, so the earlier ones stay as a prefix |
| Options.GlobGrows | src/main/java/psychopath/Option.java:59-64 | `glob` with distinct patterns adds exactly those patterns after the old ones |
| Options.GlobRejectsRepeats | src/main/java/psychopath/Option.java:59-64 | A repeated pattern throws IllegalArgumentException; `glob(null)` is a no-op |
| Options.TakeReplaces | src/main/java/psychopath/Option.java:72-77 | A second `take` replaces the filter; `take(null)` keeps it |
| Options.IgnoreRootIdempotent | src/main/java/psychopath/Option.java:91-94 | A second `ignoreRoot` changes nothing |
| Options.AbsoluteRelocationThrows | src/main/java/psychopath/Option.java:128-136 | `allocateIn` of an absolute directory makes the whole transform throw IllegalArgumentException |
| Options.DefaultIsUnrestricted | src/main/java/psychopath/Option.java:22-34 | A fresh record has no patterns, filter or relocation, accepts the root and has depth `Integer.MAX_VALUE` |
| Options.Option.constructor | src/main/java/psychopath/Option.java:22-40 | A new record is the default one |
| Options.Option.Depth | src/main/java/psychopath/Option.java:48-51 | Sets the depth in place and returns the same record |
| Options.Option.Glob | src/main/java/psychopath/Option.java:59-64 | null is a no-op; repeated patterns throw and keep the record; otherwise the patterns are appended |
| Options.Option.Take | src/main/java/psychopath/Option.java:72-77 | null keeps the filter; otherwise the filter is replaced |
| Options.Option.IgnoreRoot | src/main/java/psychopath/Option.java:91-94 | Clears `acceptRoot` in place |
| Options.Option.AllocateIn | src/main/java/psychopath/Option.java:128-136 | null is a no-op; an absolute directory throws and keeps the record; a relative one is stored |
| Operations.RunFile | src/main/java/psychopath/Folder.java:711-780 | No contract of its own. `FileOperation`: it deletes, copies or moves its one file, packs it from its parent, lists `(parent, file)` on a file walk when there are no patterns or they match, and lists nothing on a directory walk. See `Operations.FileOperationRouting` |
| Operations.RunDirectory | src/main/java/psychopath/Folder.java:786-860 | No contract of its own. `DirectoryOperation`: the stored transform, then `glob(patterns)` for delete and the walks, or the call site's transform for copy, move and pack. Pack fails when the combined transform throws. See `Operations.DirectoryOperationRouting` and `Operations.DirectoryPackBase` |
| Operations.RunEntries | src/main/java/psychopath/Folder.java:157-221 | No contract of its own. `buildOperation(entries, option).flatMap(op -> …)`: each entry's operation runs in order, and the stream stops at the first failure. See `Operations.SignalIsExpansion` |
| Operations.SignalAsWritten | src/main/java/psychopath/Folder.java:180-221 | No contract of its own. The signal-backed operation as written. `moveTo`, `copyTo` and `packTo` build and run with the call site's option, the shadowing parameter. `delete` and the walks use the stored option. See `Operations.SignalAsWrittenIgnoresStored`, `Operations.SignalAsWrittenSelects` and `Operations.SignalShadowingExample` |
| Operations.Run | src/main/java/psychopath/Folder.java:634-936 | No contract of its own. The five operation kinds: Allocator (634-705), FileOperation (711-780), DirectoryOperation (786-860) and LayerOperation (866-936), plus the signal-backed operation as intended, which builds with its stored option. Its properties are `Operations.RunFits`, `Operations.TransferRouting`, `Operations.PackRouting`, `Operations.SelectionIgnoresWrappers` and `Operations.RunCallSite` |
| Operations.RunAll | src/main/java/psychopath/Folder.java:350-351 | No contract of its own. `I.signal(operations).flatMap(op -> …)`: every operation in order, stopping at the first failure. See `Operations.RunAllAppend` and `Operations.RunAllFits` |
| Operations.Entry | src/main/java/psychopath/Folder.java:703-704 | No contract of its own. `entry()`: a file or directory stands for itself, Allocators and layers delegate (also 933-934), and a signal stands for its entries (228-230). See `Operations.SelectionIgnoresWrappers` |
| Operations.AllEntries | src/main/java/psychopath/Folder.java:487-488 | No contract of its own. `entries()`: the `entry()` of every operation, in order. See `Operations.AllEntriesAppend` and `Operations.AllEntriesMembership` |
| Operations.BuildOperations | src/main/java/psychopath/Folder.java:157-165 | Each directory location becomes a directory operation with the given option; each file becomes a file operation, in order |
| Operations.RunAllAppend | src/main/java/psychopath/Folder.java:350-351 | Running two operation lists one after the other is running their concatenation |
| Operations.SignalIsExpansion | src/main/java/psychopath/Folder.java:172-234 | The intended signal-backed operation (the corrected member of the finding) acts as the operations built from its entries with its stored option, run in order |
| Operations.SignalAgreesWithDirectUse | src/main/java/psychopath/Folder.java:172-257 | Adding one directory through a signal acts like adding a directory operation with the same option, and a file acts like a file operation |
| Operations.SignalAsWrittenIgnoresStored | src/main/java/psychopath/Folder.java:188-205 | As written, copy, move and pack of the signal-backed operation act the same whatever option was stored |
| Operations.SignalAsWrittenSelects | src/main/java/psychopath/Folder.java:180-221 | As written, delete and the walks still use the stored option |
| Operations.SignalShadowingExample | src/main/java/psychopath/Folder.java:196-197 | `add(d, o -> o.ignoreRoot()).copyTo(dest)` copies `d` without `ignoreRoot` as written; the corrected model keeps it |
| Operations.FileOperationRouting | src/main/java/psychopath/Folder.java:726-772 | Delete targets the file whatever the patterns; copy and move ignore the option; the file walk lists `(parent, file)` exactly when there are no patterns or they match; the directory walk lists nothing. A one-step unfolding: `Operations.TransferRouting`, `Operations.PackRouting` and `Operations.SelectionIgnoresWrappers` prove the routing over whole operation trees |
| Operations.DirectoryOperationRouting | src/main/java/psychopath/Folder.java:805-852 | Delete, the walks, copy and move apply the stored transform first, then the glob of the patterns or the call site's transform. A one-step unfolding; `Operations.TransferRouting` and `Operations.PackRouting` prove it over whole operation trees |
| Operations.DirectoryPackBase | src/main/java/psychopath/Folder.java:829-836 | Pack fails with the transform's exception when it throws; otherwise entries are named from the parent when the directory is not a root and the root is accepted, and from the directory itself otherwise. A one-step unfolding; `Operations.PackRouting` proves the routing over whole operation trees |
| Operations.FileEntryName | src/main/java/psychopath/Folder.java:499-502 | A packed file's entry is the relative directory plus the file's name |
| Operations.DirectoryEntryName | src/main/java/psychopath/Folder.java:499-502 | A file below a packed directory is named under the relative directory: with the directory's own name when the root is accepted, without it when it is ignored |
| Operations.LayerRouting | src/main/java/psychopath/Folder.java:885-935 | The overlay comes before the call site's transform for copy, move and pack; delete, the walks and `entry()` go through unchanged. A one-step unfolding; `Operations.TransferRouting`, `Operations.PackRouting` and `Operations.SelectionIgnoresWrappers` prove it over whole operation trees |
| Operations.AllocatorRouting | src/main/java/psychopath/Folder.java:655-705 | Copy and move go to `destination.directory(relative)`; pack replaces the incoming relative directory with the Allocator's own; delete, the walks and `entry()` go through unchanged. A one-step unfolding; `Operations.TransferRouting`, `Operations.PackRouting` and `Operations.SelectionIgnoresWrappers` prove it over whole operation trees |
| Operations.RunFits | src/main/java/psychopath/Folder.java:634-936 | Every request has the action's kind, transfer mode and archive format; only pack can fail, and only with IllegalArgumentException |
| Operations.TransferRouting | src/main/java/psychopath/Folder.java:663-673 | Every copy and move lands where the Allocators add up to. Every directory sees the stored transform, then the layers from inside out, then the call site's transform. This is for the intended signal operation; `Operations.RunAsWrittenTransferRouting` gives the code as written |
| Operations.DestinationUnder | src/main/java/psychopath/Folder.java:663-673 | With relative Allocators, that landing place lies at or below the destination |
| Operations.NestedAllocation | src/main/java/psychopath/Folder.java:282-343 | Nested `addIn` lands in destination/outer/inner |
| Operations.PackRouting | src/main/java/psychopath/Folder.java:679-681 | Every packed entry is named under the innermost Allocator's relative directory, or the call site's when there is none. Every directory gets the same transform chain as for copy. This is for the intended signal operation; `Operations.RunAsWrittenPackRouting` gives the code as written |
| Operations.InnermostPackRelative | src/main/java/psychopath/Folder.java:679-681 | With nested Allocators the innermost relative directory wins for pack |
| Operations.LayerOrder | src/main/java/psychopath/Folder.java:893-911 | Nested layers apply stored, then inner, then outer overlay, then the call site's transform |
| Operations.SelectionIgnoresWrappers | src/main/java/psychopath/Folder.java:655-697 | Allocators and layers never change what delete and the walks select, or the entries |
| Operations.AllEntriesAppend | src/main/java/psychopath/Folder.java:487-488 | The entries of two operation lists concatenate |
| Operations.AllEntriesMembership | src/main/java/psychopath/Folder.java:487-488 | A location is listed exactly when some operation stands for it |
| Operations.RunCarriesEntries | src/main/java/psychopath/Folder.java:634-936 | Whatever the wrappers and the action, every request acts on a location the operation's `entry()` stands for |
| Operations.RunAllCarriesEntries | src/main/java/psychopath/Folder.java:350-488 | Every request of a whole list acts on one of the list's entries |
| Operations.RunAllFits | src/main/java/psychopath/Folder.java:350-479 | Over a whole list: the action's kinds only; only pack fails, with IllegalArgumentException |
| Operations.RunAllTransferUnder | src/main/java/psychopath/Folder.java:370-397 | With relative Allocators, everything a folder copies or moves lands at or below the destination |
| Operations.RunCallSite | src/main/java/psychopath/Folder.java:805-911 | Whatever the stored transforms and layers, every directory applies the call site's transform last (for delete and the walks, the glob of the patterns) |
| Operations.RunAllCallSite | src/main/java/psychopath/Folder.java:350-479 | The same over a whole operation list |
| Operations.RunAsWritten | src/main/java/psychopath/Folder.java:634-936 | No contract of its own. `Operations.Run` with the signal-backed operation as written (`Operations.SignalAsWritten`) |
| Operations.RunAllAsWritten | src/main/java/psychopath/Folder.java:350-351 | No contract of its own. `Operations.RunAll` over `Operations.RunAsWritten` |
| Operations.RunAsWrittenSelects | src/main/java/psychopath/Folder.java:180-221 | As written, delete and the walks of any operation tree act as intended |
| Operations.RunAsWrittenWithoutSignal | src/main/java/psychopath/Folder.java:188-205 | An operation tree with no signal-backed operation at its core acts the same as written and as intended, on every action |
| Operations.RunAsWrittenFits | src/main/java/psychopath/Folder.java:172-234 | As written, every request still has the action's kind, mode and format; only pack fails, with IllegalArgumentException |
| Operations.RunAsWrittenTransferRouting | src/main/java/psychopath/Folder.java:188-197 | As written, copies and moves land where the Allocators add up to; a signal's directories drop the stored transform and apply the incoming one twice |
| Operations.RunAsWrittenPackRouting | src/main/java/psychopath/Folder.java:204-205 | As written, entries are named under the innermost Allocator's relative directory; a signal's packed directories apply the incoming transform twice |
| Operations.RunAsWrittenCallSite | src/main/java/psychopath/Folder.java:188-205 | As written, the call site's transform is still the last one every directory applies |
| Operations.RunAllAsWrittenSelects | src/main/java/psychopath/Folder.java:350-479 | Over a whole list: delete and the walks act as intended |
| Operations.RunAllAsWrittenWithoutSignal | src/main/java/psychopath/Folder.java:350-479 | A list without signal-backed operations acts the same as written and as intended |
| Operations.RunAllAsWrittenFits | src/main/java/psychopath/Folder.java:350-479 | Over a whole list, as written: the action's kinds only; only pack fails, with IllegalArgumentException |
| Operations.RunAllAsWrittenCallSite | src/main/java/psychopath/Folder.java:350-479 | Over a whole list, as written: the call site's transform comes last |
| Operations.RunAllAsWrittenTransferUnder | src/main/java/psychopath/Folder.java:370-397 | As written, with relative Allocators everything copied or moved lands at or below the destination |
| Operations.FolderShadowingExample | src/main/java/psychopath/Folder.java:196-197 | A folder of one signal directory stored with `ignoreRoot`, copied with patterns: as written the copy applies `glob(ps)` twice and loses `ignoreRoot`; as intended it applies `ignoreRoot` and then `glob(ps)` |
| Folders.DetectEntryBuilder | src/main/java/psychopath/Folder.java:518-545 | A detected format's extension is the one given; anything other than jar, zip or 7z throws |
| Folders.DetectRoundTrip | src/main/java/psychopath/Folder.java:518-545 | Every format is detected from its own extension, and only those extensions are detected |
| Folders.Layered | src/main/java/psychopath/Folder.java:112-119 | Each operation is wrapped in a layer with the option, in order |
| Folders.Allocated | src/main/java/psychopath/Folder.java:336-343 | Each operation is wrapped in an Allocator for the relative directory, in order |
| Folders.LayeredRun | src/main/java/psychopath/Folder.java:112-119 | A merged folder with an overlay copies, moves and packs with the overlay before the call site's transform; its delete and walks are unchanged |
| Folders.AllocatedRun | src/main/java/psychopath/Folder.java:336-343 | A folder added under a relative directory copies and moves into `destination.resolve(relative)` and packs under `relative`; its delete and walks are unchanged |
| Folders.WrappedEntries | src/main/java/psychopath/Folder.java:703-704 | Wrapping operations in Allocators, or in layers (whose `entry()` at Folder.java:933-934 also delegates), leaves the entries unchanged |
| Folders.CompositionLaw | src/main/java/psychopath/Folder.java:252-257 | `add(a, x).add(b, y).delete(z)` deletes `a` through `x` then `glob(z)`, and `b` through `y` then `glob(z)`; each selects by its own patterns followed by `z` |
| Folders.Folder.constructor | src/main/java/psychopath/Folder.java:44-45 | A new folder has no operations |
| Folders.Folder.AddSignal | src/main/java/psychopath/Folder.java:172-234 | null changes nothing; otherwise one signal-backed operation with the option is appended and its locations join the entries |
| Folders.Folder.AddLocation | src/main/java/psychopath/Folder.java:127-139 | Appends the signal of that one location |
| Folders.Folder.AddEntry | src/main/java/psychopath/Folder.java:53-91 | A null entry changes nothing; otherwise its location is appended as a signal |
| Folders.Folder.AddFolder | src/main/java/psychopath/Folder.java:99-104 | Appends the other folder's operations as they are, even when it is this folder; null changes nothing |
| Folders.Folder.AddFolderWith | src/main/java/psychopath/Folder.java:112-119 | Appends every operation of the other folder inside a layer; merging a non-empty folder into itself appends one layer and then throws ConcurrentModificationException |
| Folders.Folder.AddDirectory | src/main/java/psychopath/Folder.java:252-257 | A null directory changes nothing; otherwise a directory operation with the option is appended |
| Folders.Folder.AddPatterns | src/main/java/psychopath/Folder.java:242-244 | Appends the directory with the transform `o -> o.glob(patterns)` |
| Folders.Folder.AddIn | src/main/java/psychopath/Folder.java:336-343 | Appends every operation the callback left in the fresh folder, inside an Allocator; the entries grow by theirs; relative relocations stay relative |
| Folders.Folder.Delete | src/main/java/psychopath/Folder.java:350-352 | Only deletions. Folder's own code adds no failure; carrying out the requests is outside the model. Every directory is deleted through a transform ending in `glob(patterns)`. Every request acts on one of the folder's own entries |
| Folders.Folder.CopyTo | src/main/java/psychopath/Folder.java:370-374 | A null destination throws NullPointerException. Otherwise: only copies, and Folder's own code adds no failure (carrying out the requests is outside the model). Every directory's transform ends in `o -> o.glob(patterns)`. With relative Allocators, everything lands at or below the destination. Every request acts on one of the folder's own entries |
| Folders.Folder.MoveTo | src/main/java/psychopath/Folder.java:394-398 | As copyTo, with moves |
| Folders.Folder.PackTo | src/main/java/psychopath/Folder.java:416-433 | An archive that is not jar, zip or 7z throws. Otherwise: only entries of the archive's format, every directory walked through a transform ending in `glob(patterns)`, and any failure is IllegalArgumentException. Every request acts on one of the folder's own entries |
| Folders.Folder.WalkFilesWithBase | src/main/java/psychopath/Folder.java:460-462 | Only `(base, file)` pairs and directory walks for files, each walk through a transform ending in `glob(patterns)`. Folder's own code adds no failure; carrying out the requests is outside the model. Every request acts on one of the folder's own entries |
| Folders.Folder.WalkDirectoriesWithBase | src/main/java/psychopath/Folder.java:478-480 | Only directory walks for directories, each through a transform ending in `glob(patterns)`; single files contribute nothing. Every request acts on one of the folder's own entries |
| Folders.Folder.Entries | src/main/java/psychopath/Folder.java:487-489 | A location is listed exactly when some member operation stands for it |
| Folders.Folder.BulkActionsAsWritten | src/main/java/psychopath/Folder.java:350-480 | With the signal operation as written: delete and the walks give exactly the folder's results; copy and move give only requests of their mode that never fail, apply `glob(patterns)` last and stay below the destination with relative Allocators; pack gives only its format, the glob last, and fails only with IllegalArgumentException |
| Folders.Folder.CopyToNow | src/main/java/psychopath/Folder.java:381-387 | Runs each operation's copy in turn and issues exactly the requests `copyTo` streams; a null destination throws |

## Left out

- The directory walker and the glob matcher: `Directory.walkFiles`, `walkDirectories`, `copyTo`, `moveTo` and `delete` with an option are requests here, not traversals. `File.match` is a `Matcher` parameter of the walk action.
- I/O: archive streams, writing entries, transferring bytes, `ArchiveStreamFactory` and its `7z-override` name, and the `IOException` paths of `pack` and `packTo`.
- Signals are modelled as finite sequences, not lazy publishers: subscription, disposal and completion after an error are out.
- Options.Step: `glob` adds `Set.of(patterns)`, whose iteration order Java leaves unspecified; the model appends in argument order, and `Options.GlobGrows` promises only the multiset. `Options.ApplyAllCharacterised` and `Folders.CompositionLaw` state the patterns in argument order, and so depend on that choice.
- Null elements inside pattern arrays (`Set.of` throws NullPointerException), null varargs arrays, a null `Location` given to `add(Location)`, a null `relative` in `addIn` and a null archive in `packTo`: the model's arguments are never null in those places.
- `Locator` is not part of this model. `add(String)` and `add(Path)` receive the location `Locator.locate` finds (`Folders.Folder.AddEntry`). `Directory.directory(relative)` is taken to be `Path.resolve`. `isRoot` means no segments. `isDirectory` is the `Location` constructor.
- Option filters (`BiPredicate`) are known only by identity. A `Function<Option, Option>` is restricted to chains of builder calls. `Function.identity()`, used by the one-argument `add` overloads, is the empty transform.
- `allocateIn(String)`, `allocateIn(Path)`, `addIn(String, …)` and `addIn(Path, …)` only convert their argument through `Locator`.
- Folders.Folder.AddIn: the `Consumer` callback is represented by the operations it leaves in the fresh folder; its other side effects are not modelled.
- `walkFiles` and `walkDirectories` only drop the base of each pair their `WithBase` forms produce, and the files a walk finds are not modelled, so they add nothing here.
- `deleteNow`, `moveToNow` and `packToNow` drain the same stream as `delete`, `moveTo` and `packTo`; only `copyToNow`, which loops over the operations itself, has its own member.
- Folders.Folder.PackTo: `detectEntryBuilder` throws a `java.lang.Error` when the stream is subscribed; the model returns it as the failure of the call.
- Files.WithOwnBaseIsIdentity: requires a non-empty name. A Java path never has an empty last name, but the model's `Path` admits one, and for it `base("")` gives the parent.
- Paths: separators, drive letters and normalisation are out. `Paths.Parent` of a root is the root itself, whereas Java's `getParent()` returns null. The core never takes the parent of a root: files are never roots, and `PackBase` checks `!IsRoot` first. Archive entry names are segment sequences, not `/`-joined strings.
- Thread safety: a folder is not synchronised.
- Folders.Folder.CopyTo: runs the signal-backed operation as intended (`Operations.Run`), not as written. As written, a signal's directories are copied with the call site's transform twice and without their stored option (`Operations.FolderShadowingExample`). The other promises hold for the code as written too (`Folders.Folder.BulkActionsAsWritten`).
- Folders.Folder.MoveTo: the same as `Folders.Folder.CopyTo`, for moves.
- Folders.Folder.PackTo: runs the signal-backed operation as intended. As written, a signal's directories are packed with the call site's transform twice, and their stored option is dropped, `ignoreRoot` included, which decides the entry names. Kinds, failures and the glob coming last hold as written too (`Folders.Folder.BulkActionsAsWritten`).
- Folders.Folder.CopyToNow: issues what the intended `Folders.Folder.CopyTo` issues, with the same difference from the code as written.

## Findings

| source | as written | input that shows it | evidently intended | confidence | as-written member | corrected member |
|---|---|---|---|---|---|---|
| src/main/java/psychopath/Folder.java:188-205 | In `moveTo`, `copyTo` and `packTo` of the signal-backed operation, the parameter `option` shadows the stored option. `buildOperation` therefore builds the directory operations with the call site's transform, which they then apply a second time, and the stored transform is lost. | `add(location of directory d, o -> o.ignoreRoot()).copyTo(dest)` copies `d` through `glob()` only; `ignoreRoot` is dropped | The stored option first, then the call site's, as `DirectoryOperation` and `delete` do | high; not executed | Operations.SignalAsWritten, Operations.SignalShadowingExample, Operations.FolderShadowingExample | Operations.Run, Operations.SignalAgreesWithDirectUse |
