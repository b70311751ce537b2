# go-vfs composition layer, modelled in Dafny

This project models the read-only virtual-filesystem composition layer of go-vfs and proves properties of it:

- **Synthetic metadata** (`vfs.go`). This covers the paginated in-memory directory `dir` with its `offset` cursor, the `dirEntry` wrapper, the name-overriding `nameableFileInfo`, and the fixed virtual-directory `dirFileInfo`.
- **Merge** (`merge.go`). An ordered list of keyed filesystems is shown as one namespace. Its root listing is synthesized, with one entry per mount.
- **Recursive mounting** (`recursive.go`). When a path crosses a container file (one whose extension has a registered factory), the rest of the path is resolved inside the filesystem the factory builds. Built filesystems are kept in a memo cache.
- **Spooling tee reader** (`reader.go`). Every byte pulled from a sequential source is also written to a spool, so that earlier offsets can be read again.
- **ReadAt adapter** (`readat.go`). It decides when a file is passed through and when it is wrapped in the tee reader.

How the model represents the system:

- A filesystem is a value, `Vfs.FS`. It is a finite map from path strings to what `Open` answers. A path missing from the map does not exist.
- A file is a value, `Vfs.File`. Its variants mirror the Go types behind `fs.File`: a backing source's handle (with optional `ReadDir`/`ReadAt` capabilities and sequential content), `dir`, `rootFile`, `recursiveFile` and `readAtFile`.
- The objects whose fields the source updates in place are classes:
  - `Dir`, with the cursor;
  - `Merge`, with the mount list;
  - `Recursive`, with the instance cache;
  - `DiskTeeReader`, with the spool and the counters `fo` and `to`;
  - `ReadAtFile`.
- A value variant and a class stand for the same Go object in two roles. `Vfs.File.SynthDir(fi, dirs)` is a `dir` as something `Open` returns and a wrapper embeds; the class `Vfs.Dir`, built from the same `fi` and `dirs`, is that handle's cursor behaviour. Likewise `Vfs.File.ReadAtWrapped(f)` is a `readAtFile` inside the value model, and the class `ReadAtFs.ReadAtFile`, built from the same `f`, answers its `Read` and `ReadAt` through a `Tee.DiskTeeReader` over `f`'s content. Its `Stat` is proved equal to the variant's.
- Each loop or mutation of the source is a method. It is proved against a specification function: `Vfs.ReadDirPage`, `MergeFs.Route`, `MergeFs.RootDir`, `RecursiveFs.Walk`, `RecursiveFs.GetFSStep`, `Tee.ReadStep` or `Tee.ReadAtStep`. The source's promises are proved as lemmas about those functions.
- The Go library functions the layer calls are small specification functions in module `Paths`: `fs.ValidPath`, `strings.Split`, `path.Join`, `path.Ext`, `path.Base` and `strings.TrimLeft`.

Files: `paths.dfy` (`Paths`), `vfs.dfy` (`Vfs`), `merge.dfy` (`MergeFs`), `recursive.dfy` (`RecursiveFs`), `reader.dfy` (`Tee`), `readat.dfy` (`ReadAtFs`).

Where the code departs from what it evidently means to do, the model follows the code:

- **Merge trim.** A mount's key is removed from the front of the path with `strings.TrimLeft`, a character-set trim. The trim is applied to every mount with no prefix check (merge.go:74). See Findings.
- **Tee read cursor.** `fo`, not the spooled count `to`, decides how much `ReadAt` drains (reader.go:37). See Findings.
- **Closing the tee reader.** The scratch file is not removed when closing it fails (reader.go:60-61), so a failed close leaves it on disk. `Close` is not modelled (see Left out).

## Model

| member | source | states |
|---|---|---|
| Paths.Split | recursive.go:51-58 | `strings.Split` on "/" gives at least one element and no element contains "/", so the `len(elementKeys) == 0` branch is dead |
| Paths.Ext | recursive.go:94 | `path.Ext` is either empty or a suffix of the name that starts with "." |
| Paths.AccumulateSplit | recursive.go:60-61 | folding `path.Join` over the elements of a valid path, starting from ".", rebuilds the path |
| Paths.BaseOfValidPath | vfs.go:99-102 | `path.Base` of a valid path is its last "/"-separated element |
| Paths.TrimLeft | merge.go:74 | the cutset trim drops a prefix made only of cutset characters and stops at the first character not in the cutset |
| Paths.TrimLeftDropsRun | merge.go:74 | the cutset trim removes exactly the leading run of cutset characters |
| Paths.TrimLeftIsNotPrefixStrip | merge.go:74 | "id1/1.txt" starts with "id1/", but the cutset trim with "id1/" leaves ".txt", not "1.txt" |
| Vfs.NameableOverridesOnlyName | vfs.go:87-102 | `nameableFileInfo` reports `Base` of its name as the name, and the wrapped info's size, mode, modification time, directory flag and sys value |
| Vfs.DirInfoIsVirtualDirectory | vfs.go:104-135 | `dirFileInfo` is named `Base(path)`, has size 0 and mode `ModeDir`, permission 0555, type bits exactly `ModeDir`, is a directory, and has zero time and nil sys |
| Vfs.InfoEntryDelegates | vfs.go:61-85 | `dirEntry`'s name, directory flag, type bits and info all come from its FileInfo |
| Vfs.ReadDirPage | vfs.go:38-56 | the page is `dirs[offset..next]`, with `next` within bounds. A positive count returns min(count, remaining) entries. A non-positive count returns all remaining entries. EOF comes exactly when a positive count meets exhaustion |
| Vfs.PagesReassemble | vfs.go:38-56 | concatenating successive positive-count pages until EOF reproduces `dirs[offset..]` exactly and in order |
| Vfs.Dir.constructor | vfs.go:12-17 | `newDir` starts with the cursor at 0 |
| Vfs.Dir.Stat | vfs.go:26-28 | `Stat` returns the directory's info and no error |
| Vfs.Dir.Read | vfs.go:30-32 | `Read` returns 0 and no error |
| Vfs.Dir.Close | vfs.go:34-36 | `Close` returns no error |
| Vfs.Dir.ReadDir | vfs.go:38-56 | the result and the new cursor are `ReadDirPage` of the old cursor. The cursor never decreases and stays within `0..len(dirs)` |
| MergeFs.RootEntriesOnePerMount | merge.go:87-99 | the root listing succeeds exactly when every mount's `Stat(".")` succeeds, and then has one entry per mount in mount order. Otherwise it fails with the first failing mount's error |
| MergeFs.RootEntryNames | merge.go:87-99 | root entry i is named `Base(key_i)` and carries mount i's root info |
| MergeFs.RouteIsFirstAnswer | merge.go:60-84 | Open's scan answers with the first mount that does not return not-exist, and with not-exist when all do (including when there are no mounts) |
| MergeFs.RouteAfterAdd | merge.go:60-84 | an appended mount answers only the paths that every earlier mount skips; all other paths are answered as before |
| MergeFs.KeyHandleStat | merge.go:61-71 | for a path equal to a key, the handle is the mount's root, can list, and its `Stat` reports `Base(key)` with the rest of the root's info |
| MergeFs.KeyRootMustList | merge.go:66-69 | a key mount whose root handle cannot list makes Open fail with "not a directory" |
| MergeFs.TrimLeftMisroutes | merge.go:74-76 | mount "id1" is asked for ".txt" when "id1/1.txt" is opened |
| MergeFs.RouteByPrefixReachesOwner | merge.go:60-84 | with prefix routing, "key/rest" reaches the first mount with that key as "rest" when no earlier key matches it |
| MergeFs.Merge.constructor | merge.go:21-23 | `NewMerge` has no mounts |
| MergeFs.Merge.Add | merge.go:25-30 | the mount is appended at the end, earlier mounts are unchanged, and keys are not checked for uniqueness |
| MergeFs.Merge.Remove | merge.go:32-45 | returns true exactly when some mount has the key. Only the first such mount is deleted and the order of the rest is kept. Otherwise the list is unchanged |
| MergeFs.Merge.Open | merge.go:47-85 | an invalid path is not-exist without consulting any mount; "." is the synthesized root; any other path gets the ordered scan's answer. The mount list is not changed |
| MergeFs.Merge.CreateRootDir | merge.go:87-99 | gives a `dir` named "." over the mount entries, or the first mount's `Stat` error |
| RecursiveFs.GetFSOnlyInserts | recursive.go:85-111 | `getFS` never removes or changes a cache entry, only adds the key asked for, and holds it on success |
| RecursiveFs.WalkOnlyInserts | recursive.go:50-83 | a whole walk never removes or changes a cache entry |
| RecursiveFs.WalkSkipsPlain | recursive.go:60-65 | while no accumulated key names a container, the walk only accumulates the key |
| RecursiveFs.WithoutContainersOpensRoot | recursive.go:50-83 | if no accumulated prefix of a valid path has a registered extension, the result is `root.Open(name)` and the cache is unchanged |
| RecursiveFs.IsChildFSByExtension | recursive.go:113-117 | a name counts as a container exactly when its extension is registered; unless "" is registered, the name then ends with a registered extension that starts with "." and contains no "/" |
| RecursiveFs.WalkOpenFails | recursive.go:67-70 | when opening a container key fails, the walk returns that error and leaves the cache as it was |
| RecursiveFs.WalkGetFSFails | recursive.go:72-75 | when `getFS` fails for a container, the walk returns that error, with the cache `getFS` left |
| RecursiveFs.WalkEntersContainer | recursive.go:63-78 | at a key with a registered extension, the key is opened on the current filesystem, turned into a filesystem by `getFS`, and the walk goes on inside it from "." |
| RecursiveFs.EnterFirstContainer | recursive.go:60-82 | for a path whose first container is at element m and which has no container after it: the prefix is opened on the root and made a filesystem by `getFS`. The remaining elements, joined, are opened inside that filesystem ("." when the path ends on the container) |
| RecursiveFs.NestedCacheKeyIsRelative | recursive.go:72-78 | after entering container a, a nested container b is cached under b itself, not under a/b |
| RecursiveFs.RelativeKeyCollides | recursive.go:72-92 | when a container's relative name is already cached, the walk uses that entry even inside a different container |
| RecursiveFs.SecondOpenReusesFirstInner | recursive.go:60-92 | on a fresh cache, opening "y.zip/inner.zip" and then "x.zip/inner.zip" makes the second open land in the filesystem built from y's inner container |
| RecursiveFs.FullKeysArePrefixes | recursive.go:50-83 | with full-path cache keys, every key the walk adds is an accumulated prefix of the path |
| RecursiveFs.FullKeysOfPath | recursive.go:50-83 | from the root, the full-path walk adds only keys that are prefixes of the opened path itself |
| RecursiveFs.FullKeysAfterTwo | recursive.go:50-83 | with full-path keys, a walk through "y/inner" from an empty cache leaves only the keys "y" and "y/inner" |
| RecursiveFs.JoinedKeysDiffer | recursive.go:72-78 | for distinct elements x and y without "/", the full keys x, x/inner, y and y/inner are all different |
| RecursiveFs.WalkFullKeyTwoContainers | recursive.go:60-80 | the full-path walk through two containers x/inner opens "." in the filesystem `getFS` builds for "x/inner" from x's filesystem |
| RecursiveFs.FullKeySecondOpenBuildsOwnInner | recursive.go:72-78 | with full-path keys, after opening "y.zip/inner.zip", opening "x.zip/inner.zip" misses the cache at both of its containers and lands in the filesystem built from x's own inner file |
| RecursiveFs.RewriteShowsContainersAsDirs | recursive.go:152-159 | a listed container becomes a directory entry with the same base name, type `ModeDir` and `dirFileInfo`; every other entry is unchanged |
| RecursiveFs.ReadDir | recursive.go:138-163 | a handle that cannot list gives "not a directory", and an underlying error is passed on with no entries. Otherwise count and order are kept and each entry is rewritten |
| RecursiveFs.OpenedHandleStat | recursive.go:129-136 | the opened handle's `Stat` reports the last element of the full path as its name, and the underlying file's directory flag, size and mode |
| RecursiveFs.Recursive.constructor | recursive.go:25-31 | `NewRecursive` starts with an empty cache |
| RecursiveFs.Recursive.Open | recursive.go:33-48 | an invalid path is not-exist and leaves the cache alone. Otherwise the walk's error, or its file wrapped with the full path, and the walk's new cache |
| RecursiveFs.Recursive.ParseElements | recursive.go:50-83 | the file and the new cache are exactly the walk `Walk` over the path's elements from the root |
| RecursiveFs.Recursive.GetFS | recursive.go:85-111 | a hit returns the cached filesystem and does not change the cache. An unregistered extension gives `ErrFSNotFound`. A factory error is returned with the cache unchanged. Success stores the result under the name |
| Tee.ReadAdvances | reader.go:50-57 | `Read` returns min(len(p), remaining) next source bytes, appends them to the spool and adds their count to `to`. `fo` is untouched, and the source's end error comes only when nothing is left |
| Tee.ReadAtKeepsConsistent | reader.go:32-48 | `ReadAt` keeps the spool a prefix of the source that only grows, keeps `to` equal to its length, never lowers `to`, and adds to `fo` exactly the number of bytes returned |
| Tee.ReadAtDrains | reader.go:35-43 | when `off+len(p) > fo`, exactly min(`off+len(p)-fo`, remaining) bytes are drained into the spool; otherwise the spool is untouched |
| Tee.ReadAtDrainError | reader.go:38-42 | a drain cut short by EOF is swallowed; one cut short by any other error returns 0 bytes and that error |
| Tee.SpoolReadAt | reader.go:45 | the bytes read back from the spool are at most len(p) and each equals the spool byte at the same offset |
| Tee.SpoolReadAtRange | reader.go:45-47 | the reply is `spool[off..min(off+len(p), len(spool))]`, with EOF exactly on a short read |
| Tee.ReadAtBytesMatchSource | reader.go:28-46 | every byte `ReadAt` returns equals the source byte at the same offset |
| Tee.FreshReadAtExact | reader.go:35-47 | on a fresh reader, `ReadAt(p, off)` returns exactly the source bytes from off to min(off+len(p), N) |
| Tee.FreshReadsGeneric | readat_test.go:43-47 | seven bytes at offset 8 of a fresh reader give "generic" and no error |
| Tee.StaleCursorShortRead | reader.go:37-46 | after `ReadAt(p[:10], 0)` twice on a source of at least 20 bytes, `fo` is 20 while 10 bytes are spooled, and `ReadAt(p[:10], 10)` gives no bytes and EOF |
| Tee.SpooledKeepsConsistent | reader.go:32-48 | the corrected `ReadAt` keeps the same invariants and drains up to `off+len(p)-to` bytes |
| Tee.SpooledReadAtExact | reader.go:32-48 | the corrected `ReadAt` returns exactly the source bytes from off to min(off+len(p), N) in every consistent state |
| Tee.SpooledRereadSucceeds | reader.go:32-48 | the three reads of `StaleCursorShortRead` end with source bytes 10..20 under the correction |
| Tee.DiskTeeReader.constructor | reader.go:23-30 | a new reader has an empty spool and both counters at 0 |
| Tee.DiskTeeReader.Read | reader.go:50-57 | the reply and the new state are `ReadStep` of the old state, and consistency is kept |
| Tee.DiskTeeReader.ReadAt | reader.go:32-48 | the reply and the new state are `ReadAtStep` of the old state, and consistency is kept |
| Tee.DiskTeeReader.ReadAtSpooled | reader.go:32-48 | the reply and the new state are `ReadAtSpooledStep` of the old state, and consistency is kept |
| ReadAtFs.OpenRejectsInvalid | readat.go:23-25 | an invalid path is not-exist whatever the inner filesystem holds |
| ReadAtFs.OpenPassesErrors | readat.go:27-35 | errors of the inner `Open` and of `Stat` are returned unchanged |
| ReadAtFs.OpenWrapsOnlySequentialFiles | readat.go:37-54 | directories and files that already have `ReadAt` are returned as they are. Any other file is wrapped, or the scratch-file error is returned |
| ReadAtFs.WrappedDelegates | readat.go:57-72 | the wrapped file has the same `Stat` and content, adds `ReadAt` and does not list |
| ReadAtFs.EveryFileSupportsReadAt | readat.go:37-54 | every file `Open` returns has metadata and is a directory or supports `ReadAt` |
| ReadAtFs.OpenedFileReadsAt | readat.go:46-54 | ReadAt on a freshly wrapped file returns exactly the inner file's bytes from off |
| ReadAtFs.ReadAtFile.constructor | readat.go:46-54 | the wrapper owns a fresh tee reader over the file's content |
| ReadAtFs.ReadAtFile.Stat | readat.go:57-60 | `Stat` comes from the embedded file |
| ReadAtFs.ReadAtFile.Read | readat.go:62-64 | `Read` is the tee reader's `Read` |
| ReadAtFs.ReadAtFile.ReadAt | readat.go:66-68 | `ReadAt` is the tee reader's `ReadAt` |

## Left out

- Vfs.File.Data / Vfs.File.End: a synthesized directory's `Read` answers (0, nil) on every call (vfs.go:30-32). Only `Vfs.Dir.Read` models that. In the value model, a `SynthDir` reads as no bytes followed by EOF, so a reader draining it would stop where the Go reader would keep getting (0, nil).
- Locks (`sync.Mutex`, `sync.RWMutex`) and the race between two `getFS` calls that build the same instance: the model is single-threaded.
- Creating and removing the scratch file, and `diskTeeReader.Close` / `readAtFile.Close` (reader.go:24-29, 59-65; readat.go:70-72): these are OS file I/O. The spool is an in-memory sequence. A failing `ioutil.TempFile` is the `spoolErr` parameter of `ReadAtFs.Open`.
- zip.go and the factories themselves: a factory is an arbitrary function from a file to a filesystem or an error.
- The internals of the Go library functions: `Paths` states them as specification functions. `Paths.Join` covers only the arguments `parseElements` passes (a key of "." or a clean relative path, and one element), not all of `path.Join`'s cleaning.
- `int64` counters and offsets are unbounded integers; overflow of `off + len(p)` is not modelled.
- The sequential source delivers as many bytes as are asked for while any remain, and reports its end error only with an empty read. Short reads and data-with-EOF replies of a real `io.Reader` are not modelled.
- The caller's buffer `p` is modelled by its length. Read calls return the bytes that would land in `p[:n]`.
- What an underlying handle's `ReadDir(n)` answers is a parameter of `RecursiveFs.ReadDir` (`listing`), because the backing handle's state is not modelled.
- `Vfs.FS` is a finite map, so a `Merge` or `Recursive` object cannot itself be mounted inside another adapter in the model.
- `ModTime` and `Sys` are opaque values (`Time`, `SysValue`).
- `fs.ValidPath`'s UTF-8 check: every Dafny string is a sequence of characters.
- The classes model the code as written. The corrected definitions in Findings stand beside them (`MergeFs.RouteByPrefix`, `RecursiveFs.WalkFullKey`, `Tee.ReadAtSpooledStep` with `Tee.DiskTeeReader.ReadAtSpooled`), and they carry the intended properties.

## Findings

| source | as written | input that shows it | evidently intended | confidence | as-written member | corrected member |
|---|---|---|---|---|---|---|
| reader.go:37-46 | The drain is decided against `fo`, the running total of bytes `ReadAt` has returned, and `fo` grows by the bytes returned, not the bytes spooled. | A source of 20 bytes: `ReadAt(p[:10], 0)` twice, then `ReadAt(p[:10], 10)` returns 0 bytes and EOF. | Drain until the spool holds `off+len(p)` bytes, comparing against the spooled count `to`, so that any offset read so far or later is served from the source's bytes. | not executed | Tee.StaleCursorShortRead | Tee.SpooledReadAtExact |
| merge.go:74 | `strings.TrimLeft(name, key+"/")` removes every leading character found in the key, for every mount, with no prefix check. | Mount "id1" and path "id1/1.txt": the mount is asked for ".txt". | Strip the prefix `key+"/"` only from paths that start with it. | not executed | MergeFs.TrimLeftMisroutes | MergeFs.RouteByPrefixReachesOwner |
| recursive.go:72-78 | The instance cache is keyed by the container's path relative to the filesystem it sits in, because `key` is reset to "." after each container. | Open "y.zip/inner.zip", then "x.zip/inner.zip": the second walk uses y's inner filesystem. | Key each instance by its full path from the root, so that containers at different paths never share an entry. | not executed | RecursiveFs.SecondOpenReusesFirstInner | RecursiveFs.FullKeySecondOpenBuildsOwnInner |
