# sapp — a verified model of the app-bundle constructor

`sapp` turns a SwiftPM executable into a macOS `.app` bundle in the working
directory. It creates `<App>.app/Contents/MacOS`, writes
`Contents/info.plist`, links `Contents/MacOS/<App>` to the release binary
`.build/release/<App>`, and links `Contents/Resources` to the build's resource
bundle `.build/release/<App>_<App>.bundle`. A second mode only relinks the
resources, behind a guard that refuses to delete a non-empty `Resources`
directory. A small helper wraps terminal text in ANSI escape codes.

This Dafny project models that core:

- `filesystem.dfy` (`FileSystem`): the disk that `FileManager.default` works on.
  - It is a map from absolute paths (sequences of components) to directories, files and symbolic links, kept a tree.
  - Write permission is a fixed set of read-only directories.
  - Each primitive sapp calls is a pure step function from the old map to an `Effect` (outcome and new map). The same primitive is also a method of the class `Disk`, proved to have exactly that effect.
  - `fileExists` and `contentsOfDirectory` follow links, at most 32 of them. `removeItem` and `createSymbolicLink` act on the link itself.
- `layout.dfy` (`Layout`): the paths sapp derives from the working directory and the app name, and the facts that keep them apart.
- `plist.dfy` (`Plist`): the manifest template as fourteen lines joined by newlines. Beside it sits a small line reader that finds the `<string>` value declared after a `<key>`. This is how the declared fields are stated.
- `sapp.dfy` (`Sapp`): `createSymlink`, `removeDirectoryIfEmpty`, `handleSymResources` and the `AppSkeletonGenerator` class.
  - Each procedure is a method written step by step over a `Disk`.
  - Each method is proved equal to a step function (`ClearEffect`, `SymResourcesEffect`, `SkeletonEffect`, …) of the disk before the call.
  - Procedures that throw return an `Outcome`. Procedures that only print return a status naming the branch they took.
- `sapp_properties.dfy` (`SappProperties`): what those step functions guarantee.
  - The safe-clear guard never deletes content.
  - Relinking is all-or-nothing.
  - The generator lays out the bundle and stops at the first failing step.
  - The binary link is replaced, not duplicated.
  - Generating over a generated bundle succeeds without a build bundle and fails with one.
- `ansi.dfy` (`Ansi`): the `ANSIColor` raw-value table, a decoder that inverts it, and `String.ansi(_:)` with its layout, length and inverse.
- `wrappers.dfy` (`Wrappers`): `Option`.

## Behaviour pinned to the code

The model follows the code in these points, which are easy to miss when reading it:

- Generating a second time fails when `.build/release/<App>_<App>.bundle` exists. `createDirectoryStructure` links `Contents/Resources` without the safe-clear step (`Sources/sapp/main.swift:94-95`). The link from the first run is still there, so `createSymbolicLink` reports that the file exists, and the manifest and binary steps do not run (`SappProperties.SkeletonRerunWithBundle`). Without a build bundle, a second run succeeds and changes nothing (`SappProperties.SkeletonRerunWithoutBundle`).
- An existing non-directory at the `Resources` slot is not reported as "not empty". The code lists it with `contentsOfDirectory`, which throws for a file, so the model returns `NotADirectory` there.
- `contentsOfDirectory` follows a link. So a `Resources` link to a bundle that has content counts as not empty, and relinking is refused once it has succeeded (`SappProperties.RelinkRepeatRefused`).
- `fileExists` does not see a dangling link, so such a link is neither cleared nor replaced.
  - A dangling `Contents/MacOS/<App>` blocks the binary link (`SappProperties.BinaryLinkOutcome`).
  - A dangling `Contents/Resources` blocks the resource link (`SappProperties.RelinkOutcome`: the slot is not free).
- When the built executable is missing, `createBinarySymlink` stops before removing anything, so an existing `Contents/MacOS/<App>` stays in place (`Sources/sapp/main.swift:144`, `:155-157`; `SappProperties.BinaryLinkOutcome`).
- A `Contents/MacOS` that is already a link to a directory is accepted by `createDirectory(withIntermediateDirectories:)`, which follows it. A second run can then fail. For example, a link that leads through `Contents/info.plist` stops leading to a directory once the manifest is written. `SappProperties.SkeletonRerunWithoutBundle` therefore assumes that `MacOS` was not a link before the first run.
- Resources are looked up only at `.build/release/<App>_<App>.bundle`. There is no `Sources/.../Resources` fallback.
- The cursor codes keep their `{n}` and `{line};{column}` placeholders as literal text. They are therefore not well-formed ECMA-48 control sequences (`Ansi.ControlSequenceIffNoPlaceholder`).

## Model

| member | source | states |
|---|---|---|
| FileSystem.Resolve | Sources/sapp/main.swift:13 | path resolution follows links up to the limit and ends at an entry that is not a link; a missing path resolves to nothing |
| FileSystem.AddCheck | Sources/sapp/main.swift:6 | a new entry may be created exactly when nothing (not even a dangling link) is at the path and its parent is a writable directory |
| FileSystem.LinkEffect | Sources/sapp/main.swift:6 | `createSymbolicLink`: on success the path holds the link; on failure nothing changes; no other path changes; the tree shape is kept |
| FileSystem.RemoveEffect | Sources/sapp/main.swift:21 | `removeItem` succeeds exactly for an existing non-root entry in a writable directory, and then removes that entry and everything below it, nothing else |
| FileSystem.WriteEffect | Sources/sapp/main.swift:129 | the atomic write succeeds exactly when the parent is a writable directory and the target is not a directory, and then the target holds the text |
| FileSystem.MakeDirs | Sources/sapp/main.swift:91 | `createDirectory(withIntermediateDirectories:)` keeps every existing entry, adds only directories on the way to the target, and on success a target that was missing is a new directory |
| FileSystem.MakeDirsOutcome | Sources/sapp/main.swift:91 | after a successful creation `fileExists` sees a directory at the target, following links; an existing target is never changed, only accepted or refused as an existing file |
| FileSystem.MakeDirsSucceeds | Sources/sapp/main.swift:91 | creation succeeds whenever every existing prefix of the target is a directory and each missing one is to be created in a writable directory |
| FileSystem.LeafSubtree | Sources/sapp/main.swift:21 | removing a link, a file or an empty directory removes exactly that one entry |
| FileSystem.AbsentSubtree | Sources/sapp/main.swift:146-147 | nothing lies below a path that is not an entry |
| FileSystem.MakeDirsExisting | Sources/sapp/main.swift:91 | creating a directory that already exists succeeds and changes nothing |
| FileSystem.Disk.ContentsOfDirectory | Sources/sapp/main.swift:18 | the listing follows links: it succeeds exactly when the path leads to a directory, and then holds exactly the entries whose parent is that directory |
| FileSystem.Disk.CreateSymbolicLink | Sources/sapp/main.swift:6 | the method has exactly the effect of `LinkEffect` and keeps the disk a tree |
| FileSystem.Disk.RemoveItem | Sources/sapp/main.swift:21 | the method has exactly the effect of `RemoveEffect` and keeps the disk a tree |
| FileSystem.Disk.Write | Sources/sapp/main.swift:129 | the method has exactly the effect of `WriteEffect` and keeps the disk a tree |
| FileSystem.Disk.CreateDirectory | Sources/sapp/main.swift:91 | the method has exactly the effect of `MakeDirs` and keeps the disk a tree |
| Layout.BundleOutsideBuild | Sources/sapp/main.swift:34-38 | no path lies both under `<App>.app` and under `.build/release` |
| Layout.BundlePathsDistinct | Sources/sapp/main.swift:85-87 | `Resources`, `info.plist` and `MacOS` are distinct siblings in `Contents`, and the binary link lies only under `MacOS` |
| Plist.Lowercased | Sources/sapp/main.swift:120 | lower-casing keeps the length, maps each character on its own, and neither adds nor removes newlines |
| Plist.SplitJoin | Sources/sapp/main.swift:112-127 | splitting the joined template at newlines gives back its lines when no line contains a newline |
| Plist.NoNewlineInPlistLines | Sources/sapp/main.swift:112-127 | no line of the rendered template contains a newline when the app name has none |
| Plist.NameField | Sources/sapp/main.swift:117-118 | the first line naming `CFBundleName` is the first key line, and the line after it holds the app name |
| Plist.IdentifierField | Sources/sapp/main.swift:119-120 | the first line naming `CFBundleIdentifier` is the second key line, and the line after it holds `com.leviouwendijk.` plus the lower-cased name |
| Plist.VersionField | Sources/sapp/main.swift:121-122 | the first line naming `CFBundleVersion` is the third key line, and the line after it holds `1.0` |
| Plist.ExecutableField | Sources/sapp/main.swift:123-124 | the first line naming `CFBundleExecutable` is the fourth key line, and the line after it holds the app name |
| Plist.PlistFields | Sources/sapp/main.swift:112-129 | the written manifest declares `CFBundleName` and `CFBundleExecutable` as the app name, `CFBundleIdentifier` as `com.leviouwendijk.` plus the lower-cased name, and `CFBundleVersion` as `1.0` |
| Sapp.CreateSymlink | Sources/sapp/main.swift:3-8 | creates the link at the destination pointing to the source, with exactly the primitive's effect |
| Sapp.RemoveDirectoryIfEmpty | Sources/sapp/main.swift:10-30 | the safe-clear step has exactly the effect of `ClearEffect`: no-op for a missing path, error for a file or a non-empty directory, removal otherwise |
| Sapp.HandleSymResources | Sources/sapp/main.swift:32-66 | checks the app, then the bundle, then safe-clears and links, with exactly the effect of `SymResourcesEffect` |
| Sapp.AppSkeletonGenerator.constructor | Sources/sapp/main.swift:72-76 | the bundle is `<cwd>/<App>.app` and the name is kept |
| Sapp.AppSkeletonGenerator.GenerateSkeleton | Sources/sapp/main.swift:78-82 | runs directories, manifest, binary link in that order, stopping at the first thrown error, with exactly the effect of `SkeletonEffect` |
| Sapp.AppSkeletonGenerator.CreateDirectoryStructure | Sources/sapp/main.swift:84-106 | creates `Contents/MacOS` with its parents, then links a found build bundle to `Contents/Resources` without clearing; errors are rethrown |
| Sapp.AppSkeletonGenerator.CreateInfoPlist | Sources/sapp/main.swift:108-131 | writes the rendered template to `Contents/info.plist` |
| Sapp.AppSkeletonGenerator.CreateBinarySymlink | Sources/sapp/main.swift:133-158 | links the executable into `Contents/MacOS` after removing what is there; errors are reported in the status, never thrown |
| Sapp.AppSkeletonGenerator.CreateResourcesSymlinkIfNeeded | Sources/sapp/main.swift:160-179 | without a build bundle succeeds doing nothing; otherwise safe-clears and links, throwing either error |
| Sapp.AppSkeletonGenerator.FindBuildBundlePath | Sources/sapp/main.swift:181-195 | returns the `<App>_<App>.bundle` path exactly when it exists, and nothing otherwise |
| Sapp.AppSkeletonGenerator.ResetResourcesSymlink | Sources/sapp/main.swift:197-199 | has the same effect as `createResourcesSymlinkIfNeeded` |
| SappProperties.ClearIsSafe | Sources/sapp/main.swift:10-30 | a missing path is left alone; a directory with entries is refused and untouched; errors change nothing; the only change is removing the one entry, when it leads to an empty directory; a real empty directory in a writable parent is removed, and nothing else is; afterwards nothing is seen there |
| SappProperties.RelinkOutcome | Sources/sapp/main.swift:32-66 | the app is checked first, then the bundle; the link is made exactly when both exist and the slot can be freed, and is then the only change; every other outcome, including a failed clear, leaves the disk unchanged; a non-empty real `Resources` is refused as not empty |
| SappProperties.RelinkRefused | Sources/sapp/main.swift:32-66 | a missing app and then a missing bundle are reported in that order; every outcome other than a made link leaves the disk unchanged; a non-empty real `Resources` is refused as not empty |
| SappProperties.RelinkLinked | Sources/sapp/main.swift:53-62 | the link is made exactly when the app and the bundle exist and the slot can be freed, and is then the only change |
| SappProperties.ClearThenLink | Sources/sapp/main.swift:53-62 | safe-clearing a slot and linking there both succeed exactly when the slot's directory is writable and the slot is empty or leads to an empty directory; the link is then the only change |
| SappProperties.ClearOverLinkRefused | Sources/sapp/main.swift:17-28 | safe-clearing a link to a directory with entries is refused as not empty, since the listing follows the link, and changes nothing |
| SappProperties.RelinkRepeatRefused | Sources/sapp/main.swift:53-62 | once `Resources` links to a bundle with content, relinking is refused as not empty and changes nothing |
| SappProperties.ResetMatchesRelink | Sources/sapp/main.swift:160-179 | when the app exists, the reset does to the disk what the relink command does, and succeeds exactly when that links or finds no bundle |
| SappProperties.BinaryLinkOutcome | Sources/sapp/main.swift:133-158 | without the executable nothing changes; the link is made exactly when the executable exists, `MacOS` is writable and whatever is at the link path is seen by `fileExists`; it then replaces that entry and its subtree; failures change nothing; a dangling link blocks it |
| SappProperties.BinaryLinkIdempotent | Sources/sapp/main.swift:144-150 | linking the binary again leaves the disk as the first time did |
| SappProperties.BinaryLinkKeeps | Sources/sapp/main.swift:144-150 | the binary-link step changes nothing that does not lie at or below `MacOS/<App>` |
| SappProperties.BinaryLinkFrameAt | Sources/sapp/main.swift:133-158 | the binary-link step changes nothing outside `<App>.app` |
| SappProperties.StructureFrame | Sources/sapp/main.swift:84-106 | the directory step keeps the disk a tree and changes nothing but `Resources` and the directories on the way to `MacOS`, which it only adds |
| SappProperties.StructureFrameAt | Sources/sapp/main.swift:84-106 | the directory step leaves any single path other than `Resources` and off the way to `MacOS` as it was, and never changes an existing entry other than `Resources` |
| SappProperties.StructureOutcome | Sources/sapp/main.swift:89-99 | on success `Contents` is a directory, `fileExists` sees a directory at `MacOS` (a new one unless a link was already there), and `Resources` links to the build bundle whenever `fileExists` sees it |
| SappProperties.SkeletonLayout | Sources/sapp/main.swift:78-82 | on success `Contents` is a writable directory, `MacOS` is a directory unless a link was already there, `info.plist` holds the rendered template, and `Resources` links to the build bundle whenever `fileExists` saw it |
| SappProperties.SkeletonStopsOnError | Sources/sapp/main.swift:78-82 | a failed generation leaves the manifest and the binary link as they were, since the later steps did not run |
| SappProperties.SkeletonFrame | Sources/sapp/main.swift:78-82 | generation keeps the disk a tree; outside `<App>.app` every existing entry (`cwd` and its ancestors included) stays as it was, and only missing directories on the way to `MacOS` are added |
| SappProperties.SkeletonKeepsExistingAt | Sources/sapp/main.swift:78-82 | generation leaves any single existing entry outside `<App>.app` as it was |
| SappProperties.SkeletonFrameAt | Sources/sapp/main.swift:78-82 | generation leaves any single path outside `<App>.app` and off the way to `MacOS` as it was |
| SappProperties.GeneratedIsFixedPoint | Sources/sapp/main.swift:78-82 | a disk already holding the generated directories and manifest, with no build bundle and a binary link that relinking keeps, is left unchanged by generation, which succeeds |
| SappProperties.SkeletonRerunWithoutBundle | Sources/sapp/main.swift:78-82 | without a build bundle, generating over a generated bundle succeeds and changes nothing, when `MacOS` was not a link before the first run |
| SappProperties.SkeletonFreshSucceeds | Sources/sapp/main.swift:78-82 | generating into a writable directory with no `<App>.app` yet succeeds, with or without a build bundle, when the directories it creates are writable |
| SappProperties.FreshStructureSucceeds | Sources/sapp/main.swift:84-106 | in that situation the directory step succeeds and leaves `Contents` a directory |
| SappProperties.SkeletonRerunWithBundle | Sources/sapp/main.swift:94-95 | with a build bundle directory, generating over a generated bundle fails because the file exists, and changes nothing |
| Ansi.RawValue | Sources/sapp/boilerplate.swift:3-65 | every code starts with the CSI introducer and is at least four characters long |
| Ansi.RawValueForm | Sources/sapp/boilerplate.swift:5-64 | every code ends in a final byte; the style and colour codes are well-formed SGR sequences ending in `m`, and the erase codes are well-formed control sequences |
| Ansi.RawValueRoundTrip | Sources/sapp/boilerplate.swift:3-65 | decoding the raw value of a case gives that case back |
| Ansi.FromRawValueSound | Sources/sapp/boilerplate.swift:3-65 | whatever the decoder accepts is exactly the raw value of the case it returns |
| Ansi.RawValueInjective | Sources/sapp/boilerplate.swift:3-65 | distinct cases have distinct raw values |
| Ansi.ControlSequenceIffNoPlaceholder | Sources/sapp/boilerplate.swift:58-64 | a raw value is a well-formed control sequence exactly when it has no placeholder |
| Ansi.JoinedPartAt | Sources/sapp/boilerplate.swift:73 | in the joined codes, each code sits at the offset given by the lengths of those before it |
| Ansi.Ansi | Sources/sapp/boilerplate.swift:72-75 | the result ends with the reset code, and the string appears unchanged just before it |
| Ansi.AnsiLength | Sources/sapp/boilerplate.swift:73-74 | the length is the sum of the code lengths, plus the string's length, plus 4 |
| Ansi.AnsiCodeAt | Sources/sapp/boilerplate.swift:73-74 | the result begins with the codes in argument order, each at its offset |
| Ansi.AnsiWithoutColours | Sources/sapp/boilerplate.swift:72-74 | with no colours the result is the string followed by the reset code |
| Ansi.UnwrapAnsi | Sources/sapp/boilerplate.swift:72-74 | stripping the known codes and the reset code gives the string back |
| Ansi.AnsiInjective | Sources/sapp/boilerplate.swift:72-74 | with the same colours, different strings give different results |

## Left out

- `main()` (`Sources/sapp/main.swift:202-236`): the prompt, `readLine`, the non-empty check and the `-sym resources` dispatch are interactive I/O; each model member takes the app name and working directory as parameters.
- All `print` output: user-facing messages with no behavioural contract; the statuses of `handleSymResources` and `createBinarySymlink` name the branch that printed instead.
- Plist.Lowercased: only ASCII letters are lower-cased; Unicode case mapping is not modelled.
- `FileManager` beyond the primitives above: links are followed only at the last path component (not in intermediate components), permissions are a fixed set of read-only directories (no unreadable directories, owners or modes), and errors are reduced to the few kinds sapp can meet.
- The atomic write's temporary file and rename are one step; a crash in between is not modelled.
- App names are assumed non-empty and not `.` or `..`, with no `/`: `Layout` treats the name as one ordinary path component, while `appendingPathComponent` would split a name with `/` and path resolution treats `.` and `..` as navigation (with `..`, `Contents/MacOS/..` would name `Contents`).
- FileSystem.RemoveEffect: `removeItem` is all-or-nothing, checking only the directory that holds the entry. The real call deletes inside every directory of the tree, so a read-only directory with entries below the target makes it fail part-way, with part of the tree gone. The model neither refuses that case nor leaves a partial tree, so "failures change nothing" in `SappProperties.BinaryLinkOutcome` relies on this.
- FileSystem.MakeDirs: a link to a directory is followed at the target only; a link in an intermediate component makes creation fail with `NotADirectory`, where Foundation would create inside the link's target.
- Ansi.AnsiLength: lengths count Unicode scalars (`seq<char>`), not the grapheme clusters that Swift's `String.count` counts; the two differ when `s` starts with a combining mark.
- Concurrent invocations against the same bundle are not modelled; every step runs alone on the disk.
- The working directory is read from the process by each Swift function; here it is a parameter of each call.
- The `{n}` and `{line};{column}` placeholders are literal text in the source and are never substituted, so the model keeps them literal.
- `Package.swift` is a build manifest with no behaviour; Package.swift is not part of this model.
