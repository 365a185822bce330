/**
 * sapp's own decision logic over the abstract disk: the safe-clear guard,
 * the resource relink command, and the bundle skeleton generator.
 *
 * Each procedure appears twice. A function `...Effect` states, as a function
 * of the disk before the call, what the procedure returns and what the disk
 * holds after it; the method of the same name is the procedure itself,
 * written step by step with the `Disk` primitives, and proved to have exactly
 * that effect. Throwing procedures return an `Outcome`; procedures that only
 * print return a status naming the branch they took. The working directory,
 * which the Swift code reads from `FileManager.default.currentDirectoryPath`
 * each time, is a parameter.
 */
module Sapp {
  import opened Wrappers
  import opened FileSystem
  import opened Layout
  import Plist

  /** The branch `handleSymResources` ends in (it prints and returns). */
  datatype RelinkStatus =
    | AppNotFound
    | BundleNotFound
    | ClearFailed(error: Error)
    | LinkFailed(error: Error)
    | ResourcesLinked

  /** The branch `createBinarySymlink` ends in (it never throws). */
  datatype BinaryLinkStatus =
    | BinaryNotFound
    | BinaryLinkFailed(error: Error)
    | BinaryLinked

  /**
   * `removeDirectoryIfEmpty`: nothing to do for a path that does not exist;
   * otherwise list what it names (following links) and remove the path only
   * if that listing is empty. Listing a file throws.
   */
  function ClearEffect(m: map<Path, Node>, readOnly: set<Path>, destination: Path): Effect<Outcome>
  {
    match Resolve(m, destination, MaxSymlinks)
    case None => Effect(Ok, m)
    case Some(t) =>
      if m[t] != Dir then Effect(Err(NotADirectory), m)
      else if Children(m, t) != {} then Effect(Err(DirectoryNotEmpty), m)
      else RemoveEffect(m, readOnly, destination)
  }

  /** `findBuildBundlePath`: the resource bundle of the build, if it exists. */
  function BundleLookup(m: map<Path, Node>, cwd: Path, appName: string): Option<Path>
  {
    if Exists(m, BuildBundlePath(cwd, appName)) then Some(BuildBundlePath(cwd, appName)) else None
  }

  /** `handleSymResources`: check the app and the bundle, safe-clear `Contents/Resources`, then link. */
  function SymResourcesEffect(m: map<Path, Node>, readOnly: set<Path>, cwd: Path, appName: string): Effect<RelinkStatus>
  {
    var resources := ResourcesPath(AppDirectory(cwd, appName));
    var bundle := BuildBundlePath(cwd, appName);
    if !Exists(m, AppDirectory(cwd, appName)) then Effect(AppNotFound, m)
    else if !Exists(m, bundle) then Effect(BundleNotFound, m)
    else
      var cleared := ClearEffect(m, readOnly, resources);
      if cleared.result.Err? then Effect(ClearFailed(cleared.result.error), cleared.entries)
      else
        var linked := LinkEffect(cleared.entries, readOnly, resources, bundle);
        if linked.result.Err? then Effect(LinkFailed(linked.result.error), linked.entries)
        else Effect(ResourcesLinked, linked.entries)
  }

  /**
   * `createDirectoryStructure`: create `Contents/MacOS` with its parents, then
   * link the build's resource bundle, if any, to `Contents/Resources`, without
   * the safe-clear step.
   */
  function DirectoryStructureEffect(m: map<Path, Node>, readOnly: set<Path>, cwd: Path, appDir: Path, appName: string): Effect<Outcome>
  {
    var made := MakeDirs(m, readOnly, MacOSDir(appDir));
    if made.result.Err? then made
    else match BundleLookup(made.entries, cwd, appName)
      case None => made
      case Some(bundle) => LinkEffect(made.entries, readOnly, ResourcesPath(appDir), bundle)
  }

  /** `createInfoPlist`: write the rendered template to `Contents/info.plist`. */
  function InfoPlistEffect(m: map<Path, Node>, readOnly: set<Path>, appDir: Path, appName: string): Effect<Outcome>
  {
    WriteEffect(m, readOnly, PlistPath(appDir), Plist.PlistText(appName))
  }

  /**
   * `createBinarySymlink`: if the built executable exists, remove whatever
   * `fileExists` sees at `Contents/MacOS/<appName>` and link the executable
   * there; errors are reported, never thrown.
   */
  function BinaryLinkEffect(m: map<Path, Node>, readOnly: set<Path>, cwd: Path, appDir: Path, appName: string): Effect<BinaryLinkStatus>
  {
    var binary := BinaryPath(cwd, appName);
    var link := BinaryLinkPath(appDir, appName);
    if !Exists(m, binary) then Effect(BinaryNotFound, m)
    else
      var removed := if Exists(m, link) then RemoveEffect(m, readOnly, link) else Effect(Ok, m);
      if removed.result.Err? then Effect(BinaryLinkFailed(removed.result.error), removed.entries)
      else
        var linked := LinkEffect(removed.entries, readOnly, link, binary);
        if linked.result.Err? then Effect(BinaryLinkFailed(linked.result.error), linked.entries)
        else Effect(BinaryLinked, linked.entries)
  }

  /** `generateSkeleton`: directories, then the manifest, then the binary link; the first two may throw. */
  function SkeletonEffect(m: map<Path, Node>, readOnly: set<Path>, cwd: Path, appDir: Path, appName: string): Effect<Outcome>
  {
    var structure := DirectoryStructureEffect(m, readOnly, cwd, appDir, appName);
    if structure.result.Err? then structure
    else
      var plist := InfoPlistEffect(structure.entries, readOnly, appDir, appName);
      if plist.result.Err? then plist
      else Effect(Ok, BinaryLinkEffect(plist.entries, readOnly, cwd, appDir, appName).entries)
  }

  /**
   * `createResourcesSymlinkIfNeeded` (and `resetResourcesSymlink`, which only
   * calls it): like `handleSymResources`, but without the check for the app
   * and with the clear and link errors thrown.
   */
  function ResetResourcesEffect(m: map<Path, Node>, readOnly: set<Path>, cwd: Path, appDir: Path, appName: string): Effect<Outcome>
  {
    match BundleLookup(m, cwd, appName)
    case None => Effect(Ok, m)
    case Some(bundle) =>
      var cleared := ClearEffect(m, readOnly, ResourcesPath(appDir));
      if cleared.result.Err? then cleared
      else LinkEffect(cleared.entries, readOnly, ResourcesPath(appDir), bundle)
  }

  /** `createSymlink(source:destination:)`. */
  method CreateSymlink(disk: Disk, source: Path, destination: Path) returns (r: Outcome)
    requires disk.Valid()
    modifies disk
    ensures disk.Valid()
    ensures Effect(r, disk.entries) == LinkEffect(old(disk.entries), disk.readOnly, destination, source)
  {
    r := disk.CreateSymbolicLink(destination, source);
  }

  /** `removeDirectoryIfEmpty(destination:)`. */
  method RemoveDirectoryIfEmpty(disk: Disk, destination: Path) returns (r: Outcome)
    requires disk.Valid()
    modifies disk
    ensures disk.Valid()
    ensures Effect(r, disk.entries) == ClearEffect(old(disk.entries), disk.readOnly, destination)
  {
    if !disk.FileExists(destination) {
      return Ok;
    }
    var contents := disk.ContentsOfDirectory(destination);
    if contents.None? {
      return Err(NotADirectory);
    }
    if contents.value == {} {
      r := disk.RemoveItem(destination);
    } else {
      r := Err(DirectoryNotEmpty);
    }
  }

  /** `handleSymResources(appName:)`. */
  method HandleSymResources(disk: Disk, cwd: Path, appName: string) returns (status: RelinkStatus)
    requires disk.Valid()
    modifies disk
    ensures disk.Valid()
    ensures Effect(status, disk.entries) == SymResourcesEffect(old(disk.entries), disk.readOnly, cwd, appName)
  {
    var appPath := AppDirectory(cwd, appName);
    var appResourcesPath := ResourcesPath(appPath);
    var buildBundlePath := BuildBundlePath(cwd, appName);
    if !disk.FileExists(appPath) {
      return AppNotFound;
    }
    if !disk.FileExists(buildBundlePath) {
      return BundleNotFound;
    }
    var cleared := RemoveDirectoryIfEmpty(disk, appResourcesPath);
    if cleared.Err? {
      return ClearFailed(cleared.error);
    }
    var linked := CreateSymlink(disk, buildBundlePath, appResourcesPath);
    if linked.Err? {
      return LinkFailed(linked.error);
    }
    status := ResourcesLinked;
  }

  /** `AppSkeletonGenerator`: the bundle location and the app name, fixed at creation. */
  class AppSkeletonGenerator {
    const appDirectory: Path
    const appName: string

    /** `init(appName:)`, in the working directory `cwd`. */
    constructor (cwd: Path, appName: string)
      ensures appDirectory == AppDirectory(cwd, appName) && this.appName == appName
    {
      appDirectory := AppDirectory(cwd, appName);
      this.appName := appName;
    }

    method GenerateSkeleton(disk: Disk, cwd: Path) returns (r: Outcome)
      requires disk.Valid()
      modifies disk
      ensures disk.Valid()
      ensures Effect(r, disk.entries) == SkeletonEffect(old(disk.entries), disk.readOnly, cwd, appDirectory, appName)
    {
      r := CreateDirectoryStructure(disk, cwd);
      if r.Err? {
        return;
      }
      r := CreateInfoPlist(disk);
      if r.Err? {
        return;
      }
      var linked := CreateBinarySymlink(disk, cwd);
    }

    method CreateDirectoryStructure(disk: Disk, cwd: Path) returns (r: Outcome)
      requires disk.Valid()
      modifies disk
      ensures disk.Valid()
      ensures Effect(r, disk.entries) == DirectoryStructureEffect(old(disk.entries), disk.readOnly, cwd, appDirectory, appName)
    {
      var macOSDir := MacOSDir(appDirectory);
      var resourcesSymlinkPath := ResourcesPath(appDirectory);
      r := disk.CreateDirectory(macOSDir);
      if r.Err? {
        return;
      }
      var buildBundlePath := FindBuildBundlePath(disk, cwd);
      if buildBundlePath.Some? {
        r := CreateSymlink(disk, buildBundlePath.value, resourcesSymlinkPath);
      }
    }

    method CreateInfoPlist(disk: Disk) returns (r: Outcome)
      requires disk.Valid()
      modifies disk
      ensures disk.Valid()
      ensures Effect(r, disk.entries) == InfoPlistEffect(old(disk.entries), disk.readOnly, appDirectory, appName)
    {
      var plistPath := PlistPath(appDirectory);
      r := disk.Write(Plist.PlistText(appName), plistPath);
    }

    method CreateBinarySymlink(disk: Disk, cwd: Path) returns (status: BinaryLinkStatus)
      requires disk.Valid()
      modifies disk
      ensures disk.Valid()
      ensures Effect(status, disk.entries) == BinaryLinkEffect(old(disk.entries), disk.readOnly, cwd, appDirectory, appName)
    {
      var binaryPath := BinaryPath(cwd, appName);
      var symlinkPath := BinaryLinkPath(appDirectory, appName);
      if !disk.FileExists(binaryPath) {
        return BinaryNotFound;
      }
      if disk.FileExists(symlinkPath) {
        var removed := disk.RemoveItem(symlinkPath);
        if removed.Err? {
          return BinaryLinkFailed(removed.error);
        }
      }
      var linked := disk.CreateSymbolicLink(symlinkPath, binaryPath);
      if linked.Err? {
        return BinaryLinkFailed(linked.error);
      }
      status := BinaryLinked;
    }

    method CreateResourcesSymlinkIfNeeded(disk: Disk, cwd: Path) returns (r: Outcome)
      requires disk.Valid()
      modifies disk
      ensures disk.Valid()
      ensures Effect(r, disk.entries) == ResetResourcesEffect(old(disk.entries), disk.readOnly, cwd, appDirectory, appName)
    {
      var appResourcesPath := ResourcesPath(appDirectory);
      var buildBundlePath := FindBuildBundlePath(disk, cwd);
      if buildBundlePath.None? {
        return Ok;
      }
      r := RemoveDirectoryIfEmpty(disk, appResourcesPath);
      if r.Err? {
        return;
      }
      r := CreateSymlink(disk, buildBundlePath.value, appResourcesPath);
    }

    /** `findBuildBundlePath()`: the bundle path exactly when something exists there. */
    method FindBuildBundlePath(disk: Disk, cwd: Path) returns (r: Option<Path>)
      ensures r.Some? <==> Exists(disk.entries, BuildBundlePath(cwd, appName))
      ensures r.Some? ==> r.value == BuildBundlePath(cwd, appName)
    {
      var bundlePath := BuildBundlePath(cwd, appName);
      if disk.FileExists(bundlePath) {
        return Some(bundlePath);
      }
      return None;
    }

    method ResetResourcesSymlink(disk: Disk, cwd: Path) returns (r: Outcome)
      requires disk.Valid()
      modifies disk
      ensures disk.Valid()
      ensures Effect(r, disk.entries) == ResetResourcesEffect(old(disk.entries), disk.readOnly, cwd, appDirectory, appName)
    {
      r := CreateResourcesSymlinkIfNeeded(disk, cwd);
    }
  }
}
