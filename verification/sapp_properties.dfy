/**
 * What sapp's procedures guarantee, stated over the step functions of
 * `Sapp` (which the imperative methods are proved to follow): the safe-clear
 * guard never deletes content, relinking is all-or-nothing, the generator
 * lays out the bundle and fails before touching later targets, the binary
 * link is replaced rather than duplicated, and what happens when a generated
 * bundle is generated again.
 */
module SappProperties {
  import opened Wrappers
  import opened FileSystem
  import opened Layout
  import opened Sapp
  import Plist

  /**
   * Whether `Contents/Resources` (or any slot `p`) can take a new link after
   * the safe-clear step: its directory is writable, and whatever is at `p`
   * leads to an empty directory.
   */
  predicate SlotFree(m: map<Path, Node>, readOnly: set<Path>, p: Path)
    requires p != []
  {
    && Parent(p) in m && m[Parent(p)] == Dir && Parent(p) !in readOnly
    && (p in m ==>
          && Exists(m, p)
          && m[Resolve(m, p, MaxSymlinks).value] == Dir
          && Children(m, Resolve(m, p, MaxSymlinks).value) == {})
  }

  /**
   * The safe-clear guard (`removeDirectoryIfEmpty`): a missing destination is
   * left alone; a directory with entries is refused, untouched; on any error
   * nothing changes; and the only change it ever makes is removing the one
   * entry at the destination, when that entry leads to an empty directory.
   * Afterwards, on success, nothing that `fileExists` sees is there.
   */
  lemma ClearIsSafe(m: map<Path, Node>, readOnly: set<Path>, d: Path)
    requires WellFormed(m)
    ensures var e := ClearEffect(m, readOnly, d);
      && (!Exists(m, d) ==> e == Effect(Ok, m))
      && (d in m && m[d] == Dir && Children(m, d) != {} ==> e == Effect(Err(DirectoryNotEmpty), m))
      && (e.result.Err? ==> e.entries == m)
      && (e.entries != m ==>
            && d != [] && d in m && Parent(d) !in readOnly && Exists(m, d)
            && m[Resolve(m, d, MaxSymlinks).value] == Dir
            && Children(m, Resolve(m, d, MaxSymlinks).value) == {}
            && e.entries == m - {d})
      && (e.result.Ok? ==> !Exists(e.entries, d))
      && ((d != [] && d in m && m[d] == Dir && Children(m, d) == {} && Parent(d) !in readOnly)
            ==> e == Effect(Ok, m - {d}))
  {
    var r := Resolve(m, d, MaxSymlinks);
    if r.Some? && m[r.value] == Dir && Children(m, r.value) == {} {
      LeafSubtree(m, d);
    }
    if d != [] && d in m && m[d] == Dir && Children(m, d) == {} && Parent(d) !in readOnly {
      LeafSubtree(m, d);
    }
  }

  /**
   * `handleSymResources` is all-or-nothing: it links `Contents/Resources` to
   * the build's resource bundle exactly when the app and the bundle exist and
   * the slot is free, and then that link is the only change; in every other
   * case the disk is as it was. A non-empty real `Resources` directory is
   * refused with the not-empty error.
   */
  lemma RelinkOutcome(m: map<Path, Node>, readOnly: set<Path>, cwd: Path, appName: string)
    requires WellFormed(m)
    ensures var app := AppDirectory(cwd, appName);
      var res := ResourcesPath(app);
      var bundle := BuildBundlePath(cwd, appName);
      var e := SymResourcesEffect(m, readOnly, cwd, appName);
      && (!Exists(m, app) ==> e.result == AppNotFound)
      && (Exists(m, app) && !Exists(m, bundle) ==> e.result == BundleNotFound)
      && (e.result == ResourcesLinked <==> Exists(m, app) && Exists(m, bundle) && SlotFree(m, readOnly, res))
      && (e.result == ResourcesLinked ==> e.entries == m[res := Symlink(bundle)])
      && (e.result != ResourcesLinked ==> e.entries == m)
      && ((Exists(m, app) && Exists(m, bundle) && res in m && m[res] == Dir && Children(m, res) != {})
            ==> e == Effect(ClearFailed(DirectoryNotEmpty), m))
  {
    RelinkRefused(m, readOnly, cwd, appName);
    RelinkLinked(m, readOnly, cwd, appName);
  }

  /** The refusals of `RelinkOutcome`: every failure leaves the disk as it was. */
  lemma RelinkRefused(m: map<Path, Node>, readOnly: set<Path>, cwd: Path, appName: string)
    requires WellFormed(m)
    ensures var app := AppDirectory(cwd, appName);
      var res := ResourcesPath(app);
      var bundle := BuildBundlePath(cwd, appName);
      var e := SymResourcesEffect(m, readOnly, cwd, appName);
      && (!Exists(m, app) ==> e.result == AppNotFound)
      && (Exists(m, app) && !Exists(m, bundle) ==> e.result == BundleNotFound)
      && (e.result != ResourcesLinked ==> e.entries == m)
      && ((Exists(m, app) && Exists(m, bundle) && res in m && m[res] == Dir && Children(m, res) != {})
            ==> e == Effect(ClearFailed(DirectoryNotEmpty), m))
  {
    var res := ResourcesPath(AppDirectory(cwd, appName));
    var bundle := BuildBundlePath(cwd, appName);
    ClearIsSafe(m, readOnly, res);
    var cleared := ClearEffect(m, readOnly, res);
    if cleared.entries != m {
      assert Parent(res) in m - {res};
    }
  }

  /** The success case of `RelinkOutcome`: when and how the link is made. */
  lemma RelinkLinked(m: map<Path, Node>, readOnly: set<Path>, cwd: Path, appName: string)
    requires WellFormed(m)
    ensures var app := AppDirectory(cwd, appName);
      var res := ResourcesPath(app);
      var bundle := BuildBundlePath(cwd, appName);
      var e := SymResourcesEffect(m, readOnly, cwd, appName);
      && (e.result == ResourcesLinked <==> Exists(m, app) && Exists(m, bundle) && SlotFree(m, readOnly, res))
      && (e.result == ResourcesLinked ==> e.entries == m[res := Symlink(bundle)])
  {
    ClearThenLink(m, readOnly, ResourcesPath(AppDirectory(cwd, appName)), BuildBundlePath(cwd, appName));
  }

  /**
   * Safe-clearing a slot and then linking there succeeds exactly when the
   * slot is free, and the link is then the only change.
   */
  lemma ClearThenLink(m: map<Path, Node>, readOnly: set<Path>, d: Path, target: Path)
    requires WellFormed(m) && d != []
    ensures var cleared := ClearEffect(m, readOnly, d);
      var linked := LinkEffect(cleared.entries, readOnly, d, target);
      && (cleared.result.Ok? && linked.result.Ok? <==> SlotFree(m, readOnly, d))
      && (cleared.result.Ok? && linked.result.Ok? ==> linked.entries == m[d := Symlink(target)])
  {
    ClearIsSafe(m, readOnly, d);
    var cleared := ClearEffect(m, readOnly, d);
    if cleared.entries != m {
      assert cleared.entries == m - {d};
      assert Parent(d) in m - {d};
      assert (m - {d})[d := Symlink(target)] == m[d := Symlink(target)];
    }
  }

  /**
   * Once `Contents/Resources` links to a bundle that has content, relinking
   * is refused: the listing follows the link and finds the bundle's entries.
   */
  lemma RelinkRepeatRefused(m: map<Path, Node>, readOnly: set<Path>, cwd: Path, appName: string)
    requires WellFormed(m)
    requires AppDirectory(cwd, appName) in m && m[AppDirectory(cwd, appName)] == Dir
    requires BuildBundlePath(cwd, appName) in m && m[BuildBundlePath(cwd, appName)] == Dir
    requires Children(m, BuildBundlePath(cwd, appName)) != {}
    requires SymResourcesEffect(m, readOnly, cwd, appName).result == ResourcesLinked
    ensures var m' := SymResourcesEffect(m, readOnly, cwd, appName).entries;
      SymResourcesEffect(m', readOnly, cwd, appName) == Effect(ClearFailed(DirectoryNotEmpty), m')
  {
    var app := AppDirectory(cwd, appName);
    var res := ResourcesPath(app);
    var bundle := BuildBundlePath(cwd, appName);
    RelinkLinked(m, readOnly, cwd, appName);
    var m' := m[res := Symlink(bundle)];
    BundleOutsideBuild(cwd, appName, res);
    PrefixOfLonger(BuildDir(cwd), bundle, res);
    ClearOverLinkRefused(m, readOnly, res, bundle);
    assert app in m' && m'[app] == Dir;
  }

  /**
   * Safe-clearing a slot that links to a directory with entries is refused
   * with the not-empty error and changes nothing.
   */
  lemma ClearOverLinkRefused(m: map<Path, Node>, readOnly: set<Path>, d: Path, target: Path)
    requires target in m && m[target] == Dir && Children(m, target) != {}
    requires !(target <= d)
    ensures var m' := m[d := Symlink(target)];
      ClearEffect(m', readOnly, d) == Effect(Err(DirectoryNotEmpty), m')
  {
    var m' := m[d := Symlink(target)];
    assert Children(m', target) == Children(m, target);
    assert Resolve(m', d, MaxSymlinks) == Resolve(m', target, MaxSymlinks - 1) == Some(target);
  }

  /**
   * `resetResourcesSymlink` for a bundle that exists does what
   * `handleSymResources` does to the disk, and succeeds exactly when that
   * links or finds no build bundle.
   */
  lemma ResetMatchesRelink(m: map<Path, Node>, readOnly: set<Path>, cwd: Path, appName: string)
    requires WellFormed(m) && Exists(m, AppDirectory(cwd, appName))
    ensures var reset := ResetResourcesEffect(m, readOnly, cwd, AppDirectory(cwd, appName), appName);
      var relink := SymResourcesEffect(m, readOnly, cwd, appName);
      && reset.entries == relink.entries
      && (reset.result.Ok? <==> relink.result == ResourcesLinked || relink.result == BundleNotFound)
  {
  }

  /**
   * `createBinarySymlink`: without a built executable nothing changes; with
   * one, whatever `fileExists` sees at `Contents/MacOS/<appName>` (and all
   * below it) is replaced by a link to it. Any failure leaves the disk as it
   * was. A dangling link there is not seen, so it blocks the new link.
   */
  lemma BinaryLinkOutcome(m: map<Path, Node>, readOnly: set<Path>, cwd: Path, appDir: Path, appName: string)
    requires WellFormed(m)
    ensures var bin := BinaryPath(cwd, appName);
      var link := BinaryLinkPath(appDir, appName);
      var e := BinaryLinkEffect(m, readOnly, cwd, appDir, appName);
      && WellFormed(e.entries)
      && (!Exists(m, bin) ==> e == Effect(BinaryNotFound, m))
      && (e.result != BinaryLinked ==> e.entries == m)
      && (e.result == BinaryLinked <==>
            && Exists(m, bin)
            && Parent(link) in m && m[Parent(link)] == Dir && Parent(link) !in readOnly
            && (link in m ==> Exists(m, link)))
      && (e.result == BinaryLinked ==> e.entries == (m - Subtree(m, link))[link := Symlink(bin)])
      && (Exists(m, bin) && link in m && !Exists(m, link) ==> e == Effect(BinaryLinkFailed(FileExists), m))
  {
    var bin := BinaryPath(cwd, appName);
    var link := BinaryLinkPath(appDir, appName);
    if Exists(m, bin) && Exists(m, link) {
      var removed := RemoveEffect(m, readOnly, link);
      if removed.result.Ok? {
        assert Parent(link) !in Subtree(m, link);
        assert link !in removed.entries && Parent(link) in removed.entries;
        assert AddCheck(removed.entries, readOnly, link).Ok?;
      }
    } else {
      AbsentSubtree(m, link);
      assert link !in m ==> m - Subtree(m, link) == m;
    }
  }

  /** Linking the binary a second time leaves the disk as the first time did. */
  lemma BinaryLinkIdempotent(m: map<Path, Node>, readOnly: set<Path>, cwd: Path, appDir: Path, appName: string)
    requires WellFormed(m)
    ensures var m' := BinaryLinkEffect(m, readOnly, cwd, appDir, appName).entries;
      BinaryLinkEffect(m', readOnly, cwd, appDir, appName).entries == m'
  {
    var link := BinaryLinkPath(appDir, appName);
    var bin := BinaryPath(cwd, appName);
    BinaryLinkOutcome(m, readOnly, cwd, appDir, appName);
    var e := BinaryLinkEffect(m, readOnly, cwd, appDir, appName);
    if e.result == BinaryLinked {
      var m' := e.entries;
      LeafSubtree(m', link);
      BinaryLinkOutcome(m', readOnly, cwd, appDir, appName);
      assert (m' - {link})[link := Symlink(bin)] == m';
    }
  }

  /**
   * `createDirectoryStructure` changes nothing but `Contents/Resources` and
   * the directories on the way to `Contents/MacOS`, which it only adds.
   */
  lemma StructureFrame(m: map<Path, Node>, readOnly: set<Path>, cwd: Path, appName: string)
    requires WellFormed(m)
    ensures var appDir := AppDirectory(cwd, appName);
      var e := DirectoryStructureEffect(m, readOnly, cwd, appDir, appName);
      && WellFormed(e.entries)
      && (forall q :: q != ResourcesPath(appDir) && !(q <= MacOSDir(appDir)) ==> SameAt(m, e.entries, q))
      && (forall q :: q in m && q != ResourcesPath(appDir) ==> q in e.entries && e.entries[q] == m[q])
  {
    var appDir := AppDirectory(cwd, appName);
    var made := MakeDirs(m, readOnly, MacOSDir(appDir));
    var e := DirectoryStructureEffect(m, readOnly, cwd, appDir, appName);
    assert WellFormed(made.entries);
    forall q | q != ResourcesPath(appDir)
      ensures !(q <= MacOSDir(appDir)) ==> SameAt(m, e.entries, q)
      ensures q in m ==> q in e.entries && e.entries[q] == m[q]
    {
      StructureFrameAt(m, readOnly, cwd, appName, q);
    }
  }

  /** One path of `StructureFrame`. */
  lemma StructureFrameAt(m: map<Path, Node>, readOnly: set<Path>, cwd: Path, appName: string, q: Path)
    requires q != ResourcesPath(AppDirectory(cwd, appName))
    ensures var appDir := AppDirectory(cwd, appName);
      var e := DirectoryStructureEffect(m, readOnly, cwd, appDir, appName);
      && (!(q <= MacOSDir(appDir)) ==> SameAt(m, e.entries, q))
      && (q in m ==> q in e.entries && e.entries[q] == m[q])
  {
    var appDir := AppDirectory(cwd, appName);
    var made := MakeDirs(m, readOnly, MacOSDir(appDir));
    var e := DirectoryStructureEffect(m, readOnly, cwd, appDir, appName);
    assert SameAt(made.entries, e.entries, q);
    assert !(q <= MacOSDir(appDir)) ==> SameAt(m, made.entries, q);
  }

  /**
   * `createDirectoryStructure`: on success `Contents` is a directory,
   * `fileExists` sees a directory at `Contents/MacOS` (a new one, unless a
   * link was already there), and `Contents/Resources` links to the build
   * bundle whenever `fileExists` sees that.
   */
  lemma StructureOutcome(m: map<Path, Node>, readOnly: set<Path>, cwd: Path, appName: string)
    requires WellFormed(m)
    ensures var appDir := AppDirectory(cwd, appName);
      var mac := MacOSDir(appDir);
      var bundle := BuildBundlePath(cwd, appName);
      var e := DirectoryStructureEffect(m, readOnly, cwd, appDir, appName);
      && (e.result.Ok? ==>
            && ContentsDir(appDir) in e.entries && e.entries[ContentsDir(appDir)] == Dir
            && Exists(e.entries, mac) && e.entries[Resolve(e.entries, mac, MaxSymlinks).value] == Dir
            && (!(mac in m && m[mac].Symlink?) ==> mac in e.entries && e.entries[mac] == Dir))
      && (e.result.Ok? && Exists(m, bundle) ==>
            ResourcesPath(appDir) in e.entries && e.entries[ResourcesPath(appDir)] == Symlink(bundle))
  {
    var appDir := AppDirectory(cwd, appName);
    var mac := MacOSDir(appDir);
    var bundle := BuildBundlePath(cwd, appName);
    BundlePathsDistinct(appDir, appName);
    var made := MakeDirs(m, readOnly, mac);
    var e := DirectoryStructureEffect(m, readOnly, cwd, appDir, appName);
    MakeDirsOutcome(m, readOnly, mac);
    assert WellFormed(made.entries);
    if made.result.Ok? {
      assert mac in made.entries && mac != [] && Parent(mac) == ContentsDir(appDir);
      if Exists(m, bundle) {
        ResolveKept(m, made.entries, bundle, MaxSymlinks);
      }
      if e.entries != made.entries {
        ResolveKept(made.entries, e.entries, mac, MaxSymlinks);
      }
    }
  }

  /**
   * `generateSkeleton`: on success the bundle holds `Contents` as a writable
   * directory, `Contents/MacOS` as a directory (unless a link was already
   * there, which creation follows) and the rendered manifest at
   * `Contents/info.plist`, and `Contents/Resources` links to the build
   * bundle whenever `fileExists` saw that.
   */
  lemma SkeletonLayout(m: map<Path, Node>, readOnly: set<Path>, cwd: Path, appName: string)
    requires WellFormed(m)
    ensures var appDir := AppDirectory(cwd, appName);
      var bundle := BuildBundlePath(cwd, appName);
      var e := SkeletonEffect(m, readOnly, cwd, appDir, appName);
      && (e.result.Ok? ==>
            && ContentsDir(appDir) in e.entries && e.entries[ContentsDir(appDir)] == Dir
            && ContentsDir(appDir) !in readOnly
            && MacOSDir(appDir) in e.entries
            && (!(MacOSDir(appDir) in m && m[MacOSDir(appDir)].Symlink?) ==> e.entries[MacOSDir(appDir)] == Dir)
            && PlistPath(appDir) in e.entries && e.entries[PlistPath(appDir)] == File(Plist.PlistText(appName)))
      && (e.result.Ok? && Exists(m, bundle) ==>
            ResourcesPath(appDir) in e.entries && e.entries[ResourcesPath(appDir)] == Symlink(bundle))
  {
    var appDir := AppDirectory(cwd, appName);
    BundlePathsDistinct(appDir, appName);
    StructureFrame(m, readOnly, cwd, appName);
    StructureOutcome(m, readOnly, cwd, appName);
    var s := DirectoryStructureEffect(m, readOnly, cwd, appDir, appName);
    var p := InfoPlistEffect(s.entries, readOnly, appDir, appName);
    assert WellFormed(p.entries);
    BinaryLinkKeeps(p.entries, readOnly, cwd, appDir, appName, ContentsDir(appDir));
    BinaryLinkKeeps(p.entries, readOnly, cwd, appDir, appName, MacOSDir(appDir));
    BinaryLinkKeeps(p.entries, readOnly, cwd, appDir, appName, PlistPath(appDir));
    BinaryLinkKeeps(p.entries, readOnly, cwd, appDir, appName, ResourcesPath(appDir));
  }

  /**
   * `generateSkeleton` stops at the first failing step: a failure leaves the
   * manifest and the binary link as they were, since the steps that write
   * them did not run or changed nothing.
   */
  lemma SkeletonStopsOnError(m: map<Path, Node>, readOnly: set<Path>, cwd: Path, appName: string)
    requires WellFormed(m)
    ensures var appDir := AppDirectory(cwd, appName);
      var e := SkeletonEffect(m, readOnly, cwd, appDir, appName);
      e.result.Err? ==>
        SameAt(m, e.entries, PlistPath(appDir)) && SameAt(m, e.entries, BinaryLinkPath(appDir, appName))
  {
    var appDir := AppDirectory(cwd, appName);
    BundlePathsDistinct(appDir, appName);
    StructureFrame(m, readOnly, cwd, appName);
  }

  /**
   * `generateSkeleton` keeps the disk a tree, and nothing outside
   * `<appName>.app` changes except missing directories on the way to it.
   */
  lemma SkeletonFrame(m: map<Path, Node>, readOnly: set<Path>, cwd: Path, appName: string)
    requires WellFormed(m)
    ensures var appDir := AppDirectory(cwd, appName);
      var e := SkeletonEffect(m, readOnly, cwd, appDir, appName);
      && WellFormed(e.entries)
      && (forall q :: !(appDir <= q) && !(q <= MacOSDir(appDir)) ==> SameAt(m, e.entries, q))
      && (forall q :: q in m && !(appDir <= q) ==> q in e.entries && e.entries[q] == m[q])
  {
    var appDir := AppDirectory(cwd, appName);
    var e := SkeletonEffect(m, readOnly, cwd, appDir, appName);
    StructureFrame(m, readOnly, cwd, appName);
    var s := DirectoryStructureEffect(m, readOnly, cwd, appDir, appName);
    var p := InfoPlistEffect(s.entries, readOnly, appDir, appName);
    BinaryLinkOutcome(p.entries, readOnly, cwd, appDir, appName);
    forall q | !(appDir <= q) && !(q <= MacOSDir(appDir))
      ensures SameAt(m, e.entries, q)
    {
      SkeletonFrameAt(m, readOnly, cwd, appName, q);
    }
    forall q | q in m && !(appDir <= q)
      ensures q in e.entries && e.entries[q] == m[q]
    {
      SkeletonKeepsExistingAt(m, readOnly, cwd, appName, q);
    }
  }

  /** One path of `SkeletonFrame`. */
  lemma SkeletonFrameAt(m: map<Path, Node>, readOnly: set<Path>, cwd: Path, appName: string, q: Path)
    requires WellFormed(m)
    requires !(AppDirectory(cwd, appName) <= q) && !(q <= MacOSDir(AppDirectory(cwd, appName)))
    ensures SameAt(m, SkeletonEffect(m, readOnly, cwd, AppDirectory(cwd, appName), appName).entries, q)
  {
    var appDir := AppDirectory(cwd, appName);
    StructureFrame(m, readOnly, cwd, appName);
    var s := DirectoryStructureEffect(m, readOnly, cwd, appDir, appName);
    var p := InfoPlistEffect(s.entries, readOnly, appDir, appName);
    assert SameAt(m, s.entries, q);
    assert q != PlistPath(appDir);
    assert SameAt(s.entries, p.entries, q);
    BinaryLinkFrameAt(p.entries, readOnly, cwd, appDir, appName, q);
  }

  /**
   * One existing path outside the bundle directory, including `cwd` and its
   * ancestors: generation leaves its entry as it was.
   */
  lemma SkeletonKeepsExistingAt(m: map<Path, Node>, readOnly: set<Path>, cwd: Path, appName: string, q: Path)
    requires WellFormed(m)
    requires q in m && !(AppDirectory(cwd, appName) <= q)
    ensures var e := SkeletonEffect(m, readOnly, cwd, AppDirectory(cwd, appName), appName);
      q in e.entries && e.entries[q] == m[q]
  {
    var appDir := AppDirectory(cwd, appName);
    StructureFrame(m, readOnly, cwd, appName);
    var s := DirectoryStructureEffect(m, readOnly, cwd, appDir, appName);
    var p := InfoPlistEffect(s.entries, readOnly, appDir, appName);
    assert q != ResourcesPath(appDir);
    assert q in s.entries && s.entries[q] == m[q];
    assert q != PlistPath(appDir);
    assert SameAt(s.entries, p.entries, q);
    BinaryLinkFrameAt(p.entries, readOnly, cwd, appDir, appName, q);
  }

  /** The binary-link step changes nothing outside the bundle directory. */
  lemma BinaryLinkFrameAt(m: map<Path, Node>, readOnly: set<Path>, cwd: Path, appDir: Path, appName: string, q: Path)
    requires WellFormed(m)
    requires !(appDir <= q)
    ensures SameAt(m, BinaryLinkEffect(m, readOnly, cwd, appDir, appName).entries, q)
  {
    PrefixOfLonger(appDir, BinaryLinkPath(appDir, appName), q);
    BinaryLinkKeeps(m, readOnly, cwd, appDir, appName, q);
  }

  /** The binary-link step changes nothing that does not lie at or below the link. */
  lemma BinaryLinkKeeps(m: map<Path, Node>, readOnly: set<Path>, cwd: Path, appDir: Path, appName: string, q: Path)
    requires WellFormed(m)
    requires !(BinaryLinkPath(appDir, appName) <= q)
    ensures SameAt(m, BinaryLinkEffect(m, readOnly, cwd, appDir, appName).entries, q)
  {
    var link := BinaryLinkPath(appDir, appName);
    BinaryLinkOutcome(m, readOnly, cwd, appDir, appName);
    assert q !in Subtree(m, link) && q != link;
  }

  /**
   * Generating again over a generated bundle, when no build bundle is
   * present, succeeds and changes nothing: the manifest is rewritten with
   * the same text and the binary link replaced by the same link.
   */
  lemma SkeletonRerunWithoutBundle(m: map<Path, Node>, readOnly: set<Path>, cwd: Path, appName: string)
    requires WellFormed(m)
    requires SkeletonEffect(m, readOnly, cwd, AppDirectory(cwd, appName), appName).result.Ok?
    requires !(MacOSDir(AppDirectory(cwd, appName)) in m && m[MacOSDir(AppDirectory(cwd, appName))].Symlink?)
    requires !Exists(SkeletonEffect(m, readOnly, cwd, AppDirectory(cwd, appName), appName).entries, BuildBundlePath(cwd, appName))
    ensures var m' := SkeletonEffect(m, readOnly, cwd, AppDirectory(cwd, appName), appName).entries;
      SkeletonEffect(m', readOnly, cwd, AppDirectory(cwd, appName), appName) == Effect(Ok, m')
  {
    var appDir := AppDirectory(cwd, appName);
    StructureFrame(m, readOnly, cwd, appName);
    var s := DirectoryStructureEffect(m, readOnly, cwd, appDir, appName);
    var p := InfoPlistEffect(s.entries, readOnly, appDir, appName);
    assert WellFormed(p.entries);
    var m' := SkeletonEffect(m, readOnly, cwd, appDir, appName).entries;
    assert m' == BinaryLinkEffect(p.entries, readOnly, cwd, appDir, appName).entries;
    BinaryLinkOutcome(p.entries, readOnly, cwd, appDir, appName);
    BinaryLinkIdempotent(p.entries, readOnly, cwd, appDir, appName);
    SkeletonLayout(m, readOnly, cwd, appName);
    GeneratedIsFixedPoint(m', readOnly, cwd, appName);
  }

  /**
   * A disk that already holds the generated layout, with no build bundle and
   * a binary link that relinking leaves as it is, is left as it is by
   * `generateSkeleton`.
   */
  lemma GeneratedIsFixedPoint(m: map<Path, Node>, readOnly: set<Path>, cwd: Path, appName: string)
    requires WellFormed(m)
    requires var appDir := AppDirectory(cwd, appName);
      && ContentsDir(appDir) in m && m[ContentsDir(appDir)] == Dir && ContentsDir(appDir) !in readOnly
      && MacOSDir(appDir) in m && m[MacOSDir(appDir)] == Dir
      && PlistPath(appDir) in m && m[PlistPath(appDir)] == File(Plist.PlistText(appName))
      && !Exists(m, BuildBundlePath(cwd, appName))
      && BinaryLinkEffect(m, readOnly, cwd, appDir, appName).entries == m
    ensures SkeletonEffect(m, readOnly, cwd, AppDirectory(cwd, appName), appName) == Effect(Ok, m)
  {
    var appDir := AppDirectory(cwd, appName);
    MakeDirsExisting(m, readOnly, MacOSDir(appDir));
    assert DirectoryStructureEffect(m, readOnly, cwd, appDir, appName) == Effect(Ok, m);
    assert m[PlistPath(appDir) := File(Plist.PlistText(appName))] == m;
    assert InfoPlistEffect(m, readOnly, appDir, appName) == Effect(Ok, m);
  }

  /**
   * Generating again over a generated bundle while the build bundle is
   * present fails: `Contents/Resources` is already there, and the directory
   * step links it without clearing it first. The disk is left unchanged and
   * the manifest and binary steps do not run.
   */
  lemma SkeletonRerunWithBundle(m: map<Path, Node>, readOnly: set<Path>, cwd: Path, appName: string)
    requires WellFormed(m)
    requires BuildBundlePath(cwd, appName) in m && m[BuildBundlePath(cwd, appName)] == Dir
    requires SkeletonEffect(m, readOnly, cwd, AppDirectory(cwd, appName), appName).result.Ok?
    ensures var m' := SkeletonEffect(m, readOnly, cwd, AppDirectory(cwd, appName), appName).entries;
      SkeletonEffect(m', readOnly, cwd, AppDirectory(cwd, appName), appName) == Effect(Err(FileExists), m')
  {
    var appDir := AppDirectory(cwd, appName);
    var bundle := BuildBundlePath(cwd, appName);
    SkeletonLayout(m, readOnly, cwd, appName);
    SkeletonFrame(m, readOnly, cwd, appName);
    var m' := SkeletonEffect(m, readOnly, cwd, appDir, appName).entries;
    BundleOutsideBuild(cwd, appName, bundle);
    BundleOutsideBuild(cwd, appName, MacOSDir(appDir));
    assert BuildDir(cwd) <= bundle && appDir <= MacOSDir(appDir);
    PrefixOfLonger(BuildDir(cwd), bundle, MacOSDir(appDir));
    assert SameAt(m, m', bundle);
    MakeDirsOutcome(m', readOnly, MacOSDir(appDir));
  }

  /**
   * Generating into a writable directory that holds no `<appName>.app` yet
   * succeeds, with or without a build bundle, when the directories it
   * creates are writable.
   */
  lemma SkeletonFreshSucceeds(m: map<Path, Node>, readOnly: set<Path>, cwd: Path, appName: string)
    requires WellFormed(m)
    requires cwd in m && m[cwd] == Dir && cwd !in readOnly
    requires AppDirectory(cwd, appName) !in m
    requires AppDirectory(cwd, appName) !in readOnly && ContentsDir(AppDirectory(cwd, appName)) !in readOnly
    ensures SkeletonEffect(m, readOnly, cwd, AppDirectory(cwd, appName), appName).result.Ok?
  {
    var appDir := AppDirectory(cwd, appName);
    FreshStructureSucceeds(m, readOnly, cwd, appName);
    BundlePathsDistinct(appDir, appName);
    StructureFrame(m, readOnly, cwd, appName);
    var s := DirectoryStructureEffect(m, readOnly, cwd, appDir, appName);
    assert PlistPath(appDir) !in m;
    assert !(PlistPath(appDir) <= MacOSDir(appDir));
    assert SameAt(m, s.entries, PlistPath(appDir));
  }

  /**
   * The directory step of `SkeletonFreshSucceeds`: it succeeds and leaves
   * `Contents` a writable directory.
   */
  lemma FreshStructureSucceeds(m: map<Path, Node>, readOnly: set<Path>, cwd: Path, appName: string)
    requires WellFormed(m)
    requires cwd in m && m[cwd] == Dir && cwd !in readOnly
    requires AppDirectory(cwd, appName) !in m
    requires AppDirectory(cwd, appName) !in readOnly && ContentsDir(AppDirectory(cwd, appName)) !in readOnly
    ensures var e := DirectoryStructureEffect(m, readOnly, cwd, AppDirectory(cwd, appName), appName);
      e.result.Ok? && ContentsDir(AppDirectory(cwd, appName)) in e.entries
        && e.entries[ContentsDir(AppDirectory(cwd, appName))] == Dir
  {
    var appDir := AppDirectory(cwd, appName);
    var mac := MacOSDir(appDir);
    FreshPrefixesAreDirs(m, cwd, appName);
    FreshPrefixesWritable(m, readOnly, cwd, appName);
    MakeDirsSucceeds(m, readOnly, mac);
    StructureOutcome(m, readOnly, cwd, appName);
    BundlePathsDistinct(appDir, appName);
    var made := MakeDirs(m, readOnly, mac);
    assert ResourcesPath(appDir) !in m;
    assert ResourcesPath(appDir) !in made.entries;
  }

  /** With no `<appName>.app` yet, the prefixes of `Contents/MacOS` that exist are those of `cwd`, all directories. */
  lemma FreshPrefixesAreDirs(m: map<Path, Node>, cwd: Path, appName: string)
    requires WellFormed(m)
    requires cwd in m && m[cwd] == Dir
    requires AppDirectory(cwd, appName) !in m
    ensures var mac := MacOSDir(AppDirectory(cwd, appName));
      forall k :: 0 <= k <= |mac| ==> (mac[..k] in m ==> m[mac[..k]] == Dir)
  {
    var appDir := AppDirectory(cwd, appName);
    var contents := ContentsDir(appDir);
    var mac := MacOSDir(appDir);
    assert Parent(contents) == appDir;
    assert contents !in m;
    assert Parent(mac) == contents;
    assert mac !in m;
    forall k | 0 <= k <= |mac|
      ensures mac[..k] in m ==> m[mac[..k]] == Dir
    {
      if k < |cwd| {
        assert mac[..k] == cwd[..k];
        AncestorPresent(m, cwd, k);
      } else if k == |cwd| {
        assert mac[..k] == cwd;
      } else if k == |cwd| + 1 {
        assert mac[..k] == appDir;
      } else if k == |cwd| + 2 {
        assert mac[..k] == contents;
      } else {
        assert mac[..k] == mac;
      }
    }
  }

  /** With no `<appName>.app` yet, each prefix of `Contents/MacOS` still to be created lies in a writable directory. */
  lemma FreshPrefixesWritable(m: map<Path, Node>, readOnly: set<Path>, cwd: Path, appName: string)
    requires WellFormed(m)
    requires cwd in m && cwd !in readOnly
    requires AppDirectory(cwd, appName) !in readOnly && ContentsDir(AppDirectory(cwd, appName)) !in readOnly
    ensures var mac := MacOSDir(AppDirectory(cwd, appName));
      forall k :: 0 < k <= |mac| ==> (mac[..k] !in m ==> mac[..k - 1] !in readOnly)
  {
    var appDir := AppDirectory(cwd, appName);
    var mac := MacOSDir(appDir);
    assert mac[..|cwd|] == cwd && mac[..|cwd| + 1] == appDir && mac[..|cwd| + 2] == ContentsDir(appDir);
    forall k | 0 < k <= |mac|
      ensures mac[..k] !in m ==> mac[..k - 1] !in readOnly
    {
      if k <= |cwd| {
        assert mac[..k] == cwd[..k];
        AncestorPresent(m, cwd, k);
      }
    }
  }
}
