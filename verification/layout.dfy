/**
 * Where sapp looks and writes, derived from the working directory and the
 * app name. `URL.appendingPathComponent` with a component such as
 * "Contents/Resources" adds two components; here each is written out.
 */
module Layout {
  import opened FileSystem

  /** `<cwd>/<appName>.app`, the bundle (`AppSkeletonGenerator.appDirectory`). */
  function AppDirectory(cwd: Path, appName: string): Path
  {
    cwd + [appName + ".app"]
  }

  function ContentsDir(appDir: Path): Path
  {
    appDir + ["Contents"]
  }

  function MacOSDir(appDir: Path): Path
  {
    ContentsDir(appDir) + ["MacOS"]
  }

  /** `Contents/Resources`, where the resource bundle is linked. */
  function ResourcesPath(appDir: Path): Path
  {
    ContentsDir(appDir) + ["Resources"]
  }

  /** `Contents/info.plist`, the manifest. */
  function PlistPath(appDir: Path): Path
  {
    ContentsDir(appDir) + ["info.plist"]
  }

  /** `Contents/MacOS/<appName>`, the link to the executable. */
  function BinaryLinkPath(appDir: Path, appName: string): Path
  {
    MacOSDir(appDir) + [appName]
  }

  /** `<cwd>/.build/release`, SwiftPM's release output. */
  function BuildDir(cwd: Path): Path
  {
    cwd + [".build", "release"]
  }

  /** `.build/release/<appName>`, the built executable. */
  function BinaryPath(cwd: Path, appName: string): Path
  {
    BuildDir(cwd) + [appName]
  }

  /** `.build/release/<appName>_<appName>.bundle`, SwiftPM's resource bundle. */
  function BuildBundlePath(cwd: Path, appName: string): Path
  {
    BuildDir(cwd) + [appName + "_" + appName + ".bundle"]
  }

  /**
   * The bundle and the build output are disjoint trees: nothing sapp creates
   * inside `<appName>.app` lies under `.build/release`, and the other way
   * round.
   */
  lemma BundleOutsideBuild(cwd: Path, appName: string, q: Path)
    ensures !(AppDirectory(cwd, appName) <= q && BuildDir(cwd) <= q)
  {
    var x := appName + ".app";
    assert x[|x| - 1] == 'p' && ".build"[5] == 'd';
    assert AppDirectory(cwd, appName)[|cwd|] == x && BuildDir(cwd)[|cwd|] == ".build";
  }

  /**
   * The four places sapp writes inside the bundle are distinct, and only the
   * binary link lies under another of them (`Contents/MacOS`).
   */
  lemma BundlePathsDistinct(appDir: Path, appName: string)
    ensures ResourcesPath(appDir) != PlistPath(appDir)
    ensures !(ResourcesPath(appDir) <= MacOSDir(appDir)) && !(MacOSDir(appDir) <= ResourcesPath(appDir))
    ensures !(PlistPath(appDir) <= MacOSDir(appDir)) && !(MacOSDir(appDir) <= PlistPath(appDir))
    ensures !(ResourcesPath(appDir) <= BinaryLinkPath(appDir, appName))
    ensures !(PlistPath(appDir) <= BinaryLinkPath(appDir, appName))
    ensures MacOSDir(appDir) < BinaryLinkPath(appDir, appName)
    ensures ContentsDir(appDir) == Parent(ResourcesPath(appDir)) == Parent(PlistPath(appDir)) == Parent(MacOSDir(appDir))
    ensures MacOSDir(appDir) == Parent(BinaryLinkPath(appDir, appName))
  {
    var n := |appDir|;
    assert ResourcesPath(appDir)[n + 1] == "Resources";
    assert PlistPath(appDir)[n + 1] == "info.plist";
    assert MacOSDir(appDir)[n + 1] == "MacOS";
    assert BinaryLinkPath(appDir, appName)[n + 1] == "MacOS";
  }
}
