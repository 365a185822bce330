/**
 * An abstract disk standing in for Foundation's `FileManager`: a map from
 * absolute paths (sequences of path components) to nodes, and the handful of
 * primitives sapp calls. Each primitive is given twice: as a pure function
 * from the old map to an `Effect` (its outcome and the new map), which the
 * specifications use, and as a method of `Disk`, which the imperative code
 * calls and which is proved to have exactly that effect.
 *
 * The primitives follow the POSIX calls behind them: `fileExists` and
 * `contentsOfDirectory` follow symbolic links (at most `MaxSymlinks` of
 * them, like the kernel), `removeItem` and `createSymbolicLink` act on the
 * link itself. Write permission is abstracted as a fixed set of directories
 * in which nothing may be added or removed.
 */
module FileSystem {
  import opened Wrappers

  /** An absolute path: its components, the root being `[]`. */
  type Path = seq<string>

  datatype Node = Dir | File(text: string) | Symlink(target: Path)

  /** The errors the primitives can report (the errno values behind them). */
  datatype Error =
    | NoSuchFile         // ENOENT
    | FileExists         // EEXIST
    | NotADirectory      // ENOTDIR
    | IsADirectory       // EISDIR
    | PermissionDenied   // EACCES
    | DirectoryNotEmpty  // sapp's own "Destination ... is not empty."

  /** Whether a throwing call returned normally or threw. */
  datatype Outcome = Ok | Err(error: Error)

  /** What a step did: its result and the disk after it. */
  datatype Effect<R> = Effect(result: R, entries: map<Path, Node>)

  /** The most symbolic links path resolution follows (MAXSYMLINKS on Darwin). */
  const MaxSymlinks: nat := 32

  function Parent(p: Path): Path
    requires p != []
  {
    p[..|p| - 1]
  }

  /**
   * The disk is a tree: the root is a directory, and every other entry sits
   * in a directory that is itself an entry.
   */
  ghost predicate WellFormed(m: map<Path, Node>)
  {
    && [] in m && m[[]] == Dir
    && forall p :: p in m && p != [] ==> Parent(p) in m && m[Parent(p)] == Dir
  }

  /** `p` and `q` hold the same thing, or both nothing, in `m` and `m'`. */
  ghost predicate SameAt(m: map<Path, Node>, m': map<Path, Node>, q: Path)
  {
    (q in m <==> q in m') && (q in m ==> m[q] == m'[q])
  }

  /** The entries at or below `p`: what `removeItem(at: p)` deletes. */
  function Subtree(m: map<Path, Node>, p: Path): (s: set<Path>)
    ensures forall q :: q in s <==> q in m && p <= q
  {
    set q | q in m && p <= q
  }

  /** The entries directly inside `d`. */
  function Children(m: map<Path, Node>, d: Path): (s: set<Path>)
    ensures forall q :: q in s <==> q in m && |q| == |d| + 1 && d < q
  {
    set q | q in m && |q| == |d| + 1 && d < q
  }

  /**
   * The entry that `p` names once symbolic links are followed, at most `hops`
   * of them; `None` for a missing entry, a dangling link or too many links.
   */
  function Resolve(m: map<Path, Node>, p: Path, hops: nat): (r: Option<Path>)
    ensures r.Some? ==> r.value in m && !m[r.value].Symlink?
    ensures p in m && !m[p].Symlink? ==> r == Some(p)
    ensures p !in m ==> r == None
    decreases hops
  {
    if p !in m then None
    else match m[p]
      case Symlink(target) => if hops == 0 then None else Resolve(m, target, hops - 1)
      case _ => Some(p)
  }

  /** `fileExists(atPath:)`: the path resolves to a file or a directory. */
  function Exists(m: map<Path, Node>, p: Path): bool
  {
    Resolve(m, p, MaxSymlinks).Some?
  }

  /**
   * Whether a new entry may be created at `p` (`symlink(2)`): nothing may be
   * there yet, not even a dangling link, and its parent must be a writable
   * directory.
   */
  function AddCheck(m: map<Path, Node>, readOnly: set<Path>, p: Path): (r: Outcome)
    ensures r.Ok? <==> p != [] && p !in m && Parent(p) in m && m[Parent(p)] == Dir && Parent(p) !in readOnly
  {
    if p == [] || p in m then Err(FileExists)
    else if Parent(p) !in m then Err(NoSuchFile)
    else if m[Parent(p)] != Dir then Err(NotADirectory)
    else if Parent(p) in readOnly then Err(PermissionDenied)
    else Ok
  }

  /** `createSymbolicLink(at: at, withDestinationURL: target)`. */
  function LinkEffect(m: map<Path, Node>, readOnly: set<Path>, at: Path, target: Path): (e: Effect<Outcome>)
    ensures e.result == AddCheck(m, readOnly, at)
    ensures e.result.Ok? ==> at in e.entries && e.entries[at] == Symlink(target)
    ensures e.result.Err? ==> e.entries == m
    ensures forall q :: q != at ==> SameAt(m, e.entries, q)
    ensures WellFormed(m) ==> WellFormed(e.entries)
  {
    var r := AddCheck(m, readOnly, at);
    Effect(r, if r.Ok? then m[at := Symlink(target)] else m)
  }

  /** `removeItem(at: p)`: deletes the entry itself (not a link's target) and everything below it. */
  function RemoveEffect(m: map<Path, Node>, readOnly: set<Path>, p: Path): (e: Effect<Outcome>)
    ensures e.result.Ok? <==> p in m && p != [] && Parent(p) !in readOnly
    ensures e.result.Ok? ==> e.entries == m - Subtree(m, p)
    ensures e.result.Err? ==> e.entries == m
    ensures WellFormed(m) ==> WellFormed(e.entries)
  {
    if p !in m then Effect(Err(NoSuchFile), m)
    else if p == [] || Parent(p) in readOnly then Effect(Err(PermissionDenied), m)
    else
      var m' := m - Subtree(m, p);
      assert WellFormed(m) ==> WellFormed(m') by {
        if WellFormed(m) {
          forall q | q in m' && q != []
            ensures Parent(q) in m' && m'[Parent(q)] == Dir
          {
            assert !(p <= q);
            assert Parent(q) <= q;
          }
        }
      }
      Effect(Ok, m')
  }

  /**
   * `write(to: p, atomically: true, encoding: .utf8)`: a temporary file
   * renamed over `p`, which replaces a file or a link but not a directory.
   */
  function WriteEffect(m: map<Path, Node>, readOnly: set<Path>, p: Path, text: string): (e: Effect<Outcome>)
    ensures e.result.Ok? <==>
      p != [] && Parent(p) in m && m[Parent(p)] == Dir && Parent(p) !in readOnly && (p in m ==> m[p] != Dir)
    ensures e.result.Ok? ==> e.entries == m[p := File(text)]
    ensures e.result.Err? ==> e.entries == m
    ensures WellFormed(m) ==> WellFormed(e.entries)
  {
    if p == [] then Effect(Err(IsADirectory), m)
    else if Parent(p) !in m then Effect(Err(NoSuchFile), m)
    else if m[Parent(p)] != Dir then Effect(Err(NotADirectory), m)
    else if p in m && m[p] == Dir then Effect(Err(IsADirectory), m)
    else if Parent(p) in readOnly then Effect(Err(PermissionDenied), m)
    else Effect(Ok, m[p := File(text)])
  }

  /**
   * `createDirectory(at: p, withIntermediateDirectories: true)`: when
   * `fileExists` sees a directory at `p` (following links) there is nothing
   * to do, and anything else it sees there is an error, as is a dangling
   * link in the way (`mkdir(2)` refuses it). Otherwise the parent is created
   * first if `fileExists` does not see it, and then `p` itself, as
   * `mkdir(2)` does. Directories created before an error stay.
   */
  function MakeDirs(m: map<Path, Node>, readOnly: set<Path>, p: Path): (e: Effect<Outcome>)
    ensures forall q :: q in m ==> q in e.entries && e.entries[q] == m[q]
    ensures forall q :: q in e.entries && q !in m ==> e.entries[q] == Dir && q <= p
    ensures WellFormed(m) ==> WellFormed(e.entries)
    ensures e.result.Ok? && p !in m ==> p in e.entries && e.entries[p] == Dir
    decreases |p|
  {
    if Exists(m, p) then
      if m[Resolve(m, p, MaxSymlinks).value] == Dir then Effect(Ok, m) else Effect(Err(FileExists), m)
    else if p == [] || p in m then Effect(Err(FileExists), m)
    else
      var e := if Exists(m, Parent(p)) then Effect(Ok, m) else MakeDirs(m, readOnly, Parent(p));
      if e.result.Err? then e
      else
        var r := AddCheck(e.entries, readOnly, p);
        Effect(r, if r.Ok? then e.entries[p := Dir] else e.entries)
  }

  /** A path below `b` is below every prefix of `b`. */
  lemma PrefixOfLonger(a: Path, b: Path, q: Path)
    requires a <= b
    ensures b <= q ==> a <= q
  {
    if b <= q {
      assert q[..|a|] == b[..|a|];
    }
  }

  /** Every prefix of an entry is an entry, and a directory when it is a proper prefix. */
  lemma {:induction false} AncestorPresent(m: map<Path, Node>, q: Path, k: nat)
    requires WellFormed(m) && q in m && k <= |q|
    ensures q[..k] in m && (k < |q| ==> m[q[..k]] == Dir)
    decreases |q|
  {
    if k < |q| {
      var r := Parent(q);
      assert r in m && m[r] == Dir;
      if k < |r| {
        AncestorPresent(m, r, k);
        assert r[..k] == q[..k];
      } else {
        assert q[..k] == r;
      }
    } else {
      assert q[..k] == q;
    }
  }

  /** An entry strictly below `d` passes through a child of `d`, which is then a directory. */
  lemma ChildOnPath(m: map<Path, Node>, d: Path, q: Path)
    requires WellFormed(m) && q in m && d <= q
    ensures d < q ==> q[..|d| + 1] in Children(m, d) && d in m && m[d] == Dir
  {
    var k := if |q| > |d| then |d| + 1 else |q|;
    AncestorPresent(m, q, k);
    assert q[..k][..|d|] == d;
  }

  /** Nothing lies below a path that is not an entry. */
  lemma AbsentSubtree(m: map<Path, Node>, p: Path)
    requires WellFormed(m)
    ensures p !in m ==> Subtree(m, p) == {}
  {
    forall q | q in m && p <= q
      ensures p in m
    {
      AncestorPresent(m, q, |p|);
      assert q[..|p|] == p;
    }
  }

  /** Removing a link, a file or an empty directory removes that one entry. */
  lemma LeafSubtree(m: map<Path, Node>, d: Path)
    requires WellFormed(m) && d in m
    requires m[d] != Dir || Children(m, d) == {}
    ensures Subtree(m, d) == {d}
  {
    forall q | q in m && d <= q
      ensures q == d
    {
      ChildOnPath(m, d, q);
    }
  }

  /**
   * After a successful `mkdir -p`, `fileExists` sees a directory at `p`;
   * `p` was either already such a path (then nothing changed) or is a new
   * directory.
   */
  lemma MakeDirsOutcome(m: map<Path, Node>, readOnly: set<Path>, p: Path)
    ensures var e := MakeDirs(m, readOnly, p);
      && (e.result.Ok? ==> Exists(e.entries, p) && e.entries[Resolve(e.entries, p, MaxSymlinks).value] == Dir)
      && (p in m ==> e.entries == m && (e.result.Ok? || e.result == Err(FileExists)))
  {
  }

  /** `mkdir -p` of a directory that is already there changes nothing and succeeds. */
  lemma MakeDirsExisting(m: map<Path, Node>, readOnly: set<Path>, p: Path)
    requires p in m && m[p] == Dir
    ensures MakeDirs(m, readOnly, p) == Effect(Ok, m)
  {
  }

  /**
   * `mkdir -p` succeeds when every prefix of `p` that is an entry is a
   * directory, and the directory that is to hold each missing prefix is
   * writable.
   */
  lemma {:induction false} MakeDirsSucceeds(m: map<Path, Node>, readOnly: set<Path>, p: Path)
    requires WellFormed(m)
    requires forall k :: 0 <= k <= |p| ==> (p[..k] in m ==> m[p[..k]] == Dir)
    requires forall k :: 0 < k <= |p| ==> (p[..k] !in m ==> p[..k - 1] !in readOnly)
    ensures MakeDirs(m, readOnly, p).result.Ok?
    decreases |p|
  {
    assert p[..|p|] == p;
    if p !in m {
      var r := Parent(p);
      assert p[..|p| - 1] == r;
      forall k | 0 <= k <= |r|
        ensures r[..k] == p[..k]
      {
      }
      if !Exists(m, r) {
        MakeDirsSucceeds(m, readOnly, r);
      }
    }
  }

  /** Resolution does not change when entries are only added. */
  lemma {:induction false} ResolveKept(m: map<Path, Node>, m': map<Path, Node>, p: Path, hops: nat)
    requires forall q :: q in m ==> q in m' && m'[q] == m[q]
    requires Resolve(m, p, hops).Some?
    ensures Resolve(m', p, hops) == Resolve(m, p, hops)
    decreases hops
  {
    if m[p].Symlink? {
      ResolveKept(m, m', m[p].target, hops - 1);
    }
  }

  /** The children of `d` are the entries whose parent is `d`. */
  lemma ChildrenByParent(m: map<Path, Node>, d: Path)
    ensures forall q :: q in Children(m, d) <==> q in m && q != [] && Parent(q) == d
  {
    forall q | q in m && q != []
      ensures q in Children(m, d) <==> Parent(q) == d
    {
      if Parent(q) == d {
        assert d == q[..|d|];
      }
    }
  }

  /** The disk `FileManager.default` works on. */
  class Disk {
    var entries: map<Path, Node>
    const readOnly: set<Path>

    ghost predicate Valid()
      reads this
    {
      WellFormed(entries)
    }

    constructor (entries: map<Path, Node>, readOnly: set<Path>)
      requires WellFormed(entries)
      ensures Valid() && this.entries == entries && this.readOnly == readOnly
    {
      this.entries := entries;
      this.readOnly := readOnly;
    }

    /** `fileExists(atPath: p)`. */
    function FileExists(p: Path): (b: bool)
      reads this
    {
      Exists(entries, p)
    }

    /** `contentsOfDirectory(atPath: p)` for a path that exists: its entries, or the error for a non-directory. */
    function ContentsOfDirectory(p: Path): (r: Option<set<Path>>)
      reads this
      requires Exists(entries, p)
      ensures r.Some? <==> entries[Resolve(entries, p, MaxSymlinks).value] == Dir
      ensures r.Some? ==> forall q :: q in r.value <==>
        q in entries && q != [] && Parent(q) == Resolve(entries, p, MaxSymlinks).value
    {
      var t := Resolve(entries, p, MaxSymlinks).value;
      ChildrenByParent(entries, t);
      if entries[t] == Dir then Some(Children(entries, t)) else None
    }

    method CreateSymbolicLink(at: Path, target: Path) returns (r: Outcome)
      requires Valid()
      modifies this
      ensures Valid()
      ensures Effect(r, entries) == LinkEffect(old(entries), readOnly, at, target)
    {
      r := AddCheck(entries, readOnly, at);
      if r.Ok? {
        entries := entries[at := Symlink(target)];
      }
    }

    method RemoveItem(at: Path) returns (r: Outcome)
      requires Valid()
      modifies this
      ensures Valid()
      ensures Effect(r, entries) == RemoveEffect(old(entries), readOnly, at)
    {
      if at !in entries {
        r := Err(NoSuchFile);
      } else if at == [] || Parent(at) in readOnly {
        r := Err(PermissionDenied);
      } else {
        entries := entries - Subtree(entries, at);
        r := Ok;
      }
    }

    method Write(text: string, to: Path) returns (r: Outcome)
      requires Valid()
      modifies this
      ensures Valid()
      ensures Effect(r, entries) == WriteEffect(old(entries), readOnly, to, text)
    {
      var e := WriteEffect(entries, readOnly, to, text);
      r := e.result;
      entries := e.entries;
    }

    method CreateDirectory(at: Path) returns (r: Outcome)
      requires Valid()
      modifies this
      ensures Valid()
      ensures Effect(r, entries) == MakeDirs(old(entries), readOnly, at)
    {
      var e := MakeDirs(entries, readOnly, at);
      r := e.result;
      entries := e.entries;
    }
  }
}
