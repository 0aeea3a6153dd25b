/**
 * The part of the file system the upload handler touches: directories and
 * regular files, addressed by canonical absolute paths (given as their names).
 * Every path the operations receive has been canonicalised first, which is how
 * the kernel resolves it when no symbolic link lies on it.
 */
module FileStore {
  import opened Optional

  newtype byte = x: int | 0 <= x < 256

  /** A canonical absolute path, as its names; `[]` is the root. */
  type Location = seq<string>

  /** The IOExceptions the model distinguishes, each with the location it concerns. */
  datatype IoError =
    | NoSuchFileOrDirectory(at: Location)
    | NotADirectory(at: Location)
    | IsADirectory(at: Location)
    | FileAlreadyExists(at: Location)
    | DeviceFailure(at: Location)

  /**
   * A failure of the environment (a full disk, a missing permission, a
   * read-only mount) that the model does not derive from the state: it makes
   * the creation of a missing directory, the creation of the uploaded file or
   * the writing of its bytes fail.
   */
  datatype Fault = NoFault | FailOnCreateDirectories | FailOnCreate | FailOnWrite

  function ParentOf(at: Location): Location {
    if at == [] then [] else at[..|at| - 1]
  }

  /** `at` and every directory above it. */
  function Ancestors(at: Location): (r: set<Location>)
    ensures forall d :: d in r <==> d <= at
  {
    var r := set i | 0 <= i <= |at| :: at[..i];
    assert forall d :: d <= at ==> d == at[..|d|];
    r
  }

  /** Whether a regular file sits where one of the directories strictly above `at` should be. */
  predicate BlockedByFile(files: map<Location, seq<byte>>, at: Location) {
    exists i :: 0 <= i < |at| && at[..i] in files
  }

  /** The directories left when the tree at `at` is removed; the root cannot be removed. */
  function RemoveTree(dirs: set<Location>, at: Location): set<Location> {
    set d | d in dirs && (d == [] || !(at <= d))
  }

  /** The regular files left when the tree at `at` is removed. */
  function RemoveFiles(files: map<Location, seq<byte>>, at: Location): map<Location, seq<byte>> {
    map f | f in files && !(at <= f) :: files[f]
  }

  /**
   * A file system that could exist: the root is a directory, nothing is both a
   * directory and a regular file, and whatever exists sits in a directory.
   */
  ghost predicate WellShaped(dirs: set<Location>, files: map<Location, seq<byte>>) {
    && [] in dirs
    && dirs !! files.Keys
    && (forall f :: f in files ==> f != [])
    && (forall d {:trigger ParentOf(d)} :: d in dirs && d != [] ==> ParentOf(d) in dirs)
    && (forall f {:trigger ParentOf(f)} :: f in files ==> ParentOf(f) in dirs)
  }

  /** In a well-shaped file system everything strictly above an existing location is a directory. */
  lemma {:induction false} AncestorsAreDirectories(dirs: set<Location>, files: map<Location, seq<byte>>, x: Location, i: nat)
    requires WellShaped(dirs, files)
    requires x in dirs || x in files
    requires i < |x|
    ensures x[..i] in dirs
    decreases |x|
  {
    var parent := ParentOf(x);
    assert parent in dirs;
    if i < |parent| {
      AncestorsAreDirectories(dirs, files, parent, i);
      assert parent[..i] == x[..i];
    }
  }

  /** Removing the tree at a location where nothing exists changes nothing. */
  lemma RemovingAbsentTreeChangesNothing(dirs: set<Location>, files: map<Location, seq<byte>>, at: Location)
    requires WellShaped(dirs, files)
    requires at !in dirs && at !in files
    ensures RemoveTree(dirs, at) == dirs
    ensures RemoveFiles(files, at) == files
  {
    forall x | (x in dirs || x in files) && x != []
      ensures !(at <= x)
    {
      if at <= x {
        assert x != at;
        assert x[..|at|] == at;
        AncestorsAreDirectories(dirs, files, x, |at|);
        assert false;
      }
    }
  }

  /** After the tree at `at` is removed and `at` recreated, `at` is an empty directory and nothing above it was removed. */
  lemma RecreatedDirectoryIsEmpty(dirs: set<Location>, files: map<Location, seq<byte>>, at: Location)
    ensures var dirs' := RemoveTree(dirs, at) + Ancestors(at);
            var files' := RemoveFiles(files, at);
            && at in dirs'
            && (forall x :: x in dirs' && at <= x ==> x == at)
            && (forall x :: x in files' ==> !(at <= x))
            && (forall x :: x in dirs && !(at <= x) ==> x in dirs')
            && (forall x :: x in files && !(at <= x) ==> x in files' && files'[x] == files[x])
  {
  }

  /** Every regular file outside the tree at `at` is the same in both states. */
  ghost predicate SameOutside(files: map<Location, seq<byte>>, files': map<Location, seq<byte>>, at: Location) {
    && (forall x :: x in files && !(at <= x) ==> x in files' && files'[x] == files[x])
    && (forall x :: x in files' && !(at <= x) ==> x in files)
  }

  /** Emptying the tree at `at`, then writing one file inside it, leaves everything outside it alone. */
  lemma ResetKeepsOutside(files: map<Location, seq<byte>>, at: Location, target: Location, content: seq<byte>)
    requires at <= target
    ensures SameOutside(files, files, at)
    ensures SameOutside(files, RemoveFiles(files, at), at)
    ensures SameOutside(files, RemoveFiles(files, at)[target := content], at)
  {
  }

  class FileSystem {
    var dirs: set<Location>
    var files: map<Location, seq<byte>>

    ghost predicate Valid()
      reads this
    {
      WellShaped(dirs, files)
    }

    /** A file system holding only the root directory. */
    constructor ()
      ensures Valid()
      ensures dirs == {[]} && files == map[]
    {
      dirs := {[]};
      files := map[];
    }

    /** `File.exists()` */
    function Exists(at: Location): (b: bool)
      reads this
      ensures Valid() && b ==> forall i :: 0 <= i < |at| ==> at[..i] in dirs
    {
      assert Valid() && (at in dirs || at in files) ==> forall i :: 0 <= i < |at| ==> at[..i] in dirs by {
        if Valid() && (at in dirs || at in files) {
          forall i | 0 <= i < |at|
            ensures at[..i] in dirs
          {
            AncestorsAreDirectories(dirs, files, at, i);
          }
        }
      }
      at in dirs || at in files
    }

    /** `FileSystemUtils.deleteRecursively`: removes `at` and everything beneath it. */
    method DeleteRecursively(at: Location)
      requires Valid()
      modifies this
      ensures Valid()
      ensures dirs == RemoveTree(old(dirs), at)
      ensures files == RemoveFiles(old(files), at)
    {
      dirs := RemoveTree(dirs, at);
      files := RemoveFiles(files, at);
    }

    /**
     * `Files.createDirectories`: makes `at` and every missing directory above
     * it. When a regular file stands in the way, or the device refuses to make
     * a missing `at`, nothing is created.
     */
    method CreateDirectories(at: Location, fault: Fault) returns (err: Option<IoError>)
      requires Valid()
      modifies this
      ensures Valid()
      ensures files == old(files)
      ensures at in old(files) ==> err == Some(FileAlreadyExists(at)) && dirs == old(dirs)
      ensures at !in old(files) && BlockedByFile(old(files), at) ==> err == Some(NotADirectory(at)) && dirs == old(dirs)
      ensures at !in old(files) && !BlockedByFile(old(files), at) && at !in old(dirs) && fault == FailOnCreateDirectories ==>
                err == Some(DeviceFailure(at)) && dirs == old(dirs)
      ensures at !in old(files) && !BlockedByFile(old(files), at) && (at in old(dirs) || fault != FailOnCreateDirectories) ==>
                err == None && dirs == old(dirs) + Ancestors(at)
    {
      if at in files {
        return Some(FileAlreadyExists(at));
      }
      if exists i :: 0 <= i < |at| && at[..i] in files {
        return Some(NotADirectory(at));
      }
      if at !in dirs && fault == FailOnCreateDirectories {
        return Some(DeviceFailure(at));
      }
      var made := Ancestors(at);
      forall d | d in made
        ensures d !in files
      {
        assert d == at[..|d|];
        if |d| < |at| {
          assert !(at[..|d|] in files);
        } else {
          assert d == at;
        }
      }
      dirs := dirs + made;
      err := None;
    }

    /**
     * `File.createNewFile`: makes an empty regular file at `at` unless
     * something exists there already, in which case nothing happens. It fails
     * when the location above `at` is not a directory.
     */
    method CreateNewFile(at: Location, fault: Fault) returns (err: Option<IoError>)
      requires Valid()
      modifies this
      ensures Valid()
      ensures dirs == old(dirs)
      ensures old(Exists(at)) ==> err == None && files == old(files)
      ensures !old(Exists(at)) && ParentOf(at) in old(files) ==>
                err == Some(NotADirectory(at)) && files == old(files)
      ensures !old(Exists(at)) && ParentOf(at) !in old(files) && ParentOf(at) !in old(dirs) ==>
                err == Some(NoSuchFileOrDirectory(at)) && files == old(files)
      ensures !old(Exists(at)) && ParentOf(at) in old(dirs) ==>
                if fault == FailOnCreate then err == Some(DeviceFailure(at)) && files == old(files)
                else err == None && files == old(files)[at := []]
    {
      if Exists(at) {
        return None;
      }
      var parent := ParentOf(at);
      if parent in files {
        return Some(NotADirectory(at));
      }
      if parent !in dirs {
        return Some(NoSuchFileOrDirectory(at));
      }
      if fault == FailOnCreate {
        return Some(DeviceFailure(at));
      }
      files := files[at := []];
      err := None;
    }

    /**
     * `FileCopyUtils.copy(byte[], File)`: opens `at` for writing (creating or
     * truncating it) and writes `content`. A failure while writing leaves the
     * file truncated.
     */
    method Write(at: Location, content: seq<byte>, fault: Fault) returns (err: Option<IoError>)
      requires Valid()
      modifies this
      ensures Valid()
      ensures dirs == old(dirs)
      ensures at in old(dirs) ==> err == Some(IsADirectory(at)) && files == old(files)
      ensures at !in old(dirs) && ParentOf(at) in old(files) ==>
                err == Some(NotADirectory(at)) && files == old(files)
      ensures at !in old(dirs) && ParentOf(at) !in old(files) && ParentOf(at) !in old(dirs) ==>
                err == Some(NoSuchFileOrDirectory(at)) && files == old(files)
      ensures at !in old(dirs) && ParentOf(at) in old(dirs) ==>
                if fault == FailOnWrite then err == Some(DeviceFailure(at)) && files == old(files)[at := []]
                else err == None && files == old(files)[at := content]
    {
      if at in dirs {
        return Some(IsADirectory(at));
      }
      var parent := ParentOf(at);
      if parent in files {
        return Some(NotADirectory(at));
      }
      if parent !in dirs {
        return Some(NoSuchFileOrDirectory(at));
      }
      if fault == FailOnWrite {
        files := files[at := []];
        return Some(DeviceFailure(at));
      }
      files := files[at := content];
      err := None;
    }
  }
}
