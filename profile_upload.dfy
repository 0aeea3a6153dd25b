/**
 * The profile-picture upload of the path-traversal lesson: request checks,
 * the per-user directory reset, the guard against traversal in the declared
 * file name, the write, and the classification of where the file landed.
 */
module ProfileUpload {
  import opened Optional
  import opened JavaFile
  import opened FileStore
  import opened JavaString

  const EmptyFileFeedback: string := "path-traversal-profile-empty-file"
  const EmptyNameFeedback: string := "path-traversal-profile-empty-name"
  const UpdatedFeedback: string := "path-traversal-profile-updated"
  const AttemptFeedback: string := "path-traversal-profile-attempt"
  const LessonDirectory: string := "PathTraversal"
  const AbsolutePathRejection: string := "Potential directory traversal attempt - absolute path not allowed"
  const TraversalRejection: string := "Potential directory traversal attempt"

  /** The exceptions that leave `execute` instead of becoming a result. */
  datatype Exception =
    | Rejected(message: string)  // the RuntimeException of ensurePathIsRelative
    | Sneaky(error: IoError)     // an IOException of createDirectories, rethrown unchecked
    | NullPointer                // a canonical file without a parent

  /** The AttackResult `execute` builds, or the exception it lets through. */
  datatype Outcome =
    | Success
    | Failed(feedback: string)
    | AttemptFailed(feedback: string, canonicalPath: string)
    | IoFailed(output: IoError)
    | Informational(feedback: string, absolutePath: string)
    | Thrown(exception: Exception)

  /** Whether ensurePathIsRelative returns or throws (with the exception's message). */
  datatype Verdict = Pass | Throw(message: string)

  // ---------------------------------------------------------------------
  // The guard

  /**
   * ensurePathIsRelative(File): absolute files are refused; otherwise the
   * file is refused when its canonical path does not start with, or does not
   * equal, its absolute path. The second test implies the first, so the
   * verdict is the single equality.
   */
  function EnsureFileIsRelative(file: Path, cwd: Location): (v: Verdict)
    ensures file.absolute ==> v == Throw(AbsolutePathRejection)
    ensures !file.absolute ==>
              (v == Pass <==> PathString(Canonical(file, cwd)) == PathString(Absolute(file, cwd)))
    ensures !file.absolute && v.Throw? ==> v.message == TraversalRejection
  {
    if file.absolute then Throw(AbsolutePathRejection)
    else
      var canonicalPath := PathString(Canonical(file, cwd));
      var absolutePath := PathString(Absolute(file, cwd));
      if !StartsWith(canonicalPath, absolutePath) || canonicalPath != absolutePath then
        Throw(TraversalRejection)
      else
        Pass
  }

  /** ensurePathIsRelative(String): the name is taken as a File and checked. */
  function EnsurePathIsRelative(path: string, cwd: Location): (v: Verdict)
    ensures IsAbsoluteName(path) ==> v == Throw(AbsolutePathRejection)
    ensures !IsAbsoluteName(path) && v.Throw? ==> v.message == TraversalRejection
  {
    EnsureFileIsRelative(FileOf(path), cwd)
  }

  /** A relative name none of whose names is `.` or `..`. */
  predicate PlainRelativeName(name: string) {
    !IsAbsoluteName(name) && Clean(Split(name))
  }

  /** With a canonical working directory the guard lets through exactly the plain relative names. */
  lemma GuardPassesExactlyPlainRelativeNames(path: string, cwd: Location)
    requires IsCanonicalDirectory(cwd)
    ensures EnsurePathIsRelative(path, cwd) == Pass <==> PlainRelativeName(path)
  {
    var f := FileOf(path);
    if !f.absolute {
      CanonicalOfRelative(f, cwd);
      PathStringInjective(Canonical(f, cwd), Absolute(f, cwd));
      NormalizeFromFixed(cwd, f.segments);
    }
  }

  /**
   * A non-empty name that passes the guard, resolved in a directory, lands
   * strictly inside that directory's canonical path, its own names unchanged.
   */
  lemma GuardConfinesUpload(dir: Path, name: string, cwd: Location)
    requires IsCanonicalDirectory(cwd) && dir.segments != []
    requires name != "" && EnsurePathIsRelative(name, cwd) == Pass
    ensures Split(name) != [] && Clean(Split(name))
    ensures Canonical(Child(dir, name), cwd).segments == Canonical(dir, cwd).segments + Split(name)
  {
    GuardPassesExactlyPlainRelativeNames(name, cwd);
    assert name[0] != Separator;
    assert "" + [name[0]] == [name[0]];
    assert Split(name) == SplitFrom(name[1..], [name[0]]);
    CanonicalChild(dir, name, cwd);
  }

  // ---------------------------------------------------------------------
  // Where the uploaded file landed

  /** `new File(webGoatHomeDirectory, "/PathTraversal/" + userName)` */
  function UploadDirectoryOf(home: string, userName: string): (dir: Path)
    ensures WellFormed(dir)
    ensures dir.absolute == (home == "" || IsAbsoluteName(home))
    ensures dir.segments == FileOf(home).segments + [LessonDirectory] + Split(userName)
  {
    var suffix := LessonDirectory + [Separator] + userName;
    assert "/PathTraversal/" + userName == [Separator] + suffix;
    assert ([Separator] + suffix)[1..] == suffix;
    SplitLeadingName(LessonDirectory, userName);
    Child(FileOf(home), "/PathTraversal/" + userName)
  }

  /** attemptWasMade: the canonical expected directory differs from the canonical parent of the uploaded file. */
  function AttemptWasMade(expectedUploadDirectory: Path, uploadedFile: Path, cwd: Location): (b: bool)
    requires Parent(uploadedFile).Some?
    ensures b ==> Canonical(expectedUploadDirectory, cwd) != Canonical(Parent(uploadedFile).value, cwd)
  {
    PathString(Canonical(expectedUploadDirectory, cwd)) != PathString(Canonical(Parent(uploadedFile).value, cwd))
  }

  /** solvedIt: success when the directory holding the canonical file is named `...PathTraversal`. */
  function SolvedIt(uploadedFile: Path, cwd: Location): (r: Outcome)
    ensures r.Success? || r.AttemptFailed? || r == Thrown(NullPointer)
    ensures r == Thrown(NullPointer) <==> Canonical(uploadedFile, cwd).segments == []
    ensures r.AttemptFailed? ==> r == AttemptFailed(AttemptFeedback, PathString(Canonical(uploadedFile, cwd)))
  {
    var canonical := Canonical(uploadedFile, cwd);
    match Parent(canonical)
    case None => Thrown(NullPointer)
    case Some(parent) =>
      if EndsWith(Name(parent), LessonDirectory) then Success
      else AttemptFailed(AttemptFeedback, PathString(canonical))
  }

  /** The classification that follows a successful write. */
  function Classify(uploadDirectory: Path, uploadedFile: Path, cwd: Location): (r: Outcome)
    requires Parent(uploadedFile).Some?
    ensures r.Success? || r.AttemptFailed? ==> AttemptWasMade(uploadDirectory, uploadedFile, cwd)
    ensures r.Informational? <==> !AttemptWasMade(uploadDirectory, uploadedFile, cwd)
    ensures r.Informational? ==> r == Informational(UpdatedFeedback, PathString(Absolute(uploadedFile, cwd)))
  {
    if AttemptWasMade(uploadDirectory, uploadedFile, cwd) then SolvedIt(uploadedFile, cwd)
    else Informational(UpdatedFeedback, PathString(Absolute(uploadedFile, cwd)))
  }

  /** The string comparison in attemptWasMade is a comparison of canonical locations. */
  lemma AttemptWasMadeIffDirectoriesDiffer(dir: Path, uploaded: Path, cwd: Location)
    requires Parent(uploaded).Some?
    requires AllSegments(cwd) && WellFormed(dir) && WellFormed(uploaded)
    ensures AttemptWasMade(dir, uploaded, cwd) <==>
              Canonical(dir, cwd).segments != Canonical(Parent(uploaded).value, cwd).segments
  {
    PathStringInjective(Canonical(dir, cwd), Canonical(Parent(uploaded).value, cwd));
  }

  /**
   * solvedIt succeeds exactly when the canonical file has a parent whose name
   * ends with "PathTraversal"; a file at the root has no parent; any other
   * file is a failed attempt reporting its canonical path.
   */
  lemma SolvedItOutcomes(uploaded: Path, cwd: Location)
    ensures var c := Canonical(uploaded, cwd).segments;
            && (SolvedIt(uploaded, cwd) == Success <==> |c| >= 2 && EndsWith(c[|c| - 2], LessonDirectory))
            && (c == [] ==> SolvedIt(uploaded, cwd) == Thrown(NullPointer))
            && (c != [] && !(|c| >= 2 && EndsWith(c[|c| - 2], LessonDirectory)) ==>
                  SolvedIt(uploaded, cwd) == AttemptFailed(AttemptFeedback, PathString(Canonical(uploaded, cwd))))
  {
    var c := Canonical(uploaded, cwd).segments;
    if |c| == 1 {
      assert Name(Parent(Canonical(uploaded, cwd)).value) == "";
    }
  }

  /**
   * After a write the result is informational, carrying the absolute path,
   * exactly when the file's canonical parent is the canonical upload
   * directory; otherwise solvedIt decides.
   */
  lemma ClassifyOutcomes(dir: Path, uploaded: Path, cwd: Location)
    requires Parent(uploaded).Some?
    requires AllSegments(cwd) && WellFormed(dir) && WellFormed(uploaded)
    ensures var same := Canonical(dir, cwd) == Canonical(Parent(uploaded).value, cwd);
            && (same ==> Classify(dir, uploaded, cwd) == Informational(UpdatedFeedback, PathString(Absolute(uploaded, cwd))))
            && (!same ==> Classify(dir, uploaded, cwd) == SolvedIt(uploaded, cwd) && !Classify(dir, uploaded, cwd).Informational?)
  {
    AttemptWasMadeIffDirectoriesDiffer(dir, uploaded, cwd);
  }

  /** A file stored directly in the upload directory is an ordinary profile update. */
  lemma SingleNameIsUpdate(dir: Path, name: string, cwd: Location)
    requires dir.segments != [] && |Split(name)| == 1
    ensures Parent(Child(dir, name)) == Some(dir)
    ensures Classify(dir, Child(dir, name), cwd) == Informational(UpdatedFeedback, PathString(Absolute(Child(dir, name), cwd)))
  {
    var uploaded := Child(dir, name);
    assert uploaded.segments[..|uploaded.segments| - 1] == dir.segments;
  }

  /** Canonicalising a name, a second name and `..` keeps the first; a further name follows it. */
  lemma NormalizeThroughParent(done: seq<string>, a: string, b: string, c: string)
    requires !IsDot(a) && !IsDot(b) && !IsDot(c)
    ensures NormalizeFrom(done, [a, b, ".."]) == done + [a]
    ensures NormalizeFrom(done, [a, b, "..", c]) == done + [a, c]
  {
    assert [a, b, ".."][1..] == [b, ".."];
    assert [b, ".."][1..] == [".."];
    assert NormalizeFrom(done, [a, b, ".."]) == NormalizeFrom(done + [a], [b, ".."]);
    assert NormalizeFrom(done + [a], [b, ".."]) == NormalizeFrom(done + [a] + [b], [".."]);
    assert (done + [a] + [b])[..|done + [a] + [b]| - 1] == done + [a];
    assert [a, b, "..", c][1..] == [b, "..", c];
    assert [b, "..", c][1..] == ["..", c];
    assert ["..", c][1..] == [c];
    assert NormalizeFrom(done, [a, b, "..", c]) == NormalizeFrom(done + [a], [b, "..", c]);
    assert NormalizeFrom(done + [a], [b, "..", c]) == NormalizeFrom(done + [a] + [b], ["..", c]);
    assert NormalizeFrom(done + [a] + [b], ["..", c]) == NormalizeFrom(done + [a], [c]);
    assert NormalizeFrom(done + [a], [c]) == NormalizeFrom(done + [a] + [c], []);
  }

  /** Canonicalising a path with names appended continues from the canonical form of the path. */
  lemma CanonicalAppend(base: Path, extra: seq<string>, cwd: Location)
    ensures Canonical(Path(base.absolute, base.segments + extra), cwd).segments ==
            NormalizeFrom(Canonical(base, cwd).segments, extra)
  {
    var a := Absolute(base, cwd).segments;
    assert Absolute(Path(base.absolute, base.segments + extra), cwd).segments == a + extra;
    NormalizeFromAppend([], a, extra);
  }

  /** The name `../x` splits into `..` and `x`. */
  lemma SplitEscape(name: string)
    requires IsSegment(name)
    ensures Split("../" + name) == ["..", name]
  {
    assert "../" + name == ".." + [Separator] + name;
    SplitLeadingName("..", name);
    SplitName(name);
  }

  /**
   * Where `../x` lands from the user's directory: the user's directory, the
   * parent the file names and the file itself, canonicalised.
   */
  lemma EscapeLocations(home: string, user: string, name: string, cwd: Location)
    requires IsSegment(user) && !IsDot(user) && IsSegment(name) && !IsDot(name)
    ensures var dir := UploadDirectoryOf(home, user);
            var uploaded := Child(dir, "../" + name);
            var n := Canonical(Path(dir.absolute, FileOf(home).segments), cwd).segments;
            && Parent(uploaded).Some?
            && Canonical(dir, cwd).segments == n + [LessonDirectory, user]
            && Canonical(Parent(uploaded).value, cwd).segments == n + [LessonDirectory]
            && Canonical(uploaded, cwd).segments == n + [LessonDirectory, name]
  {
    var dir := UploadDirectoryOf(home, user);
    var base := Path(dir.absolute, FileOf(home).segments);
    SplitName(user);
    SplitEscape(name);
    var uploaded := Child(dir, "../" + name);
    assert dir == Path(base.absolute, base.segments + [LessonDirectory, user]);
    assert Parent(uploaded).value == Path(base.absolute, base.segments + [LessonDirectory, user, ".."]);
    assert uploaded == Path(base.absolute, base.segments + [LessonDirectory, user, "..", name]);
    var n := Canonical(base, cwd).segments;
    CanonicalAppend(base, [LessonDirectory, user], cwd);
    CanonicalAppend(base, [LessonDirectory, user, ".."], cwd);
    CanonicalAppend(base, [LessonDirectory, user, "..", name], cwd);
    NormalizeThroughParent(n, LessonDirectory, user, name);
    NormalizeFromClean(n, [LessonDirectory, user]);
  }

  /**
   * What the lesson rewards when nothing stops it: a name that climbs out of
   * the user's directory into the lesson directory is classified as solved.
   * The guard refuses that name.
   */
  lemma EscapeToLessonDirectorySolves(home: string, user: string, name: string, cwd: Location)
    requires IsCanonicalDirectory(cwd)
    requires IsSegment(user) && !IsDot(user) && IsSegment(name) && !IsDot(name)
    ensures var dir := UploadDirectoryOf(home, user);
            var uploaded := Child(dir, "../" + name);
            && Parent(uploaded).Some?
            && Classify(dir, uploaded, cwd) == Success
            && EnsurePathIsRelative("../" + name, cwd) == Throw(TraversalRejection)
  {
    var dir := UploadDirectoryOf(home, user);
    var uploaded := Child(dir, "../" + name);
    EscapeLocations(home, user, name, cwd);
    var n := Canonical(Path(dir.absolute, FileOf(home).segments), cwd).segments;
    var c := Canonical(uploaded, cwd).segments;
    assert c[..|c| - 1] == n + [LessonDirectory];
    assert |c| >= 2 && EndsWith(c[|c| - 2], LessonDirectory);
    SolvedItOutcomes(uploaded, cwd);
    assert AttemptWasMade(dir, uploaded, cwd) by {
      PathStringInjective(Canonical(dir, cwd), Canonical(Parent(uploaded).value, cwd));
    }
    SplitEscape(name);
    GuardPassesExactlyPlainRelativeNames("../" + name, cwd);
    assert IsDot(["..", name][0]);
  }

  // ---------------------------------------------------------------------
  // The endpoint

  class ProfileUploadBase {
    const webGoatHomeDirectory: string
    /** The name of the signed-in user, as the web session reports it. */
    const userName: string
    /** The JVM's working directory, against which relative paths resolve. */
    const workingDirectory: Location
    const disk: FileSystem

    constructor (webGoatHomeDirectory: string, userName: string, workingDirectory: Location, disk: FileSystem)
      ensures this.webGoatHomeDirectory == webGoatHomeDirectory && this.userName == userName
      ensures this.workingDirectory == workingDirectory && this.disk == disk
    {
      this.webGoatHomeDirectory := webGoatHomeDirectory;
      this.userName := userName;
      this.workingDirectory := workingDirectory;
      this.disk := disk;
    }

    ghost predicate Valid()
      reads this, disk
    {
      disk.Valid() && IsCanonicalDirectory(workingDirectory)
    }

    function UploadDirectory(): Path {
      UploadDirectoryOf(webGoatHomeDirectory, userName)
    }

    /** Where the file system finds a path. */
    function Locate(p: Path): Location {
      Canonical(p, workingDirectory).segments
    }

    function UserLocation(): Location {
      Locate(UploadDirectory())
    }

    /** Whether the device refuses to make the user's directory once it has been removed. */
    ghost predicate DirectoryRefused(fault: Fault) {
      fault == FailOnCreateDirectories && UserLocation() != []
    }

    /** A request that gets past the checks on its content and name and whose directory can be made. */
    ghost predicate Admitted(file: seq<byte>, fullName: string, files: map<Location, seq<byte>>, fault: Fault) {
      |file| != 0 && fullName != "" && !BlockedByFile(files, UserLocation()) && !DirectoryRefused(fault)
    }

    /**
     * cleanupAndCreateDirectoryForUser: removes the user's directory with all
     * it holds, then makes it again, empty. When a regular file stands where a
     * directory above it belongs, the failure escapes and nothing changes; when
     * the device refuses to make the directory, the failure escapes after the
     * removal.
     */
    method CleanupAndCreateDirectoryForUser(fault: Fault) returns (uploadDirectory: Path, err: Option<IoError>)
      requires Valid()
      modifies disk
      ensures Valid()
      ensures uploadDirectory == UploadDirectory()
      ensures BlockedByFile(old(disk.files), UserLocation()) ==>
                && err == Some(NotADirectory(UserLocation()))
                && disk.dirs == old(disk.dirs) && disk.files == old(disk.files)
      ensures !BlockedByFile(old(disk.files), UserLocation()) ==>
                disk.files == RemoveFiles(old(disk.files), UserLocation())
      ensures !BlockedByFile(old(disk.files), UserLocation()) && DirectoryRefused(fault) ==>
                && err == Some(DeviceFailure(UserLocation()))
                && disk.dirs == RemoveTree(old(disk.dirs), UserLocation())
      ensures !BlockedByFile(old(disk.files), UserLocation()) && !DirectoryRefused(fault) ==>
                && err == None
                && disk.dirs == RemoveTree(old(disk.dirs), UserLocation()) + Ancestors(UserLocation())
    {
      uploadDirectory := UploadDirectory();
      var at := Locate(uploadDirectory);
      if BlockedByFile(disk.files, at) {
        var i :| 0 <= i < |at| && at[..i] in disk.files;
        if at in disk.dirs || at in disk.files {
          AncestorsAreDirectories(disk.dirs, disk.files, at, i);
          assert false;
        }
      }
      if !disk.Exists(at) {
        RemovingAbsentTreeChangesNothing(disk.dirs, disk.files, at);
      }
      if disk.Exists(at) {
        disk.DeleteRecursively(at);
      }
      assert BlockedByFile(disk.files, at) <==> BlockedByFile(old(disk.files), at) by {
        forall i | 0 <= i < |at|
          ensures at[..i] in disk.files <==> at[..i] in old(disk.files)
        {
          assert !(at <= at[..i]);
        }
      }
      assert at in disk.dirs <==> at == [];
      err := disk.CreateDirectories(at, fault);
    }

    /**
     * execute: checks the upload's content and name, resets the user's
     * directory, runs the guard on the name, writes the file and classifies
     * where it landed.
     */
    method Execute(file: seq<byte>, fullName: string, fault: Fault) returns (r: Outcome)
      requires Valid()
      modifies disk
      ensures Valid()
      // the checks on the request come first and touch nothing
      ensures |file| == 0 ==>
                r == Failed(EmptyFileFeedback) && disk.dirs == old(disk.dirs) && disk.files == old(disk.files)
      ensures |file| != 0 && fullName == "" ==>
                r == Failed(EmptyNameFeedback) && disk.dirs == old(disk.dirs) && disk.files == old(disk.files)
      // the reset of the user's directory fails when a file blocks it, and then escapes
      ensures |file| != 0 && fullName != "" && BlockedByFile(old(disk.files), UserLocation()) ==>
                && r == Thrown(Sneaky(NotADirectory(UserLocation())))
                && disk.dirs == old(disk.dirs) && disk.files == old(disk.files)
      // or when the device refuses to make it, and then escapes after the removal
      ensures |file| != 0 && fullName != "" && !BlockedByFile(old(disk.files), UserLocation()) && DirectoryRefused(fault) ==>
                && r == Thrown(Sneaky(DeviceFailure(UserLocation())))
                && disk.dirs == RemoveTree(old(disk.dirs), UserLocation())
                && disk.files == RemoveFiles(old(disk.files), UserLocation())
      // otherwise the directory is reset before the name is looked at
      ensures Admitted(file, fullName, old(disk.files), fault) ==>
                disk.dirs == RemoveTree(old(disk.dirs), UserLocation()) + Ancestors(UserLocation())
      ensures Admitted(file, fullName, old(disk.files), fault) && !PlainRelativeName(fullName) ==>
                && r == Thrown(Rejected(if IsAbsoluteName(fullName) then AbsolutePathRejection else TraversalRejection))
                && disk.files == RemoveFiles(old(disk.files), UserLocation())
      ensures Admitted(file, fullName, old(disk.files), fault) && PlainRelativeName(fullName) && |Split(fullName)| > 1 ==>
                && r == IoFailed(NoSuchFileOrDirectory(UserLocation() + Split(fullName)))
                && disk.files == RemoveFiles(old(disk.files), UserLocation())
      ensures Admitted(file, fullName, old(disk.files), fault) && PlainRelativeName(fullName) && |Split(fullName)| == 1 ==>
                var target := UserLocation() + Split(fullName);
                var emptied := RemoveFiles(old(disk.files), UserLocation());
                && (fault != FailOnCreate && fault != FailOnWrite ==>
                      && r == Informational(UpdatedFeedback, PathString(Absolute(Child(UploadDirectory(), fullName), workingDirectory)))
                      && disk.files == emptied[target := file])
                && (fault == FailOnCreate ==> r == IoFailed(DeviceFailure(target)) && disk.files == emptied)
                && (fault == FailOnWrite ==> r == IoFailed(DeviceFailure(target)) && disk.files == emptied[target := []])
      // no file outside the user's directory is created, removed or changed
      ensures SameOutside(old(disk.files), disk.files, UserLocation())
      // behind the guard the lesson can be neither solved nor attempted
      ensures !r.Success? && !r.AttemptFailed?
    {
      if |file| == 0 {
        return Failed(EmptyFileFeedback);
      }
      if fullName == "" {
        return Failed(EmptyNameFeedback);
      }
      ghost var home := UserLocation();
      ResetKeepsOutside(disk.files, home, home, []);
      var uploadDirectory, err := CleanupAndCreateDirectoryForUser(fault);
      if err.Some? {
        return Thrown(Sneaky(err.value));
      }
      RecreatedDirectoryIsEmpty(old(disk.dirs), old(disk.files), home);
      GuardPassesExactlyPlainRelativeNames(fullName, workingDirectory);
      var verdict := EnsurePathIsRelative(fullName, workingDirectory);
      if verdict.Throw? {
        return Thrown(Rejected(verdict.message));
      }
      GuardConfinesUpload(uploadDirectory, fullName, workingDirectory);
      ResetKeepsOutside(old(disk.files), home, home + Split(fullName), file);
      ResetKeepsOutside(old(disk.files), home, home + Split(fullName), []);
      r := WriteUpload(uploadDirectory, file, fullName, fault);
    }

    /**
     * The part of execute after the guard has passed: creates the file in the
     * freshly emptied user directory, writes the upload into it and classifies
     * where it landed.
     */
    method WriteUpload(uploadDirectory: Path, file: seq<byte>, fullName: string, fault: Fault) returns (r: Outcome)
      requires Valid()
      requires uploadDirectory == UploadDirectory()
      requires Split(fullName) != [] && Clean(Split(fullName))
      requires Locate(Child(uploadDirectory, fullName)) == UserLocation() + Split(fullName)
      requires UserLocation() in disk.dirs
      requires forall x :: x in disk.dirs && UserLocation() <= x ==> x == UserLocation()
      requires forall x :: x in disk.files ==> !(UserLocation() <= x)
      modifies disk
      ensures Valid()
      ensures disk.dirs == old(disk.dirs)
      ensures |Split(fullName)| > 1 ==>
                r == IoFailed(NoSuchFileOrDirectory(UserLocation() + Split(fullName))) && disk.files == old(disk.files)
      ensures |Split(fullName)| == 1 && fault != FailOnCreate && fault != FailOnWrite ==>
                && r == Informational(UpdatedFeedback, PathString(Absolute(Child(uploadDirectory, fullName), workingDirectory)))
                && disk.files == old(disk.files)[UserLocation() + Split(fullName) := file]
      ensures |Split(fullName)| == 1 && fault == FailOnCreate ==>
                r == IoFailed(DeviceFailure(UserLocation() + Split(fullName))) && disk.files == old(disk.files)
      ensures |Split(fullName)| == 1 && fault == FailOnWrite ==>
                r == IoFailed(DeviceFailure(UserLocation() + Split(fullName))) && disk.files == old(disk.files)[UserLocation() + Split(fullName) := []]
    {
      var uploadedFile := Child(uploadDirectory, fullName);
      var err := StoreUpload(UserLocation(), Locate(uploadedFile), file, fault);
      if err.Some? {
        return IoFailed(err.value);
      }
      SingleNameIsUpdate(uploadDirectory, fullName, workingDirectory);
      r := Classify(uploadDirectory, uploadedFile, workingDirectory);
    }

    /**
     * `createNewFile` followed by `FileCopyUtils.copy` at `at`, below the
     * empty directory `home`: only a file directly inside `home` can be made.
     */
    method StoreUpload(home: Location, at: Location, file: seq<byte>, fault: Fault) returns (err: Option<IoError>)
      requires disk.Valid()
      requires home < at && home in disk.dirs
      requires forall x :: x in disk.dirs && home <= x ==> x == home
      requires forall x :: x in disk.files ==> !(home <= x)
      modifies disk
      ensures disk.Valid()
      ensures disk.dirs == old(disk.dirs)
      ensures |at| > |home| + 1 ==> err == Some(NoSuchFileOrDirectory(at)) && disk.files == old(disk.files)
      ensures |at| == |home| + 1 && fault != FailOnCreate && fault != FailOnWrite ==> err == None && disk.files == old(disk.files)[at := file]
      ensures |at| == |home| + 1 && fault == FailOnCreate ==>
                err == Some(DeviceFailure(at)) && disk.files == old(disk.files)
      ensures |at| == |home| + 1 && fault == FailOnWrite ==>
                err == Some(DeviceFailure(at)) && disk.files == old(disk.files)[at := []]
    {
      assert home <= ParentOf(at);
      assert |at| > |home| + 1 ==> ParentOf(at) != home;
      assert |at| == |home| + 1 ==> ParentOf(at) == home;
      err := disk.CreateNewFile(at, fault);
      if err.Some? {
        return;
      }
      err := disk.Write(at, file, fault);
    }
  }
}
