# Profile upload of the WebGoat path-traversal lesson

This project models `ProfileUploadBase`, the profile-picture upload that the
path-traversal lesson's assignments share. The model covers these parts:

- **`execute`** checks the upload. An empty file or an empty name is refused
  with a feedback key. Otherwise it empties and recreates the user's directory
  `<webgoat home>/PathTraversal/<user>`. It then runs `ensurePathIsRelative` on
  the declared name, creates and writes the file, and classifies where the file
  landed.
- **The classification** is done by `attemptWasMade` and `solvedIt`. A file
  whose canonical parent is the user's directory is an ordinary profile update.
  A file whose canonical parent is named `...PathTraversal` solves the lesson.
  Any other file is a failed attempt that reports its canonical path.
- **`getProfilePictureAsBase64`** picks the picture the profile page shows.

The model is in four modules, plus a shared option type and the prefix and
suffix tests of `java.lang.String` (`JavaString`):

- `JavaFile` models `java.io.File` paths on a Unix platform. It covers parsing,
  rendering, `new File(parent, child)`, absolute and canonical forms, the parent
  and the name.
- `FileStore` models the directories and regular files the endpoint touches,
  as the class `FileSystem`. It supports recursive deletion,
  `Files.createDirectories`, `File.createNewFile` and `FileCopyUtils.copy`.
- `ProfileUpload` holds the guard, the classification and the class
  `ProfileUploadBase` with `CleanupAndCreateDirectoryForUser` and `Execute`.
- `ProfilePicture` holds the choice of the picture over a directory listing.

Canonicalisation is lexical:

- `.` is dropped.
- `..` removes the name before it.
- At the root, `..` stays at the root.

This is what `getCanonicalPath` computes when no symbolic link lies on the path
and the working directory is itself canonical. The model assumes both.

The central results are these:

- The guard passes exactly the relative names that hold no `.` or `..`
  (`GuardPassesExactlyPlainRelativeNames`).
- Such a name lands strictly inside the user's directory (`GuardConfinesUpload`).
- Behind the guard, `Execute` therefore never yields a success or a failed
  attempt.
- Without the guard, the name `../x` would solve the lesson
  (`EscapeToLessonDirectorySolves`).

A name the guard refuses leaves `execute` as an exception carrying the guard's
message. The catch block in `execute` handles only `IOException`, so the
exception is not turned into a failed result.

## Model

| member | source | states |
|---|---|---|
| JavaFile.PathStringRoundTrip | src/main/java/org/owasp/webgoat/lessons/pathtraversal/ProfileUploadBase.java:81-82 | the string of a normalised path parses back to the same path |
| JavaFile.PathStringInjective | src/main/java/org/owasp/webgoat/lessons/pathtraversal/ProfileUploadBase.java:87 | two path strings are equal exactly when the paths are equal, so the string comparisons of the guard and of attemptWasMade compare locations |
| JavaFile.FileOf | src/main/java/org/owasp/webgoat/lessons/pathtraversal/ProfileUploadBase.java:62 | `new File(name)` gives a well-formed path, absolute exactly when the name starts with a separator; a non-empty relative name has at least one name |
| JavaFile.PathString | src/main/java/org/owasp/webgoat/lessons/pathtraversal/ProfileUploadBase.java:87 | the string of a well-formed path starts with a separator exactly when the path is absolute |
| JavaFile.Child | src/main/java/org/owasp/webgoat/lessons/pathtraversal/ProfileUploadBase.java:44 | `new File(dir, name)` appends the names of `name` to those of `dir`, even when `name` starts with a separator; the result is absolute when `dir` is, or when `dir` is empty and so stands for the root |
| JavaFile.Absolute | src/main/java/org/owasp/webgoat/lessons/pathtraversal/ProfileUploadBase.java:82 | `getAbsolutePath` is absolute; an absolute path is kept as it is, a relative one is placed after the working directory |
| JavaFile.Canonical | src/main/java/org/owasp/webgoat/lessons/pathtraversal/ProfileUploadBase.java:81 | a canonical path is absolute and holds no `.` or `..` |
| JavaFile.Name | src/main/java/org/owasp/webgoat/lessons/pathtraversal/ProfileUploadBase.java:111 | `getName` is the name `getParentFile` drops, a proper name for a well-formed non-root path, and empty for the root |
| JavaFile.Parent | src/main/java/org/owasp/webgoat/lessons/pathtraversal/ProfileUploadBase.java:105-107 | `getParentFile` exists exactly for a path of two or more names or an absolute path of one name; it drops the last name |
| JavaFile.NormalizeFromFixed | src/main/java/org/owasp/webgoat/lessons/pathtraversal/ProfileUploadBase.java:81-87 | canonicalising leaves appended names unchanged exactly when none of them is `.` or `..` |
| JavaFile.NormalizeFromShrinks | src/main/java/org/owasp/webgoat/lessons/pathtraversal/ProfileUploadBase.java:81 | canonicalising never lengthens a path, and a `.` or `..` in it makes it strictly shorter |
| JavaFile.NormalizeIdempotent | src/main/java/org/owasp/webgoat/lessons/pathtraversal/ProfileUploadBase.java:111 | canonicalising a canonical path changes nothing |
| JavaFile.CanonicalChild | src/main/java/org/owasp/webgoat/lessons/pathtraversal/ProfileUploadBase.java:44 | a child name without `.` or `..` lands at the directory's canonical path followed by the child's names |
| FileStore.AncestorsAreDirectories | src/main/java/org/owasp/webgoat/lessons/pathtraversal/ProfileUploadBase.java:96-99 | in a well-shaped file system every location above an existing one is a directory |
| FileStore.RemovingAbsentTreeChangesNothing | src/main/java/org/owasp/webgoat/lessons/pathtraversal/ProfileUploadBase.java:96-97 | skipping the deletion of a directory that does not exist is the same as deleting it |
| FileStore.RecreatedDirectoryIsEmpty | src/main/java/org/owasp/webgoat/lessons/pathtraversal/ProfileUploadBase.java:96-99 | after the reset the user's directory exists, holds nothing, and nothing outside it was removed |
| FileStore.ResetKeepsOutside | src/main/java/org/owasp/webgoat/lessons/pathtraversal/ProfileUploadBase.java:97-99 | emptying a tree, and then writing one file inside it, changes no file outside it |
| FileStore.FileSystem.Exists | src/main/java/org/owasp/webgoat/lessons/pathtraversal/ProfileUploadBase.java:96 | in a well-shaped file system, whatever exists has a directory at every level above it |
| FileStore.FileSystem.DeleteRecursively | src/main/java/org/owasp/webgoat/lessons/pathtraversal/ProfileUploadBase.java:97 | the location and everything beneath it are removed; the rest is kept and the file system stays well-shaped |
| FileStore.FileSystem.CreateDirectories | src/main/java/org/owasp/webgoat/lessons/pathtraversal/ProfileUploadBase.java:99 | it fails when a regular file is at the location or above it, or when the device refuses to make a missing location; otherwise the location and all its ancestors become directories |
| FileStore.FileSystem.CreateNewFile | src/main/java/org/owasp/webgoat/lessons/pathtraversal/ProfileUploadBase.java:45 | an existing entry is left alone; a missing parent or a parent that is a file fails; otherwise an empty file is created, unless the device fails |
| FileStore.FileSystem.Write | src/main/java/org/owasp/webgoat/lessons/pathtraversal/ProfileUploadBase.java:46 | writing onto a directory or under a missing parent fails; otherwise the file holds the bytes, or is left truncated when the device fails |
| ProfileUpload.EnsureFileIsRelative | src/main/java/org/owasp/webgoat/lessons/pathtraversal/ProfileUploadBase.java:71-90 | an absolute file throws the absolute-path message; a relative file passes exactly when its canonical and absolute paths are equal, and otherwise throws the traversal message |
| ProfileUpload.EnsurePathIsRelative | src/main/java/org/owasp/webgoat/lessons/pathtraversal/ProfileUploadBase.java:61-63 | a name starting with a separator throws the absolute-path message; any other rejected name throws the traversal message |
| ProfileUpload.GuardPassesExactlyPlainRelativeNames | src/main/java/org/owasp/webgoat/lessons/pathtraversal/ProfileUploadBase.java:61-63 | with a canonical working directory a name passes exactly when it is relative and none of its names is `.` or `..` |
| ProfileUpload.GuardConfinesUpload | src/main/java/org/owasp/webgoat/lessons/pathtraversal/ProfileUploadBase.java:43-44 | a non-empty name that passes the guard has at least one name, and lands at the canonical directory followed by its names |
| ProfileUpload.UploadDirectoryOf | src/main/java/org/owasp/webgoat/lessons/pathtraversal/ProfileUploadBase.java:94-95 | the upload directory is the home directory, then `PathTraversal`, then the user's name; it is absolute when the home directory is empty or absolute |
| ProfileUpload.AttemptWasMade | src/main/java/org/owasp/webgoat/lessons/pathtraversal/ProfileUploadBase.java:103-108 | an attempt is reported only when the canonical upload directory and the canonical parent of the file are different paths |
| ProfileUpload.SolvedIt | src/main/java/org/owasp/webgoat/lessons/pathtraversal/ProfileUploadBase.java:110-119 | the result is success, a failed attempt carrying the feedback key and the canonical path, or a null-pointer exception, which happens exactly when the canonical file is the root |
| ProfileUpload.Classify | src/main/java/org/owasp/webgoat/lessons/pathtraversal/ProfileUploadBase.java:48-54 | success and failed attempts come only from a reported attempt; the profile-updated message, with the absolute path, comes exactly when no attempt is reported |
| ProfileUpload.AttemptWasMadeIffDirectoriesDiffer | src/main/java/org/owasp/webgoat/lessons/pathtraversal/ProfileUploadBase.java:103-108 | an attempt was made exactly when the canonical upload directory differs from the canonical parent of the file |
| ProfileUpload.SolvedItOutcomes | src/main/java/org/owasp/webgoat/lessons/pathtraversal/ProfileUploadBase.java:110-119 | success exactly when the canonical file's parent is named `...PathTraversal`; a file at the root has no parent and throws; otherwise a failed attempt with the canonical path |
| ProfileUpload.ClassifyOutcomes | src/main/java/org/owasp/webgoat/lessons/pathtraversal/ProfileUploadBase.java:48-54 | the profile-updated message with the absolute path exactly when the canonical parent is the canonical upload directory; otherwise solvedIt decides |
| ProfileUpload.SingleNameIsUpdate | src/main/java/org/owasp/webgoat/lessons/pathtraversal/ProfileUploadBase.java:44-54 | a file named by a single name sits directly in the upload directory and is reported as an update |
| ProfileUpload.NormalizeThroughParent | src/main/java/org/owasp/webgoat/lessons/pathtraversal/ProfileUploadBase.java:111 | `a/b/..` canonicalises to `a`, and `a/b/../c` to `a/c` |
| ProfileUpload.CanonicalAppend | src/main/java/org/owasp/webgoat/lessons/pathtraversal/ProfileUploadBase.java:106-107 | canonicalising a path with names appended continues from the canonical form of the path |
| ProfileUpload.EscapeLocations | src/main/java/org/owasp/webgoat/lessons/pathtraversal/ProfileUploadBase.java:105-111 | from the user's directory, `../x` names the lesson directory as its parent and lands at the lesson directory followed by `x` |
| ProfileUpload.EscapeToLessonDirectorySolves | src/main/java/org/owasp/webgoat/lessons/pathtraversal/ProfileUploadBase.java:110-112 | unguarded, `../x` uploaded by any user lands in the lesson directory and solves the lesson; the guard refuses that name with the traversal message |
| ProfileUpload.ProfileUploadBase.constructor | src/main/java/org/owasp/webgoat/lessons/pathtraversal/ProfileUploadBase.java:25-30 | the endpoint keeps the home directory, the user and the file system it is given |
| ProfileUpload.ProfileUploadBase.CleanupAndCreateDirectoryForUser | src/main/java/org/owasp/webgoat/lessons/pathtraversal/ProfileUploadBase.java:92-101 | returns the upload directory; the user's tree is removed and the directory is recreated with its ancestors; a regular file above it makes the call fail and change nothing; a device refusing to make the directory makes it fail after the removal |
| ProfileUpload.ProfileUploadBase.Execute | src/main/java/org/owasp/webgoat/lessons/pathtraversal/ProfileUploadBase.java:32-59 | see the list after this table |
| ProfileUpload.ProfileUploadBase.WriteUpload | src/main/java/org/owasp/webgoat/lessons/pathtraversal/ProfileUploadBase.java:44-54 | in the freshly emptied directory a single name is created, written and reported as an update; a name with more names fails for a missing directory; device failures give the IO failure |
| ProfileUpload.ProfileUploadBase.StoreUpload | src/main/java/org/owasp/webgoat/lessons/pathtraversal/ProfileUploadBase.java:45-46 | below the freshly emptied directory only a file directly inside it can be created; it then holds the uploaded bytes, or nothing when the device fails |
| ProfilePicture.Extension | src/main/java/org/owasp/webgoat/lessons/pathtraversal/ProfileUploadBase.java:134 | `getExtension` holds no dot and no separator, and is shorter than the name |
| ProfilePicture.IsImage | src/main/java/org/owasp/webgoat/lessons/pathtraversal/ProfileUploadBase.java:134 | a name the filter accepts ends with `.jpg` or `.png` |
| ProfilePicture.Read | src/main/java/org/owasp/webgoat/lessons/pathtraversal/ProfileUploadBase.java:138-142 | a read that fails gives the default image; one that succeeds gives exactly the bytes read |
| ProfilePicture.IsImageIffImageSuffix | src/main/java/org/owasp/webgoat/lessons/pathtraversal/ProfileUploadBase.java:134 | a name is accepted by the filter exactly when it ends with `.jpg` or `.png`, case included |
| ProfilePicture.FindFirst | src/main/java/org/owasp/webgoat/lessons/pathtraversal/ProfileUploadBase.java:133-135 | `filter(accept).findFirst()`: the position found holds an accepted entry and none before it does; no position means no entry is accepted |
| ProfilePicture.ProfilePictureAsBase64 | src/main/java/org/owasp/webgoat/lessons/pathtraversal/ProfileUploadBase.java:127-148 | a file is served exactly when the listing exists, holds some image and its first entry reads; the bytes served are that first entry's; in every other case the default image is served |
| ProfilePicture.SingleImageRoundTrip | src/main/java/org/owasp/webgoat/lessons/pathtraversal/ProfileUploadBase.java:132-139 | a directory holding one readable image serves exactly that image's bytes |
| ProfilePicture.ReadsSelectedImageWhenFirst | src/main/java/org/owasp/webgoat/lessons/pathtraversal/ProfileUploadBase.java:133-138 | when the listing starts with an image, the picture is that of the image the filter selected |
| ProfilePicture.ReadsSelectedImageWhenAlone | src/main/java/org/owasp/webgoat/lessons/pathtraversal/ProfileUploadBase.java:133-138 | a directory of at most one entry serves the picture of the image the filter selected |
| ProfilePicture.ReadsFirstEntryNotSelectedImage | src/main/java/org/owasp/webgoat/lessons/pathtraversal/ProfileUploadBase.java:138 | with the listing `a`, `b.png` the bytes of `a` are served, not those of the selected `b.png` |

`Execute` states the following about each request:

- An empty file gives the empty-file feedback and changes nothing. This check
  comes before every other.
- A non-empty file with an empty name gives the empty-name feedback and changes
  nothing.
- When a regular file blocks the user's directory, the IOException of
  `createDirectories` escapes and nothing changes.
- When the device refuses to make the user's directory, the IOException of
  `createDirectories` escapes after the old directory has been removed.
- Otherwise the user's directory is removed and recreated before the name is
  looked at.
- A name that is absolute, or that holds `.` or `..`, makes the guard's
  exception escape, with the matching message. The directory stays empty.
- A name of several names fails with a missing-directory IO failure, because
  the recreated directory holds no subdirectory.
- A single name is written into the directory and reported with the
  profile-updated message and its absolute path, or gives the device's IO
  failure.
- No file outside the user's directory is created, removed or changed.
- The result is never a success or a failed attempt.

## Left out

- Real IO is replaced by the in-memory `FileSystem`. Failures of the device are a `Fault` parameter of `Execute`. It covers the creation of the user's directory, the creation of the file and the writing of its bytes.
- Symbolic links are not modelled. Canonicalisation is lexical, and the working directory is assumed canonical.
- The kernel may refuse to resolve `x/..` when `x` does not exist. The model resolves every path lexically.
- The IOException that `getCanonicalPath` may throw is not modelled, because canonicalisation cannot fail in the model. This covers the guard's catch block (lines 83-85) and the checked exceptions of `attemptWasMade` and `solvedIt`.
- `FileSystemUtils.deleteRecursively` never fails in the model. The source ignores its result anyway.
- The `URI` overload of `ensurePathIsRelative` (lines 66-68) is not modelled, because `execute` never calls it.
- `getProfilePicture` and its media type are not modelled. They are Spring response plumbing.
- Base64 encoding and the bundled `account.png` resource are not modelled. `EncodedFile(bytes)` and `DefaultImage` name which bytes would be encoded.
- The directory listing, its order and the result of reading each entry are inputs of `ProfilePictureAsBase64`, not derived from the `FileSystem`.
- `AttackResult`, its builders and the translation of feedback keys are reduced to the `Outcome` datatype. It keeps the key, the arguments and the attempt flag.
- The session is reduced to the user's name.
- A null name or a null file is not modelled. The web layer always supplies both.
- The model does not represent concurrent requests.
- Windows paths and drive letters are not modelled, nor any platform-specific file-name checks.
- FileStore.FileSystem.Write: a write that fails part-way is modelled as leaving the file empty rather than holding a prefix of the bytes.
- FileStore.FileSystem.CreateDirectories: a device failure creates no directory at all, although the JDK may have made some of the missing directories above the location before failing.
- FileStore.FileSystem.CreateDirectories: a regular file above the location is reported as `NotADirectory` at the location itself, rather than at the blocking file.
