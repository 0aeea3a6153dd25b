/**
 * Paths as java.io.File handles them on a Unix platform.
 *
 * A File keeps its path normalised: repeated and trailing separators are
 * dropped, so a path is fully described by whether it starts at the root and
 * by the non-empty names between separators. `.` and `..` stay in the path
 * until it is canonicalised.
 *
 * Canonicalisation is modelled lexically: the model assumes that no symbolic
 * link lies on any path it resolves, so `getCanonicalPath` is the absolute
 * path with `.` dropped and `..` removing the name before it (at the root,
 * `..` stays at the root).
 */
module JavaFile {
  import opened Optional

  const Separator: char := '/'

  /** A name between two separators: never empty, never holding a separator. */
  predicate IsSegment(s: string) {
    s != "" && Separator !in s
  }

  predicate AllSegments(segments: seq<string>) {
    forall i :: 0 <= i < |segments| ==> IsSegment(segments[i])
  }

  /** The names that canonicalisation removes. */
  predicate IsDot(s: string) {
    s == "." || s == ".."
  }

  predicate Clean(segments: seq<string>) {
    forall i :: 0 <= i < |segments| ==> !IsDot(segments[i])
  }

  /** What the model assumes of the JVM's working directory: a canonical path. */
  predicate IsCanonicalDirectory(segments: seq<string>) {
    AllSegments(segments) && Clean(segments)
  }

  /** The normalised path of a java.io.File. */
  datatype Path = Path(absolute: bool, segments: seq<string>)

  predicate WellFormed(p: Path) {
    AllSegments(p.segments)
  }

  // ---------------------------------------------------------------------
  // From strings to paths and back

  function Flush(current: string): seq<string> {
    if current == "" then [] else [current]
  }

  /** Splits `s` at separators, `current` being the name read so far; empty names are dropped. */
  function SplitFrom(s: string, current: string): (r: seq<string>)
    requires Separator !in current
    ensures AllSegments(r)
    ensures current != "" ==> r != []
    decreases |s|
  {
    if s == [] then Flush(current)
    else if s[0] == Separator then Flush(current) + SplitFrom(s[1..], "")
    else SplitFrom(s[1..], current + [s[0]])
  }

  function Split(s: string): (r: seq<string>)
    ensures AllSegments(r)
  {
    SplitFrom(s, "")
  }

  predicate IsAbsoluteName(s: string) {
    |s| > 0 && s[0] == Separator
  }

  /** `new File(s)` */
  function FileOf(s: string): (p: Path)
    ensures WellFormed(p)
    ensures s != "" && !IsAbsoluteName(s) ==> p.segments != []
  {
    assert s != "" && !IsAbsoluteName(s) ==> Split(s) == SplitFrom(s[1..], [s[0]]) by {
      if s != "" && !IsAbsoluteName(s) {
        assert "" + [s[0]] == [s[0]];
      }
    }
    Path(IsAbsoluteName(s), Split(s))
  }

  function Join(segments: seq<string>): string {
    if |segments| == 0 then ""
    else if |segments| == 1 then segments[0]
    else segments[0] + [Separator] + Join(segments[1..])
  }

  /** `File.getPath()`, which is also what `getAbsolutePath` and `getCanonicalPath` return for those files. */
  function PathString(p: Path): (s: string)
    ensures WellFormed(p) ==> (IsAbsoluteName(s) <==> p.absolute)
  {
    if p.absolute then [Separator] + Join(p.segments)
    else
      assert WellFormed(p) && p.segments != [] ==> Join(p.segments)[0] == p.segments[0][0] by {
        if WellFormed(p) && p.segments != [] {
          assert IsSegment(p.segments[0]);
        }
      }
      Join(p.segments)
  }

  lemma {:induction false} SplitWord(w: string, rest: string, current: string)
    requires Separator !in w && Separator !in current
    ensures SplitFrom(w + rest, current) == SplitFrom(rest, current + w)
    decreases |w|
  {
    if w == [] {
      assert w + rest == rest;
      assert current + w == current;
    } else {
      assert (w + rest)[0] == w[0];
      assert (w + rest)[1..] == w[1..] + rest;
      SplitWord(w[1..], rest, current + [w[0]]);
      assert current + [w[0]] + w[1..] == current + w;
    }
  }

  /** A name followed by a separator becomes the first segment. */
  lemma SplitLeadingName(w: string, rest: string)
    requires IsSegment(w)
    ensures Split(w + [Separator] + rest) == [w] + Split(rest)
  {
    assert w + [Separator] + rest == w + ([Separator] + rest);
    SplitWord(w, [Separator] + rest, "");
    assert "" + w == w;
    assert ([Separator] + rest)[1..] == rest;
  }

  /** A single name splits to itself. */
  lemma SplitName(w: string)
    requires IsSegment(w)
    ensures Split(w) == [w]
  {
    SplitWord(w, "", "");
    assert w + "" == w;
    assert "" + w == w;
  }

  /** Splitting a rendered list of names gives the names back. */
  lemma {:induction false} SplitJoin(segments: seq<string>)
    requires AllSegments(segments)
    ensures Split(Join(segments)) == segments
    decreases |segments|
  {
    if |segments| == 1 {
      SplitName(segments[0]);
    } else if |segments| > 1 {
      SplitLeadingName(segments[0], Join(segments[1..]));
      SplitJoin(segments[1..]);
      assert segments == [segments[0]] + segments[1..];
    }
  }

  /** Parsing the string of a normalised path gives that path back. */
  lemma PathStringRoundTrip(p: Path)
    requires WellFormed(p)
    ensures FileOf(PathString(p)) == p
  {
    SplitJoin(p.segments);
    var s := PathString(p);
    if p.absolute {
      assert s[1..] == Join(p.segments);
      assert s == [Separator] + s[1..];
    } else if p.segments != [] {
      assert IsSegment(p.segments[0]);
      assert s[0] == p.segments[0][0];
    }
  }

  /** Two normalised paths have equal strings exactly when they are equal. */
  lemma PathStringInjective(p: Path, q: Path)
    requires WellFormed(p) && WellFormed(q)
    ensures PathString(p) == PathString(q) <==> p == q
  {
    if PathString(p) == PathString(q) {
      PathStringRoundTrip(p);
      PathStringRoundTrip(q);
    }
  }

  // ---------------------------------------------------------------------
  // Resolution

  /**
   * `new File(parent, child)` and `new File(parentString, child)`: the
   * child's names are appended to the parent's, whether or not the child
   * starts with a separator; an empty parent stands for the root.
   */
  function Child(parent: Path, child: string): (p: Path)
    ensures p.segments == parent.segments + Split(child)
    ensures p.absolute == (parent.absolute || parent.segments == [])
    ensures WellFormed(parent) ==> WellFormed(p)
  {
    if parent == Path(false, []) then Path(true, Split(child))
    else Path(parent.absolute, parent.segments + Split(child))
  }

  /** `File.getAbsoluteFile()`: a relative path is resolved against the working directory `cwd`. */
  function Absolute(p: Path, cwd: seq<string>): (a: Path)
    ensures a.absolute
    ensures p.absolute ==> a == p
    ensures |a.segments| == |p.segments| + (if p.absolute then 0 else |cwd|)
    ensures a.segments[|a.segments| - |p.segments|..] == p.segments
    ensures AllSegments(cwd) && WellFormed(p) ==> WellFormed(a)
  {
    if p.absolute then p else Path(true, cwd + p.segments)
  }

  /** One step of canonicalisation: `.` is dropped, `..` removes the last name kept. */
  function Step(done: seq<string>, name: string): seq<string> {
    if name == "." then done
    else if name == ".." then (if done == [] then [] else done[..|done| - 1])
    else done + [name]
  }

  function NormalizeFrom(done: seq<string>, rest: seq<string>): (r: seq<string>)
    ensures Clean(done) ==> Clean(r)
    ensures AllSegments(done) && AllSegments(rest) ==> AllSegments(r)
    decreases |rest|
  {
    if rest == [] then done else NormalizeFrom(Step(done, rest[0]), rest[1..])
  }

  function Normalize(segments: seq<string>): (r: seq<string>)
    ensures Clean(r)
    ensures AllSegments(segments) ==> AllSegments(r)
  {
    NormalizeFrom([], segments)
  }

  /** `File.getCanonicalFile()`, with no symbolic links on the path. */
  function Canonical(p: Path, cwd: seq<string>): (c: Path)
    ensures c.absolute && Clean(c.segments)
    ensures AllSegments(cwd) && WellFormed(p) ==> WellFormed(c)
  {
    Path(true, Normalize(Absolute(p, cwd).segments))
  }

  /** `File.getParentFile()`: none for the root and for a relative path of a single name. */
  function Parent(p: Path): (r: Option<Path>)
    ensures r.Some? <==> |p.segments| >= 2 || (p.absolute && |p.segments| == 1)
    ensures r.Some? ==> r.value.absolute == p.absolute
    ensures r.Some? ==> r.value.segments == p.segments[..|p.segments| - 1]
    ensures r.Some? && WellFormed(p) ==> WellFormed(r.value)
  {
    if |p.segments| == 0 || (!p.absolute && |p.segments| == 1) then None
    else Some(Path(p.absolute, p.segments[..|p.segments| - 1]))
  }

  /** `File.getName()`: the last name, or the empty string for the root. */
  function Name(p: Path): (n: string)
    ensures Parent(p).Some? ==> p.segments == Parent(p).value.segments + [n]
    ensures WellFormed(p) && p.segments != [] ==> IsSegment(n)
    ensures p.segments == [] ==> n == ""
  {
    if p.segments == [] then "" else p.segments[|p.segments| - 1]
  }

  // ---------------------------------------------------------------------
  // Properties of canonicalisation

  /** Canonicalisation never lengthens a path, and shortens it whenever a `.` or `..` is present. */
  lemma {:induction false} NormalizeFromShrinks(done: seq<string>, rest: seq<string>)
    ensures |NormalizeFrom(done, rest)| <= |done| + |rest|
    ensures !Clean(rest) ==> |NormalizeFrom(done, rest)| < |done| + |rest|
    decreases |rest|
  {
    if rest != [] {
      NormalizeFromShrinks(Step(done, rest[0]), rest[1..]);
      if !Clean(rest) && !IsDot(rest[0]) {
        var i :| 0 <= i < |rest| && IsDot(rest[i]);
        assert IsDot(rest[1..][i - 1]);
      }
    }
  }

  /** Names free of `.` and `..` are kept as they are. */
  lemma {:induction false} NormalizeFromClean(done: seq<string>, rest: seq<string>)
    requires Clean(rest)
    ensures NormalizeFrom(done, rest) == done + rest
    decreases |rest|
  {
    if rest != [] {
      assert !IsDot(rest[0]);
      assert Clean(rest[1..]) by {
        forall i | 0 <= i < |rest[1..]| ensures !IsDot(rest[1..][i]) {
          assert rest[1..][i] == rest[i + 1];
        }
      }
      NormalizeFromClean(done + [rest[0]], rest[1..]);
      assert done + [rest[0]] + rest[1..] == done + rest;
    }
  }

  /** Canonicalisation leaves the names appended to `done` untouched exactly when none is `.` or `..`. */
  lemma NormalizeFromFixed(done: seq<string>, rest: seq<string>)
    ensures NormalizeFrom(done, rest) == done + rest <==> Clean(rest)
  {
    if Clean(rest) {
      NormalizeFromClean(done, rest);
    } else {
      NormalizeFromShrinks(done, rest);
    }
  }

  /** Canonicalising a concatenation canonicalises the first part, then continues with the second. */
  lemma {:induction false} NormalizeFromAppend(done: seq<string>, a: seq<string>, b: seq<string>)
    ensures NormalizeFrom(done, a + b) == NormalizeFrom(NormalizeFrom(done, a), b)
    decreases |a|
  {
    if a == [] {
      assert a + b == b;
    } else {
      assert (a + b)[0] == a[0];
      assert (a + b)[1..] == a[1..] + b;
      NormalizeFromAppend(Step(done, a[0]), a[1..], b);
    }
  }

  /** A canonical path is its own canonical form. */
  lemma NormalizeIdempotent(segments: seq<string>)
    ensures Normalize(Normalize(segments)) == Normalize(segments)
  {
    NormalizeFromClean([], Normalize(segments));
    assert [] + Normalize(segments) == Normalize(segments);
  }

  /** Appending names free of `.` and `..` to a path appends them to its canonical form. */
  lemma NormalizeAppendClean(a: seq<string>, b: seq<string>)
    requires Clean(b)
    ensures Normalize(a + b) == Normalize(a) + b
  {
    NormalizeFromAppend([], a, b);
    NormalizeFromClean(Normalize(a), b);
  }

  /** A relative path resolved against a canonical working directory is canonicalised from that directory. */
  lemma CanonicalOfRelative(p: Path, cwd: seq<string>)
    requires !p.absolute && Clean(cwd)
    ensures Canonical(p, cwd).segments == NormalizeFrom(cwd, p.segments)
  {
    NormalizeFromAppend([], cwd, p.segments);
    NormalizeFromClean([], cwd);
    assert [] + cwd == cwd;
  }

  /** Resolving a child free of `.` and `..` against a non-empty directory appends the child's names to the directory's canonical path. */
  lemma CanonicalChild(dir: Path, child: string, cwd: seq<string>)
    requires dir.segments != [] && Clean(Split(child))
    ensures Canonical(Child(dir, child), cwd).segments == Canonical(dir, cwd).segments + Split(child)
  {
    var a := Absolute(dir, cwd).segments;
    assert Absolute(Child(dir, child), cwd).segments == a + Split(child);
    NormalizeAppendClean(a, Split(child));
  }
}
