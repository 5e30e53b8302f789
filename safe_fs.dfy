// The file-system guard: allowed roots, path validation, containment of joined
// paths, extension and MIME allow-lists, magic-number checks, and the order of
// the checks that `readSafe` and `writeSafe` run before touching a file.
// Paths follow node's POSIX `path` module, worked on '/'-separated segments.
module SafeFs {
  import opened Wrappers
  import Text

  // ---------------------------------------------------------------- errors and constants

  /** A `FileSystemError`: a message and a machine-readable code. */
  datatype FsError = FsError(message: string, code: string)

  const AllowedExtensions: seq<string> := [".yaml", ".yml", ".json", ".md", ".txt", ".png", ".jpg", ".jpeg", ".pdf"]
  const MaxFileSize: int := 2 * 1024 * 1024

  const PathTraversal := FsError("Path traversal detected", "PATH_TRAVERSAL_DETECTED")
  const NullByte := FsError("Null byte in path", "INVALID_PATH")
  const DangerousPattern := FsError("Dangerous path pattern detected", "INVALID_PATH")

  // ---------------------------------------------------------------- POSIX path normalisation

  predicate IsAbsolute(p: string) { |p| > 0 && p[0] == '/' }

  /** A segment that normalisation keeps as it is. */
  predicate IsName(seg: string) { seg != "" && seg != "." && seg != ".." }

  /**
   * One segment of `normalizeString`: empty and `.` segments vanish, `..` drops the
   * last kept segment, or is kept itself above the start of a relative path.
   */
  function Push(acc: seq<string>, seg: string, allowAboveRoot: bool): seq<string>
  {
    if seg == "" || seg == "." then acc
    else if seg == ".." then
      if |acc| > 0 && acc[|acc| - 1] != ".." then acc[..|acc| - 1]
      else if allowAboveRoot then acc + [".."]
      else acc
    else acc + [seg]
  }

  function NormalizeFrom(acc: seq<string>, segs: seq<string>, allowAboveRoot: bool): seq<string>
    decreases |segs|
  {
    if |segs| == 0 then acc else NormalizeFrom(Push(acc, segs[0], allowAboveRoot), segs[1..], allowAboveRoot)
  }

  /** The pieces of `p` between separators, as `normalizeString` scans them. */
  function Segments(p: string): (r: seq<string>)
    ensures |r| >= 1
    decreases |p|
  {
    if |p| == 0 then [""]
    else
      var rest := Segments(p[1..]);
      if p[0] == '/' then [""] + rest else [[p[0]] + rest[0]] + rest[1..]
  }

  /** The kept segments of `p`. */
  function NormalizeSegments(p: string, allowAboveRoot: bool): seq<string>
  {
    NormalizeFrom([], Segments(p), allowAboveRoot)
  }

  /** `normalizeString`: the kept segments joined by `/`. */
  function NormalizeString(p: string, allowAboveRoot: bool): string
  {
    Text.Join(NormalizeSegments(p, allowAboveRoot), "/")
  }

  /** `path.normalize`: keeps a leading and a trailing separator. */
  function Normalize(p: string): string
  {
    if |p| == 0 then "."
    else
      var res := NormalizeString(p, !IsAbsolute(p));
      var trailing := p[|p| - 1] == '/';
      if |res| == 0 then (if IsAbsolute(p) then "/" else if trailing then "./" else ".")
      else (if IsAbsolute(p) then "/" else "") + res + (if trailing then "/" else "")
  }

  function NonEmpty(args: seq<string>): (r: seq<string>)
    ensures forall k :: 0 <= k < |r| ==> r[k] != ""
  {
    if |args| == 0 then [] else (if args[0] == "" then [] else [args[0]]) + NonEmpty(args[1..])
  }

  /** `path.join`: the non-empty arguments joined by `/`, then normalised. */
  function PathJoin(args: seq<string>): string
  {
    var parts := NonEmpty(args);
    if |parts| == 0 then "." else Normalize(Text.Join(parts, "/"))
  }

  /**
   * The text `path.resolve` builds before normalising: the arguments from the
   * right, each followed by `/`, up to the first absolute one, and otherwise the
   * working directory in front; with whether the text is absolute.
   */
  function ResolveText(cwd: string, args: seq<string>): (string, bool)
    decreases |args|
  {
    if |args| == 0 then (if |cwd| == 0 then ("", false) else (cwd + "/", IsAbsolute(cwd)))
    else
      var last := args[|args| - 1];
      if |last| == 0 then ResolveText(cwd, args[..|args| - 1])
      else if IsAbsolute(last) then (last + "/", true)
      else
        var prefix := ResolveText(cwd, args[..|args| - 1]);
        (prefix.0 + last + "/", prefix.1)
  }

  /** `path.resolve` with `cwd` as `process.cwd()`. */
  function Resolve(cwd: string, args: seq<string>): string
  {
    var t := ResolveText(cwd, args);
    var res := NormalizeString(t.0, !t.1);
    if t.1 then "/" + res else if |res| > 0 then res else "."
  }

  /** An absolute path in normal form other than `/`: `/` followed by names separated by `/`. */
  predicate Canonical(p: string)
  {
    |p| >= 2 && p[0] == '/' && forall seg :: seg in Segments(p[1..]) ==> IsName(seg)
  }

  // ---------------------------------------------------------------- lemmas on paths

  lemma {:induction false} SegmentsFreeOfSeparator(p: string)
    ensures forall k :: 0 <= k < |Segments(p)| ==> '/' !in Segments(p)[k]
    decreases |p|
  {
    if |p| > 0 {
      SegmentsFreeOfSeparator(p[1..]);
      var rest := Segments(p[1..]);
      if p[0] != '/' {
        var r := Segments(p);
        forall k | 0 <= k < |r| ensures '/' !in r[k] {
          if k == 0 {
            assert r[0] == [p[0]] + rest[0];
          } else {
            assert r[k] == rest[k];
          }
        }
      }
    }
  }

  /** A path without separators is a single segment. */
  lemma {:induction false} SegmentsOfName(p: string)
    requires '/' !in p
    ensures Segments(p) == [p]
    decreases |p|
  {
    if |p| > 0 {
      assert '/' !in p[1..];
      SegmentsOfName(p[1..]);
      assert p == [p[0]] + p[1..];
    }
  }

  /** The segments of a path on either side of a separator are segmented independently. */
  lemma {:induction false} SplitConcat(a: string, b: string)
    ensures Segments(a + "/" + b) == Segments(a) + Segments(b)
    decreases |a|
  {
    var s := a + "/" + b;
    if |a| == 0 {
      assert s[1..] == b;
    } else {
      assert s[1..] == a[1..] + "/" + b;
      SplitConcat(a[1..], b);
    }
  }

  /** Joining the segments of a path with `/` gives the path back. */
  lemma {:induction false} SegmentsJoin(p: string)
    ensures Text.Join(Segments(p), "/") == p
    decreases |p|
  {
    if |p| > 0 {
      SegmentsJoin(p[1..]);
      var rest := Segments(p[1..]);
      if p[0] == '/' {
        assert ([""] + rest)[1..] == rest;
        assert p == "" + "/" + p[1..];
      } else {
        var r := Segments(p);
        if |rest| == 1 {
          assert r == [[p[0]] + rest[0]];
          assert p == [p[0]] + p[1..];
        } else {
          assert r[1..] == rest[1..];
          assert Text.Join(rest, "/") == rest[0] + "/" + Text.Join(rest[1..], "/");
          assert p == [p[0]] + p[1..];
        }
      }
    }
  }

  /** Joining segments free of `/` and segmenting again gives them back. */
  lemma {:induction false} JoinSplit(xs: seq<string>)
    requires |xs| >= 1 && forall k :: 0 <= k < |xs| ==> '/' !in xs[k]
    ensures Segments(Text.Join(xs, "/")) == xs
  {
    SegmentsOfName(xs[0]);
    if |xs| > 1 {
      JoinSplit(xs[1..]);
      SplitConcat(xs[0], Text.Join(xs[1..], "/"));
    }
  }

  /** Joining two non-empty lists of segments puts one separator between them. */
  lemma {:induction false} JoinConcat(xs: seq<string>, ys: seq<string>)
    requires |xs| >= 1 && |ys| >= 1
    ensures Text.Join(xs + ys, "/") == Text.Join(xs, "/") + "/" + Text.Join(ys, "/")
  {
    if |xs| == 1 {
      assert (xs + ys)[1..] == ys;
    } else {
      assert (xs + ys)[1..] == xs[1..] + ys;
      JoinConcat(xs[1..], ys);
    }
  }

  /** The first segment of a path is a prefix of it. */
  lemma {:induction false} FirstSegmentPrefix(p: string)
    ensures Text.StartsWith(p, Segments(p)[0])
    decreases |p|
  {
    if |p| > 0 && p[0] != '/' {
      FirstSegmentPrefix(p[1..]);
    }
  }

  /** A path without the substring `..` has no `..` segment. */
  lemma {:induction false} SegmentsAvoidUp(p: string)
    requires !Text.Includes(p, "..")
    ensures ".." !in Segments(p)
    decreases |p|
  {
    if |p| > 0 {
      var rest := Segments(p[1..]);
      IncludesInSuffix(p, 1, "..");
      SegmentsAvoidUp(p[1..]);
      if p[0] != '/' {
        var head := [p[0]] + rest[0];
        FirstSegmentPrefix(p[1..]);
        assert head != "..";
        assert Segments(p) == [head] + rest[1..];
      }
    }
  }

  lemma IncludesInSuffix(s: string, k: nat, q: string)
    requires k <= |s|
    ensures Text.Includes(s[k..], q) ==> Text.Includes(s, q)
  {
    if Text.Includes(s[k..], q) {
      Text.IncludesWithin(s[..k], s[k..], "", q);
      assert s[..k] + s[k..] + "" == s;
    }
  }

  /** The segments that survive when no segment is `..`. */
  function Names(segs: seq<string>): (r: seq<string>)
    ensures forall k :: 0 <= k < |r| ==> r[k] in segs && IsName(r[k])
  {
    if |segs| == 0 then [] else (if IsName(segs[0]) then [segs[0]] else []) + Names(segs[1..])
  }

  lemma {:induction false} NamesOfNames(segs: seq<string>)
    requires forall seg :: seg in segs ==> IsName(seg)
    ensures Names(segs) == segs
  {
    if |segs| > 0 {
      NamesOfNames(segs[1..]);
    }
  }

  lemma {:induction false} NamesAppend(a: seq<string>, b: seq<string>)
    ensures Names(a + b) == Names(a) + Names(b)
  {
    if |a| == 0 {
      assert a + b == b;
    } else {
      assert (a + b)[1..] == a[1..] + b;
      NamesAppend(a[1..], b);
    }
  }

  /** Without `..` segments, normalisation only drops the empty and `.` segments. */
  lemma {:induction false} NormalizeWithoutUp(acc: seq<string>, segs: seq<string>, allowAboveRoot: bool)
    requires ".." !in segs
    ensures NormalizeFrom(acc, segs, allowAboveRoot) == acc + Names(segs)
    decreases |segs|
  {
    if |segs| > 0 {
      assert segs[0] != "..";
      assert ".." !in segs[1..];
      NormalizeWithoutUp(Push(acc, segs[0], allowAboveRoot), segs[1..], allowAboveRoot);
    }
  }

  /** Joined names, with or without a trailing separator, segment into those names. */
  lemma SegmentsOfJoinedNames(n: seq<string>, trailing: bool)
    requires |n| >= 1 && forall k :: 0 <= k < |n| ==> IsName(n[k]) && '/' !in n[k]
    ensures var res := Text.Join(n, "/");
      |res| > 0 && res[0] != '/'
      && Segments(res + (if trailing then "/" else "")) == n + (if trailing then [""] else [])
  {
    var res := Text.Join(n, "/");
    JoinSplit(n);
    Text.JoinStartsWithFirst(n, "/");
    assert res[0] == n[0][0];
    if trailing {
      SplitConcat(res, "");
      assert res + "/" + "" == res + (if trailing then "/" else "");
    } else {
      assert res + "" == res;
    }
  }

  /** `path.normalize` of a relative path without `..` segments keeps it relative and `..`-free. */
  lemma NormalizeRelative(p: string)
    requires |p| > 0 && !IsAbsolute(p) && ".." !in Segments(p)
    ensures var q := Normalize(p);
      |q| > 0 && !IsAbsolute(q) && ".." !in Segments(q)
  {
    var n := NormalizeSegments(p, true);
    NormalizeWithoutUp([], Segments(p), true);
    SegmentsFreeOfSeparator(p);
    assert n == Names(Segments(p));
    var res := Text.Join(n, "/");
    var trailing := p[|p| - 1] == '/';
    if |n| == 0 {
      SegmentsOfName(".");
      if trailing {
        SplitConcat(".", "");
        assert "." + "/" + "" == "./";
      }
    } else {
      SegmentsOfJoinedNames(n, trailing);
      assert Normalize(p) == res + (if trailing then "/" else "");
    }
  }

  /** `path.join` of one validated relative path: relative, and free of `..` segments. */
  lemma JoinValidated(rel: string)
    requires !Text.Includes(rel, "..") && !IsAbsolute(rel)
    ensures var j := PathJoin([rel]);
      |j| > 0 && !IsAbsolute(j) && ".." !in Segments(j)
  {
    if rel == "" {
      assert NonEmpty([rel]) == [];
      SegmentsOfName(".");
    } else {
      assert NonEmpty([rel]) == [rel];
      assert Text.Join([rel], "/") == rel;
      SegmentsAvoidUp(rel);
      NormalizeRelative(rel);
    }
  }

  /** A canonical path is `/` and then its names. */
  lemma CanonicalSplit(root: string)
    requires Canonical(root)
    ensures Segments(root) == [""] + Segments(root[1..])
    ensures "/" + Text.Join(Segments(root[1..]), "/") == root
  {
    SplitConcat("", root[1..]);
    assert "" + "/" + root[1..] == root;
    SegmentsJoin(root[1..]);
  }

  /** `path.resolve(root, j)` for an absolute root and a non-empty relative `j`. */
  lemma ResolveTextOfTwo(cwd: string, root: string, j: string)
    requires IsAbsolute(root) && |j| > 0 && !IsAbsolute(j)
    ensures ResolveText(cwd, [root, j]) == (root + "/" + j + "/", true)
  {
    assert [root, j][..1] == [root];
    assert ResolveText(cwd, [root]) == (root + "/", true);
  }

  /** The segments of the text resolved from a canonical root and a relative path. */
  lemma SegmentsOfResolvedText(root: string, j: string)
    requires Canonical(root)
    ensures Segments(root + "/" + j + "/") == [""] + Segments(root[1..]) + (Segments(j) + [""])
  {
    CanonicalSplit(root);
    var a := j + "/";
    assert a == j + "/" + "";
    SplitConcat(j, "");
    assert Segments("") == [""];
    assert Segments(a) == Segments(j) + [""];
    var t := root + "/" + a;
    SplitConcat(root, a);
    assert t == root + "/" + j + "/";
  }

  lemma Regroup(a: string, b: string)
    ensures "/" + (a + "/" + b) == ("/" + a) + "/" + b
  {
  }

  /**
   * Resolving a relative, `..`-free path against a canonical root: the root itself,
   * or the root, a separator and the names of the path.
   */
  lemma ResolveInside(cwd: string, root: string, j: string)
    requires Canonical(root)
    requires |j| > 0 && !IsAbsolute(j) && ".." !in Segments(j)
    ensures var tail := Names(Segments(j));
      Resolve(cwd, [root, j]) == if |tail| == 0 then root else root + "/" + Text.Join(tail, "/")
  {
    ResolveTextOfTwo(cwd, root, j);
    var text := root + "/" + j + "/";
    var rs := Segments(root[1..]);
    SegmentsOfResolvedText(root, j);
    CanonicalSplit(root);
    var segs := [""] + rs + (Segments(j) + [""]);
    assert ".." !in segs;
    NormalizeWithoutUp([], segs, false);
    var tail := Names(Segments(j));
    assert Names([""]) == [];
    NamesAppend([""], rs);
    NamesOfNames(rs);
    assert Names([""] + rs) == rs;
    NamesAppend(Segments(j), [""]);
    assert Names(Segments(j) + [""]) == tail;
    NamesAppend([""] + rs, Segments(j) + [""]);
    assert Names(segs) == rs + tail;
    assert NormalizeFrom([], segs, false) == rs + tail;
    assert NormalizeSegments(text, false) == rs + tail;
    var r := Resolve(cwd, [root, j]);
    assert r == "/" + Text.Join(rs + tail, "/");
    if |tail| == 0 {
      assert rs + tail == rs;
    } else {
      JoinConcat(rs, tail);
      var jr := Text.Join(rs, "/");
      var jt := Text.Join(tail, "/");
      assert r == "/" + (jr + "/" + jt);
      assert root == "/" + jr;
      Regroup(jr, jt);
    }
  }

  /** Hence such a path resolves to the root or to a path beneath it. */
  lemma ResolveStaysInside(cwd: string, root: string, j: string)
    requires Canonical(root)
    requires |j| > 0 && !IsAbsolute(j) && ".." !in Segments(j)
    ensures var r := Resolve(cwd, [root, j]);
      r == root || Text.StartsWith(r, root + "/")
  {
    ResolveInside(cwd, root, j);
  }

  /** A canonical path followed by a name is canonical. */
  lemma CanonicalChild(root: string, name: string)
    requires Canonical(root) && IsName(name) && '/' !in name
    ensures Canonical(root + "/" + name)
  {
    var c := root + "/" + name;
    assert c[1..] == root[1..] + "/" + name;
    SplitConcat(root[1..], name);
    SegmentsOfName(name);
  }

  // ---------------------------------------------------------------- safeJoin and the allowed roots

  /** `p` is `root` or lies beneath it. */
  predicate Within(p: string, root: string)
  {
    Text.StartsWith(p, root + "/") || p == root
  }

  /** `safeJoin`: the resolved path, unless it leaves `root`. */
  function SafeJoin(cwd: string, root: string, segments: seq<string>): (r: Result<string, FsError>)
    ensures r.Success? ==> r.value == Resolve(cwd, [root, PathJoin(segments)]) && Within(r.value, root)
    ensures r.Failure? ==> r.error == PathTraversal && !Within(Resolve(cwd, [root, PathJoin(segments)]), root)
  {
    var joined := Resolve(cwd, [root, PathJoin(segments)]);
    if !Text.StartsWith(joined, root + "/") && joined != root then Failure(PathTraversal) else Success(joined)
  }

  /** `ALLOWED_FS_ROOTS`: `data`, `public` and `uploads` under the working directory. */
  function AllowedRoots(cwd: string): seq<string>
  {
    [Resolve(cwd, [cwd, "data"]), Resolve(cwd, [cwd, "public"]), Resolve(cwd, [cwd, "uploads"])]
  }

  /** `isAllowedRoot`. */
  predicate IsAllowedRoot(cwd: string, p: string)
  {
    exists root :: root in AllowedRoots(cwd) && Within(p, root)
  }

  /** A name resolved against a canonical directory is that directory's child. */
  lemma ResolveChild(cwd: string, dir: string, name: string)
    requires Canonical(dir) && IsName(name) && '/' !in name
    ensures Resolve(cwd, [dir, name]) == dir + "/" + name
    ensures Canonical(dir + "/" + name)
  {
    SegmentsOfName(name);
    assert ".." !in Segments(name);
    ResolveInside(cwd, dir, name);
    assert Names(Segments(name)) == [name];
    assert Text.Join([name], "/") == name;
    CanonicalChild(dir, name);
  }

  /** From a canonical working directory the three roots are its canonical children. */
  lemma AllowedRootsCanonical(cwd: string)
    requires Canonical(cwd)
    ensures AllowedRoots(cwd) == [cwd + "/data", cwd + "/public", cwd + "/uploads"]
    ensures forall k :: 0 <= k < 3 ==> Canonical(AllowedRoots(cwd)[k])
  {
    ResolveChild(cwd, cwd, "data");
    ResolveChild(cwd, cwd, "public");
    ResolveChild(cwd, cwd, "uploads");
    assert cwd + "/" + "data" == cwd + "/data";
    assert cwd + "/" + "public" == cwd + "/public";
    assert cwd + "/" + "uploads" == cwd + "/uploads";
  }

  // ---------------------------------------------------------------- validatePath

  /** The Windows reserved characters `<>:"|?*`. */
  predicate IsReserved(c: char)
  {
    c == '<' || c == '>' || c == ':' || c == '"' || c == '|' || c == '?' || c == '*'
  }

  /** The class `[\x00-\x1f\x80-\x9f]`. */
  predicate IsControl(c: char)
  {
    c as int <= 0x1f || (0x80 <= c as int <= 0x9f)
  }

  /** One of the four dangerous patterns matches. */
  predicate Dangerous(path: string)
  {
    Text.Includes(path, "..")
    || (|path| > 0 && (path[0] == '/' || path[0] == '\\'))
    || (exists i :: 0 <= i < |path| && (IsReserved(path[i]) || IsControl(path[i])))
  }

  /** `validatePath`: a NUL is reported apart; any dangerous pattern rejects the path. */
  function ValidatePath(path: string): (r: Result<(), FsError>)
    ensures r.Success? <==>
      !Text.Includes(path, "..") && !(|path| > 0 && (path[0] == '/' || path[0] == '\\'))
      && forall i :: 0 <= i < |path| ==> !IsReserved(path[i]) && !IsControl(path[i])
    ensures r.Failure? ==> r.error.code == "INVALID_PATH" && (r.error == NullByte <==> '\0' in path)
  {
    if '\0' in path then Failure(NullByte)
    else if Dangerous(path) then Failure(DangerousPattern)
    else Success(())
  }

  /**
   * After `validatePath`, joining against a canonical root never trips the
   * traversal check: the result is the root or a path beneath it.
   */
  lemma ValidatedJoinSucceeds(cwd: string, root: string, rel: string)
    requires Canonical(root) && ValidatePath(rel).Success?
    ensures SafeJoin(cwd, root, [rel]).Success?
  {
    JoinValidated(rel);
    ResolveStaysInside(cwd, root, PathJoin([rel]));
  }

  // ---------------------------------------------------------------- extensions

  /** The last index of `c` in `s`, or -1. */
  function LastIndex(s: string, c: char): (r: int)
    ensures -1 <= r < |s|
    ensures r >= 0 ==> s[r] == c
  {
    if |s| == 0 then -1 else if s[|s| - 1] == c then |s| - 1 else LastIndex(s[..|s| - 1], c)
  }

  /** No occurrence of `c` follows its last index. */
  lemma {:induction false} LastIndexIsLast(s: string, c: char)
    ensures forall k :: LastIndex(s, c) < k < |s| ==> s[k] != c
  {
    if |s| > 0 && s[|s| - 1] != c {
      var init := s[..|s| - 1];
      LastIndexIsLast(init, c);
      assert forall k :: 0 <= k < |init| ==> init[k] == s[k];
    }
  }

  /** `p` without its trailing separators. */
  function StripTrailing(p: string): (r: string)
    ensures |r| <= |p| && r == p[..|r|]
    ensures |r| == 0 || r[|r| - 1] != '/'
  {
    if |p| > 0 && p[|p| - 1] == '/' then StripTrailing(p[..|p| - 1]) else p
  }

  /** The last segment, trailing separators ignored. */
  function BaseName(p: string): string
  {
    var t := StripTrailing(p);
    t[LastIndex(t, '/') + 1..]
  }

  /**
   * `path.extname`: from the last `.` of the last segment, unless that dot
   * starts the segment or the segment is `..`.
   */
  function ExtName(p: string): (r: string)
    ensures r == "" || (r[0] == '.' && '.' !in r[1..] && '/' !in r)
  {
    var b := BaseName(p);
    var d := LastIndex(b, '.');
    if d <= 0 || b == ".." then "" else
      LastIndexIsLast(b, '.');
      LastIndexIsLast(StripTrailing(p), '/');
      assert '/' !in b;
      b[d..]
  }

  /** `isAllowedExtension`: the lower-cased extension is on the allow-list. */
  predicate IsAllowedExtension(p: string)
  {
    Text.Lower(ExtName(p)) in AllowedExtensions
  }

  /** The last segment of a stem and a separator-free tail. */
  lemma BaseNameOfName(stem: string, tail: string)
    requires |stem| > 0 && stem[|stem| - 1] != '/'
    requires |tail| > 0 && '/' !in tail
    ensures var k := LastIndex(stem, '/');
      k < |stem| - 1 && BaseName(stem + tail) == stem[k + 1..] + tail
  {
    var p := stem + tail;
    assert p[|p| - 1] == tail[|tail| - 1];
    assert StripTrailing(p) == p;
    LastIndexSkips(stem, tail, '/');
    var k := LastIndex(stem, '/');
    Text.DropAppend(stem, tail, k + 1);
  }

  /** The dot that starts an otherwise dot-free tail is the last dot. */
  lemma LastDotBefore(front: string, ext: string)
    requires |ext| > 0 && ext[0] == '.' && '.' !in ext[1..]
    ensures LastIndex(front + ext, '.') == |front|
  {
    var head := front + ext[..1];
    assert front + ext == head + ext[1..];
    LastIndexSkips(head, ext[1..], '.');
  }

  /** A name's extension is the part from its last dot, when something precedes the dot. */
  lemma ExtNameOfName(stem: string, ext: string)
    requires |stem| > 0 && stem[|stem| - 1] != '/'
    requires |ext| >= 2 && ext[0] == '.' && '.' !in ext[1..] && '/' !in ext[1..]
    ensures ExtName(stem + ext) == ext
  {
    assert forall i :: 1 <= i < |ext| ==> ext[i] == ext[1..][i - 1];
    assert '/' !in ext;
    BaseNameOfName(stem, ext);
    var front := stem[LastIndex(stem, '/') + 1..];
    LastDotBefore(front, ext);
    Text.DropAppend(front, ext, |front|);
  }

  /** Characters that do not contain `c` do not move its last index. */
  lemma {:induction false} LastIndexSkips(x: string, y: string, c: char)
    requires c !in y
    ensures LastIndex(x + y, c) == LastIndex(x, c)
    decreases |y|
  {
    if |y| > 0 {
      var s := x + y;
      assert s[..|s| - 1] == x + y[..|y| - 1];
      assert y[|y| - 1] == s[|s| - 1];
      LastIndexSkips(x, y[..|y| - 1], c);
    } else {
      assert x + y == x;
    }
  }

  /** Each listed extension is a lower-case dot and a dot-free, separator-free tail. */
  lemma ListedExtensionShape(k: nat)
    requires k < |AllowedExtensions|
    ensures var ext := AllowedExtensions[k];
      |ext| >= 2 && ext[0] == '.' && '.' !in ext[1..] && '/' !in ext[1..] && Text.Lower(ext) == ext
  {
    var ext := AllowedExtensions[k];
    assert forall i :: 0 <= i < |ext| ==> ext[i] == '.' || Text.IsAsciiLower(ext[i]);
    assert forall i :: 1 <= i < |ext| ==> Text.IsAsciiLower(ext[i]);
    Text.LowerOfLower(ext);
  }

  /** A dot and a dot-free tail whose lower-case form is listed, after a stem, is accepted. */
  lemma ExtensionAccepted(stem: string, ext: string)
    requires |stem| > 0 && stem[|stem| - 1] != '/'
    requires |ext| >= 2 && ext[0] == '.' && '.' !in ext[1..] && '/' !in ext[1..]
    requires Text.Lower(ext) in AllowedExtensions
    ensures IsAllowedExtension(stem + ext)
  {
    ExtNameOfName(stem, ext);
  }

  /** Every listed extension, after a stem, is accepted. */
  lemma ListedExtensionsAccepted(stem: string, k: nat)
    requires |stem| > 0 && stem[|stem| - 1] != '/' && k < |AllowedExtensions|
    ensures IsAllowedExtension(stem + AllowedExtensions[k])
  {
    ListedExtensionShape(k);
    ExtensionAccepted(stem, AllowedExtensions[k]);
  }

  /** An accepted path's extension is a listed one, up to case, and ends its last segment. */
  lemma AcceptedExtensionIsListed(p: string)
    requires IsAllowedExtension(p)
    ensures var e := ExtName(p); |e| > 0 && Text.EndsWith(BaseName(p), e) && Text.Lower(e) in AllowedExtensions
  {
  }

  // ---------------------------------------------------------------- uploads and magic numbers

  const AllowedMimeTypes: seq<string> := ["text/plain", "text/markdown", "application/json", "application/yaml",
                                          "text/yaml", "image/png", "image/jpeg", "application/pdf"]

  const InvalidFileType := FsError("File type not allowed", "INVALID_FILE_TYPE")
  const UploadTooLarge := FsError("File too large", "FILE_TOO_LARGE")
  const InvalidMimeType := FsError("MIME type not allowed", "INVALID_MIME_TYPE")

  /** `validateUploadedFile`: the name, its extension, the size, then a given MIME type. */
  function ValidateUploadedFile(name: string, size: int, mime: Option<string>): (r: Result<(), FsError>)
    ensures r.Success? <==> ValidatePath(name).Success? && IsAllowedExtension(name) && size <= MaxFileSize
                            && (Text.TruthyString(mime) ==> mime.value in AllowedMimeTypes)
  {
    if ValidatePath(name).Failure? then Failure(ValidatePath(name).error)
    else if !IsAllowedExtension(name) then Failure(InvalidFileType)
    else if size > MaxFileSize then Failure(UploadTooLarge)
    else if Text.TruthyString(mime) && mime.value !in AllowedMimeTypes then Failure(InvalidMimeType)
    else Success(())
  }

  /** The error is that of the first failing check, and a missing or empty MIME type is never checked. */
  lemma UploadCheckOrder(name: string, size: int, mime: Option<string>)
    ensures var r := ValidateUploadedFile(name, size, mime);
      (ValidatePath(name).Failure? ==> r == Failure(ValidatePath(name).error))
      && (ValidatePath(name).Success? && !IsAllowedExtension(name) ==> r == Failure(InvalidFileType))
      && (ValidatePath(name).Success? && IsAllowedExtension(name) && size > MaxFileSize ==> r == Failure(UploadTooLarge))
      && (r.Failure? && r.error.code == "INVALID_MIME_TYPE" ==> Text.TruthyString(mime) && size <= MaxFileSize)
      && (!Text.TruthyString(mime) ==> r == ValidateUploadedFile(name, size, Some("")))
  {
  }

  type Byte = b: int | 0 <= b < 256

  const PngMagic: seq<Byte> := [0x89, 0x50, 0x4E, 0x47, 0x0D, 0x0A, 0x1A, 0x0A]
  const JpegMagic: seq<Byte> := [0xFF, 0xD8, 0xFF]
  const PdfMagic: seq<Byte> := [0x25, 0x50, 0x44, 0x46]
  const TrustedTextExtensions: seq<string> := [".txt", ".md", ".json", ".yaml", ".yml"]

  /** The own entries of the `signatures` table. */
  function Signatures(ext: string): Option<seq<seq<Byte>>>
  {
    if ext == ".png" then Some([PngMagic])
    else if ext == ".jpg" || ext == ".jpeg" then Some([JpegMagic])
    else if ext == ".pdf" then Some([PdfMagic])
    else None
  }

  /** `content.subarray(0, |sig|).equals(sig)`. */
  predicate StartsWithBytes(content: seq<Byte>, sig: seq<Byte>)
  {
    |sig| <= |content| && content[..|sig|] == sig
  }

  predicate AnySignature(content: seq<Byte>, sigs: seq<seq<Byte>>)
  {
    exists k :: 0 <= k < |sigs| && StartsWithBytes(content, sigs[k])
  }

  /** `verifyFileType`, with the table read through its own entries only. */
  function VerifyFileType(content: seq<Byte>, expectedExtension: string): bool
  {
    var ext := Text.Lower(expectedExtension);
    match Signatures(ext)
    case None => ext in TrustedTextExtensions
    case Some(sigs) => AnySignature(content, sigs)
  }

  /** Binary types need their magic number, text types are trusted, anything else fails. */
  lemma VerifyFileTypeCases(content: seq<Byte>, expectedExtension: string)
    ensures var ext := Text.Lower(expectedExtension);
      (ext == ".png" ==> (VerifyFileType(content, expectedExtension) <==> StartsWithBytes(content, PngMagic)))
      && (ext == ".jpg" || ext == ".jpeg" ==> (VerifyFileType(content, expectedExtension) <==> StartsWithBytes(content, JpegMagic)))
      && (ext == ".pdf" ==> (VerifyFileType(content, expectedExtension) <==> StartsWithBytes(content, PdfMagic)))
      && (ext in TrustedTextExtensions ==> VerifyFileType(content, expectedExtension))
  {
    var ext := Text.Lower(expectedExtension);
    if ext == ".png" {
      assert AnySignature(content, [PngMagic]) ==> StartsWithBytes(content, PngMagic);
      assert StartsWithBytes(content, PngMagic) ==> [PngMagic][0] == PngMagic;
    } else if ext == ".jpg" || ext == ".jpeg" {
      assert AnySignature(content, [JpegMagic]) ==> StartsWithBytes(content, JpegMagic);
      assert StartsWithBytes(content, JpegMagic) ==> [JpegMagic][0] == JpegMagic;
    } else if ext == ".pdf" {
      assert AnySignature(content, [PdfMagic]) ==> StartsWithBytes(content, PdfMagic);
      assert StartsWithBytes(content, PdfMagic) ==> [PdfMagic][0] == PdfMagic;
    }
  }

  /** Every extension that can pass the content check is on the allow-list. */
  lemma VerifiedTypesAreAllowed(content: seq<Byte>, expectedExtension: string)
    requires VerifyFileType(content, expectedExtension)
    ensures Text.Lower(expectedExtension) in AllowedExtensions
  {
  }

  /** What a lookup in the `signatures` object literal finds. */
  datatype Looked = Own(sigs: seq<seq<Byte>>) | Inherited(name: string) | Missing

  /** The members of `Object.prototype` whose names are already lower-case. */
  const InheritedLowerCase: set<string> := {"constructor", "__proto__"}

  /** `verifyFileType` as written: the lookup also finds inherited members, and calling `.some` on them throws. */
  function VerifyFileTypeAsWritten(content: seq<Byte>, expectedExtension: string): (r: Result<bool, string>)
    ensures Text.Lower(expectedExtension) !in InheritedLowerCase ==> r == Success(VerifyFileType(content, expectedExtension))
  {
    var ext := Text.Lower(expectedExtension);
    var found := if Signatures(ext).Some? then Own(Signatures(ext).value)
                 else if ext in InheritedLowerCase then Inherited(ext) else Missing;
    match found
    case Missing => Success(ext in TrustedTextExtensions)
    case Inherited(_) => Failure("TypeError: expectedSignatures.some is not a function")
    case Own(sigs) => Success(AnySignature(content, sigs))
  }

  /** The extension "constructor" throws instead of being refused. */
  lemma ConstructorExtensionThrows(content: seq<Byte>)
    ensures VerifyFileTypeAsWritten(content, "constructor").Failure?
    ensures !VerifyFileType(content, "constructor")
  {
    assert Text.Lower("constructor") == "constructor";
  }

  // ---------------------------------------------------------------- readSafe and writeSafe

  const InvalidRoot := FsError("Root directory not allowed", "INVALID_ROOT")
  const InvalidExtension := FsError("File extension not allowed", "INVALID_EXTENSION")
  const NotAFile := FsError("Path is not a file", "NOT_A_FILE")
  const FileTooLarge := FsError("File too large", "FILE_TOO_LARGE")
  const ContentTooLarge := FsError("Content too large", "CONTENT_TOO_LARGE")
  const ReadFailed := FsError("File read failed", "READ_FAILED")
  const WriteFailed := FsError("File write failed", "WRITE_FAILED")

  /** What `statSync` reports; `None` stands for a thrown error. */
  datatype Stat = Stat(isFile: bool, size: int)

  /** The checks `readSafe` runs before touching the file system, giving the path to read. */
  function ReadTarget(cwd: string, root: string, rel: string): (r: Result<string, FsError>)
    ensures r.Success? ==> IsAllowedRoot(cwd, root) && ValidatePath(rel).Success?
                           && SafeJoin(cwd, root, [rel]) == Success(r.value) && IsAllowedExtension(r.value)
    ensures !IsAllowedRoot(cwd, root) ==> r == Failure(InvalidRoot)
    ensures IsAllowedRoot(cwd, root) && ValidatePath(rel).Failure? ==> r == Failure(ValidatePath(rel).error)
    ensures IsAllowedRoot(cwd, root) && ValidatePath(rel).Success? && SafeJoin(cwd, root, [rel]).Failure?
            ==> r == Failure(SafeJoin(cwd, root, [rel]).error)
    ensures IsAllowedRoot(cwd, root) && ValidatePath(rel).Success? && SafeJoin(cwd, root, [rel]).Success?
            ==> r == (if IsAllowedExtension(SafeJoin(cwd, root, [rel]).value) then SafeJoin(cwd, root, [rel])
                      else Failure(InvalidExtension))
  {
    if !IsAllowedRoot(cwd, root) then Failure(InvalidRoot)
    else if ValidatePath(rel).Failure? then Failure(ValidatePath(rel).error)
    else match SafeJoin(cwd, root, [rel])
      case Failure(e) => Failure(e)
      case Success(abs) => if !IsAllowedExtension(abs) then Failure(InvalidExtension) else Success(abs)
  }

  /**
   * `readSafe`: the checks, then `statSync` and `readFile` on the checked path,
   * given as their outcomes; errors other than `FileSystemError` become READ_FAILED.
   */
  function ReadSafe(cwd: string, root: string, rel: string, stat: Option<Stat>, contents: Option<string>): Result<string, FsError>
  {
    match ReadTarget(cwd, root, rel)
    case Failure(e) => Failure(e)
    case Success(_) =>
      match stat
      case None => Failure(ReadFailed)
      case Some(st) =>
        if !st.isFile then Failure(NotAFile)
        else if st.size > MaxFileSize then Failure(FileTooLarge)
        else if contents.None? then Failure(ReadFailed)
        else Success(contents.value)
  }

  /**
   * Nothing about the file is consulted before the checks pass; a successful read
   * returns the contents of an allowed, size-checked regular file inside the root.
   */
  lemma ReadChecksFirst(cwd: string, root: string, rel: string, stat: Option<Stat>, contents: Option<string>,
                        stat2: Option<Stat>, contents2: Option<string>)
    ensures ReadTarget(cwd, root, rel).Failure? ==>
      ReadSafe(cwd, root, rel, stat, contents) == Failure(ReadTarget(cwd, root, rel).error)
      && ReadSafe(cwd, root, rel, stat, contents) == ReadSafe(cwd, root, rel, stat2, contents2)
    ensures var r := ReadSafe(cwd, root, rel, stat, contents);
      r.Success? ==> ReadTarget(cwd, root, rel).Success? && Within(ReadTarget(cwd, root, rel).value, root)
                     && stat.Some? && stat.value.isFile && stat.value.size <= MaxFileSize
                     && contents == Some(r.value)
  {
  }

  /** From a canonical working directory, reads under an allowed root never fail the traversal check. */
  lemma ReadNeverTraversesFromRoot(cwd: string, k: nat, rel: string)
    requires Canonical(cwd) && k < 3
    ensures var r := ReadTarget(cwd, AllowedRoots(cwd)[k], rel);
      r.Failure? ==> r.error != PathTraversal
  {
    AllowedRootsCanonical(cwd);
    var root := AllowedRoots(cwd)[k];
    if ValidatePath(rel).Success? {
      ValidatedJoinSucceeds(cwd, root, rel);
    }
  }

  /** The bytes `c` takes in UTF-8. */
  function Utf8Width(c: char): nat
  {
    var n := c as int;
    if n < 0x80 then 1 else if n < 0x800 then 2 else if n < 0x10000 then 3 else 4
  }

  /** `Buffer.byteLength(s, 'utf8')`. */
  function Utf8Length(s: string): nat
  {
    if |s| == 0 then 0 else Utf8Width(s[0]) + Utf8Length(s[1..])
  }

  lemma {:induction false} Utf8LengthBounds(s: string)
    ensures |s| <= Utf8Length(s) <= 4 * |s|
  {
    if |s| > 0 {
      Utf8LengthBounds(s[1..]);
    }
  }

  /** The checks `writeSafe` runs before touching the file system, giving the path to write. */
  function WriteTarget(cwd: string, root: string, rel: string, content: string): (r: Result<string, FsError>)
    ensures r.Success? ==> IsAllowedRoot(cwd, root) && ValidatePath(rel).Success? && Utf8Length(content) <= MaxFileSize
                           && SafeJoin(cwd, root, [rel]) == Success(r.value) && IsAllowedExtension(r.value)
    ensures !IsAllowedRoot(cwd, root) ==> r == Failure(InvalidRoot)
    ensures IsAllowedRoot(cwd, root) && ValidatePath(rel).Failure? ==> r == Failure(ValidatePath(rel).error)
    ensures IsAllowedRoot(cwd, root) && ValidatePath(rel).Success? && Utf8Length(content) > MaxFileSize
            ==> r == Failure(ContentTooLarge)
    ensures (IsAllowedRoot(cwd, root) && ValidatePath(rel).Success? && Utf8Length(content) <= MaxFileSize
             && SafeJoin(cwd, root, [rel]).Failure?)
            ==> r == Failure(SafeJoin(cwd, root, [rel]).error)
    ensures (IsAllowedRoot(cwd, root) && ValidatePath(rel).Success? && Utf8Length(content) <= MaxFileSize
             && SafeJoin(cwd, root, [rel]).Success?)
            ==> r == (if IsAllowedExtension(SafeJoin(cwd, root, [rel]).value) then SafeJoin(cwd, root, [rel])
                      else Failure(InvalidExtension))
  {
    if !IsAllowedRoot(cwd, root) then Failure(InvalidRoot)
    else if ValidatePath(rel).Failure? then Failure(ValidatePath(rel).error)
    else if Utf8Length(content) > MaxFileSize then Failure(ContentTooLarge)
    else match SafeJoin(cwd, root, [rel])
      case Failure(e) => Failure(e)
      case Success(abs) => if !IsAllowedExtension(abs) then Failure(InvalidExtension) else Success(abs)
  }

  /** `writeSafe`: the checks, then `writeFile` with its outcome given. */
  function WriteSafe(cwd: string, root: string, rel: string, content: string, written: bool): Result<(), FsError>
  {
    match WriteTarget(cwd, root, rel, content)
    case Failure(e) => Failure(e)
    case Success(_) => if written then Success(()) else Failure(WriteFailed)
  }

  /** Nothing is written before the checks pass; a successful write went to a checked path inside the root. */
  lemma WriteChecksFirst(cwd: string, root: string, rel: string, content: string, written: bool)
    ensures WriteTarget(cwd, root, rel, content).Failure? ==>
      WriteSafe(cwd, root, rel, content, written) == Failure(WriteTarget(cwd, root, rel, content).error)
    ensures WriteSafe(cwd, root, rel, content, written).Success? ==>
      written && WriteTarget(cwd, root, rel, content).Success? && Within(WriteTarget(cwd, root, rel, content).value, root)
  {
  }

  /**
   * Content is measured before the path is joined: under an allowed root with a
   * valid path, content of more than 2 Mi characters is refused whatever the join gives.
   */
  lemma LongContentRefused(cwd: string, root: string, rel: string, content: string)
    requires IsAllowedRoot(cwd, root) && ValidatePath(rel).Success? && |content| > MaxFileSize
    ensures WriteTarget(cwd, root, rel, content) == Failure(ContentTooLarge)
  {
    Utf8LengthBounds(content);
  }
}
