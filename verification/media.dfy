/**
  The media-URL builder used for uploaded game images, thumbnails, profile
  photos, admin photos and blog images: the uploaded file's base name is
  placed under a fixed directory layout with POSIX `path.join`, backslashes
  are turned into `/`, and the result is appended to the configured base URL.
 */
module MediaUrl {
  import opened Common

  // ---------------------------------------------------------------------
  // POSIX path helpers

  /** `p` with every trailing `/` removed. */
  function StripTrailingSlashes(p: string): (r: string)
    ensures |r| <= |p| && r == p[..|r|]
    ensures r == [] || r[|r| - 1] != '/'
    ensures forall i :: |r| <= i < |p| ==> p[i] == '/'
  {
    if p != [] && p[|p| - 1] == '/' then StripTrailingSlashes(p[..|p| - 1]) else p
  }

  /** The text after the last `/` of `p` (all of `p` when it has none). */
  function LastSegment(p: string): (r: string)
    ensures |r| <= |p| && r == p[|p| - |r|..]
    ensures Excludes(r, '/')
    ensures |r| < |p| ==> p[|p| - |r| - 1] == '/'
  {
    if p == [] || p[|p| - 1] == '/' then [] else LastSegment(p[..|p| - 1]) + [p[|p| - 1]]
  }

  /** `path.basename(p)`: trailing slashes are ignored, then the last
      component is taken; a path of slashes only has an empty base name. */
  function Basename(p: string): (r: string)
    ensures Excludes(r, '/')
    ensures var q := StripTrailingSlashes(p);
            && |r| <= |q| && q[|q| - |r|..] == r
            && (|r| < |q| ==> q[|q| - |r| - 1] == '/')
  {
    LastSegment(StripTrailingSlashes(p))
  }

  lemma {:induction false} LastSegmentOfSlashFree(s: string)
    requires Excludes(s, '/')
    ensures LastSegment(s) == s
  {
    if s != [] {
      LastSegmentOfSlashFree(s[..|s| - 1]);
    }
  }

  lemma {:induction false} LastSegmentAfterSlash(dir: string, name: string)
    requires Excludes(name, '/')
    ensures LastSegment(dir + "/" + name) == name
  {
    var p := dir + "/" + name;
    if name == [] {
      assert p[|p| - 1] == '/';
    } else {
      var n' := name[..|name| - 1];
      assert p[..|p| - 1] == dir + "/" + n';
      LastSegmentAfterSlash(dir, n');
      assert name == n' + [name[|name| - 1]];
    }
  }

  /** A file name under any directory has itself as base name. */
  lemma BasenameOfFileInDir(dir: string, name: string)
    requires name != [] && Excludes(name, '/')
    ensures Basename(dir + "/" + name) == name
  {
    var p := dir + "/" + name;
    assert p[|p| - 1] == name[|name| - 1];
    LastSegmentAfterSlash(dir, name);
  }

  /** Taking the base name twice changes nothing. */
  lemma BasenameIdempotent(p: string)
    ensures Basename(Basename(p)) == Basename(p)
  {
    var b := Basename(p);
    assert b == [] || b[|b| - 1] != '/';
    LastSegmentOfSlashFree(b);
  }

  /** `s.split('/')`. */
  function Split(s: string): (r: seq<string>)
    ensures |r| >= 1
    ensures forall i :: 0 <= i < |r| ==> Excludes(r[i], '/')
  {
    if s == [] then [""]
    else if s[0] == '/' then [""] + Split(s[1..])
    else
      var rest := Split(s[1..]);
      [[s[0]] + rest[0]] + rest[1..]
  }

  /** `segs.join('/')`. */
  function JoinSlash(segs: seq<string>): string {
    if segs == [] then ""
    else if |segs| == 1 then segs[0]
    else segs[0] + "/" + JoinSlash(segs[1..])
  }

  /** Splitting on `/` and joining with `/` gives the text back. */
  lemma {:induction false} JoinSplit(s: string)
    ensures JoinSlash(Split(s)) == s
  {
    if s == [] {
    } else if s[0] == '/' {
      JoinSplit(s[1..]);
      assert s == "/" + s[1..];
    } else {
      var rest := Split(s[1..]);
      JoinSplit(s[1..]);
      if |rest| == 1 {
        assert JoinSlash(rest) == rest[0];
      } else {
        assert JoinSlash(rest) == rest[0] + "/" + JoinSlash(rest[1..]);
        assert JoinSlash(Split(s)) == ([s[0]] + rest[0]) + "/" + JoinSlash(rest[1..]);
      }
    }
  }

  /** Joining slash-free segments with `/` and splitting again gives the
      segments back. */
  lemma {:induction false} SplitJoin(segs: seq<string>)
    requires |segs| >= 1
    requires forall i :: 0 <= i < |segs| ==> Excludes(segs[i], '/')
    ensures Split(JoinSlash(segs)) == segs
  {
    if |segs| == 1 {
      SplitSlashFree(segs[0], []);
      assert Split([]) == [""];
      assert segs[0] + [] == segs[0] && segs[0] + "" == segs[0];
      assert JoinSlash(segs) == segs[0] && segs == [segs[0]];
    } else {
      var tail := JoinSlash(segs[1..]);
      SplitJoin(segs[1..]);
      SplitSlashFree(segs[0], "/" + tail);
      assert Split("/" + tail) == [""] + segs[1..] by {
        assert ("/" + tail)[1..] == tail;
      }
      assert segs[0] + "/" + tail == segs[0] + ("/" + tail);
      assert segs[0] + "" == segs[0];
      assert [segs[0]] + segs[1..] == segs;
    }
  }

  /** Splitting a slash-free prefix followed by `rest` (empty or starting
      with `/`) puts the prefix in front of the first segment of `rest`. */
  lemma {:induction false} SplitSlashFree(w: string, rest: string)
    requires Excludes(w, '/')
    requires rest == [] || rest[0] == '/'
    ensures Split(w + rest) == [w + Split(rest)[0]] + Split(rest)[1..]
  {
    if w == [] {
      assert w + rest == rest;
    } else {
      assert (w + rest)[1..] == w[1..] + rest;
      SplitSlashFree(w[1..], rest);
      assert [w[0]] + (w[1..] + Split(rest)[0]) == w + Split(rest)[0];
    }
  }

  /** The segment walk of Node's path normalisation: empty and `.` segments
      vanish, `..` removes the previous real segment, and when nothing is
      left to remove it is kept (relative paths) or dropped (absolute ones). */
  function Resolve(segs: seq<string>, stack: seq<string>, aboveRoot: bool): seq<string>
    decreases |segs|
  {
    if segs == [] then stack
    else
      var s := segs[0];
      var next :=
        if s == "" || s == "." then stack
        else if s == ".." then
          (if stack != [] && stack[|stack| - 1] != ".." then stack[..|stack| - 1]
           else if aboveRoot then stack + [".."]
           else stack)
        else stack + [s];
      Resolve(segs[1..], next, aboveRoot)
  }

  /** `path.normalize(p)` for POSIX paths. */
  function Normalize(p: string): (r: string)
    ensures r != ""
  {
    if p == [] then "."
    else
      var absolute := p[0] == '/';
      var trailing := p[|p| - 1] == '/';
      var body := JoinSlash(Resolve(Split(p), [], !absolute));
      if body == [] then (if absolute then "/" else if trailing then "./" else ".")
      else (if absolute then "/" else "") + body + (if trailing then "/" else "")
  }

  function NonEmpty(parts: seq<string>): (r: seq<string>)
    ensures forall i :: 0 <= i < |r| ==> r[i] != ""
  {
    if parts == [] then []
    else if parts[0] == "" then NonEmpty(parts[1..])
    else [parts[0]] + NonEmpty(parts[1..])
  }

  /** `path.join(...parts)`: the non-empty parts joined with `/`, normalised;
      `.` when nothing is left. */
  function Join(parts: seq<string>): (r: string)
    ensures r != ""
  {
    var joined := JoinSlash(NonEmpty(parts));
    if joined == [] then "." else Normalize(joined)
  }

  /** A path component that normalisation leaves alone and that the
      backslash rewrite does not touch. */
  predicate Plain(s: string) {
    s != "" && s != "." && s != ".." && Excludes(s, '/') && Excludes(s, '\\')
  }

  predicate AllPlain(parts: seq<string>) {
    forall i :: 0 <= i < |parts| ==> Plain(parts[i])
  }

  lemma AllPlain4(a: string, b: string, c: string, d: string)
    requires Plain(a) && Plain(b) && Plain(c) && Plain(d)
    ensures AllPlain([a, b, c, d])
  {
  }

  lemma AllPlain5(a: string, b: string, c: string, d: string, e: string)
    requires Plain(a) && Plain(b) && Plain(c) && Plain(d) && Plain(e)
    ensures AllPlain([a, b, c, d, e])
  {
  }

  lemma AllPlain6(a: string, b: string, c: string, d: string, e: string, f: string)
    requires Plain(a) && Plain(b) && Plain(c) && Plain(d) && Plain(e) && Plain(f)
    ensures AllPlain([a, b, c, d, e, f])
  {
  }

  lemma {:induction false} ResolvePlain(segs: seq<string>, stack: seq<string>, aboveRoot: bool)
    requires AllPlain(segs)
    ensures Resolve(segs, stack, aboveRoot) == stack + segs
  {
    if segs != [] {
      ResolvePlain(segs[1..], stack + [segs[0]], aboveRoot);
      assert stack + [segs[0]] + segs[1..] == stack + segs;
    }
  }

  lemma {:induction false} NonEmptyPlain(parts: seq<string>)
    requires AllPlain(parts)
    ensures NonEmpty(parts) == parts
  {
    if parts != [] {
      NonEmptyPlain(parts[1..]);
    }
  }

  lemma {:induction false} JoinSlashExcludes(segs: seq<string>, c: char)
    requires forall i :: 0 <= i < |segs| ==> Excludes(segs[i], c)
    requires c != '/'
    ensures Excludes(JoinSlash(segs), c)
  {
    if |segs| > 1 {
      JoinSlashExcludes(segs[1..], c);
    }
  }

  /** Joining plain components is gluing them with `/`: nothing is
      normalised away. */
  lemma JoinPlain(parts: seq<string>)
    requires |parts| >= 1
    requires AllPlain(parts)
    ensures Join(parts) == JoinSlash(parts)
  {
    var joined := JoinSlash(parts);
    assert JoinSlash(NonEmpty(parts)) == joined by {
      NonEmptyPlain(parts);
    }
    assert joined != [] && joined[0] != '/' && joined[|joined| - 1] != '/' by {
      JoinSlashEnds(parts);
    }
    assert Resolve(Split(joined), [], true) == parts by {
      SplitJoin(parts);
      ResolvePlain(parts, [], true);
      assert [] + parts == parts;
    }
    NormalizeUnchanged(joined, parts);
  }

  /** A relative path without a trailing slash whose segments resolve to
      themselves is its own normal form. */
  lemma NormalizeUnchanged(p: string, segs: seq<string>)
    requires p != [] && p[0] != '/' && p[|p| - 1] != '/'
    requires Resolve(Split(p), [], true) == segs
    requires JoinSlash(segs) == p
    ensures Normalize(p) == p
  {
    assert "" + p + "" == p;
  }

  lemma {:induction false} JoinSlashEnds(parts: seq<string>)
    requires |parts| >= 1
    requires AllPlain(parts)
    ensures var j := JoinSlash(parts); j != [] && j[0] != '/' && j[|j| - 1] != '/'
  {
    assert Plain(parts[0]);
    if |parts| > 1 {
      JoinSlashEnds(parts[1..]);
      var t := JoinSlash(parts[1..]);
      assert JoinSlash(parts) == parts[0] + ("/" + t);
    }
  }

  lemma JoinSlashStep(parts: seq<string>, k: nat)
    requires k + 1 < |parts|
    ensures JoinSlash(parts[k..]) == parts[k] + "/" + JoinSlash(parts[k + 1..])
  {
    assert parts[k..][1..] == parts[k + 1..];
  }

  // ---------------------------------------------------------------------
  // Media URLs

  /** The `path.join(...).replace(/\\/g, '/')` step. */
  function RelativePath(parts: seq<string>): (r: string)
    ensures r != "" && Excludes(r, '\\')
  {
    ReplaceChar(Join(parts), '\\', '/')
  }

  function GameSubDir(fileType: string): string {
    if fileType == "image" then "images" else "thumbnails"
  }

  /** `gameMediaUrl(filePath, userId, fileType)`. */
  function GameMediaUrl(baseUrl: string, filePath: string, userId: string, fileType: string): (r: string)
    ensures HasUrlPrefix(r, baseUrl)
  {
    baseUrl + "/" + RelativePath(["src", "uploads", userId, "games", GameSubDir(fileType), Basename(filePath)])
  }

  /** `profileMediaUrl(filePath, userId)`. */
  function ProfileMediaUrl(baseUrl: string, filePath: string, userId: string): (r: string)
    ensures HasUrlPrefix(r, baseUrl)
  {
    baseUrl + "/" + RelativePath(["src", "uploads", userId, "profile", Basename(filePath)])
  }

  /** `adminMediaUrl(filePath)`. */
  function AdminMediaUrl(baseUrl: string, filePath: string): (r: string)
    ensures HasUrlPrefix(r, baseUrl)
  {
    baseUrl + "/" + RelativePath(["src", "uploads", "admin", Basename(filePath)])
  }

  /** `blogMediaUrl(filePath)`. */
  function BlogMediaUrl(baseUrl: string, filePath: string): (r: string)
    ensures HasUrlPrefix(r, baseUrl)
  {
    baseUrl + "/" + RelativePath(["src", "uploads", "blog", Basename(filePath)])
  }

  /** `r` is the base URL, a `/`, and a non-empty backslash-free path. */
  predicate HasUrlPrefix(r: string, baseUrl: string) {
    && |r| > |baseUrl| + 1
    && r[..|baseUrl| + 1] == baseUrl + "/"
    && Excludes(r[|baseUrl| + 1..], '\\')
  }

  /** The relative path of plain components is exactly those components
      glued with `/`. */
  lemma RelativePathPlain(parts: seq<string>)
    requires |parts| >= 1
    requires AllPlain(parts)
    ensures RelativePath(parts) == JoinSlash(parts)
  {
    JoinPlain(parts);
    JoinSlashExcludes(parts, '\\');
    var j := JoinSlash(parts);
    assert ReplaceChar(j, '\\', '/') == j;
  }

  /** The components the builders place before the file name are plain. */
  lemma FixedComponentsPlain()
    ensures Plain("src") && Plain("uploads") && Plain("games") && Plain("images")
    ensures Plain("thumbnails") && Plain("profile") && Plain("admin") && Plain("blog")
  {
    assert Excludes("src", '/') && Excludes("src", '\\');
  }

  lemma JoinSlash4(a: string, b: string, c: string, d: string)
    ensures JoinSlash([a, b, c, d]) == a + "/" + b + "/" + c + "/" + d
  {
    var parts := [a, b, c, d];
    assert parts[3..] == [d];
    JoinSlashStep(parts, 2);
    JoinSlashStep(parts, 1);
    JoinSlashStep(parts, 0);
    assert parts[0..] == parts;
  }

  lemma JoinSlash5(a: string, b: string, c: string, d: string, e: string)
    ensures JoinSlash([a, b, c, d, e]) == a + "/" + b + "/" + c + "/" + d + "/" + e
  {
    var parts := [a, b, c, d, e];
    assert parts[1..] == [b, c, d, e];
    JoinSlash4(b, c, d, e);
    JoinSlashStep(parts, 0);
    assert parts[0..] == parts;
  }

  lemma JoinSlash6(a: string, b: string, c: string, d: string, e: string, f: string)
    ensures JoinSlash([a, b, c, d, e, f]) == a + "/" + b + "/" + c + "/" + d + "/" + e + "/" + f
  {
    var parts := [a, b, c, d, e, f];
    assert parts[1..] == [b, c, d, e, f];
    JoinSlash5(b, c, d, e, f);
    JoinSlashStep(parts, 0);
    assert parts[0..] == parts;
  }

  /** An image or thumbnail whose base name is plain, uploaded by a user with a plain id, lands at
      `<base>/src/uploads/<userId>/games/<images|thumbnails>/<file>`, and the
      sub-directory is `images` exactly for the `image` file type. */
  lemma GameMediaUrlShape(baseUrl: string, filePath: string, file: string, userId: string, fileType: string)
    requires Basename(filePath) == file
    requires Plain(file) && Plain(userId)
    ensures GameMediaUrl(baseUrl, filePath, userId, fileType)
            == baseUrl + "/" + ("src" + "/" + "uploads" + "/" + userId + "/" + "games" + "/" + GameSubDir(fileType) + "/" + file)
    ensures GameSubDir(fileType) == "images" <==> fileType == "image"
  {
    var sub := GameSubDir(fileType);
    FixedComponentsPlain();
    AllPlain6("src", "uploads", userId, "games", sub, file);
    RelativePathPlain(["src", "uploads", userId, "games", sub, file]);
    JoinSlash6("src", "uploads", userId, "games", sub, file);
  }

  /** A profile photo lands at `<base>/src/uploads/<userId>/profile/<file>`. */
  lemma ProfileMediaUrlShape(baseUrl: string, filePath: string, file: string, userId: string)
    requires Basename(filePath) == file
    requires Plain(file) && Plain(userId)
    ensures ProfileMediaUrl(baseUrl, filePath, userId)
            == baseUrl + "/" + ("src" + "/" + "uploads" + "/" + userId + "/" + "profile" + "/" + file)
  {
    FixedComponentsPlain();
    AllPlain5("src", "uploads", userId, "profile", file);
    RelativePathPlain(["src", "uploads", userId, "profile", file]);
    JoinSlash5("src", "uploads", userId, "profile", file);
  }

  /** An admin photo lands at `<base>/src/uploads/admin/<file>`. */
  lemma AdminMediaUrlShape(baseUrl: string, filePath: string, file: string)
    requires Basename(filePath) == file
    requires Plain(file)
    ensures AdminMediaUrl(baseUrl, filePath)
            == baseUrl + "/" + ("src" + "/" + "uploads" + "/" + "admin" + "/" + file)
  {
    FixedComponentsPlain();
    AllPlain4("src", "uploads", "admin", file);
    RelativePathPlain(["src", "uploads", "admin", file]);
    JoinSlash4("src", "uploads", "admin", file);
  }

  /** A blog image lands at `<base>/src/uploads/blog/<file>`. */
  lemma BlogMediaUrlShape(baseUrl: string, filePath: string, file: string)
    requires Basename(filePath) == file
    requires Plain(file)
    ensures BlogMediaUrl(baseUrl, filePath)
            == baseUrl + "/" + ("src" + "/" + "uploads" + "/" + "blog" + "/" + file)
  {
    FixedComponentsPlain();
    AllPlain4("src", "uploads", "blog", file);
    RelativePathPlain(["src", "uploads", "blog", file]);
    JoinSlash4("src", "uploads", "blog", file);
  }
}
