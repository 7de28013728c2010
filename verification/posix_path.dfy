/**
 * `path.posix.join` and `path.posix.parse(p).base` of Node.js, which the
 * shell start-up file path and the project config file path are built with.
 * Normalisation is stated on segments: empty and `.` segments vanish, `..`
 * removes the segment before it (or stays, in a relative path that climbs
 * above its start), and the leading and trailing `/` are kept.
 */
module PosixPath {
  import opened Common

  /** A segment that normalisation keeps exactly as it is. */
  predicate Plain(seg: string)
  {
    seg != "" && seg != "." && seg != ".." && '/' !in seg
  }

  /** One segment of normalisation, onto the segments kept so far. */
  function Step(kept: seq<string>, seg: string, allowAboveRoot: bool): seq<string>
  {
    if seg == "" || seg == "." then kept
    else if seg == ".." then
      if |kept| > 0 && kept[|kept| - 1] != ".." then kept[..|kept| - 1]
      else if allowAboveRoot then kept + [".."]
      else kept
    else kept + [seg]
  }

  function Resolve(kept: seq<string>, segs: seq<string>, allowAboveRoot: bool): seq<string>
    decreases |segs|
  {
    if |segs| == 0 then kept
    else Resolve(Step(kept, segs[0], allowAboveRoot), segs[1..], allowAboveRoot)
  }

  /** `path.posix.normalize(p)`. */
  function Normalize(p: string): string
  {
    if p == "" then "."
    else
      var absolute := p[0] == '/';
      Assemble(absolute, p[|p| - 1] == '/', Resolve([], Split(p, '/'), !absolute))
  }

  /** The normalised path from its resolved segments and whether it had a leading and a trailing `/`. */
  function Assemble(absolute: bool, trailing: bool, segs: seq<string>): string
  {
    var body := JoinWith(segs, "/");
    if body == "" then (if absolute then "/" else if trailing then "./" else ".")
    else (if absolute then "/" else "") + body + (if trailing then "/" else "")
  }

  /** `path.posix.join(a, b)`: empty arguments are skipped, the rest joined by `/` and normalised. */
  function Join(a: string, b: string): string
  {
    var joined := if a == "" then b else if b == "" then a else a + "/" + b;
    if joined == "" then "." else Normalize(joined)
  }

  function StripTrailingSlashes(p: string): string
    decreases |p|
  {
    if |p| > 0 && p[|p| - 1] == '/' then StripTrailingSlashes(p[..|p| - 1]) else p
  }

  /** `path.posix.parse(p).base`: the last segment, trailing slashes ignored. */
  function Basename(p: string): string
  {
    var parts := Split(StripTrailingSlashes(p), '/');
    parts[|parts| - 1]
  }

  lemma {:induction false} ResolveAppend(kept: seq<string>, a: seq<string>, b: seq<string>, allow: bool)
    ensures Resolve(kept, a + b, allow) == Resolve(Resolve(kept, a, allow), b, allow)
    decreases |a|
  {
    if |a| > 0 {
      assert (a + b)[0] == a[0] && (a + b)[1..] == a[1..] + b;
      ResolveAppend(Step(kept, a[0], allow), a[1..], b, allow);
    } else {
      assert a + b == b;
    }
  }

  lemma {:induction false} ResolvePlain(kept: seq<string>, segs: seq<string>, allow: bool)
    requires forall i :: 0 <= i < |segs| ==> Plain(segs[i])
    ensures Resolve(kept, segs, allow) == kept + segs
    decreases |segs|
  {
    if |segs| > 0 {
      ResolvePlain(kept + [segs[0]], segs[1..], allow);
      assert kept + [segs[0]] + segs[1..] == kept + segs;
    }
  }

  /** The last segment of `x + "/" + name` is `name`. */
  lemma LastSegment(x: string, name: string)
    requires '/' !in name
    ensures var parts := Split(x + "/" + name, '/'); parts[|parts| - 1] == name
  {
    SplitConcat(x, name, '/');
    SplitNoSeparator(name, '/');
  }

  lemma BasenameAfterSlash(x: string, name: string)
    requires Plain(name)
    ensures Basename(x + "/" + name) == name
  {
    var p := x + "/" + name;
    assert p[|p| - 1] == name[|name| - 1] && StripTrailingSlashes(p) == p;
    LastSegment(x, name);
  }

  lemma BasenamePlain(name: string)
    requires Plain(name)
    ensures Basename(name) == name
  {
    assert StripTrailingSlashes(name) == name;
    SplitNoSeparator(name, '/');
  }

  /** The segments of `dir` joined with a plain name resolve to those of `dir` followed by the name. */
  lemma ResolveJoined(dir: string, name: string, allow: bool)
    requires Plain(name) && dir != ""
    ensures Resolve([], Split(dir + "/" + name, '/'), allow) == Resolve([], Split(dir, '/'), allow) + [name]
  {
    SplitNoSeparator(name, '/');
    SplitConcat(dir, name, '/');
    ResolveAppend([], Split(dir, '/'), [name], allow);
    ResolvePlain(Resolve([], Split(dir, '/'), allow), [name], allow);
  }

  /** Resolved segments ending in a plain name assemble to a path with that base name. */
  lemma AssembleKeepsBase(absolute: bool, r: seq<string>, name: string)
    requires Plain(name)
    ensures Basename(Assemble(absolute, false, r + [name])) == name
  {
    var prefix := if absolute then "/" else "";
    if |r| == 0 {
      assert r + [name] == [name];
      if absolute {
        assert Assemble(absolute, false, r + [name]) == "" + "/" + name;
        BasenameAfterSlash("", name);
      } else {
        assert Assemble(absolute, false, r + [name]) == name;
        BasenamePlain(name);
      }
    } else {
      JoinAppend(r, name, "/");
      assert Assemble(absolute, false, r + [name]) == prefix + JoinWith(r, "/") + "/" + name;
      BasenameAfterSlash(prefix + JoinWith(r, "/"), name);
    }
  }

  /** Joining a plain file name onto any directory yields a path whose base name is that file name. */
  lemma JoinBasename(dir: string, name: string)
    requires Plain(name)
    ensures Basename(Join(dir, name)) == name
  {
    if dir == "" {
      SplitNoSeparator(name, '/');
      ResolvePlain([], [name], name[0] != '/');
      assert [] + [name] == [name];
      AssembleKeepsBase(name[0] == '/', [], name);
    } else {
      var joined := dir + "/" + name;
      var allow := joined[0] != '/';
      ResolveJoined(dir, name, allow);
      assert joined[|joined| - 1] != '/';
      AssembleKeepsBase(!allow, Resolve([], Split(dir, '/'), allow), name);
    }
  }

  /** An absolute path with no empty, `.` or `..` segment and no trailing slash. */
  predicate CanonicalAbsolute(p: string)
  {
    |p| >= 2 && p[0] == '/' && forall seg :: seg in Split(p[1..], '/') ==> Plain(seg)
  }

  /** Joining a plain name onto a canonical absolute directory just inserts one `/`. */
  lemma JoinCanonical(dir: string, name: string)
    requires CanonicalAbsolute(dir) && Plain(name)
    ensures Join(dir, name) == dir + "/" + name
  {
    var joined := dir + "/" + name;
    var segs := Split(dir[1..], '/') + [name];
    CanonicalSegments(dir, name);
    CanonicalBody(dir, name);
    assert joined[0] == '/' && joined[|joined| - 1] != '/';
    NormalizeResolved(joined, segs);
    assert dir == "/" + dir[1..];
    assert "/" + (dir[1..] + "/" + name) == dir + "/" + name;
  }

  /** A path without a trailing `/` whose segments resolve to a non-empty list normalises to their join. */
  lemma NormalizeResolved(p: string, segs: seq<string>)
    requires p != "" && p[|p| - 1] != '/'
    requires Resolve([], Split(p, '/'), p[0] != '/') == segs && JoinWith(segs, "/") != ""
    ensures Normalize(p) == (if p[0] == '/' then "/" else "") + JoinWith(segs, "/")
  {
  }

  /** The segments of `dir/name` for a canonical absolute `dir`: those of `dir` after the root, then `name`. */
  lemma CanonicalSegments(dir: string, name: string)
    requires CanonicalAbsolute(dir) && Plain(name)
    ensures Resolve([], Split(dir + "/" + name, '/'), false) == Split(dir[1..], '/') + [name]
  {
    var segs := Split(dir[1..], '/') + [name];
    SplitRooted(dir, name);
    assert forall i :: 0 <= i < |segs| ==> Plain(segs[i]);
    assert ([""] + segs)[1..] == segs;
    ResolvePlain([], segs, false);
  }

  /** The pieces of `dir/name` for a `dir` starting at the root: an empty piece, those of `dir` after the root, then `name`. */
  lemma SplitRooted(dir: string, name: string)
    requires |dir| >= 1 && dir[0] == '/' && '/' !in name
    ensures Split(dir + "/" + name, '/') == [""] + (Split(dir[1..], '/') + [name])
  {
    SplitConcat(dir, name, '/');
    SplitNoSeparator(name, '/');
    assert dir == "" + "/" + dir[1..];
    SplitConcat("", dir[1..], '/');
  }

  /** Rejoining the segments of `dir` after the root, then `name`, gives back the text. */
  lemma CanonicalBody(dir: string, name: string)
    requires |dir| >= 1
    ensures JoinWith(Split(dir[1..], '/') + [name], "/") == dir[1..] + "/" + name
  {
    JoinAppend(Split(dir[1..], '/'), name, "/");
    JoinSplit(dir[1..], '/');
  }

  /** Joining two plain names just puts one `/` between them. */
  lemma JoinPlain(dir: string, name: string)
    requires Plain(dir) && Plain(name)
    ensures Join(dir, name) == dir + "/" + name
  {
    var joined := dir + "/" + name;
    SplitConcat(dir, name, '/');
    SplitNoSeparator(dir, '/');
    SplitNoSeparator(name, '/');
    assert Split(joined, '/') == [dir, name];
    ResolvePlain([], [dir, name], true);
    assert [] + [dir, name] == [dir, name];
    assert joined[0] == dir[0] != '/' && joined[|joined| - 1] == name[|name| - 1] != '/';
    assert [dir, name][1..] == [name];
    assert JoinWith([dir, name], "/") == dir + "/" + name;
    NormalizeResolved(joined, [dir, name]);
  }
}
