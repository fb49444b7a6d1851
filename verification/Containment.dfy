/** Two tests for "this path is inside that directory", on POSIX paths. */
module Containment {
  import opened Text

  /** The segments of a normalised absolute path. */
  predicate Normal(segments: seq<string>) {
    forall s | s in segments :: s != "" && s != "." && s != ".." && '/' !in s
  }

  function PathText(segments: seq<string>): string {
    "/" + Join(segments, '/')
  }

  // ----- resolve -----

  function Push(segments: seq<string>, part: string): seq<string> {
    if part == "" || part == "." then segments
    else if part == ".." then (if segments == [] then [] else segments[..|segments| - 1])
    else segments + [part]
  }

  function PushAll(segments: seq<string>, parts: seq<string>): seq<string> {
    if parts == [] then segments else Push(PushAll(segments, parts[..|parts| - 1]), parts[|parts| - 1])
  }

  /** `resolve(root, candidate)` for a normalised root. */
  function Resolve(root: seq<string>, candidate: string): seq<string> {
    PushAll(if StartsWith(candidate, "/") then [] else root, Split(candidate, '/'))
  }

  lemma {:induction false} PushAllNormal(segments: seq<string>, parts: seq<string>)
    requires Normal(segments) && forall p | p in parts :: '/' !in p
    ensures Normal(PushAll(segments, parts))
  {
    if parts == [] {
    } else {
      assert forall p | p in parts[..|parts| - 1] :: p in parts;
      assert parts[|parts| - 1] in parts;
      PushAllNormal(segments, parts[..|parts| - 1]);
    }
  }

  // ----- The string-prefix test -----

  predicate PrefixTest(root: string, resolved: string) {
    resolved == root || StartsWith(resolved, if EndsWith(root, "/") then root else root + "/")
  }

  /** `insideRoot`: the resolved path if it is inside. */
  function InsideRoot(root: seq<string>, candidate: string): Option<string> {
    var resolved := PathText(Resolve(root, candidate));
    if PrefixTest(PathText(root), resolved) then Some(resolved) else None
  }

  // ----- The relative-path test -----

  function Common(a: seq<string>, b: seq<string>): (k: nat)
    ensures k <= |a| && k <= |b| && a[..k] == b[..k]
    ensures k < |a| && k < |b| ==> a[k] != b[k]
  {
    if a != [] && b != [] && a[0] == b[0] then 1 + Common(a[1..], b[1..]) else 0
  }

  function Ups(n: nat): seq<string> {
    seq(n, i => "..")
  }

  /** `relative(parent, candidate)`: up to the common ancestor, then down. */
  function Relative(parent: seq<string>, candidate: seq<string>): string {
    var k := Common(parent, candidate);
    Join(Ups(|parent| - k) + candidate[k..], '/')
  }

  /** `pathIsInside`. */
  predicate RelativeTest(parent: seq<string>, candidate: seq<string>) {
    var path := Relative(parent, candidate);
    path == "" || (!StartsWith(path, "../") && path != ".." && !StartsWith(path, "/"))
  }

  // ----- Both are the segment prefix -----

  lemma SegmentsOf(segments: seq<string>)
    requires segments != [] && Normal(segments)
    ensures Split(Join(segments, '/'), '/') == segments
    ensures Join(segments, '/') != ""
  {
    SplitOfJoin(segments, '/');
    assert segments[0] in segments;
  }

  /** How a text begins and ends shows in its first and last segment. */
  lemma FirstSegment(path: string)
    ensures path == ".." || StartsWith(path, "../") ==> Split(path, '/')[0] == ".."
    ensures StartsWith(path, "/") ==> Split(path, '/')[0] == ""
  {
    SplitWhole("..", '/');
    if StartsWith(path, "../") {
      assert path == ".." + ['/'] + path[3..];
      SplitAppend("..", path[3..], '/');
    } else if StartsWith(path, "/") {
      assert path == "" + ['/'] + path[1..];
      SplitAppend("", path[1..], '/');
    }
  }

  lemma LastSegment(path: string)
    requires EndsWith(path, "/")
    ensures var parts := Split(path, '/'); parts[|parts| - 1] == ""
  {
    assert path == path[..|path| - 1] + ['/'] + "";
    SplitAppend(path[..|path| - 1], "", '/');
  }

  /** A text that begins with a path and a slash has that path's segments first. */
  lemma CutAtSlash(segments: seq<string>, first: seq<string>, rest: string)
    requires Normal(segments) && segments != [] && Normal(first) && first != []
    requires Join(segments, '/') == Join(first, '/') + "/" + rest
    ensures first <= segments
  {
    SegmentsOf(segments);
    SegmentsOf(first);
    SplitAppend(Join(first, '/'), rest, '/');
  }

  lemma NoTrailingSlash(segments: seq<string>)
    requires Normal(segments)
    ensures EndsWith(PathText(segments), "/") <==> segments == []
  {
    if segments != [] {
      var text := Join(segments, '/');
      SegmentsOf(segments);
      assert segments[|segments| - 1] in segments;
      assert !EndsWith(text, "/") by { if EndsWith(text, "/") { LastSegment(text); } }
      assert text[|text| - 1..] == [text[|text| - 1]];
      assert PathText(segments)[|text|] == text[|text| - 1];
    }
  }

  lemma PrefixTestForRootOrSame(root: seq<string>, candidate: seq<string>)
    requires Normal(root) && Normal(candidate) && root <= candidate
    ensures PrefixTest(PathText(root), PathText(candidate))
  {
    NoTrailingSlash(root);
    if root != [] && root != candidate {
      var rest := candidate[|root|..];
      assert candidate == root + rest;
      JoinAppend(root, rest, '/');
      assert PathText(candidate) == PathText(root) + "/" + Join(rest, '/');
    } else if root == candidate {
    }
  }

  lemma SameTextSameSegments(a: seq<string>, b: seq<string>)
    requires Normal(a) && Normal(b) && PathText(a) == PathText(b)
    ensures a == b
  {
    assert Join(a, '/') == PathText(a)[1..] == PathText(b)[1..] == Join(b, '/');
    if a != [] { SegmentsOf(a); }
    if b != [] { SegmentsOf(b); }
  }

  lemma DeeperText(root: seq<string>, candidate: seq<string>)
    requires Normal(root) && Normal(candidate) && root != []
    requires StartsWith(PathText(candidate), PathText(root) + "/")
    ensures root <= candidate
  {
    var front := PathText(root) + "/";
    var rest := PathText(candidate)[|front|..];
    assert PathText(candidate) == front + rest;
    assert Join(candidate, '/') == PathText(candidate)[1..] == Join(root, '/') + "/" + rest;
    CutAtSlash(candidate, root, rest);
  }

  lemma PrefixFromTest(root: seq<string>, candidate: seq<string>)
    requires Normal(root) && Normal(candidate) && PrefixTest(PathText(root), PathText(candidate))
    ensures root <= candidate
  {
    NoTrailingSlash(root);
    if root != [] {
      if PathText(candidate) == PathText(root) { SameTextSameSegments(candidate, root); }
      else { DeeperText(root, candidate); }
    }
  }

  /** The string-prefix test holds exactly when the root's segments begin the candidate's. */
  lemma PrefixTestIffSegments(root: seq<string>, candidate: seq<string>)
    requires Normal(root) && Normal(candidate)
    ensures PrefixTest(PathText(root), PathText(candidate)) <==> root <= candidate
  {
    if root <= candidate { PrefixTestForRootOrSame(root, candidate); }
    if PrefixTest(PathText(root), PathText(candidate)) { PrefixFromTest(root, candidate); }
  }

  lemma BelowIsNotUp(segments: seq<string>)
    requires Normal(segments) && segments != []
    ensures var path := Join(segments, '/'); path != ".." && !StartsWith(path, "../") && !StartsWith(path, "/")
  {
    SegmentsOf(segments);
    FirstSegment(Join(segments, '/'));
    assert segments[0] in segments;
  }

  lemma UpIsUp(n: nat, below: seq<string>)
    requires n > 0
    ensures var path := Join(Ups(n) + below, '/'); path == ".." || StartsWith(path, "../")
  {
    var parts := Ups(n) + below;
    assert parts[0] == "..";
    if |parts| > 1 {
      assert Join(parts, '/') == ".." + ['/'] + Join(parts[1..], '/');
    }
  }

  /** So does the relative-path test. */
  lemma RelativeTestIffSegments(parent: seq<string>, candidate: seq<string>)
    requires Normal(parent) && Normal(candidate)
    ensures RelativeTest(parent, candidate) <==> parent <= candidate
  {
    var k := Common(parent, candidate);
    if k == |parent| {
      assert Ups(0) + candidate[k..] == candidate[k..];
      assert parent[..k] == parent;
      if candidate[k..] != [] {
        assert forall s | s in candidate[k..] :: s in candidate;
        BelowIsNotUp(candidate[k..]);
      }
    } else {
      UpIsUp(|parent| - k, candidate[k..]);
      assert k < |candidate| ==> parent[k] != candidate[k];
      assert !(parent <= candidate);
    }
  }

  /** The runner's test and the compiler's agree on all normalised paths. */
  lemma TestsAgree(root: seq<string>, candidate: seq<string>)
    requires Normal(root) && Normal(candidate)
    ensures PrefixTest(PathText(root), PathText(candidate)) <==> RelativeTest(root, candidate)
  {
    PrefixTestIffSegments(root, candidate);
    RelativeTestIffSegments(root, candidate);
  }

  /** Whatever text is offered, `insideRoot` returns the normalised path it denotes when that lies in
      the root, and refuses it otherwise. */
  lemma InsideRootNeverEscapes(root: seq<string>, candidate: string)
    requires Normal(root)
    ensures var target := Resolve(root, candidate);
            Normal(target) && InsideRoot(root, candidate) == if root <= target then Some(PathText(target)) else None
  {
    PushAllNormal(if StartsWith(candidate, "/") then [] else root, Split(candidate, '/'));
    PrefixTestIffSegments(root, Resolve(root, candidate));
  }

  // ----- What a candidate text denotes -----

  lemma {:induction false} PushAllAppend(segments: seq<string>, a: seq<string>, b: seq<string>)
    ensures PushAll(segments, a + b) == PushAll(PushAll(segments, a), b)
  {
    if b == [] {
      assert a + b == a;
    } else {
      PushAllAppend(segments, a, b[..|b| - 1]);
      assert (a + b)[..|a + b| - 1] == a + b[..|b| - 1];
    }
  }

  /** A relative text with a slash is resolved up to the slash, and the rest from there. */
  lemma ResolveInSteps(root: seq<string>, first: string, rest: string)
    requires !StartsWith(first, "/") && !StartsWith(rest, "/") && first != ""
    ensures Resolve(root, first + "/" + rest) == Resolve(Resolve(root, first), rest)
  {
    assert first + "/" + rest == first + ['/'] + rest;
    SplitAppend(first, rest, '/');
    PushAllAppend(root, Split(first, '/'), Split(rest, '/'));
    assert (first + "/" + rest)[0] == first[0];
  }

  lemma NotRooted(name: string)
    requires '/' !in name
    ensures !StartsWith(name, "/")
  {
    assert name != "" ==> name[0] in name;
  }

  lemma PushAllOne(segments: seq<string>, part: string)
    ensures PushAll(segments, [part]) == Push(segments, part)
  {
    assert [part][..0] == [];
    assert PushAll(segments, []) == segments;
  }

  /** One step: a name goes down, `.` and the empty text stay, `..` goes up, and at the top it stays there. */
  lemma ResolveOne(root: seq<string>, name: string)
    requires name != "" && name != "." && name != ".." && '/' !in name
    ensures Resolve(root, name) == root + [name]
    ensures Resolve(root, ".") == root && Resolve(root, "") == root
    ensures Resolve(root + [name], "..") == root && Resolve([], "..") == []
  {
    NotRooted(name);
    SplitWhole(name, '/');
    SplitWhole(".", '/');
    SplitWhole("", '/');
    SplitWhole("..", '/');
    PushAllOne(root, name);
    PushAllOne(root, ".");
    PushAllOne(root, "");
    PushAllOne(root + [name], "..");
    PushAllOne([], "..");
    assert (root + [name])[..|root|] == root;
  }

  lemma {:induction false} PushNames(segments: seq<string>, names: seq<string>)
    requires Normal(names)
    ensures PushAll(segments, names) == segments + names
  {
    if names == [] {
    } else {
      var init, last := names[..|names| - 1], names[|names| - 1];
      assert last in names && forall n | n in init :: n in names;
      PushNames(segments, init);
      assert segments + init + [last] == segments + names;
    }
  }

  /** A normalised absolute path denotes itself, whatever the root. */
  lemma ResolveAbsolute(root: seq<string>, target: seq<string>)
    requires Normal(target)
    ensures Resolve(root, PathText(target)) == target
  {
    var text := Join(target, '/');
    assert PathText(target) == "" + ['/'] + text;
    SplitAppend("", text, '/');
    SplitWhole("", '/');
    PushAllAppend([], [""], Split(text, '/'));
    PushAllOne([], "");
    if target == [] {
      PushAllOne([], "");
    } else {
      SegmentsOf(target);
      PushNames([], target);
    }
  }

  /** So a sibling of the root, reached by going up, is refused, and a name below the root is returned. */
  lemma UpIsOutside(root: seq<string>, last: string, name: string)
    requires Normal(root + [last]) && Normal([name])
    ensures InsideRoot(root + [last], "../" + name) == if name == last then Some(PathText(root + [last])) else None
    ensures InsideRoot(root, name) == Some(PathText(root + [name]))
  {
    assert last in root + [last] && name in [name];
    assert forall s | s in root :: s in root + [last];
    NotRooted(name);
    assert "../" + name == ".." + "/" + name;
    ResolveInSteps(root + [last], "..", name);
    ResolveOne(root, last);
    ResolveOne(root, name);
    InsideRootNeverEscapes(root + [last], "../" + name);
    InsideRootNeverEscapes(root, name);
    assert (root + [last])[|root|] == last && (root + [name])[|root|] == name;
  }
}
