/** Claimed repository paths, as `PurePosixPath` reads them, and when two claims overlap. */
module RepoPaths {
  import opened Text

  /** A parsed path: its root ("", "/" or "//") and its components. */
  datatype PurePath = PurePath(root: string, parts: seq<string>)

  predicate IsComponent(c: string) {
    c != "" && '/' !in c
  }

  function Split(s: string): (pieces: seq<string>)
    ensures |pieces| >= 1
    ensures forall p :: p in pieces ==> '/' !in p
  {
    if s == "" then [""]
    else
      var rest := Split(s[1..]);
      if s[0] == '/' then [""] + rest else [[s[0]] + rest[0]] + rest[1..]
  }

  /** Empty and "." pieces are dropped. */
  function Components(pieces: seq<string>): (parts: seq<string>)
    requires forall p :: p in pieces ==> '/' !in p
    ensures forall c :: c in parts ==> IsComponent(c)
  {
    if pieces == [] then []
    else if pieces[0] == "" || pieces[0] == "." then Components(pieces[1..])
    else [pieces[0]] + Components(pieces[1..])
  }

  /** Two leading slashes are a root of their own, three or more are one slash. */
  function Root(s: string): string {
    if !("/" <= s) then ""
    else if "//" <= s && !("///" <= s) then "//"
    else "/"
  }

  function Parse(s: string): PurePath {
    PurePath(Root(s), Components(Split(s)))
  }

  function Join(parts: seq<string>): string {
    if parts == [] then ""
    else if |parts| == 1 then parts[0]
    else parts[0] + "/" + Join(parts[1..])
  }

  /** `str(path)` */
  function Render(p: PurePath): string {
    if p.root == "" && p.parts == [] then "." else p.root + Join(p.parts)
  }

  /** `path.parents`, nearest first */
  function Parents(p: PurePath): seq<PurePath> {
    seq(|p.parts|, i requires 0 <= i < |p.parts| => PurePath(p.root, p.parts[..|p.parts| - 1 - i]))
  }

  predicate Overlap(first: string, second: string) {
    var left, right := Parse(first), Parse(second);
    left == right || left in Parents(right) || right in Parents(left)
  }

  predicate IsAbsolute(path: string) {
    "/" <= path
  }

  /** A normalized repository-relative path without globs or traversal. */
  predicate IsClaimPath(path: string) {
    && NonBlank(path)
    && !IsAbsolute(path)
    && ".." !in Parse(path).parts
    && Render(Parse(path)) == path
    && forall c :: c in path ==> c !in "*?[]\\"
  }

  predicate ArePaths(paths: seq<string>) {
    && (forall p :: p in paths ==> IsClaimPath(p))
    && paths != []
    && IsDistinct(paths)
  }

  /** `file` is the claimed path or lies below it; a claim of "." covers the whole repository. */
  predicate Under(file: seq<string>, claim: string) {
    Root(claim) == "" && Parse(claim).parts <= file
  }

  lemma OverlapIsComparable(first: string, second: string)
    ensures Overlap(first, second) <==>
              && Root(first) == Root(second)
              && (Parse(first).parts <= Parse(second).parts || Parse(second).parts <= Parse(first).parts)
  {
    InParents(Parse(first), Parse(second));
    InParents(Parse(second), Parse(first));
  }

  /** The parents are exactly the proper component prefixes under the same root. */
  lemma InParents(p: PurePath, q: PurePath)
    ensures p in Parents(q) <==> p.root == q.root && p.parts < q.parts
  {
    if p.root == q.root && p.parts < q.parts {
      var i := |q.parts| - 1 - |p.parts|;
      assert Parents(q)[i] == p;
    }
  }

  /** Claims of relative paths overlap exactly when some file lies under both. */
  lemma OverlapIffSharedFile(first: string, second: string)
    requires !IsAbsolute(first) && !IsAbsolute(second)
    ensures Overlap(first, second) <==> exists file :: Under(file, first) && Under(file, second)
  {
    OverlapIsComparable(first, second);
    var p, q := Parse(first).parts, Parse(second).parts;
    if Overlap(first, second) {
      var file := if p <= q then q else p;
      assert Under(file, first) && Under(file, second);
    }
    forall file | Under(file, first) && Under(file, second)
      ensures p <= q || q <= p
    {
      assert |p| <= |q| ==> p == q[..|p|];
      assert |q| <= |p| ==> q == p[..|q|];
    }
  }

  /** A claim is "." or a text whose pieces between the slashes are all proper names, without any glob characters. */
  lemma ClaimPathExactly(path: string)
    ensures IsClaimPath(path) <==>
              && NonBlank(path)
              && (forall c :: c in path ==> c !in "*?[]\\")
              && (path == "." || forall piece :: piece in Split(path) ==> piece !in {"", ".", ".."})
  {
    hide NonBlank;
    DotHasNoComponents();
    var parts := Parse(path).parts;
    ProperComponents(Split(path));
    JoinSplit(path);
    if !IsAbsolute(path) && Render(Parse(path)) == path && parts != [] {
      assert Root(path) == "" && path == Join(parts);
      SplitJoin(parts);
    }
    if IsAbsolute(path) {
      assert Split(path)[0] == "" && "" in Split(path);
    }
  }

  lemma {:induction false} ProperComponents(pieces: seq<string>)
    requires forall p :: p in pieces ==> '/' !in p
    ensures forall c :: c in Components(pieces) ==> c !in {"", "."}
    ensures (forall p :: p in pieces ==> p !in {"", "."}) ==> Components(pieces) == pieces
  {
    if pieces != [] {
      ProperComponents(pieces[1..]);
      assert pieces == [pieces[0]] + pieces[1..];
      assert pieces[0] in pieces && forall p :: p in pieces[1..] ==> p in pieces;
    }
  }

  lemma {:induction false} JoinSplit(s: string)
    ensures Join(Split(s)) == s
  {
    if s != "" {
      JoinSplit(s[1..]);
      var rest := Split(s[1..]);
      assert s == [s[0]] + s[1..];
      if s[0] == '/' {
        assert ([""] + rest)[1..] == rest;
      } else {
        assert ([[s[0]] + rest[0]] + rest[1..])[1..] == rest[1..];
      }
    }
  }

  lemma {:induction false} SplitJoin(parts: seq<string>)
    requires parts != [] && forall c :: c in parts ==> '/' !in c
    ensures Split(Join(parts)) == parts
  {
    if |parts| == 1 {
      SplitFirst(parts[0], "");
      SplitEmpty("");
      assert parts[0] + "" == parts[0];
    } else {
      SplitJoin(parts[1..]);
      SplitFirst(parts[0], "/" + Join(parts[1..]));
      SplitEmpty("/" + Join(parts[1..]));
      assert parts[0] + ("/" + Join(parts[1..])) == Join(parts);
      assert ("/" + Join(parts[1..]))[1..] == Join(parts[1..]);
    }
  }

  /** A text without slashes before the first one is the first piece. */
  lemma {:induction false} SplitFirst(x: string, rest: string)
    requires '/' !in x && (rest == "" || rest[0] == '/')
    ensures Split(x + rest) == [x] + Split(rest)[1..]
  {
    hide Split;
    if x == "" {
      assert x + rest == rest;
      SplitEmpty(rest);
    } else {
      var pieces := Split(x[1..] + rest);
      SplitFirst(x[1..], rest);
      assert pieces[0] == x[1..] && pieces[1..] == Split(rest)[1..];
      SplitNext(x[0], x[1..] + rest);
      assert x + rest == [x[0]] + (x[1..] + rest);
      assert [x[0]] + x[1..] == x;
    }
  }

  lemma SplitEmpty(rest: string)
    requires rest == "" || rest[0] == '/'
    ensures Split(rest) == [""] + Split(rest)[1..]
    ensures rest == "" ==> Split(rest)[1..] == []
    ensures rest != "" ==> Split(rest)[1..] == Split(rest[1..])
  {
  }

  lemma SplitNext(c: char, s: string)
    requires c != '/'
    ensures Split([c] + s) == [[c] + Split(s)[0]] + Split(s)[1..]
  {
    assert ([c] + s)[1..] == s;
  }

  /** On the text of two accepted claims: equal, one is ".", or one extends the other after a slash. */
  lemma OverlapOnText(first: string, second: string)
    requires IsClaimPath(first) && IsClaimPath(second)
    ensures Overlap(first, second) <==>
              || first == second || first == "." || second == "."
              || first + "/" <= second || second + "/" <= first
  {
    OverlapIsComparable(first, second);
    var p, q := Parse(first).parts, Parse(second).parts;
    DotHasNoComponents();
    if p != [] && q != [] {
      JoinPrefix(p, q);
      JoinPrefix(q, p);
      assert first == Join(p) && second == Join(q);
      assert p <= q <==> p < q || p == q;
    }
  }

  lemma DotHasNoComponents()
    ensures Parse(".") == PurePath("", [])
  {
    assert Split(".") == [['.'] + ""] + [] by { assert "."[1..] == ""; assert Split("") == [""]; }
    assert ['.'] + "" == ".";
    assert Split(".") == ["."];
    assert Components(["."]) == [];
  }

  /** One component list is a proper prefix of another exactly when its text, plus a slash, is. */
  lemma {:induction false} JoinPrefix(p: seq<string>, q: seq<string>)
    requires p != [] && q != []
    requires forall c :: c in p + q ==> IsComponent(c)
    ensures p < q <==> Join(p) + "/" <= Join(q)
    ensures p == q <==> Join(p) == Join(q)
  {
    var x, y := p[0], q[0];
    assert x in p + q && y in p + q;
    if |p| > 1 && |q| > 1 {
      var p', q' := p[1..], q[1..];
      JoinPrefix(p', q');
      assert p == [x] + p' && q == [y] + q';
      SlashSplit(x, Join(p'), y, Join(q'));
      SlashSplit(x, Join(p') + "/", y, Join(q'));
      assert Join(p) + "/" == x + "/" + (Join(p') + "/");
      if x == y {
        assert p < q <==> p' < q';
      }
    } else if |p| > 1 {
      assert (x + "/" + Join(p[1..]))[|x|] == '/';
      assert Join(q) == y;
      assert |x| < |y| ==> y[|x|] != '/';
    } else if |q| > 1 {
      assert p < q <==> x == y by {
        if x == y { assert p == q[..1]; }
      }
      var r := Join(q[1..]);
      assert Join(q) == y + "/" + r;
      assert (y + "/" + r)[|y|] == '/';
      if x + "/" <= y + "/" + r {
        SlashSplit(x, "", y, r);
        assert x + "/" + "" == x + "/";
      }
      if x == y {
        assert (x + "/") == (y + "/" + r)[..|x| + 1];
      }
      assert |y| < |x| ==> x[|y|] != '/';
    } else {
      assert |y| > |x| ==> y[|x|] != '/';
    }
  }

  /** The first slash of a text ends its first component. */
  lemma SlashSplit(x: string, a: string, y: string, b: string)
    requires '/' !in x && '/' !in y
    ensures x + "/" + a <= y + "/" + b <==> x == y && a <= b
    ensures x + "/" + a == y + "/" + b <==> x == y && a == b
  {
    var s, t := x + "/" + a, y + "/" + b;
    assert s[|x|] == '/' && t[|y|] == '/';
    if s <= t {
      assert forall i :: 0 <= i < |s| ==> s[i] == t[i];
      assert x == s[..|x|] == t[..|x|] == y;
      assert a == s[|x| + 1..] && b == t[|y| + 1..];
      assert a == t[|x| + 1..|s|];
      assert a == b[..|a|];
    }
    if x == y && a <= b {
      assert s == t[..|s|];
    }
  }
}
