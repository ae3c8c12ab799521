/** The part of pathlib that `save_course` relies on, for POSIX paths:
    `Path(dir) / name` and `str` of the result, which drops empty and "."
    parts and keeps exactly two leading slashes. */
module PosixPaths {
  import opened Common

  /** `Path(dir) / name` as a string before normalisation: an absolute name
      replaces the directory. */
  function JoinPath(dir: string, name: string): string
  {
    if name != [] && name[0] == '/' then name else dir + "/" + name
  }

  /** Length of the leading run of characters other than '/'. */
  function SegmentLength(p: string): (n: nat)
    ensures n <= |p|
    ensures forall i :: 0 <= i < n ==> p[i] != '/'
    ensures n < |p| ==> p[n] == '/'
  {
    if p == [] || p[0] == '/' then 0 else 1 + SegmentLength(p[1..])
  }

  /** The parts pathlib keeps of a POSIX path: the pieces between slashes,
      without empty pieces and ".". */
  function PathParts(p: string): seq<string>
    decreases |p|
  {
    if p == [] then []
    else if p[0] == '/' then PathParts(p[1..])
    else
      var n := SegmentLength(p);
      (if p[..n] == "." then [] else [p[..n]]) + PathParts(p[n..])
  }

  /** The anchor of a POSIX path: exactly two leading slashes are kept,
      one or three and more become one. */
  function PathRoot(p: string): string
  {
    if |p| >= 2 && p[0] == '/' && p[1] == '/' && (|p| == 2 || p[2] != '/') then "//"
    else if p != [] && p[0] == '/' then "/"
    else ""
  }

  /** `str(PurePosixPath(p))`. */
  function PosixPathString(p: string): string
  {
    var root := PathRoot(p);
    var parts := PathParts(p);
    if root == "" && parts == [] then "." else root + Join("/", parts)
  }

  lemma {:induction false} SegmentLengthOf(a: string, b: string)
    requires '/' !in a
    requires b == [] || b[0] == '/'
    ensures SegmentLength(a + b) == |a|
  {
    if a != [] {
      assert a == [a[0]] + a[1..];
      assert (a + b)[1..] == a[1..] + b;
      SegmentLengthOf(a[1..], b);
    }
  }

  /** A leading piece without slashes is kept, unless it is ".". */
  lemma PathPartsOf(a: string, b: string)
    requires a != [] && '/' !in a
    requires b == [] || b[0] == '/'
    ensures PathParts(a + b) == (if a == "." then [] else [a]) + PathParts(b)
  {
    SegmentLengthOf(a, b);
    assert (a + b)[..|a|] == a && (a + b)[|a|..] == b;
  }

  /** A name without slashes that is not "." is a single part. */
  lemma PlainNameParts(name: string)
    requires name != [] && '/' !in name && name != "."
    ensures PathParts(name) == [name]
  {
    PathPartsOf(name, []);
    assert name + [] == name;
  }

  /** Every part is a non-empty piece without slashes, and none is ".". */
  lemma {:induction false} PathPartsClean(p: string)
    ensures forall k :: 0 <= k < |PathParts(p)| ==>
      PathParts(p)[k] != [] && '/' !in PathParts(p)[k] && PathParts(p)[k] != "."
    decreases |p|
  {
    if p != [] {
      if p[0] == '/' {
        PathPartsClean(p[1..]);
      } else {
        var n := SegmentLength(p);
        PathPartsClean(p[n..]);
        assert '/' !in p[..n] by {
          forall i | 0 <= i < n
            ensures p[..n][i] != '/'
          {
            assert p[..n][i] == p[i];
          }
        }
      }
    }
  }

  /** A relative name is joined under a plain directory: the directory is
      the first part and the name's own parts follow it, so the result is
      the directory itself or starts with it and a slash. */
  lemma JoinRelative(dir: string, name: string)
    requires dir != [] && '/' !in dir && dir != "."
    requires name == [] || name[0] != '/'
    ensures var parts := PathParts(name);
      PosixPathString(JoinPath(dir, name)) == if parts == [] then dir else dir + "/" + Join("/", parts)
  {
    var p := dir + "/" + name;
    assert p == dir + ("/" + name);
    PathPartsOf(dir, "/" + name);
    assert ("/" + name)[1..] == name;
    var rest := PathParts(name);
    assert PathParts(p) == [dir] + rest;
    assert PathRoot(p) == "";
    if rest != [] {
      assert ([dir] + rest)[1..] == rest;
    }
  }

  /** So the joined path is the directory itself or starts with it and a
      slash. */
  lemma JoinRelativeUnder(dir: string, name: string)
    requires dir != [] && '/' !in dir && dir != "."
    requires name == [] || name[0] != '/'
    ensures var path := PosixPathString(JoinPath(dir, name));
      path == dir || (|path| > |dir| + 1 && path[..|dir| + 1] == dir + "/")
  {
    JoinRelative(dir, name);
    var rest := PathParts(name);
    if rest != [] {
      PathPartsClean(name);
      JoinNonEmpty("/", rest);
      var path := dir + "/" + Join("/", rest);
      assert path[..|dir| + 1] == dir + "/";
    }
  }

  /** An absolute name ignores the directory and keeps its leading slash. */
  lemma JoinAbsolute(dir: string, name: string)
    requires name != [] && name[0] == '/'
    ensures PosixPathString(JoinPath(dir, name)) == PosixPathString(name)
    ensures var path := PosixPathString(JoinPath(dir, name)); path != [] && path[0] == '/'
  {
  }

  /** A plain absolute path such as "/tmp/x.json" comes back unchanged. */
  lemma AbsoluteUnchanged(dir: string, a: string, name: string)
    requires a != [] && '/' !in a && a != "."
    requires name != [] && '/' !in name && name != "."
    ensures PosixPathString(JoinPath(dir, "/" + a + "/" + name)) == "/" + a + "/" + name
  {
    AbsoluteParts(a, name);
    JoinTwo(a, name);
    assert "/" + (a + "/" + name) == "/" + a + "/" + name;
  }

  lemma AbsoluteParts(a: string, name: string)
    requires a != [] && '/' !in a && a != "."
    requires name != [] && '/' !in name && name != "."
    ensures PathParts("/" + a + "/" + name) == [a, name]
    ensures PathRoot("/" + a + "/" + name) == "/"
  {
    var p := "/" + a + "/" + name;
    PlainNameParts(name);
    assert ("/" + name)[1..] == name;
    PathPartsOf(a, "/" + name);
    assert p[1..] == a + ("/" + name);
    assert p[1] == a[0];
  }

  lemma JoinTwo(a: string, b: string)
    ensures Join("/", [a, b]) == a + "/" + b
  {
    assert [a, b][1..] == [b];
  }

  /** "./" in front of a name is dropped: "./x.json" joins as "x.json". */
  lemma DotDropped(dir: string, name: string)
    requires dir != [] && '/' !in dir && dir != "."
    requires name != [] && '/' !in name && name != "."
    ensures PosixPathString(JoinPath(dir, "./" + name)) == dir + "/" + name
  {
    var n := "./" + name;
    assert n == "." + ("/" + name);
    PathPartsOf(".", "/" + name);
    assert ("/" + name)[1..] == name;
    PlainNameParts(name);
    JoinRelative(dir, n);
  }

  /** A doubled slash counts as one: "a//x.json" joins as "a/x.json". */
  lemma DoubleSlashCollapsed(dir: string, a: string, name: string)
    requires dir != [] && '/' !in dir && dir != "."
    requires a != [] && '/' !in a && a != "."
    requires name != [] && '/' !in name && name != "."
    ensures PosixPathString(JoinPath(dir, a + "//" + name)) == dir + "/" + a + "/" + name
  {
    var n := a + "//" + name;
    DoubledParts(a, name);
    JoinRelative(dir, n);
    JoinTwo(a, name);
    assert dir + "/" + (a + "/" + name) == dir + "/" + a + "/" + name;
  }

  lemma DoubledParts(a: string, name: string)
    requires a != [] && '/' !in a && a != "."
    requires name != [] && '/' !in name && name != "."
    ensures PathParts(a + "//" + name) == [a, name]
  {
    assert a + "//" + name == a + ("//" + name);
    PathPartsOf(a, "//" + name);
    assert ("//" + name)[1..] == "/" + name;
    assert ("/" + name)[1..] == name;
    PlainNameParts(name);
    assert PathParts("/" + name) == [name];
  }
}
