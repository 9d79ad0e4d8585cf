/** The two functions of Node's POSIX `path` module that the upload code uses: `basename` and
    `extname`. Both look only at the last segment of the path, ignoring trailing slashes. */
module Paths {
  import opened Wrappers
  import opened JsStrings

  function StripTrailingSlashes(p: string): string {
    if |p| > 0 && p[|p| - 1] == '/' then StripTrailingSlashes(p[..|p| - 1]) else p
  }

  /** Dropping trailing slashes leaves a prefix that does not end in '/'. */
  lemma {:induction false} StripTrailingSlashesShape(p: string)
    ensures var r := StripTrailingSlashes(p);
      && |r| <= |p| && r == p[..|r|]
      && (|r| == 0 || r[|r| - 1] != '/')
  {
    if |p| > 0 && p[|p| - 1] == '/' {
      var front := p[..|p| - 1];
      StripTrailingSlashesShape(front);
      var r := StripTrailingSlashes(front);
      assert front[..|r|] == p[..|r|];
    }
  }

  /** The text after the last '/' (all of `p` when it has none). */
  function LastSegment(p: string): string {
    if |p| == 0 || p[|p| - 1] == '/' then "" else LastSegment(p[..|p| - 1]) + [p[|p| - 1]]
  }

  /** The last segment is a suffix without '/' that is all of `p` or follows a '/'. */
  lemma {:induction false} LastSegmentShape(p: string)
    ensures var r := LastSegment(p);
      && '/' !in r
      && |r| <= |p| && r == p[|p| - |r|..]
      && (|r| < |p| ==> p[|p| - |r| - 1] == '/')
  {
    if |p| > 0 && p[|p| - 1] != '/' {
      var front := p[..|p| - 1];
      LastSegmentShape(front);
      var r0 := LastSegment(front);
      var r := r0 + [p[|p| - 1]];
      assert r == LastSegment(p);
      assert front[|front| - |r0|..] + [p[|p| - 1]] == p[|p| - |r|..];
      assert '/' !in r by {
        forall i | 0 <= i < |r| ensures r[i] != '/' {
          if i < |r0| { assert r[i] == r0[i]; }
        }
      }
      if |r| < |p| {
        assert p[|p| - |r| - 1] == front[|front| - |r0| - 1];
      }
    }
  }

  /** `path.basename(p)`: the last segment of `p` once trailing slashes are dropped. */
  function Basename(p: string): string {
    LastSegment(StripTrailingSlashes(p))
  }

  /** A base name holds no '/', and a path without '/' is its own base name. */
  lemma BasenameShape(p: string)
    ensures '/' !in Basename(p)
    ensures '/' !in p ==> Basename(p) == p
  {
    StripTrailingSlashesShape(p);
    LastSegmentShape(StripTrailingSlashes(p));
    if '/' !in p {
      if |p| > 0 {
        assert p[|p| - 1] != '/';
      }
      assert StripTrailingSlashes(p) == p;
      LastSegmentWithoutSlash(p);
    }
  }

  lemma {:induction false} LastSegmentWithoutSlash(p: string)
    requires '/' !in p
    ensures LastSegment(p) == p
  {
    if |p| > 0 {
      var front := p[..|p| - 1];
      assert '/' !in front by {
        forall i | 0 <= i < |front| ensures front[i] != '/' {
          assert front[i] == p[i];
        }
      }
      LastSegmentWithoutSlash(front);
      assert p == front + [p[|p| - 1]];
    }
  }

  /** The last index of `c` in `s`. */
  function LastIndexOfChar(s: string, c: char): (r: Option<nat>)
    ensures r.Some? ==> r.value < |s|
  {
    if |s| == 0 then None
    else if s[|s| - 1] == c then Some(|s| - 1)
    else LastIndexOfChar(s[..|s| - 1], c)
  }

  /** A found index holds `c` and no later one does. */
  lemma {:induction false} LastIndexOfCharShape(s: string, c: char)
    ensures var r := LastIndexOfChar(s, c);
      && (r.Some? ==> s[r.value] == c)
      && (r.Some? ==> forall j :: r.value < j < |s| ==> s[j] != c)
  {
    if |s| > 0 && s[|s| - 1] != c {
      var front := s[..|s| - 1];
      LastIndexOfCharShape(front, c);
      var r := LastIndexOfChar(front, c);
      if r.Some? {
        assert forall j :: r.value < j < |front| ==> front[j] == s[j];
      }
    }
  }

  /** The extension of one path segment: from its last '.' on; "" when it has no '.', when its last
      '.' is its first character (".bashrc") and for "..". */
  function SegmentExtension(b: string): string {
    match LastIndexOfChar(b, '.')
    case None => ""
    case Some(d) => if d == 0 || b == ".." then "" else b[d..]
  }

  /** An extension is empty or a proper suffix of the segment that starts with its only '.'. */
  lemma SegmentExtensionShape(b: string)
    ensures var r := SegmentExtension(b);
      && (r == "" || (r[0] == '.' && '.' !in r[1..]))
      && (|r| < |b| || r == "")
      && r == b[|b| - |r|..]
  {
    LastIndexOfCharShape(b, '.');
  }

  /** `path.extname(p)`: the extension of the segment `basename` picks. */
  function Extname(p: string): string {
    SegmentExtension(Basename(p))
  }

  // ---------------------------------------------------------------- partner lemmas

  lemma {:induction false} LastSegmentOfJoin(dir: string, name: string)
    requires '/' !in name
    ensures LastSegment(dir + "/" + name) == name
  {
    var p := dir + "/" + name;
    if |name| == 0 {
      assert p[|p| - 1] == '/';
    } else {
      assert p[..|p| - 1] == dir + "/" + name[..|name| - 1];
      var front := name[..|name| - 1];
      assert '/' !in front by {
        forall i | 0 <= i < |front| ensures front[i] != '/' {
          assert front[i] == name[i];
        }
      }
      LastSegmentOfJoin(dir, name[..|name| - 1]);
      assert name == name[..|name| - 1] + [name[|name| - 1]];
    }
  }

  /** `basename` undoes joining a directory and a file name. */
  lemma BasenameOfJoin(dir: string, name: string)
    requires '/' !in name && name != ""
    ensures Basename(dir + "/" + name) == name
  {
    var p := dir + "/" + name;
    assert p[|p| - 1] == name[|name| - 1];
    assert StripTrailingSlashes(p) == p;
    LastSegmentOfJoin(dir, name);
  }

  lemma {:induction false} LastIndexOfCharAbsent(s: string, c: char)
    requires c !in s
    ensures LastIndexOfChar(s, c) == None
  {
    if |s| > 0 {
      var front := s[..|s| - 1];
      assert c !in front by {
        forall i | 0 <= i < |front| ensures front[i] != c {
          assert front[i] == s[i];
        }
      }
      LastIndexOfCharAbsent(front, c);
    }
  }

  lemma SegmentWithoutDot(b: string)
    requires '.' !in b
    ensures SegmentExtension(b) == ""
  {
    LastIndexOfCharAbsent(b, '.');
  }

  /** A base name without '.' has no extension. */
  lemma ExtnameWithoutDot(p: string)
    requires '.' !in Basename(p)
    ensures Extname(p) == ""
  {
    SegmentWithoutDot(Basename(p));
  }

  lemma LastIndexOfCharAt(s: string, c: char, d: nat)
    requires d < |s| && s[d] == c
    requires forall j :: d < j < |s| ==> s[j] != c
    ensures LastIndexOfChar(s, c) == Some(d)
  {
  }

  lemma NoCharInJoin(stem: string, ext: string, c: char)
    requires c != '.' && c !in stem && c !in ext
    ensures c !in stem + "." + ext
  {
    var b := stem + "." + ext;
    forall i | 0 <= i < |b| ensures b[i] != c {
      if i < |stem| { assert b[i] == stem[i]; }
      else if i > |stem| { assert b[i] == ext[i - |stem| - 1]; }
    }
  }

  lemma SegmentExtensionOfName(stem: string, ext: string)
    requires '.' !in ext
    requires stem != "" && !(stem == "." && ext == "")
    ensures SegmentExtension(stem + "." + ext) == "." + ext
  {
    var b := stem + "." + ext;
    forall j | |stem| < j < |b| ensures b[j] != '.' {
      assert b[j] == ext[j - |stem| - 1];
    }
    LastIndexOfCharAt(b, '.', |stem|);
    assert b != ".." by {
      if |b| == 2 { assert |stem| == 1 && ext == "" && stem[0] == b[0]; }
    }
    assert b[|stem|..] == "." + ext;
  }

  /** The extension of `stem.ext` is `.ext`, unless the name is "..". */
  lemma ExtnameOfName(stem: string, ext: string)
    requires '/' !in stem && '/' !in ext && '.' !in ext
    requires stem != "" && !(stem == "." && ext == "")
    ensures Extname(stem + "." + ext) == "." + ext
  {
    NoCharInJoin(stem, ext, '/');
    BasenameShape(stem + "." + ext);
    SegmentExtensionOfName(stem, ext);
  }

  // ---------------------------------------------------------------- lower case commutes

  lemma {:induction false} StripTrailingSlashesToLower(p: string)
    ensures StripTrailingSlashes(ToLower(p)) == ToLower(StripTrailingSlashes(p))
  {
    if |p| > 0 {
      var q := ToLower(p);
      assert q[..|q| - 1] == ToLower(p[..|p| - 1]);
      if p[|p| - 1] == '/' {
        StripTrailingSlashesToLower(p[..|p| - 1]);
      }
    }
  }

  lemma {:induction false} LastSegmentToLower(p: string)
    ensures LastSegment(ToLower(p)) == ToLower(LastSegment(p))
  {
    if |p| > 0 && p[|p| - 1] != '/' {
      var q := ToLower(p);
      assert q[..|q| - 1] == ToLower(p[..|p| - 1]);
      LastSegmentToLower(p[..|p| - 1]);
      var r := LastSegment(p[..|p| - 1]);
      assert ToLower(r + [p[|p| - 1]])[..|r|] == ToLower(r);
    }
  }

  lemma {:induction false} LastIndexOfDotToLower(s: string)
    ensures LastIndexOfChar(ToLower(s), '.') == LastIndexOfChar(s, '.')
  {
    if |s| > 0 {
      var q := ToLower(s);
      assert q[..|q| - 1] == ToLower(s[..|s| - 1]);
      LastIndexOfDotToLower(s[..|s| - 1]);
    }
  }

  lemma {:induction false} ToLowerSuffix(s: string, d: nat)
    requires d <= |s|
    ensures ToLower(s)[d..] == ToLower(s[d..])
  {
    if d < |s| {
      var front, last := s[..|s| - 1], s[|s| - 1];
      ToLowerSuffix(front, d);
      assert s[d..] == front[d..] + [last];
      assert s[d..][..|s[d..]| - 1] == front[d..];
      assert ToLower(s) == ToLower(front) + [LowerChar(last)];
      assert ToLower(s)[d..] == ToLower(front)[d..] + [LowerChar(last)];
    }
  }

  lemma ToLowerDotDot(b: string)
    ensures ToLower(b) == ".." <==> b == ".."
  {
    if ToLower(b) == ".." {
      assert LowerChar(b[0]) == '.' && LowerChar(b[1]) == '.';
    }
  }

  lemma SegmentExtensionToLower(b: string)
    ensures SegmentExtension(ToLower(b)) == ToLower(SegmentExtension(b))
  {
    LastIndexOfDotToLower(b);
    ToLowerDotDot(b);
    match LastIndexOfChar(b, '.')
    case None =>
    case Some(d) =>
      ToLowerSuffix(b, d);
  }

  /** Lower-casing a path lower-cases its extension and changes nothing else about it. */
  lemma ExtnameToLower(p: string)
    ensures Extname(ToLower(p)) == ToLower(Extname(p))
  {
    StripTrailingSlashesToLower(p);
    LastSegmentToLower(StripTrailingSlashes(p));
    assert Basename(ToLower(p)) == ToLower(Basename(p));
    SegmentExtensionToLower(Basename(p));
  }
}
