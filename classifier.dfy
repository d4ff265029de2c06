/** The input classifier: the final component of a path, its suffix, case folding of the
    suffix, and the two extension sets that route a file to the video or the audio path. */
module Classifier {

  /** How the pipeline treats an input file. */
  datatype Route = Video | Audio | Unsupported

  const VideoExts: set<string> := {".mp4", ".mkv", ".mov", ".avi", ".flv"}
  const AudioExts: set<string> := {".wav", ".mp3", ".m4a", ".aac", ".ogg"}

  /** Position of the last occurrence of `c` in `s`, or -1 when there is none (`str.rfind`). */
  function LastIndexOf(s: string, c: char): (i: int)
    ensures -1 <= i < |s|
    ensures i == -1 <==> c !in s
    ensures 0 <= i ==> s[i] == c && c !in s[i + 1..]
  {
    if s == [] then -1
    else if s[|s| - 1] == c then |s| - 1
    else
      assert s == s[..|s| - 1] + [s[|s| - 1]];
      var i := LastIndexOf(s[..|s| - 1], c);
      assert 0 <= i ==> s[i + 1..] == s[..|s| - 1][i + 1..] + [s[|s| - 1]];
      i
  }

  /** The pieces of `s` between the separators '/', as `s.split('/')` returns them. */
  function Split(s: string): (parts: seq<string>)
    ensures |parts| >= 1
    ensures forall k :: 0 <= k < |parts| ==> '/' !in parts[k]
    decreases |s|
  {
    var i := LastIndexOf(s, '/');
    if i < 0 then [s] else Split(s[..i]) + [s[i + 1..]]
  }

  /** The pieces joined back with '/' (the inverse of `Split`). */
  function Join(parts: seq<string>): string
    requires |parts| >= 1
  {
    if |parts| == 1 then parts[0] else Join(parts[..|parts| - 1]) + "/" + parts[|parts| - 1]
  }

  /** A piece that names a path component: empty pieces (from repeated or trailing
      separators) and "." pieces are dropped when a POSIX path is parsed. */
  predicate IsComponent(piece: string) {
    piece != "" && piece != "."
  }

  /** The pieces that are components, in order. */
  function Components(pieces: seq<string>): (cs: seq<string>)
    ensures forall k :: 0 <= k < |cs| ==> IsComponent(cs[k])
    ensures (forall k :: 0 <= k < |pieces| ==> '/' !in pieces[k]) ==>
      forall k :: 0 <= k < |cs| ==> '/' !in cs[k]
  {
    if pieces == [] then []
    else
      var last := pieces[|pieces| - 1];
      Components(pieces[..|pieces| - 1]) + if IsComponent(last) then [last] else []
  }

  /** The final component of a POSIX path (`PurePosixPath(p).name`), "" when there is none. */
  function Name(p: string): (name: string)
    ensures '/' !in name
    ensures name != "."
  {
    var cs := Components(Split(p));
    if cs == [] then "" else cs[|cs| - 1]
  }

  /** The suffix of the final component (`PurePosixPath(p).suffix`): from its last dot,
      provided that dot is neither the first nor the last character of the name. */
  function Suffix(p: string): (ext: string)
    ensures ext == "" || (|ext| >= 2 && ext[0] == '.' && '.' !in ext[1..] && '/' !in ext)
    ensures ext != "" ==> |ext| < |Name(p)| && ext == Name(p)[|Name(p)| - |ext|..]
  {
    var name := Name(p);
    var i := LastIndexOf(name, '.');
    if 0 < i < |name| - 1 then name[i..] else ""
  }

  /** Python's `str.lower` restricted to what can matter for an ASCII extension: the letters
      A-Z, and U+212A KELVIN SIGN, whose lower-case form is the ASCII letter k. */
  function LowerChar(c: char): (l: char)
    ensures l == '.' <==> c == '.'
    ensures l == '/' <==> c == '/'
    ensures !('A' <= l <= 'Z')
  {
    if 'A' <= c <= 'Z' then (c as int + 32) as char
    else if c == '\U{212A}' then 'k'
    else c
  }

  function Lower(s: string): (l: string)
    ensures |l| == |s|
  {
    seq(|s|, i requires 0 <= i < |s| => LowerChar(s[i]))
  }

  /** Python's `str.upper` on the ASCII letters a-z; every other character is kept. */
  function UpperChar(c: char): char {
    if 'a' <= c <= 'z' then (c as int - 32) as char else c
  }

  function Upper(s: string): (u: string)
    ensures |u| == |s|
  {
    seq(|s|, i requires 0 <= i < |s| => UpperChar(s[i]))
  }

  /** `is_supported_file`: the lower-cased suffix of the path is one of `exts`. */
  predicate IsSupportedFile(path: string, exts: set<string>) {
    Lower(Suffix(path)) in exts
  }

  /** The routing of `main`: the video set is tried first, then the audio set. Because the
      sets are disjoint, each route holds exactly when its own set contains the suffix. */
  function Classify(path: string): (r: Route)
    ensures r == Video <==> Lower(Suffix(path)) in VideoExts
    ensures r == Audio <==> Lower(Suffix(path)) in AudioExts
    ensures r == Unsupported <==> Lower(Suffix(path)) !in VideoExts + AudioExts
  {
    if IsSupportedFile(path, VideoExts) then Video
    else if IsSupportedFile(path, AudioExts) then Audio
    else Unsupported
  }

  // ---------------------------------------------------------------------------
  // Path structure

  /** Splitting on '/' and joining again gives back the path. */
  lemma {:induction false} JoinSplit(s: string)
    ensures Join(Split(s)) == s
    decreases |s|
  {
    var i := LastIndexOf(s, '/');
    if 0 <= i {
      var parts := Split(s[..i]);
      JoinSplit(s[..i]);
      assert Split(s) == parts + [s[i + 1..]];
      assert (parts + [s[i + 1..]])[..|parts|] == parts;
      assert s == s[..i] + "/" + s[i + 1..];
    }
  }

  /** Parsing keeps exactly the component pieces, in their order: the components of two
      runs of pieces are those of the first followed by those of the second. */
  lemma {:induction false} ComponentsAppend(a: seq<string>, b: seq<string>)
    ensures Components(a + b) == Components(a) + Components(b)
    decreases |b|
  {
    if b != [] {
      var b' := b[..|b| - 1];
      assert (a + b)[..|a + b| - 1] == a + b';
      ComponentsAppend(a, b');
    } else {
      assert a + b == a;
    }
  }

  /** A piece is among the components exactly when it is one of the pieces and a component. */
  lemma {:induction false} ComponentsKeep(pieces: seq<string>, x: string)
    ensures x in Components(pieces) <==> x in pieces && IsComponent(x)
  {
    if pieces != [] {
      var init := pieces[..|pieces| - 1];
      assert pieces == init + [pieces[|pieces| - 1]];
      ComponentsKeep(init, x);
    }
  }

  /** A trailing separator does not change the name: "clips/a.MKV/" is named "a.MKV". */
  lemma NameTrailingSlash(p: string)
    ensures Name(p + "/") == Name(p)
  {
    var q := p + "/";
    assert q[..|p|] == p && q[|p| + 1..] == "";
    assert LastIndexOf(q, '/') == |p|;
    SplitAt(q, |p|);
    ComponentsAppend(Split(p), [""]);
  }

  /** Nor does a trailing "/.": "clips/a.MKV/." is named "a.MKV". */
  lemma NameTrailingDot(p: string)
    ensures Name(p + "/.") == Name(p)
  {
    var q := p + "/.";
    assert q[..|p|] == p && q[|p| + 1..] == ".";
    assert q[|p|] == '/' && '/' !in q[|p| + 1..];
    assert LastIndexOf(q, '/') == |p|;
    SplitAt(q, |p|);
    ComponentsAppend(Split(p), ["."]);
  }

  /** So "clips/a.MKV/" and "clips/a.MKV/." are routed as "clips/a.MKV" is. */
  lemma ClassifyTrailingSeparator(p: string)
    ensures Classify(p + "/") == Classify(p)
    ensures Classify(p + "/.") == Classify(p)
  {
    NameTrailingSlash(p);
    NameTrailingDot(p);
  }

  /** A separator-free, non-empty piece other than "." is the name of a path that ends in it,
      whatever directory precedes it. */
  lemma NameOfChild(dir: string, n: string)
    requires '/' !in n && IsComponent(n)
    ensures Name(n) == n
    ensures Name(dir + "/" + n) == n
  {
    var p := dir + "/" + n;
    assert p[..|dir|] == dir && p[|dir| + 1..] == n;
    assert p[|dir|] == '/' && '/' !in p[|dir| + 1..];
    assert LastIndexOf(p, '/') == |dir|;
    var pieces := Split(dir) + [n];
    assert Split(p) == pieces;
    assert pieces[..|pieces| - 1] == Split(dir);
  }

  /** Characters appended after the last `c` do not move it when none of them is `c`. */
  lemma {:induction false} LastIndexOfAppend(a: string, b: string, c: char)
    requires c !in b
    ensures LastIndexOf(a + b, c) == LastIndexOf(a, c)
    decreases |b|
  {
    if b != [] {
      var s := a + b;
      var b' := b[..|b| - 1];
      assert s[|s| - 1] == b[|b| - 1];
      assert s[..|s| - 1] == a + b';
      LastIndexOfAppend(a, b', c);
    } else {
      assert a + b == a;
    }
  }

  /** A `c` with none after it is the last `c`. */
  lemma LastIndexOfAt(s: string, k: int, c: char)
    requires 0 <= k < |s| && s[k] == c && c !in s[k + 1..]
    ensures LastIndexOf(s, c) == k
  {
    assert c in s;
  }

  /** When the last dot of a name is neither its first nor its last character, the suffix
      of a path with that name runs from that dot to the end. */
  lemma SuffixAtLastDot(p: string, k: int)
    requires 0 < k < |Name(p)| - 1 && LastIndexOf(Name(p), '.') == k
    ensures Suffix(p) == Name(p)[k..]
  {
  }

  /** The last dot of `stem + ext` is the first character of `ext` when no other is a dot. */
  lemma LastDotOfFile(stem: string, ext: string)
    requires |ext| >= 1 && ext[0] == '.' && '.' !in ext[1..]
    ensures LastIndexOf(stem + ext, '.') == |stem|
  {
    var n := stem + ext;
    assert n[|stem|] == '.' && n[|stem| + 1..] == ext[1..];
    LastIndexOfAt(n, |stem|, '.');
  }

  /** A file named `stem + ext` has that name, directly or under a directory. */
  lemma NameOfFile(dir: string, stem: string, ext: string)
    requires stem != "" && ext != "" && '/' !in stem && '/' !in ext
    ensures Name(stem + ext) == stem + ext
    ensures Name(dir + "/" + stem + ext) == stem + ext
  {
    var n := stem + ext;
    assert |n| >= 2;
    assert '/' !in n by {
      assert forall k | 0 <= k < |n| :: n[k] == if k < |stem| then stem[k] else ext[k - |stem|];
    }
    NameOfChild(dir, n);
    assert dir + "/" + stem + ext == dir + "/" + n;
  }

  /** A file named `stem + ext`, where `ext` is a dot followed by a non-empty dot-free text
      and `stem` is non-empty, has the suffix `ext`, directly or under a directory. */
  lemma SuffixOfFile(dir: string, stem: string, ext: string)
    requires stem != "" && '/' !in stem
    requires |ext| >= 2 && ext[0] == '.' && '.' !in ext[1..] && '/' !in ext
    ensures Suffix(stem + ext) == ext
    ensures Suffix(dir + "/" + stem + ext) == ext
  {
    LastDotOfFile(stem, ext);
    NameOfFile(dir, stem, ext);
    assert (stem + ext)[|stem|..] == ext;
    SuffixAtLastDot(stem + ext, |stem|);
    SuffixAtLastDot(dir + "/" + stem + ext, |stem|);
  }

  /** Names without a real suffix are unsupported: no dot at all, a dot only in first
      position (".mp4"), or a dot in last position ("movie."). */
  lemma NoSuffixUnsupported(p: string)
    requires var name := Name(p);
      '.' !in name
      || (name[0] == '.' && '.' !in name[1..])
      || (name != "" && name[|name| - 1] == '.')
    ensures Suffix(p) == ""
    ensures Classify(p) == Unsupported
  {
    var name := Name(p);
    var i := LastIndexOf(name, '.');
    if name != "" && name[|name| - 1] == '.' {
      assert i == |name| - 1;
    }
    assert Lower(Suffix(p)) == [];
  }

  // ---------------------------------------------------------------------------
  // Case folding commutes with the path structure

  /** Two strings whose characters are `c` at the same positions have the same last `c`. */
  lemma {:induction false} LastIndexOfAgree(s: string, t: string, c: char)
    requires |s| == |t|
    requires forall k :: 0 <= k < |s| ==> (s[k] == c <==> t[k] == c)
    ensures LastIndexOf(s, c) == LastIndexOf(t, c)
  {
    if s != [] && s[|s| - 1] != c {
      LastIndexOfAgree(s[..|s| - 1], t[..|t| - 1], c);
    }
  }

  lemma LowerTake(s: string, i: int)
    requires 0 <= i <= |s|
    ensures Lower(s)[..i] == Lower(s[..i])
  {
  }

  lemma LowerDrop(s: string, i: int)
    requires 0 <= i <= |s|
    ensures Lower(s)[i..] == Lower(s[i..])
  {
  }

  /** Lower-casing moves neither the last dot nor the last separator. */
  lemma LastIndexOfLower(s: string, c: char)
    requires c == '.' || c == '/'
    ensures LastIndexOf(Lower(s), c) == LastIndexOf(s, c)
  {
    LastIndexOfAgree(s, Lower(s), c);
  }

  /** Each piece lower-cased, in order. */
  function LowerAll(pieces: seq<string>): (l: seq<string>)
    ensures |l| == |pieces|
  {
    if pieces == [] then []
    else LowerAll(pieces[..|pieces| - 1]) + [Lower(pieces[|pieces| - 1])]
  }

  lemma {:induction false} LowerAllAppend(a: seq<string>, b: seq<string>)
    ensures LowerAll(a + b) == LowerAll(a) + LowerAll(b)
    decreases |b|
  {
    if b != [] {
      var b' := b[..|b| - 1];
      assert (a + b)[..|a + b| - 1] == a + b';
      LowerAllAppend(a, b');
    } else {
      assert a + b == a;
    }
  }

  /** Splitting a path whose last separator is at `i`. */
  lemma SplitAt(s: string, i: int)
    requires 0 <= i && i == LastIndexOf(s, '/')
    ensures Split(s) == Split(s[..i]) + [s[i + 1..]]
  {
  }

  /** Splitting the lower-cased path at the last separator of the path. */
  lemma SplitLowerAt(s: string, i: int)
    requires 0 <= i && i == LastIndexOf(s, '/')
    ensures Split(Lower(s)) == Split(Lower(s[..i])) + [Lower(s[i + 1..])]
  {
    var l := Lower(s);
    LastIndexOfAgree(s, l, '/');
    SplitAt(l, i);
    var front, back := l[..i], l[i + 1..];
    assert front == Lower(s[..i]) by { LowerTake(s, i); }
    assert back == Lower(s[i + 1..]) by { LowerDrop(s, i + 1); }
  }

  /** Lower-casing commutes with splitting on '/'. */
  lemma {:induction false} SplitLower(s: string)
    ensures Split(Lower(s)) == LowerAll(Split(s))
    decreases |s|
  {
    var i := LastIndexOf(s, '/');
    if 0 <= i {
      var front, back := Split(s[..i]), s[i + 1..];
      SplitLowerAt(s, i);
      SplitLower(s[..i]);
      LowerAllAppend(front, [back]);
      assert LowerAll([back]) == [Lower(back)];
      SplitAt(s, i);
    } else {
      LastIndexOfAgree(s, Lower(s), '/');
      assert LowerAll([s]) == [Lower(s)];
    }
  }

  lemma LowerIsComponent(piece: string)
    ensures IsComponent(Lower(piece)) <==> IsComponent(piece)
  {
    if |piece| == 1 {
      assert Lower(piece) == [LowerChar(piece[0])];
    }
  }

  /** Lower-casing commutes with dropping the pieces that are not components. */
  lemma {:induction false} ComponentsLower(pieces: seq<string>)
    ensures Components(LowerAll(pieces)) == LowerAll(Components(pieces))
  {
    if pieces != [] {
      var init, last := pieces[..|pieces| - 1], pieces[|pieces| - 1];
      var lowered := LowerAll(pieces);
      assert lowered == LowerAll(init) + [Lower(last)];
      assert lowered[..|lowered| - 1] == LowerAll(init);
      ComponentsLower(init);
      LowerIsComponent(last);
      LowerAllAppend(Components(init), if IsComponent(last) then [last] else []);
      assert LowerAll([last]) == [Lower(last)];
    }
  }

  lemma NameLower(p: string)
    ensures Name(Lower(p)) == Lower(Name(p))
  {
    SplitLower(p);
    ComponentsLower(Split(p));
    var cs := Components(Split(p));
    if cs != [] {
      assert LowerAll(cs) == LowerAll(cs[..|cs| - 1]) + [Lower(cs[|cs| - 1])];
    }
  }

  /** Lower-casing a path and taking its suffix gives the lower-cased suffix. */
  lemma SuffixLower(p: string)
    ensures Suffix(Lower(p)) == Lower(Suffix(p))
  {
    var name := Name(p);
    NameLower(p);
    LastIndexOfLower(name, '.');
    var i := LastIndexOf(name, '.');
    if 0 < i < |name| - 1 {
      LowerDrop(name, i);
    }
  }

  /** Classification ignores case: paths that agree once lower-cased route alike. */
  lemma ClassifyIgnoresCase(p: string, q: string)
    requires Lower(p) == Lower(q)
    ensures Classify(p) == Classify(q)
  {
    SuffixLower(p);
    SuffixLower(q);
  }

  /** In particular `X.MP4` and `x.mp4` route alike: upper-casing a path changes nothing. */
  lemma ClassifyUpper(p: string)
    ensures Classify(Upper(p)) == Classify(p)
  {
    assert Lower(Upper(p)) == Lower(p) by {
      forall k | 0 <= k < |p| ensures Lower(Upper(p))[k] == Lower(p)[k] {
        var c := p[k];
        if 'a' <= c <= 'z' {
          assert ((c as int - 32) as char as int + 32) as char == c;
        }
      }
    }
    ClassifyIgnoresCase(Upper(p), p);
  }

  /** Each listed extension is a dot and three dot-free characters that lower-casing
      leaves unchanged. */
  lemma ExtensionShape(ext: string)
    requires ext in VideoExts + AudioExts
    ensures |ext| == 4 && ext[0] == '.' && '.' !in ext[1..] && '/' !in ext
    ensures Lower(ext) == ext
  {
    var ch := ext[1..];
    assert ch in {"mp4", "mkv", "mov", "avi", "flv", "wav", "mp3", "m4a", "aac", "ogg"};
    forall k | 0 <= k < 4 ensures Lower(ext)[k] == ext[k] {
      assert ext[k] == '.' || 'a' <= ext[k] <= 'z' || '0' <= ext[k] <= '9';
    }
  }

  /** No extension is in both sets, so at most one route can apply. */
  lemma ExtsDisjoint()
    ensures VideoExts * AudioExts == {}
  {
  }

  /** Every listed extension routes its file, named with any non-empty stem and in any
      directory, to its own path. */
  lemma ExtensionsRoute(dir: string, stem: string, ext: string)
    requires stem != "" && '/' !in stem
    requires ext in VideoExts + AudioExts
    ensures ext in VideoExts ==> Classify(stem + ext) == Video && Classify(dir + "/" + stem + ext) == Video
    ensures ext in AudioExts ==> Classify(stem + ext) == Audio && Classify(dir + "/" + stem + ext) == Audio
  {
    ExtensionShape(ext);
    SuffixOfFile(dir, stem, ext);
    assert Lower(Suffix(stem + ext)) == ext;
    assert Lower(Suffix(dir + "/" + stem + ext)) == ext;
  }
}
