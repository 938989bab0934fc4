/**
 * Local path names: the sanitiser expression of `makePath`
 * (`re.sub(r'[<>:"/\\\\|?*]|\.\.\Z', '-', name).strip()`), POSIX
 * `os.path.join` and `os.path.isabs`, and the trailing-separator
 * normalisation that `os.path.exists` performs when it asks the OS about a
 * directory (the disk does not tell files from directories).
 */
module PathNames {

  /** The characters of the class `[<>:"/\\|?*]`: each one becomes `-`. */
  predicate IsReserved(c: char) {
    c == '<' || c == '>' || c == ':' || c == '"' || c == '/' || c == '\\' || c == '|' || c == '?' || c == '*'
  }

  /** Python's `str.isspace()`: the characters `str.strip()` removes. */
  predicate IsSpace(c: char) {
    var n := c as int;
    || (9 <= n <= 13) || (28 <= n <= 32) || n == 0x85 || n == 0xA0 || n == 0x1680
    || (0x2000 <= n <= 0x200A) || n == 0x2028 || n == 0x2029 || n == 0x202F
    || n == 0x205F || n == 0x3000
  }

  predicate EndsWithDotDot(s: string) {
    |s| >= 2 && s[|s| - 2] == '.' && s[|s| - 1] == '.'
  }

  /** What a character outside a final `..` becomes. */
  function Replaced(c: char): char {
    if IsReserved(c) then '-' else c
  }

  /**
   * `re.sub(r'[<>:"/\\\\|?*]|\.\.\Z', '-', s)`, scanning left to right as the
   * regex engine does: at each position the character class is tried first,
   * then `..` followed by the end of the string.
   */
  function Substitute(s: string): (r: string)
    ensures |r| == if EndsWithDotDot(s) then |s| - 1 else |s|
    ensures forall i :: 0 <= i < |s| && !(EndsWithDotDot(s) && i >= |s| - 2) ==> r[i] == Replaced(s[i])
    ensures EndsWithDotDot(s) ==> r[|r| - 1] == '-'
    ensures forall c :: c in r ==> !IsReserved(c)
  {
    if s == [] then []
    else if IsReserved(s[0]) then "-" + Substitute(s[1..])
    else if s == ".." then "-"
    else [s[0]] + Substitute(s[1..])
  }

  /** Number of whitespace characters at the front of `s`. */
  function LeadingSpaces(s: string): (n: nat)
    ensures n <= |s|
    ensures forall i :: 0 <= i < n ==> IsSpace(s[i])
    ensures n < |s| ==> !IsSpace(s[n])
  {
    if s != [] && IsSpace(s[0]) then 1 + LeadingSpaces(s[1..]) else 0
  }

  /** Number of whitespace characters at the back of `s`. */
  function TrailingSpaces(s: string): (n: nat)
    ensures n <= |s|
    ensures forall i :: |s| - n <= i < |s| ==> IsSpace(s[i])
    ensures n < |s| ==> !IsSpace(s[|s| - 1 - n])
  {
    if s != [] && IsSpace(s[|s| - 1]) then 1 + TrailingSpaces(s[..|s| - 1]) else 0
  }

  /** `r` is the slice of `s` left after removing whitespace at the front and at the back, and nothing else. */
  ghost predicate CutFromEnds(s: string, r: string) {
    exists i, j :: 0 <= i <= j <= |s| && r == s[i..j]
      && (forall k :: 0 <= k < i ==> IsSpace(s[k]))
      && (forall k :: j <= k < |s| ==> IsSpace(s[k]))
  }

  /** `str.strip()` with no argument. */
  function Strip(s: string): (r: string)
    ensures CutFromEnds(s, r)
    ensures r == [] || (!IsSpace(r[0]) && !IsSpace(r[|r| - 1]))
    ensures s == [] || (!IsSpace(s[0]) && !IsSpace(s[|s| - 1])) ==> r == s
  {
    var n := LeadingSpaces(s);
    var t := s[n..];
    var r := t[..|t| - TrailingSpaces(t)];
    StripCut(s, n, TrailingSpaces(t));
    r
  }

  lemma StripCut(s: string, n: nat, m: nat)
    requires n <= |s| && m <= |s| - n
    requires forall k :: 0 <= k < n ==> IsSpace(s[k])
    requires forall k :: |s| - n - m <= k < |s| - n ==> IsSpace(s[n..][k])
    ensures CutFromEnds(s, s[n..][..|s| - n - m])
  {
    var t := s[n..];
    var r := t[..|t| - m];
    assert r == s[n..n + |r|];
    forall k | n + |r| <= k < |s| ensures IsSpace(s[k]) {
      assert s[k] == t[k - n];
    }
  }

  /** The segment `makePath` creates for a remote folder name (line 178). */
  function Sanitize(name: string): (r: string)
    ensures CutFromEnds(Substitute(name), r)
    ensures forall c :: c in r ==> !IsReserved(c)
    ensures r == [] || (!IsSpace(r[0]) && !IsSpace(r[|r| - 1]))
  {
    var s := Substitute(name);
    CutKeepsCharacters(s, Strip(s));
    Strip(s)
  }

  lemma CutKeepsCharacters(s: string, r: string)
    requires CutFromEnds(s, r)
    ensures forall c :: c in r ==> c in s
  {
    var i, j :| 0 <= i <= j <= |s| && r == s[i..j];
    forall c | c in r ensures c in s {
      var k :| 0 <= k < |r| && r[k] == c;
      assert s[i + k] == c;
    }
  }

  /** Only reserved characters, a final `..` and surrounding whitespace are touched. */
  lemma {:induction false} SanitizeKeepsSafeNames(name: string)
    requires forall c :: c in name ==> !IsReserved(c)
    requires !EndsWithDotDot(name)
    requires name == [] || (!IsSpace(name[0]) && !IsSpace(name[|name| - 1]))
    ensures Sanitize(name) == name
  {
    var t := Substitute(name);
    assert |t| == |name|;
    forall i | 0 <= i < |name| ensures t[i] == name[i] {
      assert name[i] in name;
    }
    assert t == name;
  }

  /** The trim runs after the substitution, so a `..` followed by a blank stays. */
  lemma TrimAfterSubstitution()
    ensures Sanitize("x.. ") == "x.."
  {
    SubstituteKeepsDotsBeforeBlank();
    StripDropsFinalBlank();
  }

  lemma SubstituteKeepsDotsBeforeBlank()
    ensures Substitute("x.. ") == "x.. "
  {
    assert Substitute(" ") == " ";
    assert Substitute(". ") == ". ";
    assert Substitute(".. ") == ".. ";
  }

  lemma StripDropsFinalBlank()
    ensures Strip("x.. ") == "x.."
  {
    assert LeadingSpaces("x.. ") == 0;
    assert TrailingSpaces("x.. ") == 1 by {
      assert TrailingSpaces("x..") == 0;
    }
    assert "x.. "[0..] == "x.. ";
    assert "x.. "[..3] == "x..";
  }

  /** Only the last two dots of a run at the end form the final `..`. */
  lemma FinalDotsOnly()
    ensures Sanitize("a...") == "a.-"
  {
    SubstituteReplacesLastTwoDots();
    assert !IsSpace('a') && !IsSpace('-');
    assert Strip("a.-") == "a.-";
  }

  lemma SubstituteReplacesLastTwoDots()
    ensures Substitute("a...") == "a.-"
  {
    assert Substitute("..") == "-";
    assert Substitute("...") == ".-";
  }

  /** `posixpath.join(path, b)` for one added component. */
  function Join(path: string, b: string): string {
    if |b| > 0 && b[0] == '/' then b
    else if path == [] || path[|path| - 1] == '/' then path + b
    else path + "/" + b
  }

  /** `posixpath.isabs(p)`. */
  predicate IsAbs(p: string) {
    |p| > 0 && p[0] == '/'
  }

  /** The path the OS resolves `p` to, as for a directory: trailing separators are dropped (but `/` stays). */
  function Normalize(p: string): (r: string)
    ensures |r| <= |p| && r == p[..|r|]
    ensures forall i :: |r| <= i < |p| ==> p[i] == '/'
    ensures |p| > 0 ==> |r| > 0
    ensures |r| > 1 ==> r[|r| - 1] != '/'
  {
    if |p| > 1 && p[|p| - 1] == '/' then Normalize(p[..|p| - 1]) else p
  }

  /** `os.path.exists(p)` against the set of (normalised) paths on disk, each taken as a directory. */
  predicate Exists(disk: set<string>, p: string) {
    Normalize(p) in disk
  }

  /**
   * `p` lies inside directory `root`: it starts with `root` followed by a
   * separator (`os.path.join(root, "")`), so `/backup2/x` is not inside
   * `/backup`.
   */
  predicate IsUnder(root: string, p: string) {
    Join(root, "") <= p
  }

  /** `p` is inside `root` and names something other than `root` itself. */
  predicate StrictlyUnder(root: string, p: string) {
    IsUnder(root, p) && |p| > |Join(root, "")|
  }

  /** A segment that does not start with `/` is placed inside `dir`, after the separator; this holds for every sanitised name. */
  lemma JoinSegmentStaysUnder(dir: string, seg: string)
    requires |seg| == 0 || seg[0] != '/'
    ensures dir <= Join(dir, "")
    ensures IsUnder(dir, Join(dir, seg))
    ensures |Join(dir, seg)| == |Join(dir, "")| + |seg|
    ensures Join(dir, seg) == Join(dir, "") + seg
  {
  }

  /** `join(dir, "")` only adds a separator, so it names the same directory as `dir`. */
  lemma JoinEmptyNamesSameDirectory(dir: string)
    ensures Normalize(Join(dir, "")) == Normalize(dir)
  {
    if dir != [] && dir[|dir| - 1] != '/' {
      var j := dir + "/";
      assert Join(dir, "") == j;
      assert j[..|j| - 1] == dir;
      assert Normalize(j) == Normalize(dir);
    } else {
      assert dir + "" == dir;
    }
  }

  /** An absolute component discards the directory: `join("/backup", "/etc/x")` is `/etc/x`, which is not inside `/backup`. */
  lemma AbsoluteComponentEscapes(dir: string, b: string)
    requires IsAbs(b)
    ensures Join(dir, b) == b
    ensures Join("/backup", "/etc/x") == "/etc/x" && !IsUnder("/backup", "/etc/x")
  {
    assert Join("/backup", "") == "/backup/";
    assert "/backup/"[1] != "/etc/x"[1];
  }
}
