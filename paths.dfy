/** File-system paths as the Rust code manipulates them through
    `std::path::Path`: `/`-separated strings, with `join`, `parent`,
    `file_name` and `is_absolute`. */
module Paths {
  import opened Wrappers

  const Separator: char := '/'

  /** `{:?}` of a path: the path in double quotes. */
  function Quoted(p: string): string {
    "\"" + p + "\""
  }

  /** `Path::is_absolute` on a Unix-style path. */
  predicate IsAbsolute(p: string) {
    |p| > 0 && p[0] == Separator
  }

  /** `dir.join(name)`: an absolute `name` replaces `dir`; otherwise one
      separator stands between them unless `dir` is empty or already ends with one. */
  function JoinPath(dir: string, name: string): (r: string)
    ensures IsAbsolute(name) ==> r == name
    ensures !IsAbsolute(name) && IsAbsolute(dir) ==> IsAbsolute(r)
    ensures !IsAbsolute(name) ==> dir <= r
    ensures |name| <= |r| && r[|r| - |name|..] == name
  {
    if IsAbsolute(name) || dir == "" then name
    else if dir[|dir| - 1] == Separator then dir + name
    else dir + [Separator] + name
  }

  /** The index of the last occurrence of `c`, if any. */
  function LastIndexOf(s: string, c: char): (r: Option<nat>)
    ensures r.Some? ==> r.value < |s| && s[r.value] == c && c !in s[r.value + 1..]
    ensures r.None? <==> c !in s
  {
    if |s| == 0 then None
    else if s[|s| - 1] == c then Some(|s| - 1)
    else
      var r := LastIndexOf(s[..|s| - 1], c);
      assert r.Some? ==> s[r.value + 1..] == s[..|s| - 1][r.value + 1..] + [s[|s| - 1]];
      assert c !in s[..|s| - 1] ==> s == s[..|s| - 1] + [s[|s| - 1]];
      r
  }

  /** The last occurrence is the one occurrence with no other after it. */
  lemma LastIndexUnique(s: string, c: char, i: nat)
    requires i < |s| && s[i] == c && c !in s[i + 1..]
    ensures LastIndexOf(s, c) == Some(i)
  {
    assert c in s;
  }

  /** The last occurrence of `c` in `a + [c] + b`, when `b` lacks `c`, is at `|a|`. */
  lemma LastIndexBeforeSuffix(a: string, c: char, b: string)
    requires c !in b
    ensures LastIndexOf(a + [c] + b, c) == Some(|a|)
  {
    var s := a + [c] + b;
    assert s[|a| + 1..] == b;
    LastIndexUnique(s, c, |a|);
  }

  /** `p` as `Path::components` reads it from the back: trailing separators
      and trailing `.` components are not components, so they are dropped;
      a lone root and a lone `.` stay. */
  function Trim(p: string): (t: string)
    ensures |t| <= |p| && t == p[..|t|]
    ensures p != "" ==> t != ""
    decreases |p|
  {
    if |p| > 1 && (p[|p| - 1] == Separator || (p[|p| - 1] == '.' && p[|p| - 2] == Separator)) then
      Trim(p[..|p| - 1])
    else p
  }

  /** `Path::parent`: `None` for the empty path and the root; the empty path
      for a single relative component; otherwise the path before the last
      component, without the separators and `.` components in front of it. */
  function ParentDir(p: string): Option<string> {
    var t := Trim(p);
    if t == "" || t == [Separator] then None
    else
      match LastIndexOf(t, Separator)
      case None => Some("")
      case Some(i) => Some(Trim(t[..i + 1]))
  }

  /** Only the empty path and the root have no parent; a parent is a
      proper prefix of the path. */
  lemma ParentDirIsPrefix(p: string)
    ensures ParentDir(p).None? <==> Trim(p) == "" || Trim(p) == [Separator]
    ensures ParentDir(p).Some? ==> |ParentDir(p).value| < |p| && ParentDir(p).value == p[..|ParentDir(p).value|]
  {
    var t := Trim(p);
    if t != "" && t != [Separator] && LastIndexOf(t, Separator).Some? {
      var i := LastIndexOf(t, Separator).value;
      var q := Trim(t[..i + 1]);
      assert t[..i + 1] == p[..i + 1];
      assert q == p[..|q|];
    }
  }

  /** What follows the last separator, or the whole path when it has none. */
  function LastComponent(p: string): string {
    match LastIndexOf(p, Separator)
    case None => p
    case Some(i) => p[i + 1..]
  }

  /** `Path::file_name`: the last component, `None` when there is none (the
      empty path, the root, a lone `.`) or when it is `..`. */
  function FileName(p: string): (r: Option<string>)
    ensures r.Some? ==> r.value !in {"", ".", ".."} && Separator !in r.value
  {
    var last := LastComponent(Trim(p));
    if last == "" || last == "." || last == ".." then None else Some(last)
  }

  /** A file name is the tail of the path, once trailing separators and
      `.` components are dropped. */
  lemma FileNameEndsPath(p: string)
    ensures FileName(p).Some? ==>
              var t := Trim(p);
              |FileName(p).value| < |t| || FileName(p).value == t
    ensures FileName(p).Some? ==>
              var t := Trim(p);
              t[|t| - |FileName(p).value|..] == FileName(p).value
  {
    var t := Trim(p);
    match LastIndexOf(t, Separator)
    case None =>
      assert LastComponent(t) == t;
    case Some(i) =>
      assert LastComponent(t) == t[i + 1..];
      assert |t[i + 1..]| < |t|;
  }

  /** Searching from the end finds the last occurrence in a suffix first. */
  lemma LastIndexInSuffix(a: string, b: string, c: char, j: nat)
    requires j < |b| && b[j] == c && c !in b[j + 1..]
    ensures LastIndexOf(a + b, c) == Some(|a| + j)
  {
    var s := a + b;
    assert s[|a| + j] == b[j];
    assert s[|a| + j + 1..] == b[j + 1..];
    LastIndexUnique(s, c, |a| + j);
  }

  /** Whatever precedes a separator does not change the last component of
      what follows it. */
  lemma LastComponentAfterSeparator(front: string, p: string)
    requires p != ""
    ensures LastComponent(front + [Separator] + p) == LastComponent(p)
  {
    var head := front + [Separator];
    var s := head + p;
    assert front + [Separator] + p == s;
    if Separator in p {
      var j := LastIndexOf(p, Separator).value;
      LastIndexInSuffix(head, p, Separator, j);
      assert s[|head| + j + 1..] == p[j + 1..];
    } else {
      LastIndexBeforeSuffix(front, Separator, p);
      assert s[|front| + 1..] == p;
    }
  }

  /** Trimming a relative path behind a separator trims only that path,
      unless it is `.` once trimmed, which is then no component at all. */
  lemma {:induction false} TrimAfterSeparator(front: string, p: string)
    requires p != "" && !IsAbsolute(p) && Trim(p) != "."
    ensures Trim(front + [Separator] + p) == front + [Separator] + Trim(p)
    decreases |p|
  {
    var s := front + [Separator] + p;
    if |p| > 1 && (p[|p| - 1] == Separator || (p[|p| - 1] == '.' && p[|p| - 2] == Separator)) {
      var p' := p[..|p| - 1];
      assert s[..|s| - 1] == front + [Separator] + p';
      assert p'[0] == p[0];
      TrimAfterSeparator(front, p');
    } else {
      assert s[|s| - 1] == p[|p| - 1];
      if |p| == 1 {
        assert p != ".";
      } else {
        assert s[|s| - 2] == p[|p| - 2];
      }
    }
  }

  /** A relative path behind a separator has its own file name. */
  lemma FileNameAfterSeparator(front: string, p: string)
    requires p != "" && !IsAbsolute(p) && Trim(p) != "."
    ensures FileName(front + [Separator] + p) == FileName(p)
  {
    TrimAfterSeparator(front, p);
    LastComponentAfterSeparator(front, Trim(p));
  }

  /** A non-empty directory without its own trailing separator. */
  function DirFront(dir: string): string
    requires dir != ""
  {
    if dir[|dir| - 1] == Separator then dir[..|dir| - 1] else dir
  }

  /** Joining a relative path under a non-empty directory puts exactly one
      separator between them, and that separator does not change how the
      directory reads as a path. */
  lemma JoinShape(dir: string, p: string)
    requires dir != "" && !IsAbsolute(p)
    ensures JoinPath(dir, p) == DirFront(dir) + [Separator] + p
    ensures Trim(DirFront(dir) + [Separator]) == Trim(dir)
  {
    if dir[|dir| - 1] == Separator {
      var front := dir[..|dir| - 1];
      assert DirFront(dir) == front;
      assert dir == front + [Separator];
      assert JoinPath(dir, p) == dir + p;
    } else {
      assert DirFront(dir) == dir;
      assert JoinPath(dir, p) == dir + [Separator] + p;
      var d := dir + [Separator];
      assert |d| > 1 && d[|d| - 1] == Separator && d[..|d| - 1] == dir;
      assert Trim(d) == Trim(dir);
    }
  }

  /** Joining a relative path under a directory keeps its file name, unless
      the path is `.` (which names the directory itself). */
  lemma FileNameOfJoin(dir: string, p: string)
    requires p != "" && !IsAbsolute(p) && Trim(p) != "."
    ensures FileName(JoinPath(dir, p)) == FileName(p)
  {
    if dir != "" {
      JoinShape(dir, p);
      FileNameAfterSeparator(DirFront(dir), p);
    }
  }

  /** A single name other than `.` and `..` is its own file name. */
  lemma BareFileName(name: string)
    requires name !in {"", ".", ".."} && Separator !in name
    ensures Trim(name) == name
    ensures FileName(name) == Some(name)
  {
    assert name[|name| - 1] in name;
    assert |name| > 1 ==> name[|name| - 2] in name;
  }

  /** The parent of a single name behind a separator is what precedes it,
      read as a path. */
  lemma ParentOfBareAfterSeparator(front: string, name: string)
    requires name !in {"", ".", ".."} && Separator !in name
    ensures ParentDir(front + [Separator] + name) == Some(Trim(front + [Separator]))
  {
    BareFileName(name);
    assert name[0] in name;
    var s := front + [Separator] + name;
    TrimAfterSeparator(front, name);
    assert Trim(s) == s;
    LastIndexBeforeSuffix(front, Separator, name);
    assert s[..|front| + 1] == front + [Separator];
  }

  /** A single name joined under a directory is the file name of the result,
      and the directory, read as a path, is its parent. */
  lemma JoinThenSplit(dir: string, name: string)
    requires dir != "" && name !in {"", ".", ".."} && Separator !in name
    ensures FileName(JoinPath(dir, name)) == Some(name)
    ensures ParentDir(JoinPath(dir, name)) == Some(Trim(dir))
  {
    BareFileName(name);
    assert name[0] in name;
    FileNameOfJoin(dir, name);
    JoinShape(dir, name);
    ParentOfBareAfterSeparator(DirFront(dir), name);
  }
}
