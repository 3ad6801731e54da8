/**
  `os.path.basename` and `os.path.splitext` as POSIX Python defines them
  (module `posixpath`): the separator is '/', the extension separator '.'.
*/
module PathNames {

  /** One past the last '/' in `p[..j]`, or 0 when there is none. */
  function AfterLastSlash(p: string, j: nat): (i: nat)
    requires j <= |p|
    ensures i <= j
    ensures i > 0 ==> p[i - 1] == '/'
    ensures forall k :: i <= k < j ==> p[k] != '/'
    decreases j
  {
    if j == 0 then 0 else if p[j - 1] == '/' then j else AfterLastSlash(p, j - 1)
  }

  /** `os.path.basename(p)`: everything after the last '/'. */
  function Basename(p: string): string {
    p[AfterLastSlash(p, |p|)..]
  }

  /** The basename holds no '/', ends `p`, and is all of `p` or follows a
      '/'. */
  lemma BasenameShape(p: string)
    ensures var name := Basename(p);
      && '/' !in name
      && |name| <= |p| && p[|p| - |name|..] == name
      && (|name| < |p| ==> p[|p| - |name| - 1] == '/')
  {
    var i := AfterLastSlash(p, |p|);
    assert forall c :: c in p[i..] ==> c != '/';
  }

  /** Scanning back from `j` over characters that are not '/' reaches the
      '/' just before `lo`. */
  lemma {:induction false} AfterSlashAt(p: string, lo: nat, j: nat)
    requires 0 < lo <= j <= |p| && p[lo - 1] == '/'
    requires forall k :: lo <= k < j ==> p[k] != '/'
    ensures AfterLastSlash(p, j) == lo
    decreases j
  {
    if j > lo { AfterSlashAt(p, lo, j - 1); }
  }

  /** A name without '/' placed after a directory ending in '/' is that
      path's basename. */
  lemma BasenameAfterSlash(dir: string, name: string)
    requires dir != [] && dir[|dir| - 1] == '/' && '/' !in name
    ensures Basename(dir + name) == name
  {
    var p := dir + name;
    forall k | |dir| <= k < |p| ensures p[k] != '/' {
      assert p[k] == name[k - |dir|];
    }
    assert p[|dir| - 1] == dir[|dir| - 1];
    AfterSlashAt(p, |dir|, |p|);
    assert p[|dir|..] == name;
  }

  /** The position of the last '.' in `p[lo..j]`, if any. */
  function LastDot(p: string, lo: nat, j: nat): (d: int)
    requires lo <= j <= |p|
    ensures d == -1 || (lo <= d < j && p[d] == '.')
    ensures forall k :: (if d == -1 then lo else d + 1) <= k < j ==> p[k] != '.'
    decreases j
  {
    if j == lo then -1 else if p[j - 1] == '.' then j - 1 else LastDot(p, lo, j - 1)
  }

  /** True when `p[lo..d]` holds some character other than '.'. */
  predicate HasNonDot(p: string, lo: nat, d: nat)
    requires lo <= d <= |p|
  {
    exists k :: lo <= k < d && p[k] != '.'
  }

  /** `os.path.splitext(p)`: the extension runs from the last '.' of the
      last path component, unless everything before that '.' in the
      component is dots (a name like ".bashrc" has no extension). */
  function SplitExt(p: string): (string, string) {
    var lo := AfterLastSlash(p, |p|);
    var d := LastDot(p, lo, |p|);
    if d >= 0 && HasNonDot(p, lo, d) then (p[..d], p[d..]) else (p, "")
  }

  /** Stem and extension put back together give the path. */
  lemma SplitExtJoins(p: string)
    ensures SplitExt(p).0 + SplitExt(p).1 == p
  {
    var lo := AfterLastSlash(p, |p|);
    var d := LastDot(p, lo, |p|);
    if d >= 0 && HasNonDot(p, lo, d) {
      assert p[..d] + p[d..] == p;
    } else {
      assert p + "" == p;
    }
  }

  /** The extension is empty, or a '.' followed by neither '.' nor '/'. */
  lemma ExtensionShape(p: string)
    ensures var ext := SplitExt(p).1;
      ext == [] || (ext[0] == '.' && forall k :: 0 < k < |ext| ==> ext[k] != '.' && ext[k] != '/')
  {
    var lo := AfterLastSlash(p, |p|);
    var d := LastDot(p, lo, |p|);
    if d >= 0 && HasNonDot(p, lo, d) {
      var ext := p[d..];
      forall k | 0 < k < |ext| ensures ext[k] != '.' && ext[k] != '/' {
        assert ext[k] == p[d + k];
      }
    }
  }

  /** A name whose last '.' follows some other character gets that '.'
      and everything after it as its extension. */
  lemma ExtensionOfDottedName(stem: string, ext: string)
    requires stem != [] && stem[0] != '.' && '/' !in stem
    requires ext != [] && ext[0] == '.' && '.' !in ext[1..] && '/' !in ext
    ensures SplitExt(stem + ext) == (stem, ext)
  {
    var p := stem + ext;
    assert forall k :: 0 <= k < |p| ==> p[k] != '/' by {
      forall k | 0 <= k < |p| ensures p[k] != '/' {
        if k < |stem| { assert p[k] == stem[k]; } else { assert p[k] == ext[k - |stem|]; }
      }
    }
    var lo := AfterLastSlash(p, |p|);
    assert lo == 0;
    var d := LastDot(p, lo, |p|);
    assert p[|stem|] == '.';
    forall k | |stem| < k < |p| ensures p[k] != '.' {
      assert p[k] == ext[k - |stem|] == ext[1..][k - |stem| - 1];
    }
    assert p[0] == stem[0];
    assert HasNonDot(p, lo, d);
  }
}
