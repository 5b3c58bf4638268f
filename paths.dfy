/** The `os.path` functions the scripts use, with the POSIX separator `/` (module posixpath). */
module Paths {

  /** Index of the last `c` in `s`, or -1 (`str.rfind`). */
  function LastIndex(s: string, c: char): (k: int)
    ensures -1 <= k < |s|
    ensures k >= 0 ==> s[k] == c
    ensures forall i :: k < i < |s| ==> s[i] != c
  {
    if s == "" then -1 else if s[|s| - 1] == c then |s| - 1 else LastIndex(s[..|s| - 1], c)
  }

  /** `os.path.join(a, b)` for two components: an absolute `b` replaces `a`; otherwise `b` is
      appended after a separator, which is not doubled. */
  function Join(a: string, b: string): (p: string)
    ensures |b| <= |p| && p[|p| - |b|..] == b
    ensures a != "" && (b == "" || b[0] != '/') ==> |b| < |p| && p[|p| - |b| - 1] == '/'
  {
    if b != "" && b[0] == '/' then b
    else if a == "" || a[|a| - 1] == '/' then a + b
    else a + "/" + b
  }

  /** `os.path.basename(p)`: the text after the last separator. */
  function Basename(p: string): (b: string)
    ensures '/' !in b
    ensures |b| <= |p| && p[|p| - |b|..] == b
    ensures |b| < |p| ==> p[|p| - |b| - 1] == '/'
  {
    var k := LastIndex(p, '/');
    var b := p[k + 1..];
    assert forall j :: 0 <= j < |b| ==> b[j] != '/' by {
      forall j | 0 <= j < |b| ensures b[j] != '/' {
        assert b[j] == p[k + 1 + j];
      }
    }
    b
  }

  /** The last occurrence is the one with no occurrence after it. */
  lemma {:induction false} LastIndexIs(s: string, c: char, k: nat)
    requires k < |s| && s[k] == c
    requires forall i :: k < i < |s| ==> s[i] != c
    ensures LastIndex(s, c) == k
  {
    if k < |s| - 1 {
      LastIndexIs(s[..|s| - 1], c, k);
    }
  }

  lemma {:induction false} LastIndexAbsent(s: string, c: char)
    requires forall i :: 0 <= i < |s| ==> s[i] != c
    ensures LastIndex(s, c) == -1
  {
    if s != "" {
      LastIndexAbsent(s[..|s| - 1], c);
    }
  }

  /** A component without separators is its own base name wherever it is joined. */
  lemma BasenameOfJoin(dir: string, name: string)
    requires '/' !in name && dir != ""
    ensures Basename(Join(dir, name)) == name
  {
    var p := Join(dir, name);
    var k := |p| - |name| - 1;
    assert p[k] == '/';
    forall i | k < i < |p| ensures p[i] != '/' {
      assert p[i] == p[k + 1..][i - k - 1];
    }
    LastIndexIs(p, '/', k);
  }

  /** `os.path.splitext(p)`: the extension runs from the last dot of the last component, unless
      everything before that dot in the component is dots (a hidden file has no extension). */
  function SplitExt(p: string): (r: (string, string))
    ensures r.0 + r.1 == p
    ensures r.1 != "" ==> r.1[0] == '.' && '.' !in r.1[1..] && '/' !in r.1
  {
    var sep := LastIndex(p, '/');
    var dot := LastIndex(p, '.');
    if dot > sep && exists i :: sep + 1 <= i < dot && p[i] != '.' then
      assert p[..dot] + p[dot..] == p;
      assert forall i :: 0 <= i < |p[dot..]| - 1 ==> p[dot..][1..][i] == p[dot + 1 + i];
      (p[..dot], p[dot..])
    else (p, "")
  }

  /** `os.path.splitext(os.path.basename(p))[0]`: the file name without its extension. */
  function Stem(p: string): string {
    SplitExt(Basename(p)).0
  }

  /** `os.path.splitext(p)[1]`. */
  function Ext(p: string): string {
    SplitExt(p).1
  }

  /** A file saved as `<name><ext>` in a directory has the stem `name`, provided the name has no
      separator, contains a character other than a dot, and `ext` is a dot and letters without
      dots. */
  lemma StemOfSaved(dir: string, name: string, ext: string)
    requires dir != "" && '/' !in name && '.' !in ext && '/' !in ext
    requires exists i :: 0 <= i < |name| && name[i] != '.'
    ensures Stem(Join(dir, name + "." + ext)) == name
  {
    var file := name + "." + ext;
    assert forall i :: 0 <= i < |file| ==> file[i] != '/' by {
      forall i | 0 <= i < |file| ensures file[i] != '/' {
        if i > |name| {
          assert file[i] == ext[i - |name| - 1];
        }
      }
    }
    assert Basename(Join(dir, file)) == file by {
      BasenameOfJoin(dir, file);
    }
    assert LastIndex(file, '.') == |name| by {
      assert file[|name|] == '.';
      forall i | |name| < i < |file| ensures file[i] != '.' {
        assert file[i] == ext[i - |name| - 1];
      }
      LastIndexIs(file, '.', |name|);
    }
    assert LastIndex(file, '/') == -1 by {
      LastIndexAbsent(file, '/');
    }
    var i :| 0 <= i < |name| && name[i] != '.';
    assert file[i] != '.';
    assert file[..|name|] == name;
  }
}
