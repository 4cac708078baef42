/**
 The parts of Python's `os.path` the plugin uses, with POSIX semantics
 (`posixpath`): `basename`, `dirname`, `join` of two parts and the
 extension half of `splitext`.
 */
module Paths {
  import Text

  /** `s.rfind(c)`: index of the last `c`, or -1. */
  function LastIndexOf(s: string, c: char): (r: int)
    ensures -1 <= r < |s|
    ensures r >= 0 ==> s[r] == c
    ensures forall j :: r < j < |s| ==> s[j] != c
  {
    if |s| == 0 then -1
    else if s[|s| - 1] == c then |s| - 1
    else LastIndexOf(s[..|s| - 1], c)
  }

  predicate NoSlash(s: string)
  {
    forall i :: 0 <= i < |s| ==> s[i] != '/'
  }

  function Basename(p: string): (r: string)
    ensures NoSlash(r)
  {
    p[LastIndexOf(p, '/') + 1..]
  }

  /** `head.rstrip('/')`. */
  function TrimSlashes(s: string): (r: string)
    ensures |r| <= |s| && r == s[..|r|]
  {
    if |s| > 0 && s[|s| - 1] == '/' then TrimSlashes(s[..|s| - 1]) else s
  }

  predicate AllSlashes(s: string)
  {
    forall i :: 0 <= i < |s| ==> s[i] == '/'
  }

  function Dirname(p: string): string
  {
    var head := p[..LastIndexOf(p, '/') + 1];
    if head != "" && !AllSlashes(head) then TrimSlashes(head) else head
  }

  /** `os.path.join(a, b)`. */
  function Join(a: string, b: string): string
  {
    if Text.StartsWith(b, "/") then b
    else if a == "" || Text.EndsWith(a, "/") then a + b
    else a + "/" + b
  }

  predicate AllDots(s: string)
  {
    forall i :: 0 <= i < |s| ==> s[i] == '.'
  }

  /**
   `os.path.splitext(p)[1]`: from the last dot of the final component, unless
   that component has only dots before it (a leading-dot name has no extension).
   */
  function Extension(p: string): string
  {
    var sep := LastIndexOf(p, '/');
    var dot := LastIndexOf(p, '.');
    if dot > sep && !AllDots(p[sep + 1..dot]) then p[dot..] else ""
  }

  /** An extension is empty or a dot followed by no separator. */
  lemma ExtensionShape(p: string)
    ensures var ext := Extension(p); NoSlash(ext) && (ext == "" || ext[0] == '.')
  {
    var sep := LastIndexOf(p, '/');
    var dot := LastIndexOf(p, '.');
    if dot > sep && !AllDots(p[sep + 1..dot]) {
      var ext := p[dot..];
      forall i | 0 <= i < |ext| ensures ext[i] != '/' {
        assert ext[i] == p[dot + i];
      }
    }
  }

  /** The last component of `a` joined with a plain name is that name. */
  lemma BasenameOfJoin(a: string, b: string)
    requires |b| > 0 && NoSlash(b)
    ensures Basename(Join(a, b)) == b
  {
    assert b[..1][0] == b[0] != '/';
    if a == "" {
      assert LastIndexOf(b, '/') == -1;
    } else if Text.EndsWith(a, "/") {
      assert a[|a| - 1..] == "/";
      BasenameAfter(a, b);
    } else {
      BasenameAfter(a + "/", b);
    }
  }

  /** Whatever follows the last slash is the base name. */
  lemma BasenameAfter(prefix: string, b: string)
    requires |prefix| > 0 && prefix[|prefix| - 1] == '/' && NoSlash(b)
    ensures Basename(prefix + b) == b
  {
    var j := prefix + b;
    forall i | |prefix| <= i < |j| ensures j[i] != '/' {
      assert j[i] == b[i - |prefix|];
    }
    assert j[|prefix| - 1] == '/';
    assert LastIndexOf(j, '/') == |prefix| - 1;
    assert j[|prefix|..] == b;
  }

  /** The directory part of `parent/name` is `parent` for a parent not ending in a slash. */
  lemma DirnameOfChild(parent: string, name: string)
    requires |parent| > 0 && parent[|parent| - 1] != '/'
    requires NoSlash(name)
    ensures Join(parent, name) == parent + "/" + name
    ensures Dirname(parent + "/" + name) == parent
  {
    var p := parent + "/" + name;
    assert !Text.EndsWith(parent, "/");
    assert !Text.StartsWith(name, "/");
    var k := LastIndexOf(p, '/');
    assert p[|parent|] == '/';
    forall j | |parent| < j < |p| ensures p[j] != '/' {
      assert p[j] == name[j - |parent| - 1];
    }
    assert k == |parent|;
    var head := p[..k + 1];
    assert head == parent + "/";
    assert head[|parent| - 1] != '/';
    assert TrimSlashes(head) == TrimSlashes(parent);
  }
}
