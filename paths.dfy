/** The path arithmetic of `Gollum::Markup`: the directory a page lives in
    (`File.dirname(page.path)`), and the path `find_file` hands to the wiki's
    file lookup for a name written in a page. */
module Paths {

  /** The index of the last '/' in `s`, or -1 when there is none. */
  function LastSlash(s: string): (i: int)
    ensures -1 <= i < |s|
    ensures i >= 0 ==> s[i] == '/'
    ensures forall j :: i < j < |s| ==> s[j] != '/'
  {
    if |s| == 0 then -1
    else if s[|s| - 1] == '/' then |s| - 1
    else LastSlash(s[..|s| - 1])
  }

  /** `File.dirname` on a page path: "." when the path has no separator, "/"
      when its only separator is the leading one, and otherwise everything
      before the last separator. */
  function Dirname(path: string): (dir: string)
    ensures '/' !in path ==> dir == "."
    ensures '/' in path && (forall j :: 0 < j < |path| ==> path[j] != '/') ==> dir == "/"
    ensures (exists j :: 0 < j < |path| && path[j] == '/') ==>
      && 0 < |dir| < |path| && path[..|dir|] == dir && path[|dir|] == '/'
      && forall j :: |dir| < j < |path| ==> path[j] != '/'
  {
    var i := LastSlash(path);
    if i < 0 then "."
    else if i == 0 then "/"
    else path[..i]
  }

  /** The last component of a path: what follows its last separator. */
  function Basename(path: string): string
  {
    path[LastSlash(path) + 1..]
  }

  predicate IsAbsolute(name: string)
  {
    |name| > 0 && name[0] == '/'
  }

  /** `File.join(dir, name)` for a name that does not start with a separator:
      exactly one separator between the two, none added after a directory
      that already ends in one. */
  function Join(dir: string, name: string): string
  {
    if |dir| > 0 && dir[|dir| - 1] == '/' then dir + name else dir + "/" + name
  }

  /** The path `find_file` looks up for `name`, written in a page whose
      directory is `dir`: an absolute name loses its leading separator, a
      relative name is used as it is at the wiki root "." and is joined onto
      the directory elsewhere. Absoluteness is decided on the first character. */
  function Resolve(dir: string, name: string): string
  {
    if IsAbsolute(name) then name[1..]
    else if dir == "." then name
    else Join(dir, name)
  }

  /** Ruby's `name =~ /^\//`: `^` matches at the start of every line, so the
      test holds as soon as any line of `name` starts with a separator. */
  predicate SomeLineStartsWithSlash(name: string)
  {
    exists i :: 0 <= i < |name| && name[i] == '/' && (i == 0 || name[i - 1] == '\n')
  }

  /** `find_file`'s path exactly as written: the multi-line anchor decides
      absoluteness, and an "absolute" name loses its first character. */
  function ResolveAsWritten(dir: string, name: string): string
  {
    if SomeLineStartsWithSlash(name) then name[1..]
    else if dir == "." then name
    else Join(dir, name)
  }

  /** An absolute name resolves to itself without its leading separator,
      whatever the page's directory. */
  lemma AbsoluteIgnoresDirectory(dir1: string, dir2: string, name: string)
    requires IsAbsolute(name)
    ensures Resolve(dir1, name) == Resolve(dir2, name)
    ensures "/" + Resolve(dir1, name) == name
  {
  }

  /** A relative name from a page at the root is itself; from any other
      directory it is that directory, one separator, and the name. */
  lemma RelativeJoinsDirectory(dir: string, name: string)
    requires !IsAbsolute(name)
    ensures dir == "." ==> Resolve(dir, name) == name
    ensures dir != "." && (|dir| == 0 || dir[|dir| - 1] != '/') ==> Resolve(dir, name) == dir + "/" + name
    ensures dir != "." && |dir| > 0 && dir[|dir| - 1] == '/' ==> Resolve(dir, name) == dir + name
  {
  }

  /** Two separators in a row end at position `j` of `path`. */
  predicate DoubledSeparatorAt(path: string, j: int)
  {
    0 < j < |path| && path[j - 1] == '/' && path[j] == '/'
  }

  /** A page's own file name, resolved from the page's own directory, is the
      page's path: `find_file` and `File.dirname` agree. */
  lemma ResolveOwnPath(path: string)
    requires forall j :: !DoubledSeparatorAt(path, j)
    requires '/' in path ==> Dirname(path) != "."
    ensures Resolve(Dirname(path), Basename(path)) == path
  {
    var i := LastSlash(path);
    if i < 0 {
      ResolveOwnPathNoSeparator(path);
    } else if i == 0 {
      ResolveOwnPathTopLevel(path);
    } else {
      assert path[i] in path;
      assert !DoubledSeparatorAt(path, i);
      ResolveOwnPathNested(path);
    }
  }

  /** The three cases of ResolveOwnPath: no separator, a top-level absolute
      path, a path inside a directory. */
  lemma ResolveOwnPathNoSeparator(path: string)
    requires LastSlash(path) < 0
    ensures Resolve(Dirname(path), Basename(path)) == path
  {
    assert Dirname(path) == ".";
    assert Basename(path) == path;
    assert !IsAbsolute(path);
  }

  lemma ResolveOwnPathTopLevel(path: string)
    requires LastSlash(path) == 0
    ensures Resolve(Dirname(path), Basename(path)) == path
  {
    var base := path[1..];
    assert Dirname(path) == "/";
    assert Basename(path) == base;
    assert !IsAbsolute(base) by {
      if |base| > 0 { assert base[0] == path[1]; }
    }
    assert Resolve("/", base) == "/" + base;
    assert "/" + base == path;
  }

  lemma ResolveOwnPathNested(path: string)
    requires LastSlash(path) > 0
    requires path[..LastSlash(path)] != "."
    requires path[LastSlash(path) - 1] != '/'
    ensures Resolve(Dirname(path), Basename(path)) == path
  {
    var i := LastSlash(path);
    var dir, base := path[..i], path[i + 1..];
    assert Dirname(path) == dir;
    assert Basename(path) == base;
    assert !IsAbsolute(base) by {
      if |base| > 0 { assert base[0] == path[i + 1]; }
    }
    assert dir[|dir| - 1] != '/';
    assert Resolve(dir, base) == dir + "/" + base;
    assert dir + "/" + base == path;
  }

  /** The as-written test and the intended one agree on every single-line name. */
  lemma AsWrittenAgreesOnSingleLineNames(dir: string, name: string)
    requires '\n' !in name
    ensures ResolveAsWritten(dir, name) == Resolve(dir, name)
  {
    if IsAbsolute(name) {
      assert name[0] == '/';
    } else {
      forall i | 0 <= i < |name| && name[i] == '/'
        ensures !(i == 0 || name[i - 1] == '\n')
      {
        if i > 0 { assert name[i - 1] in name; }
      }
    }
  }

  /** A relative name whose second line starts with '/' is taken for an
      absolute one: its first character is dropped and the page's directory
      is ignored. */
  lemma AsWrittenMisreadsMultiLineName()
    ensures ResolveAsWritten("docs", "a\n/b") == "\n/b"
    ensures Resolve("docs", "a\n/b") == "docs/a\n/b"
  {
    var name := "a\n/b";
    assert name[2] == '/' && name[1] == '\n';
    assert SomeLineStartsWithSlash(name);
    assert name[1..] == "\n/b";
  }
}
