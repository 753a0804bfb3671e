/**
 The extension split of Python's `os.path.splitext`, for a name that is a
 single path component (what `os.listdir` returns): the extension is the
 suffix from the last dot, unless every character before that dot is itself
 a dot (`.bashrc`, `..x`), in which case the extension is empty.
 */
module PathName {
  import opened Strings

  predicate AllDots(s: string)
  {
    forall k :: 0 <= k < |s| ==> s[k] == '.'
  }

  /**
   The independent characterisation: a name has an extension exactly when
   some dot comes after some character that is not a dot.
   */
  predicate HasExtension(name: string)
  {
    exists j, i :: 0 <= j < i < |name| && name[j] != '.' && name[i] == '.'
  }

  /** `os.path.splitext(name)` as the pair (root, extension). */
  function SplitExt(name: string): (r: (string, string))
    ensures r.0 + r.1 == name
    ensures r.1 != [] ==> r.1[0] == '.' && '.' !in r.1[1..]
    ensures r.1 != [] <==> HasExtension(name)
  {
    var d := RFind(name, '.');
    if 0 <= d && !AllDots(name[..d]) then
      assert exists j :: 0 <= j < d && name[..d][j] != '.';
      (name[..d], name[d..])
    else
      assert forall j, i :: 0 <= j < i < |name| && name[j] != '.' ==> name[i] != '.';
      (name, [])
  }

  function Extension(name: string): string
  {
    SplitExt(name).1
  }

  /** A non-empty extension with no further dot starts at the last dot of the name. */
  lemma ExtensionStartsAtLastDot(name: string, root: string, ext: string)
    requires root + ext == name
    requires ext != [] && ext[0] == '.' && '.' !in ext[1..]
    ensures |root| == RFind(name, '.')
  {
    var p := |root|;
    assert name[p] == '.';
    assert forall k :: p < k < |name| ==> name[k] == ext[1..][k - p - 1];
  }

  /** The three conditions on `SplitExt` determine the split completely. */
  lemma SplitExtUnique(name: string, root: string, ext: string)
    requires root + ext == name
    requires ext != [] ==> ext[0] == '.' && '.' !in ext[1..]
    requires ext != [] <==> HasExtension(name)
    ensures SplitExt(name) == (root, ext)
  {
    var r := SplitExt(name);
    if ext != [] {
      ExtensionStartsAtLastDot(name, root, ext);
      ExtensionStartsAtLastDot(name, r.0, r.1);
      assert root == name[..|root|] == r.0;
      assert ext == name[|root|..] == r.1;
    } else {
      assert r.1 == [];
      assert root + ext == root;
    }
  }

  /** A name that does not start with a dot splits at its last dot. */
  lemma SplitAtLastDot(root: string, ext: string)
    requires root != [] && root[0] != '.'
    requires ext != [] && ext[0] == '.' && '.' !in ext[1..]
    ensures SplitExt(root + ext) == (root, ext)
  {
    var name := root + ext;
    assert name[0] != '.' && name[|root|] == '.';
    SplitExtUnique(name, root, ext);
  }

  /** Lower-casing a name neither adds nor removes an extension. */
  lemma HasExtensionLower(name: string)
    ensures HasExtension(Lower(name)) <==> HasExtension(name)
  {
    var low := Lower(name);
    forall k | 0 <= k < |name|
      ensures low[k] == '.' <==> name[k] == '.'
    {
      LowerCharDot(name[k]);
    }
    if HasExtension(name) {
      var j, i :| 0 <= j < i < |name| && name[j] != '.' && name[i] == '.';
      assert low[j] != '.' && low[i] == '.';
    }
    if HasExtension(low) {
      var j, i :| 0 <= j < i < |low| && low[j] != '.' && low[i] == '.';
      assert name[j] != '.' && name[i] == '.';
    }
  }

  /** Splitting commutes with lower-casing. */
  lemma SplitExtLower(name: string)
    ensures SplitExt(Lower(name)) == (Lower(SplitExt(name).0), Lower(SplitExt(name).1))
  {
    var (root, ext) := SplitExt(name);
    LowerAppend(root, ext);
    HasExtensionLower(name);
    var lext := Lower(ext);
    if ext != [] {
      LowerCharDot(ext[0]);
      forall k | 0 <= k < |lext[1..]|
        ensures lext[1..][k] != '.'
      {
        LowerCharDot(ext[1..][k]);
      }
    }
    SplitExtUnique(Lower(name), Lower(root), lext);
  }

  /** The extension of the lower-cased name is the lower-cased extension. */
  lemma ExtensionLower(name: string)
    ensures Extension(Lower(name)) == Lower(Extension(name))
  {
    SplitExtLower(name);
  }
}
