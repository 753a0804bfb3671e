/** The optional value returned by table searches. */
module Options {
  datatype Option<T> = None | Some(value: T)
}

/**
 The classifier `get_category`: a file's category follows from its
 lower-cased extension alone, looked up in an ordered category table where
 the fallback category "Other" never takes part in the lookup.
 */
module Classifier {
  import opened Options
  import opened Strings
  import opened PathName

  /** The fallback category, returned when no other category claims an extension. */
  const Other: string := "Other"

  /** One row of the category table: the folder name and the extensions it owns. */
  datatype Category = Category(name: string, extensions: seq<string>)

  /** The table keeps the definition order of the source's dictionary literal. */
  type Table = seq<Category>

  function Names(table: Table): (r: seq<string>)
    ensures |r| == |table|
    ensures forall i :: 0 <= i < |table| ==> r[i] == table[i].name
  {
    if table == [] then [] else [table[0].name] + Names(table[1..])
  }

  /** A row claims an extension when it is not the fallback row and lists it. */
  predicate Claims(c: Category, ext: string)
  {
    c.name != Other && ext in c.extensions
  }

  /** The position of the first row, in table order, that claims `ext`. */
  function FirstClaim(table: Table, ext: string): (r: Option<nat>)
    ensures r.Some? ==> r.value < |table| && Claims(table[r.value], ext)
    ensures r.Some? ==> forall k :: 0 <= k < r.value ==> !Claims(table[k], ext)
    ensures r.None? <==> forall k :: 0 <= k < |table| ==> !Claims(table[k], ext)
  {
    if table == [] then None
    else if Claims(table[0], ext) then Some(0)
    else
      match FirstClaim(table[1..], ext)
      case None => None
      case Some(i) => Some(i + 1)
  }

  /** The lower-cased `os.path.splitext` extension the lookup uses. */
  function NormalExt(name: string): string
  {
    Lower(Extension(name))
  }

  /**
   `get_category(name, categories)`: the first non-fallback row whose list
   holds the lower-cased extension, or "Other" when there is none.
   */
  function Classify(name: string, table: Table): (r: string)
    ensures r == Other || r in Names(table)
    ensures r == Other <==> forall k :: 0 <= k < |table| ==> !Claims(table[k], NormalExt(name))
    ensures r != Other ==>
              exists i :: 0 <= i < |table| && table[i].name == r && Claims(table[i], NormalExt(name))
                          && forall k :: 0 <= k < i ==> !Claims(table[k], NormalExt(name))
  {
    match FirstClaim(table, NormalExt(name))
    case None => Other
    case Some(i) => table[i].name
  }

  /** The rows that claim `ext` are exactly one, or none. */
  ghost predicate Disjoint(table: Table)
  {
    forall i, j, ext :: 0 <= i < j < |table| && Claims(table[i], ext) ==> !Claims(table[j], ext)
  }

  /** In a table without overlaps, a claimed extension goes to its owner. */
  lemma ClassifyOwner(name: string, table: Table, i: nat)
    requires Disjoint(table)
    requires i < |table| && Claims(table[i], NormalExt(name))
    ensures Classify(name, table) == table[i].name
  {
    var ext := NormalExt(name);
    var r := Classify(name, table);
    var j :| 0 <= j < |table| && table[j].name == r && Claims(table[j], ext)
             && forall k :: 0 <= k < j ==> !Claims(table[k], ext);
  }

  /** Two tables that differ only in the fallback row's list classify alike. */
  lemma FallbackListIgnored(name: string, t1: Table, t2: Table)
    requires |t1| == |t2|
    requires forall k :: 0 <= k < |t1| ==> t1[k].name == t2[k].name
    requires forall k :: 0 <= k < |t1| && t1[k].name != Other ==> t1[k].extensions == t2[k].extensions
    ensures Classify(name, t1) == Classify(name, t2)
  {
    var ext := NormalExt(name);
    assert forall k :: 0 <= k < |t1| ==> (Claims(t1[k], ext) <==> Claims(t2[k], ext));
    var f1, f2 := FirstClaim(t1, ext), FirstClaim(t2, ext);
    if f1.Some? && f2.Some? {
      assert !(f1.value < f2.value) && !(f2.value < f1.value);
    }
  }

  /** Names equal up to ASCII case get the same category. */
  lemma ClassifyCaseInsensitive(a: string, b: string, table: Table)
    requires Lower(a) == Lower(b)
    ensures Classify(a, table) == Classify(b, table)
  {
    ExtensionLower(a);
    ExtensionLower(b);
    LowerIdempotent(Extension(a));
    LowerIdempotent(Extension(b));
    assert NormalExt(a) == Lower(Extension(Lower(a)));
    assert NormalExt(b) == Lower(Extension(Lower(b)));
  }

  /**
   A name without an extension (no dot, or only leading dots) is "Other"
   unless some row lists the empty extension.
   */
  lemma NoExtensionIsOther(name: string, table: Table)
    requires !HasExtension(name)
    requires forall k :: 0 <= k < |table| ==> [] !in table[k].extensions
    ensures Classify(name, table) == Other
  {
    assert NormalExt(name) == [];
  }

  /** Row names are pairwise distinct, as the keys of a dictionary are. */
  predicate DistinctNames(table: Table)
  {
    forall i, j :: 0 <= i < j < |table| ==> table[i].name != table[j].name
  }

  /** What the run relies on: distinct names and a fallback row to count into. */
  predicate WellFormed(table: Table)
  {
    DistinctNames(table) && Other in Names(table)
  }

  /** The category table both scripts define. */
  const DefaultTable: Table := [
    Category("Images", [".jpg", ".jpeg", ".png", ".gif", ".bmp", ".webp", ".svg", ".ico"]),
    Category("Documents", [".docx", ".doc", ".txt", ".xlsx", ".xls", ".pptx", ".ppt", ".odt", ".rtf"]),
    Category("PDFs", [".pdf"]),
    Category("Videos", [".mp4", ".mov", ".avi", ".mkv", ".wmv", ".webm", ".m4v"]),
    Category("Audio", [".mp3", ".wav", ".flac", ".aac", ".ogg", ".m4a", ".wma"]),
    Category("Archives", [".zip", ".rar", ".7z", ".tar", ".gz", ".bz2"]),
    Category("Other", [])
  ]

  /** The built-in table has distinct names and ends with the fallback row, whose list is empty. */
  lemma DefaultTableWellFormed()
    ensures WellFormed(DefaultTable)
    ensures DefaultTable[|DefaultTable| - 1] == Category(Other, [])
  {
    DefaultNamesDistinct();
    DefaultHasOther();
  }

  lemma DefaultNamesDistinct()
    ensures DistinctNames(DefaultTable)
  {
  }

  lemma DefaultHasOther()
    ensures Other in Names(DefaultTable)
  {
    assert Names(DefaultTable)[6] == DefaultTable[6].name;
  }
}
