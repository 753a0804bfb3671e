/**
 Worked examples on the built-in category table: the extension split, the
 classification of a few names, the numbered renaming, and the
 difference between a dry-run preview and the real run that follows it.
 */
module Scenarios {
  import opened Strings
  import opened PathName
  import opened Classifier
  import opened Collision
  import opened Organizer

  /** The split keeps the case of the extension, and only the suffix from the last dot is the extension. */
  lemma SplitExamples()
    ensures SplitExt("Photo.JPG") == ("Photo", ".JPG")
    ensures SplitExt("archive.tar.gz") == ("archive.tar", ".gz")
  {
    assert "Photo.JPG" == "Photo" + ".JPG";
    SplitAtLastDot("Photo", ".JPG");
    assert "archive.tar.gz" == "archive.tar" + ".gz";
    SplitAtLastDot("archive.tar", ".gz");
  }

  /** A leading dot does not start an extension, and neither does a name without dots. */
  lemma SplitNoExtension()
    ensures SplitExt(".bashrc") == (".bashrc", "")
    ensures SplitExt("README") == ("README", "")
  {
    assert !HasExtension(".bashrc");
    SplitExtUnique(".bashrc", ".bashrc", "");
    assert !HasExtension("README");
    SplitExtUnique("README", "README", "");
  }

  lemma NormalExtPhoto()
    ensures NormalExt("Photo.JPG") == ".jpg"
  {
    assert "Photo.JPG" == "Photo" + ".JPG";
    SplitAtLastDot("Photo", ".JPG");
    assert Lower(".JPG") == ".jpg";
  }

  /** Upper- and lower-case extensions land in the same category. */
  lemma ClassifyImages()
    ensures Classify("Photo.JPG", DefaultTable) == "Images"
    ensures Classify("photo.jpg", DefaultTable) == "Images"
  {
    NormalExtPhoto();
    assert Claims(DefaultTable[0], ".jpg");
    LowerPhoto();
    ClassifyCaseInsensitive("Photo.JPG", "photo.jpg", DefaultTable);
  }

  lemma LowerPhoto()
    ensures Lower("Photo.JPG") == "photo.jpg"
  {
  }

  /** The normalised extension of a name that does not start with a dot and has a lower-case extension. */
  lemma PlainNormalExt(root: string, ext: string)
    requires root != [] && root[0] != '.'
    requires ext != [] && ext[0] == '.' && '.' !in ext[1..]
    requires NoUpperAscii(ext)
    ensures NormalExt(root + ext) == ext
  {
    SplitAtLastDot(root, ext);
    LowerOfLower(ext);
  }

  /** ".pdf" is in neither of the two rows before "PDFs". */
  lemma PdfNotEarlier()
    ensures ".pdf" !in DefaultTable[0].extensions
    ensures ".pdf" !in DefaultTable[1].extensions
  {
  }

  lemma ClassifyPdf()
    ensures Classify("b.pdf", DefaultTable) == "PDFs"
  {
    assert "b.pdf" == "b" + ".pdf";
    PlainNormalExt("b", ".pdf");
    PdfNotEarlier();
    assert Claims(DefaultTable[2], ".pdf");
  }

  /** An unknown extension falls back to "Other". */
  lemma ClassifyUnknown()
    ensures Classify("c.xyz", DefaultTable) == Other
  {
    assert "c.xyz" == "c" + ".xyz";
    PlainNormalExt("c", ".xyz");
    XyzUnlisted();
  }

  lemma XyzUnlisted()
    ensures forall k :: 0 <= k < |DefaultTable| ==> ".xyz" !in DefaultTable[k].extensions
  {
  }

  /** A name whose only dot is leading has no extension and falls back to "Other". */
  lemma ClassifyDotfile()
    ensures Classify(".bashrc", DefaultTable) == Other
  {
    SplitNoExtension();
    assert forall k :: 0 <= k < |DefaultTable| ==> "" !in DefaultTable[k].extensions;
    NoExtensionIsOther(".bashrc", DefaultTable);
  }

  /** `report.txt` collides and becomes `report (1).txt`; if that is taken too, `report (2).txt`. */
  lemma ResolveExamples()
    ensures Resolve("report.txt", {}) == "report.txt"
    ensures Resolve("report.txt", {"report.txt"}) == "report (1).txt"
    ensures Resolve("report.txt", {"report.txt", "report (1).txt"}) == "report (2).txt"
  {
    assert "report.txt"[0] != '.' && "report.txt"[6] == '.';
    SplitExtUnique("report.txt", "report", ".txt");
    assert Candidate("report.txt", 1) == "report (1).txt";
    assert Candidate("report.txt", 2) == "report (2).txt";
    ProbeLeast("report.txt", {"report.txt"}, 1);
    ProbeLeast("report.txt", {"report.txt", "report (1).txt"}, 2);
  }

  lemma NormalExtA()
    ensures NormalExt("a.jpg") == ".jpg"
    ensures NormalExt("a (1).jpg") == ".jpg"
  {
    assert "a.jpg" == "a" + ".jpg";
    PlainNormalExt("a", ".jpg");
    assert "a (1).jpg" == "a (1)" + ".jpg";
    PlainNormalExt("a (1)", ".jpg");
  }

  lemma JpgIsImage()
    ensures Claims(DefaultTable[0], ".jpg") && DefaultTable[0].name == "Images"
  {
  }

  lemma ClassifyA()
    ensures Classify("a.jpg", DefaultTable) == "Images"
    ensures Classify("a (1).jpg", DefaultTable) == "Images"
  {
    NormalExtA();
    JpgIsImage();
  }

  lemma ResolveFirst()
    ensures Resolve("a.jpg", {"a.jpg"}) == "a (1).jpg"
  {
    assert "a.jpg" == "a" + ".jpg";
    SplitAtLastDot("a", ".jpg");
    assert Candidate("a.jpg", 1) == "a (1).jpg";
    ProbeLeast("a.jpg", {"a.jpg"}, 1);
  }

  lemma ResolveSecondPreview()
    ensures Resolve("a (1).jpg", {"a.jpg"}) == "a (1).jpg"
  {
    assert |"a (1).jpg"| != |"a.jpg"|;
  }

  lemma CandidateA1()
    ensures Candidate("a (1).jpg", 1) == "a (1) (1).jpg"
  {
    assert "a (1).jpg" == "a (1)" + ".jpg";
    SplitAtLastDot("a (1)", ".jpg");
    assert Decimal(1) == "1";
    assert "a (1)" + " (" == "a (1) (";
    assert "a (1) (" + "1" == "a (1) (1";
    assert "a (1) (1" + ")" == "a (1) (1)";
  }

  lemma ResolveSecondReal()
    ensures Resolve("a (1).jpg", {"a.jpg", "a (1).jpg"}) == "a (1) (1).jpg"
  {
    CandidateA1();
    assert |"a (1) (1).jpg"| != |"a.jpg"| && |"a (1) (1).jpg"| != |"a (1).jpg"|;
    ProbeLeast("a (1).jpg", {"a.jpg", "a (1).jpg"}, 1);
  }

  /**
   With `Images` holding `a.jpg`, the dry-run preview works every plan out
   against the unchanged folder, so it suggests the same destination
   `a (1).jpg` for the top-level files `a.jpg` and `a (1).jpg`.
   */
  lemma PreviewSuggestsOneNameTwice(folder: Folder)
    requires Contents(folder, "Images") == {"a.jpg"}
    ensures Plan(folder, "a.jpg", DefaultTable) == MovePlan("a.jpg", "Images", "a (1).jpg")
    ensures Plan(folder, "a (1).jpg", DefaultTable) == MovePlan("a (1).jpg", "Images", "a (1).jpg")
  {
    ClassifyA();
    ResolveFirst();
    ResolveSecondPreview();
  }

  /** The real run that moves `a.jpg` first puts it at `a (1).jpg`. */
  lemma FirstMove(st: RunState)
    requires Ready(st, DefaultTable)
    requires IsFile(st.folder, "a.jpg")
    requires Contents(st.folder, "Images") == {"a.jpg"}
    ensures Contents(Step(st, "a.jpg", DefaultTable, false).folder, "Images") == {"a.jpg", "a (1).jpg"}
  {
    PreviewSuggestsOneNameTwice(st.folder);
  }

  /**
   After that first move the file `a (1).jpg` collides with the moved one and
   becomes `a (1) (1).jpg`, unlike its preview.
   */
  lemma RealRunDiffersFromPreview(st: RunState)
    requires Ready(st, DefaultTable)
    requires IsFile(st.folder, "a.jpg")
    requires Contents(st.folder, "Images") == {"a.jpg"}
    ensures Plan(Step(st, "a.jpg", DefaultTable, false).folder, "a (1).jpg", DefaultTable).dest == "a (1) (1).jpg"
  {
    FirstMove(st);
    ClassifyA();
    ResolveSecondReal();
  }
}
