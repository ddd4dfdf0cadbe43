/**
  Suffix classification and the metadata path (genxml.py:109-122): the name
  is split at its extension, a compound archive suffix such as `.tgz` is
  rewritten to a `.tar` root plus its single-stage compression suffix, and
  any extension that is not a compression suffix is folded back into the
  root. The metadata file is the root with `.xml` appended, or the whole name
  with `.xml` appended when compression handling is switched off.
*/
module Classify {
  import opened Wrappers
  import opened PyPath

  /** The compression suffixes genxml.py recognises. */
  const Compressed: set<string> := {".gz", ".bz2", ".xz", ".lzma", ".Z", ".z"}

  /** The compound archive suffixes and the compression suffix each one implies. */
  function CompoundStage(ext: string): (s: Option<string>)
    ensures s.Some? ==> s.value in Compressed
  {
    if ext == ".tgz" then Some(".gz")
    else if ext == ".tbz" || ext == ".tbz2" then Some(".bz2")
    else if ext == ".txz" then Some(".xz")
    else if ext == ".tlz" then Some(".lzma")
    else None
  }

  datatype Classified = Classified(root: string, ext: string)

  /**
    The classification as a table lookup: the outcome `Classify` must reach.
    The extension is empty or a compression suffix; it is empty exactly when
    `splitext` found neither a compression nor a compound suffix, and then the
    root is the whole name; without a compound suffix root and extension
    join back to the name.
  */
  function Classification(fname: string): (c: Classified)
    ensures c.ext == "" || c.ext in Compressed
    ensures c.ext == "" <==> Splitext(fname).1 !in Compressed && CompoundStage(Splitext(fname).1).None?
    ensures c.ext == "" ==> c.root == fname
    ensures CompoundStage(Splitext(fname).1).None? ==> c.root + c.ext == fname
  {
    var (root, ext) := Splitext(fname);
    match CompoundStage(ext)
    case Some(single) => Classified(root + ".tar", single)
    case None => if ext in Compressed then Classified(root, ext) else Classified(root + ext, "")
  }

  /** The chain of suffix rewrites at genxml.py:109-117, one reassignment at a time. */
  method Classify(fname: string) returns (root: string, ext: string)
    ensures Classified(root, ext) == Classification(fname)
  {
    root, ext := Splitext(fname).0, Splitext(fname).1;
    if ext == ".tgz" { root := root + ".tar"; ext := ".gz"; }
    if ext == ".tbz" { root := root + ".tar"; ext := ".bz2"; }
    if ext == ".tbz2" { root := root + ".tar"; ext := ".bz2"; }
    if ext == ".txz" { root := root + ".tar"; ext := ".xz"; }
    if ext == ".tlz" { root := root + ".tar"; ext := ".lzma"; }
    if ext !in Compressed {
      root := root + ext;
      ext := "";
    }
  }

  /** The path of the metadata file (genxml.py:119-122). */
  function XmlPath(fname: string, root: string, noCompression: bool): string {
    if noCompression then fname + ".xml" else root + ".xml"
  }

  /** A name that ends in a compound suffix is classified as `.tar` plus the suffix it implies. */
  lemma CompoundSuffixRewritten(stem: string, compound: string)
    requires compound in {".tgz", ".tbz", ".tbz2", ".txz", ".tlz"}
    requires !AllChar(LastComponent(stem), '.')
    ensures CompoundStage(compound).Some?
    ensures Classification(stem + compound) == Classified(stem + ".tar", CompoundStage(compound).value)
  {
    DottedWord(compound);
    var word := compound[1..];
    assert stem + compound == stem + "." + word by {
      assert compound == "." + word;
    }
    SplitextOfDottedSuffix(stem, word);
    assert Splitext(stem + compound) == (stem, compound);
  }

  /** A name that ends in a compression suffix is classified as its stem and that suffix. */
  lemma CompressionSuffixKept(stem: string, suffix: string)
    requires suffix in Compressed
    requires !AllChar(LastComponent(stem), '.')
    ensures Classification(stem + suffix) == Classified(stem, suffix)
  {
    DottedWord(suffix);
    var word := suffix[1..];
    assert stem + suffix == stem + "." + word by {
      assert suffix == "." + word;
    }
    SplitextOfDottedSuffix(stem, word);
    assert Splitext(stem + suffix) == (stem, suffix);
  }

  /** Every suffix genxml.py recognises is a dot followed by a word with no dot or slash. */
  lemma DottedWord(suffix: string)
    requires suffix in Compressed || suffix in {".tgz", ".tbz", ".tbz2", ".txz", ".tlz"}
    ensures suffix != [] && suffix[0] == '.' && '.' !in suffix[1..] && '/' !in suffix[1..]
    ensures suffix in Compressed ==> CompoundStage(suffix).None?
    ensures suffix !in Compressed ==> CompoundStage(suffix).Some?
  {
  }

  /**
    Whatever the options, the metadata path is never the name of the file it
    describes, so writing the metadata cannot overwrite the data.
  */
  lemma XmlPathIsNotInput(fname: string, noCompression: bool)
    ensures XmlPath(fname, Classification(fname).root, noCompression) != fname
  {
    var c := Classification(fname);
    var x := XmlPath(fname, c.root, noCompression);
    var (root, ext) := Splitext(fname);
    if !noCompression && c.ext != "" {
      match CompoundStage(ext)
      case Some(_) =>
        assert fname == root + ext;
        assert |x| != |fname|;
      case None =>
        assert fname == c.root + c.ext;
        assert x[|c.root|..] == ".xml";
        assert fname[|c.root|..] == c.ext;
    }
  }
}
