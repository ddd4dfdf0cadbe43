/**
  The per-file loop of genxml.py (genxml.py:101-382): for every named file,
  the skip guards, the `file` element with its children in document order,
  and the metadata text written next to the file.

  The file system, `os.stat`, the account and group databases, the
  decoders and the escaping of character data are given as an `Env` of
  oracles. A run also sees the metadata files it has written itself: a path
  written for an earlier argument exists, and is a regular file, for every
  later one.
*/
module GenXml {
  import opened Wrappers
  import opened PyPath
  import opened Digest
  import opened Classify
  import opened Inflate
  import opened CliOptions
  import opened Md5sumFile
  import opened Decimal
  import opened XmlWriter

  /** What `os.stat` reports, the three timestamps already rendered as text. */
  datatype Stat = Stat(size: nat, uid: nat, gid: nat, atime: string, ctime: string, mtime: string)

  /** The world one run of genxml.py sees when it starts. */
  datatype Env = Env(
    isDir: string -> bool,
    isFile: string -> bool,
    present: string -> bool,
    stat: string -> Stat,
    blocks: string -> seq<Bytes>,
    text: string -> string,
    users: nat -> Option<string>,
    groups: nat -> Option<string>,
    decoders: string -> Oracles,
    hashes: Hashes,
    esc: string -> string)

  /**
    A file system as the operating system presents it: directories and
    regular files exist, and nothing is both.
  */
  ghost predicate WellFormed(env: Env) {
    forall p :: (env.isDir(p) || env.isFile(p) ==> env.present(p)) && !(env.isDir(p) && env.isFile(p))
  }

  /** `os.path.isdir`, after the run has written the metadata files in `created`. */
  predicate IsDir(env: Env, created: set<string>, p: string) {
    p !in created && env.isDir(p)
  }

  /** `os.path.isfile`, after the run has written the metadata files in `created`. */
  predicate IsFile(env: Env, created: set<string>, p: string) {
    p in created || env.isFile(p)
  }

  /** `os.path.exists`, after the run has written the metadata files in `created`. */
  predicate Exists(env: Env, created: set<string>, p: string) {
    p in created || env.present(p)
  }

  /** The metadata a run writes keeps the file system well formed: each path is a regular file that exists. */
  lemma WritesKeepWellFormed(env: Env, created: set<string>)
    requires WellFormed(env)
    ensures forall p :: IsDir(env, created, p) || IsFile(env, created, p) ==> Exists(env, created, p)
    ensures forall p :: !(IsDir(env, created, p) && IsFile(env, created, p))
    ensures forall p :: p in created ==> IsFile(env, created, p) && Exists(env, created, p) && !IsDir(env, created, p)
  {
  }

  datatype SkipReason = Directory | NotRegularFile | MetadataExists

  /**
    The three guards (genxml.py:103-108, 125-127), in their order: a
    directory, then anything that is not a regular file, then a file whose
    metadata already exists. A file passes exactly when none applies.
  */
  function SkipGuard(isDir: bool, isFile: bool, xmlExists: bool): (r: Option<SkipReason>)
    ensures r.None? <==> !isDir && isFile && !xmlExists
    ensures r == Some(Directory) <==> isDir
    ensures r == Some(NotRegularFile) <==> !isDir && !isFile
    ensures r == Some(MetadataExists) <==> !isDir && isFile && xmlExists
  {
    if isDir then Some(Directory)
    else if !isFile then Some(NotRegularFile)
    else if xmlExists then Some(MetadataExists)
    else None
  }

  datatype Database = Users | Groups

  /**
    What one iteration of the loop ends with: the file skipped, its metadata
    written, or the whole run stopped by the `KeyError` of an id the account
    or group database does not know.
  */
  datatype FileOutcome =
    | Skipped(reason: SkipReason)
    | Written(xmlPath: string, doc: Node, text: string)
    | Aborted(database: Database, id: nat)

  /** An element holding one text node. */
  function TextElement(tag: string, text: string): Node {
    Element(tag, map[], [Text(text)])
  }

  /** The element for an option that is written only when it is not empty. */
  function OptionalElement(tag: string, text: string): (ns: seq<Node>)
    ensures |ns| <= 1
    ensures ns == [] <==> text == ""
  {
    if text == "" then [] else [TextElement(tag, text)]
  }

  /** The `compression` element (genxml.py:157-172). */
  function CompressionElement(c: Compression): Node {
    Element("compression", if c.level.Some? then map["level" := IntToString(c.level.value)] else map[], [Text(c.codec)])
  }

  /** The `copies` element (genxml.py:175-178). */
  function CopiesElement(o: Options): Node {
    Element("copies", map["tape" := NatToString(o.tapeCopies), "disk" := NatToString(o.diskCopies)], [])
  }

  /** The `owner` or `group` element (genxml.py:234-257). */
  function IdentityElement(tag: string, attr: string, id: Identity): Node {
    Element(tag, map[attr := NatToString(id.id)], [Text(id.name)])
  }

  /** The `inflated` element (genxml.py:361-376): the last component of `root`, then size and digests. */
  function InflatedElement(root: string, hs: HashSize): Node {
    Element("inflated", map[], [
      TextElement("name", LastComponent(root)),
      TextElement("size", NatToString(hs.size)),
      TextElement("md5sum", hs.hash),
      TextElement("sha224", hs.sha)])
  }

  function Md5sumElements(ds: seq<string>): (ns: seq<Node>)
    ensures |ns| == |ds|
    ensures forall i :: 0 <= i < |ds| ==> ns[i] == TextElement("md5sum", ds[i])
  {
    seq(|ds|, i requires 0 <= i < |ds| => TextElement("md5sum", ds[i]))
  }

  /** The digests read from the directory's `MD5SUM` file, none when it is not a regular file. */
  function RecordedDigests(env: Env, created: set<string>, head: string, tail: string): seq<string> {
    if IsFile(env, created, Md5sumPath(head)) then
      MatchingDigests(FileLines(env.text(Md5sumPath(head))), tail)
    else []
  }

  /**
    The checksum elements (genxml.py:259-281): one `md5sum` per matching
    line of the `MD5SUM` file under `--nochecksums`, otherwise the `md5sum`
    and `sha224` of the file's own bytes.
  */
  function ChecksumElements(env: Env, created: set<string>, o: Options, fname: string): seq<Node> {
    if o.noChecksums then Md5sumElements(RecordedDigests(env, created, Split(fname).0, Split(fname).1))
    else
      var hs := DigestOf(Consumed(env.blocks(fname)), env.hashes);
      [TextElement("md5sum", hs.hash), TextElement("sha224", hs.sha)]
  }

  /** The children of `file` up to the checksums (genxml.py:134-257), in document order. */
  function Header(fname: string, o: Options, st: Stat, owner: Identity, group: Identity): seq<Node> {
    var (head, tail) := Split(fname);
    (if head == "" then [] else [TextElement("path", head)])
    + [TextElement("name", tail)]
    + OptionalElement("committer", o.committer)
    + [CompressionElement(CompressionOf(o)), CopiesElement(o)]
    + OptionalElement("description", o.description)
    + OptionalElement("setup", o.setup)
    + OptionalElement("label", o.archiveLabel)
    + OptionalElement("comment", o.comment)
    + [TextElement("size", NatToString(st.size)),
       TextElement("atime", st.atime), TextElement("ctime", st.ctime), TextElement("mtime", st.mtime),
       IdentityElement("owner", "uid", owner), IdentityElement("group", "gid", group)]
  }

  /** The `file` element: header, checksums, and the `inflated` element when a result was selected. */
  function FileElement(header: seq<Node>, checksums: seq<Node>, root: string, selected: Option<HashSize>): Node {
    Element("file", map[], header + checksums + if selected.Some? then [InflatedElement(root, selected.value)] else [])
  }

  /** What `toprettyxml(indent="  ", newl="\n", encoding="utf-8")` writes before the root element. */
  const XmlDeclaration: string := "<?xml version=\"1.0\" encoding=\"utf-8\"?>\n"

  /** The metadata text of a document. */
  function Pretty(doc: Node, esc: string -> string): string {
    XmlDeclaration + Render(doc, "", "  ", "\n", esc)
  }

  /** The metadata path of a file under the given options. */
  function XmlPathOf(fname: string, o: Options): string {
    XmlPath(fname, Classification(fname).root, o.noCompression)
  }

  /** The inflated result chosen for a file. */
  function Selected(env: Env, o: Options, fname: string): Option<HashSize> {
    var inflated := InflateAll(o.noInflate, env.decoders(fname));
    Select(inflated.gzip, inflated.bzip2, inflated.xz)
  }

  /**
    One iteration of the loop. A file is skipped exactly when a guard
    applies; metadata is written only to a path that does not exist yet and
    that is not the file itself.
  */
  function Outcome(fname: string, o: Options, env: Env, created: set<string>): (r: FileOutcome)
    ensures r.Skipped? <==>
      IsDir(env, created, fname) || !IsFile(env, created, fname) || Exists(env, created, XmlPathOf(fname, o))
    ensures r.Written? ==> r.xmlPath == XmlPathOf(fname, o) && !Exists(env, created, r.xmlPath) && r.xmlPath != fname
    ensures r.Written? ==> r.text == Pretty(r.doc, env.esc)
    ensures r.Aborted? <==> !r.Skipped? && LookupFails(fname, o, env)
    ensures r.Aborted? ==> r == LookupError(fname, o, env)
  {
    var xmlPath := XmlPathOf(fname, o);
    match SkipGuard(IsDir(env, created, fname), IsFile(env, created, fname), Exists(env, created, xmlPath))
    case Some(reason) => Skipped(reason)
    case None =>
      XmlPathIsNotInput(fname, o.noCompression);
      Metadata(fname, o, env, created)
  }

  /**
    The lookup that raises `KeyError`: the owner's name is looked up unless
    `--user` is given, then the group's unless `--group` is given, each by
    the file's own id.
  */
  predicate LookupFails(fname: string, o: Options, env: Env) {
    (o.user == "" && env.users(env.stat(fname).uid).None?)
    || (o.group == "" && env.groups(env.stat(fname).gid).None?)
  }

  /** The `KeyError` raised first: the owner's when its lookup misses, otherwise the group's. */
  function LookupError(fname: string, o: Options, env: Env): FileOutcome {
    if o.user == "" && env.users(env.stat(fname).uid).None? then Aborted(Users, env.stat(fname).uid)
    else Aborted(Groups, env.stat(fname).gid)
  }

  /**
    An iteration past the guards (genxml.py:129-382): the owner and group
    lookups, which may end the run, then the document and its text.
  */
  function Metadata(fname: string, o: Options, env: Env, created: set<string>): (r: FileOutcome)
    ensures !r.Skipped?
    ensures r.Written? ==> r.xmlPath == XmlPathOf(fname, o) && r.text == Pretty(r.doc, env.esc)
    ensures r.Aborted? <==> LookupFails(fname, o, env)
    ensures r.Aborted? ==> r == LookupError(fname, o, env)
  {
    var st := env.stat(fname);
    match IdentityOf(o.uid, o.user, st.uid, env.users)
    case Failure(id) => Aborted(Users, id)
    case Success(owner) =>
      match IdentityOf(o.gid, o.group, st.gid, env.groups)
      case Failure(id) => Aborted(Groups, id)
      case Success(group) =>
        var doc := FileElement(Header(fname, o, st, owner, group), ChecksumElements(env, created, o, fname),
          Classification(fname).root, Selected(env, o, fname));
        Written(XmlPathOf(fname, o), doc, Pretty(doc, env.esc))
  }

  /** The metadata paths written by a sequence of iterations. */
  function Created(outs: seq<FileOutcome>): set<string> {
    if outs == [] then {}
    else
      var last := outs[|outs| - 1];
      Created(outs[..|outs| - 1]) + if last.Written? then {last.xmlPath} else {}
  }

  predicate Halted(outs: seq<FileOutcome>) {
    outs != [] && outs[|outs| - 1].Aborted?
  }

  /** What one argument ends with, given the metadata paths written before it. */
  type Step = (string, set<string>) -> FileOutcome

  /** The step genxml.py takes for every argument. */
  function StepOf(o: Options, env: Env): Step {
    (fname, created) => Outcome(fname, o, env, created)
  }

  /**
    The loop over all arguments: every file sees the metadata written for
    the files before it, and a `KeyError` ends the run.
  */
  function RunWith(files: seq<string>, step: Step): (outs: seq<FileOutcome>)
    ensures |outs| <= |files|
  {
    if files == [] then []
    else
      var prev := RunWith(files[..|files| - 1], step);
      if Halted(prev) then prev
      else prev + [step(files[|files| - 1], Created(prev))]
  }

  /** One iteration: the guards, with `root` and `ext` reassigned in between. */
  method ProcessFile(fname: string, o: Options, env: Env, created: set<string>) returns (r: FileOutcome)
    ensures r == Outcome(fname, o, env, created)
  {
    if IsDir(env, created, fname) {
      return Skipped(Directory);
    }
    if !IsFile(env, created, fname) {
      return Skipped(NotRegularFile);
    }
    var root, ext := Classify.Classify(fname);
    var xmlPath := if o.noCompression then fname + ".xml" else root + ".xml";
    if Exists(env, created, xmlPath) {
      return Skipped(MetadataExists);
    }
    r := WriteMetadata(fname, o, env, created, root);
  }

  /** The rest of the iteration: lookups, checksums, inflate attempts, document and text. */
  method WriteMetadata(fname: string, o: Options, env: Env, created: set<string>, root: string) returns (r: FileOutcome)
    requires root == Classification(fname).root
    ensures r == Metadata(fname, o, env, created)
  {
    var st := env.stat(fname);
    var owner := IdentityOf(o.uid, o.user, st.uid, env.users);
    if owner.Failure? {
      return Aborted(Users, owner.error);
    }
    var group := IdentityOf(o.gid, o.group, st.gid, env.groups);
    if group.Failure? {
      return Aborted(Groups, group.error);
    }
    var checksums := Checksums(fname, o, env, created);
    var inflated := InflateAll(o.noInflate, env.decoders(fname));
    var selected := Select(inflated.gzip, inflated.bzip2, inflated.xz);
    var doc := FileElement(Header(fname, o, st, owner.value, group.value), checksums, root, selected);
    var text := PrettyXml(doc, env.esc);
    var xmlPath := if o.noCompression then fname + ".xml" else root + ".xml";
    r := Written(xmlPath, doc, text);
  }

  /** The checksum elements, hashing the file's blocks unless `--nochecksums` is given. */
  method Checksums(fname: string, o: Options, env: Env, created: set<string>) returns (ns: seq<Node>)
    ensures ns == ChecksumElements(env, created, o, fname)
  {
    if o.noChecksums {
      var head, tail := Split(fname).0, Split(fname).1;
      ns := Md5sumElements(RecordedDigests(env, created, head, tail));
    } else {
      var hs := Md5sum(env.blocks(fname), env.hashes);
      ns := [TextElement("md5sum", hs.hash), TextElement("sha224", hs.sha)];
    }
  }

  /** `doc.toprettyxml(indent="  ", newl="\n", encoding="utf-8")`, written into a fresh writer. */
  method PrettyXml(doc: Node, esc: string -> string) returns (text: string)
    ensures text == Pretty(doc, esc)
  {
    var w := new Writer();
    w.Write(XmlDeclaration);
    WriteXml(doc, w, "", "  ", "\n", esc);
    text := w.out;
  }

  /** The loop over `args.files`. */
  method Run(files: seq<string>, o: Options, env: Env) returns (outs: seq<FileOutcome>)
    ensures outs == RunWith(files, StepOf(o, env))
  {
    outs := [];
    var created: set<string> := {};
    var i := 0;
    while i < |files|
      invariant 0 <= i <= |files|
      invariant outs == RunWith(files[..i], StepOf(o, env))
      invariant created == Created(outs)
      invariant !Halted(outs)
    {
      var r := ProcessFile(files[i], o, env, created);
      RunWithSnoc(files, i, StepOf(o, env), r);
      CreatedSnoc(outs, r);
      outs := outs + [r];
      if r.Written? {
        created := created + {r.xmlPath};
      }
      i := i + 1;
      if r.Aborted? {
        HaltedStays(files, i, StepOf(o, env));
        return;
      }
    }
    assert files[..i] == files;
  }

  /** One more argument, after a run that was not ended, adds the step's outcome for it. */
  lemma RunWithSnoc(files: seq<string>, i: nat, step: Step, r: FileOutcome)
    requires i < |files| && !Halted(RunWith(files[..i], step))
    requires r == step(files[i], Created(RunWith(files[..i], step)))
    ensures RunWith(files[..i + 1], step) == RunWith(files[..i], step) + [r]
    ensures Halted(RunWith(files[..i + 1], step)) <==> r.Aborted?
  {
    assert files[..i + 1][..i] == files[..i];
  }

  lemma CreatedSnoc(outs: seq<FileOutcome>, r: FileOutcome)
    ensures Created(outs + [r]) == Created(outs) + if r.Written? then {r.xmlPath} else {}
  {
    assert (outs + [r])[..|outs|] == outs;
  }

  /** Once a `KeyError` has ended the run, the later arguments change nothing. */
  lemma {:induction false} HaltedStays(files: seq<string>, i: nat, step: Step)
    requires i <= |files|
    requires Halted(RunWith(files[..i], step))
    ensures RunWith(files, step) == RunWith(files[..i], step)
    decreases |files| - i
  {
    if i < |files| {
      assert files[..i + 1][..i] == files[..i];
      HaltedStays(files, i + 1, step);
    } else {
      assert files[..i] == files;
    }
  }

  /** Every path written by earlier iterations is in `created`, and nothing else is. */
  lemma {:induction false} CreatedIsWritten(outs: seq<FileOutcome>)
    ensures forall p :: p in Created(outs) <==> exists i :: 0 <= i < |outs| && outs[i].Written? && outs[i].xmlPath == p
  {
    if outs != [] {
      var prev := outs[..|outs| - 1];
      CreatedIsWritten(prev);
      assert forall i :: 0 <= i < |prev| ==> prev[i] == outs[i];
    }
  }

  /**
    The run, argument by argument: each outcome is the step's for its file
    given what the arguments before it wrote; only the last can be a
    `KeyError`, and the run covers every argument unless one ended it.
  */
  lemma RunSteps(files: seq<string>, step: Step)
    ensures forall i :: 0 <= i < |RunWith(files, step)| ==>
      RunWith(files, step)[i] == step(files[i], Created(RunWith(files, step)[..i]))
    ensures forall i :: 0 <= i < |RunWith(files, step)| - 1 ==> !RunWith(files, step)[i].Aborted?
    ensures |RunWith(files, step)| < |files| ==> Halted(RunWith(files, step))
  {
    RunOutcomes(files, step);
    RunHalts(files, step);
  }

  lemma {:induction false} RunHalts(files: seq<string>, step: Step)
    ensures forall i :: 0 <= i < |RunWith(files, step)| - 1 ==> !RunWith(files, step)[i].Aborted?
    ensures |RunWith(files, step)| < |files| ==> Halted(RunWith(files, step))
  {
    if files != [] {
      var prev := RunWith(files[..|files| - 1], step);
      RunHalts(files[..|files| - 1], step);
      if !Halted(prev) {
        var outs := prev + [step(files[|files| - 1], Created(prev))];
        assert RunWith(files, step) == outs;
        assert forall i :: 0 <= i < |prev| ==> outs[i] == prev[i];
      }
    }
  }

  lemma {:induction false} RunOutcomes(files: seq<string>, step: Step)
    ensures forall i :: 0 <= i < |RunWith(files, step)| ==>
      RunWith(files, step)[i] == step(files[i], Created(RunWith(files, step)[..i]))
  {
    if files != [] {
      var init := files[..|files| - 1];
      var prev := RunWith(init, step);
      RunOutcomes(init, step);
      assert forall i :: 0 <= i < |init| ==> init[i] == files[i];
      if !Halted(prev) {
        RunHalts(init, step);
        var outs := prev + [step(files[|files| - 1], Created(prev))];
        assert RunWith(files, step) == outs;
        forall i | 0 <= i < |outs| ensures outs[i] == step(files[i], Created(outs[..i])) {
          if i < |prev| {
            assert outs[..i] == prev[..i] && outs[i] == prev[i];
          } else {
            assert outs[..i] == prev;
          }
        }
      }
    }
  }

  /**
    No metadata file is ever overwritten: every path a run writes did not
    exist when the run started, no two files of the run write the same
    path, and no path written is the name of the file it describes.
  */
  lemma RunNeverOverwrites(files: seq<string>, o: Options, env: Env)
    ensures var outs := RunWith(files, StepOf(o, env));
      forall i :: 0 <= i < |outs| && outs[i].Written? ==> !env.present(outs[i].xmlPath) && outs[i].xmlPath != files[i]
    ensures var outs := RunWith(files, StepOf(o, env));
      forall i, j :: 0 <= i < j < |outs| && outs[i].Written? && outs[j].Written? ==> outs[i].xmlPath != outs[j].xmlPath
    ensures var outs := RunWith(files, StepOf(o, env));
      WellFormed(env) ==> forall i :: 0 <= i < |outs| && outs[i].Written? ==> !env.isFile(outs[i].xmlPath) && !env.isDir(outs[i].xmlPath)
  {
    var step := StepOf(o, env);
    var outs := RunWith(files, step);
    RunOutcomes(files, step);
    forall j | 0 <= j < |outs| && outs[j].Written?
      ensures !env.present(outs[j].xmlPath) && outs[j].xmlPath != files[j]
      ensures forall i :: 0 <= i < j && outs[i].Written? ==> outs[i].xmlPath != outs[j].xmlPath
    {
      var before := outs[..j];
      WrittenIsFresh(files[j], o, env, Created(before), outs[j]);
      CreatedIsWritten(before);
      forall i | 0 <= i < j && outs[i].Written? ensures outs[i].xmlPath != outs[j].xmlPath {
        assert before[i] == outs[i];
      }
    }
    if WellFormed(env) {
      forall i | 0 <= i < |outs| && outs[i].Written?
        ensures !env.isFile(outs[i].xmlPath) && !env.isDir(outs[i].xmlPath)
      {
        AbsentIsNeither(env, outs[i].xmlPath);
      }
    }
  }

  /** Metadata written by one iteration goes to a path that neither existed nor was written before. */
  lemma WrittenIsFresh(fname: string, o: Options, env: Env, created: set<string>, r: FileOutcome)
    requires r == Outcome(fname, o, env, created) && r.Written?
    ensures !env.present(r.xmlPath) && r.xmlPath !in created && r.xmlPath != fname
  {
  }

  /** In a well-formed file system, a path that does not exist is neither a file nor a directory. */
  lemma AbsentIsNeither(env: Env, p: string)
    requires WellFormed(env) && !env.present(p)
    ensures !env.isFile(p) && !env.isDir(p)
  {
  }

  /** Some child of `n` is an element with this tag. */
  predicate HasChild(n: Node, tag: string) {
    n.Element? && exists k :: 0 <= k < |n.children| && n.children[k].Element? && n.children[k].tag == tag
  }

  /**
    A written document has an `inflated` element exactly when an inflate
    result was selected; it is then the last child, named after the last
    component of `root`.
  */
  lemma InflatedIffSelected(fname: string, o: Options, env: Env, created: set<string>)
    requires Outcome(fname, o, env, created).Written?
    ensures HasChild(Outcome(fname, o, env, created).doc, "inflated") <==> Selected(env, o, fname).Some?
    ensures Selected(env, o, fname).Some? ==>
      var cs := Outcome(fname, o, env, created).doc.children;
      cs[|cs| - 1] == InflatedElement(Classification(fname).root, Selected(env, o, fname).value)
  {
    var r := Outcome(fname, o, env, created);
    var st := env.stat(fname);
    var owner := IdentityOf(o.uid, o.user, st.uid, env.users).value;
    var group := IdentityOf(o.gid, o.group, st.gid, env.groups).value;
    var header := Header(fname, o, st, owner, group);
    var checksums := ChecksumElements(env, created, o, fname);
    var root := Classification(fname).root;
    HeaderTags(fname, o, st, owner, group);
    ChecksumTags(env, created, o, fname);
    FileElementInflated(header, checksums, root, Selected(env, o, fname));
    assert r == Metadata(fname, o, env, created);
    assert r.doc == FileElement(header, checksums, root, Selected(env, o, fname));
  }

  lemma FileElementInflated(header: seq<Node>, checksums: seq<Node>, root: string, selected: Option<HashSize>)
    requires Untagged(header, "inflated") && Untagged(checksums, "inflated")
    ensures HasChild(FileElement(header, checksums, root, selected), "inflated") <==> selected.Some?
    ensures selected.Some? ==>
      var cs := FileElement(header, checksums, root, selected).children;
      cs[|cs| - 1] == InflatedElement(root, selected.value)
  {
    var cs := FileElement(header, checksums, root, selected).children;
    UntaggedAppend(header, checksums, "inflated");
    if selected.Some? {
      assert cs[|cs| - 1].tag == "inflated";
    }
  }

  /** Every node of `ns` is an element, and none is named `tag`. */
  predicate Untagged(ns: seq<Node>, tag: string) {
    forall k :: 0 <= k < |ns| ==> ns[k].Element? && ns[k].tag != tag
  }

  lemma UntaggedAppend(a: seq<Node>, b: seq<Node>, tag: string)
    requires Untagged(a, tag) && Untagged(b, tag)
    ensures Untagged(a + b, tag)
  {
    assert forall k :: |a| <= k < |a + b| ==> (a + b)[k] == b[k - |a|];
  }

  lemma HeaderTags(fname: string, o: Options, st: Stat, owner: Identity, group: Identity)
    ensures Untagged(Header(fname, o, st, owner, group), "inflated")
  {
    var (head, tail) := Split(fname);
    var t := "inflated";
    var h := if head == "" then [] else [TextElement("path", head)];
    var h1 := h + [TextElement("name", tail)];
    assert Untagged(h1, t) by {
      UntaggedAppend(h, [TextElement("name", tail)], t);
    }
    var h2 := h1 + OptionalElement("committer", o.committer);
    assert Untagged(h2, t) by {
      OptionalUntagged("committer", o.committer, t);
      UntaggedAppend(h1, OptionalElement("committer", o.committer), t);
    }
    var h3 := h2 + [CompressionElement(CompressionOf(o)), CopiesElement(o)];
    assert Untagged(h3, t) by {
      UntaggedAppend(h2, [CompressionElement(CompressionOf(o)), CopiesElement(o)], t);
    }
    var h4 := h3 + OptionalElement("description", o.description);
    assert Untagged(h4, t) by {
      OptionalUntagged("description", o.description, t);
      UntaggedAppend(h3, OptionalElement("description", o.description), t);
    }
    var h5 := h4 + OptionalElement("setup", o.setup);
    assert Untagged(h5, t) by {
      OptionalUntagged("setup", o.setup, t);
      UntaggedAppend(h4, OptionalElement("setup", o.setup), t);
    }
    var h6 := h5 + OptionalElement("label", o.archiveLabel);
    assert Untagged(h6, t) by {
      OptionalUntagged("label", o.archiveLabel, t);
      UntaggedAppend(h5, OptionalElement("label", o.archiveLabel), t);
    }
    var h7 := h6 + OptionalElement("comment", o.comment);
    assert Untagged(h7, t) by {
      OptionalUntagged("comment", o.comment, t);
      UntaggedAppend(h6, OptionalElement("comment", o.comment), t);
    }
    var rest := [TextElement("size", NatToString(st.size)),
       TextElement("atime", st.atime), TextElement("ctime", st.ctime), TextElement("mtime", st.mtime),
       IdentityElement("owner", "uid", owner), IdentityElement("group", "gid", group)];
    UntaggedAppend(h7, rest, t);
    assert h7 + rest == Header(fname, o, st, owner, group);
  }

  lemma OptionalUntagged(tag: string, text: string, t: string)
    requires tag != t
    ensures Untagged(OptionalElement(tag, text), t)
  {
  }

  lemma ChecksumTags(env: Env, created: set<string>, o: Options, fname: string)
    ensures Untagged(ChecksumElements(env, created, o, fname), "inflated")
  {
  }

  /**
    A gzipped tar archive `dir/name.tgz`: its metadata is `dir/name.tar.xml`
    (or `dir/name.tgz.xml` under `--nocompression`), its `path` and `name`
    elements hold `dir` and `name.tgz`, and an inflated result is named
    `name.tar`.
  */
  lemma CompoundArchiveInDirectory(dir: string, name: string, o: Options)
    requires dir != [] && dir[|dir| - 1] != '/'
    requires name != [] && '/' !in name && '.' !in name
    ensures Classification(dir + "/" + name + ".tgz") == Classified(dir + "/" + name + ".tar", ".gz")
    ensures XmlPathOf(dir + "/" + name + ".tgz", o)
      == (if o.noCompression then dir + "/" + name + ".tgz" else dir + "/" + name + ".tar") + ".xml"
    ensures Split(dir + "/" + name + ".tgz") == (dir, name + ".tgz")
    ensures LastComponent(Classification(dir + "/" + name + ".tgz").root) == name + ".tar"
  {
    var stem := dir + "/" + name;
    assert !AllChar(LastComponent(stem), '.') by {
      SplitOfJoin(dir, name);
      assert name[0] != '.';
    }
    CompoundSuffixRewritten(stem, ".tgz");
    JoinedSuffix(dir, name, ".tgz");
    JoinedSuffix(dir, name, ".tar");
  }

  lemma JoinedSuffix(dir: string, name: string, suffix: string)
    requires dir != [] && dir[|dir| - 1] != '/'
    requires '/' !in name && '/' !in suffix
    ensures Split(dir + "/" + name + suffix) == (dir, name + suffix)
  {
    assert dir + "/" + name + suffix == dir + "/" + (name + suffix);
    assert '/' !in name + suffix by {
      assert forall k :: 0 <= k < |name + suffix| ==> (name + suffix)[k] in name || (name + suffix)[k] in suffix;
    }
    SplitOfJoin(dir, name + suffix);
  }

  /** The `path` element is written exactly when the file's name has a directory part. */
  lemma PathElementIffDirectory(fname: string, o: Options, st: Stat, owner: Identity, group: Identity)
    ensures Header(fname, o, st, owner, group)[0].tag == "path" <==> '/' in fname
    ensures '/' in fname ==> Header(fname, o, st, owner, group)[0] == TextElement("path", Split(fname).0)
    ensures '/' !in fname ==> Header(fname, o, st, owner, group)[0] == TextElement("name", fname)
  {
    var (head, tail) := Split(fname);
    if '/' !in fname {
      assert tail == fname;
    }
  }

  /**
    Under `--nochecksums`, an `MD5SUM` file holding one `md5sum` line for
    the file gives exactly one `md5sum` element, with that line's digest.
  */
  lemma ChecksumFromListing(env: Env, created: set<string>, o: Options, fname: string, digest: string, sep: string)
    requires o.noChecksums
    requires IsFile(env, created, Md5sumPath(Split(fname).0))
    requires |digest| == 32 && |sep| == 2 && '\n' !in digest + sep + Split(fname).1
    requires env.text(Md5sumPath(Split(fname).0)) == digest + sep + Split(fname).1 + "\n"
    ensures ChecksumElements(env, created, o, fname) == [TextElement("md5sum", digest)]
  {
    var tail := Split(fname).1;
    var line := digest + sep + tail + "\n";
    assert IsLine(line, true) by {
      assert line[|line| - 1] == '\n';
      forall j | 0 <= j < |line| - 1 ensures line[j] != '\n' {
        assert line[j] == (digest + sep + tail)[j];
      }
    }
    assert Join([line]) == line;
    FileLinesOfJoin([line]);
    WellFormedLine(digest, sep, tail, tail);
    assert [line][1..] == [];
  }
}
