/**
  The inflate attempts and the choice among their results (genxml.py:284-358).

  Each of the three families is tried in turn: first an in-process decoder,
  then, for some exceptions only, the family's command-line decompressor read
  through a pipe. The decoders and the processes are not modelled: an
  `Attempt` is what one of them ended with, either the digests of the bytes
  it produced or the kind of exception it raised.
*/
module Inflate {
  import opened Wrappers
  import opened Digest

  /** The outcome of one decoding attempt. */
  datatype Attempt = Ok(hs: HashSize) | IOError | ImportError | OtherError

  datatype Family = Gzip | Bzip2 | Xz

  /**
    The subprocess tier (`gzip -dc`, `bzip2 -dc`, `xz -dc`): any exception
    gives `None`, and so does a process that wrote no bytes; its exit status
    is never looked at.
  */
  function Subprocess(process: Attempt): (r: Option<HashSize>)
    ensures r.Some? <==> process.Ok? && process.hs.size > 0
    ensures r.Some? ==> r.value == process.hs
  {
    match process
    case Ok(hs) => if hs.size == 0 then None else Some(hs)
    case _ => None
  }

  /**
    The exception of the in-process tier that sends a family on to its
    subprocess: `IOError` for gzip (genxml.py:292), `ImportError` for bzip2
    and xz (genxml.py:315, 338).
  */
  predicate FallsBack(family: Family, raised: Attempt) {
    match family
    case Gzip => raised.IOError?
    case _ => raised.ImportError?
  }

  /**
    One family's two tiers. A result of the in-process decoder is kept as it
    is, even when it is empty; the exception named by `FallsBack` hands over
    to the subprocess; any other exception gives `None`.
  */
  function TwoTier(family: Family, library: Attempt, process: Attempt): (r: Option<HashSize>)
    ensures library.Ok? ==> r == Some(library.hs)
    ensures !library.Ok? && FallsBack(family, library) ==> r == Subprocess(process)
    ensures !library.Ok? && !FallsBack(family, library) ==> r == None
  {
    match library
    case Ok(hs) => Some(hs)
    case _ => if FallsBack(family, library) then Subprocess(process) else None
  }

  /**
    The in-process bzip2 tier: genxml.py imports a module named `bzip2`,
    which does not exist, so the import always raises `ImportError`.
  */
  const Bzip2Library: Attempt := ImportError

  /** What the five decoding attempts of one file end with. */
  datatype Oracles = Oracles(
    gzipLibrary: Attempt, gzipProcess: Attempt,
    bzip2Process: Attempt,
    lzmaLibrary: Attempt, xzProcess: Attempt)

  /** The three results `ghs`, `bhs` and `lhs`. */
  datatype Inflated = Inflated(gzip: Option<HashSize>, bzip2: Option<HashSize>, xz: Option<HashSize>)

  /**
    The three attempts (genxml.py:284-353): all three results stay `None`
    under `--noinflate`; otherwise every family is tried, whatever the
    families before it ended with.
  */
  function InflateAll(noInflate: bool, o: Oracles): (r: Inflated)
    ensures noInflate ==> r == Inflated(None, None, None)
    ensures !noInflate ==> r.gzip == TwoTier(Gzip, o.gzipLibrary, o.gzipProcess)
    ensures !noInflate ==> r.bzip2 == Subprocess(o.bzip2Process)
    ensures !noInflate ==> r.xz == TwoTier(Xz, o.lzmaLibrary, o.xzProcess)
  {
    if noInflate then Inflated(None, None, None)
    else
      Inflated(
        TwoTier(Gzip, o.gzipLibrary, o.gzipProcess),
        TwoTier(Bzip2, Bzip2Library, o.bzip2Process),
        TwoTier(Xz, o.lzmaLibrary, o.xzProcess))
  }

  /** The first present value of a priority list: the reference for every selection. */
  function FirstSome<T>(s: seq<Option<T>>): (r: Option<T>)
    ensures r.None? <==> forall i :: 0 <= i < |s| ==> s[i].None?
    ensures r.Some? ==> exists i :: 0 <= i < |s| && s[i] == r && forall j :: 0 <= j < i ==> s[j].None?
  {
    if s == [] then None
    else if s[0].Some? then s[0]
    else
      var r := FirstSome(s[1..]);
      assert forall i :: 1 <= i < |s| ==> s[i] == s[1..][i - 1];
      r
  }

  /** The if-chain at genxml.py:355-358: gzip, then bzip2, then xz. */
  function Select(g: Option<HashSize>, b: Option<HashSize>, l: Option<HashSize>): (hs: Option<HashSize>)
    ensures hs == FirstSome([g, b, l])
  {
    assert [g, b, l][1..] == [b, l] && [b, l][1..] == [l] && [l][1..] == [];
    assert FirstSome([b, l]) == if b.Some? then b else FirstSome([l]);
    if g.Some? then g
    else if b.Some? then b
    else if l.Some? then l
    else None
  }

  /** A result is chosen exactly when some family produced one, and it is that of the first such family. */
  lemma SelectPriority(g: Option<HashSize>, b: Option<HashSize>, l: Option<HashSize>)
    ensures Select(g, b, l).None? <==> g.None? && b.None? && l.None?
    ensures g.Some? ==> Select(g, b, l) == g
    ensures g.None? && b.Some? ==> Select(g, b, l) == b
    ensures g.None? && b.None? ==> Select(g, b, l) == l
  {
    var s := [g, b, l];
    assert s[0] == g && s[1] == b && s[2] == l;
  }

  /**
    Every result comes from an attempt: either the in-process decoder's, or
    the subprocess's after the in-process decoder raised the exception that
    falls back, and then with at least one byte.
  */
  lemma TwoTierSound(family: Family, library: Attempt, process: Attempt, hs: HashSize)
    requires TwoTier(family, library, process) == Some(hs)
    ensures library == Ok(hs) || (FallsBack(family, library) && process == Ok(hs) && hs.size > 0)
  {
  }

  /**
    Only the subprocess tier drops an empty result: an empty result that is
    kept came from the in-process decoder, and so never from bzip2.
  */
  lemma EmptyResultOnlyFromLibrary(noInflate: bool, o: Oracles)
    ensures InflateAll(noInflate, o).gzip.Some? && InflateAll(noInflate, o).gzip.value.size == 0
      ==> o.gzipLibrary == Ok(InflateAll(noInflate, o).gzip.value)
    ensures InflateAll(noInflate, o).bzip2.Some? ==> InflateAll(noInflate, o).bzip2.value.size > 0
    ensures InflateAll(noInflate, o).xz.Some? && InflateAll(noInflate, o).xz.value.size == 0
      ==> o.lzmaLibrary == Ok(InflateAll(noInflate, o).xz.value)
  {
  }

  /**
    The families do not interfere: each result depends on that family's own
    attempts only, so no failure of one family stops the next.
  */
  lemma FamiliesIndependent(o: Oracles, o': Oracles)
    ensures o.gzipLibrary == o'.gzipLibrary && o.gzipProcess == o'.gzipProcess
      ==> InflateAll(false, o).gzip == InflateAll(false, o').gzip
    ensures o.bzip2Process == o'.bzip2Process
      ==> InflateAll(false, o).bzip2 == InflateAll(false, o').bzip2
    ensures o.lzmaLibrary == o'.lzmaLibrary && o.xzProcess == o'.xzProcess
      ==> InflateAll(false, o).xz == InflateAll(false, o').xz
  {
  }

  /**
    A plain file: the gzip decoder rejects it with `IOError`, the lzma
    decoder raises any exception, and every decompressor writes nothing, so
    no result is chosen.
  */
  lemma PlainFileNotInflated(noInflate: bool, o: Oracles)
    requires o.gzipLibrary == IOError && !o.lzmaLibrary.Ok?
    requires !o.gzipProcess.Ok? || o.gzipProcess.hs.size == 0
    requires !o.bzip2Process.Ok? || o.bzip2Process.hs.size == 0
    requires !o.xzProcess.Ok? || o.xzProcess.hs.size == 0
    ensures InflateAll(noInflate, o) == Inflated(None, None, None)
    ensures Select(InflateAll(noInflate, o).gzip, InflateAll(noInflate, o).bzip2, InflateAll(noInflate, o).xz) == None
  {
  }
}
