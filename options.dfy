/**
  The resolved command-line options of genxml.py and the two decisions
  taken from them alone: the compression label (genxml.py:157-172) and the
  owner and group identities (genxml.py:233-257).
*/
module CliOptions {
  import opened Wrappers

  /**
    The parsed arguments. A text option left unset is the empty string; a
    numeric option left unset is -1, except the copy counts, which default
    to 2 tape copies and 1 disk copy.
  */
  datatype Options = Options(
    committer: string, archiveLabel: string, description: string, comment: string, setup: string,
    user: string, uid: int, group: string, gid: int,
    tapeCopies: nat, diskCopies: nat,
    noChecksums: bool, noInflate: bool, noCompression: bool,
    gzip: int, bzip2: int, xz: int)

  /** The text of the `compression` element and its `level` attribute, if any. */
  datatype Compression = Compression(codec: string, level: Option<int>)

  const Codecs: set<string> := {"xz", "gzip", "bzip2"}

  /**
    The label by precedence: `none` under `--nocompression`, else the first
    of xz, gzip and bzip2 given a level of at least 0, else `auto`. A level is
    written exactly for the three codecs, and it is that codec's option.
  */
  function CompressionOf(o: Options): (c: Compression)
    ensures c.codec == "none" <==> o.noCompression
    ensures c.codec == "xz" <==> !o.noCompression && o.xz >= 0
    ensures c.codec == "gzip" <==> !o.noCompression && o.xz < 0 && o.gzip >= 0
    ensures c.codec == "bzip2" <==> !o.noCompression && o.xz < 0 && o.gzip < 0 && o.bzip2 >= 0
    ensures c.codec == "auto" <==> !o.noCompression && o.xz < 0 && o.gzip < 0 && o.bzip2 < 0
    ensures c.level.Some? <==> c.codec in Codecs
    ensures c.codec == "xz" ==> c.level == Some(o.xz)
    ensures c.codec == "gzip" ==> c.level == Some(o.gzip)
    ensures c.codec == "bzip2" ==> c.level == Some(o.bzip2)
    ensures c.level.Some? ==> c.level.value >= 0
  {
    if o.noCompression then Compression("none", None)
    else if o.xz >= 0 then Compression("xz", Some(o.xz))
    else if o.gzip >= 0 then Compression("gzip", Some(o.gzip))
    else if o.bzip2 >= 0 then Compression("bzip2", Some(o.bzip2))
    else Compression("auto", None)
  }

  /** `--nocompression` overrides every level, and xz overrides the two deprecated codecs. */
  lemma CompressionPrecedence(o: Options, o': Options)
    requires o.noCompression == o'.noCompression && o.xz == o'.xz
    requires o.noCompression || o.xz >= 0
    ensures CompressionOf(o) == CompressionOf(o')
  {
  }

  /** The `uid`/`gid` attribute and the text of an `owner` or `group` element. */
  datatype Identity = Identity(id: nat, name: string)

  /**
    The owner (or group) of a file. The id is the override when it is at
    least 0, else the file's own id. The name is the override when it is not
    empty, else the account database's name for the file's own id, even when
    the id was overridden; an id the database does not know raises `KeyError`
    (here the failure carries that id).
  */
  function IdentityOf(idOverride: int, nameOverride: string, fileId: nat, names: nat -> Option<string>): (r: Result<Identity, nat>)
    ensures r.Failure? <==> nameOverride == "" && names(fileId).None?
    ensures r.Failure? ==> r.error == fileId
    ensures r.Success? ==> r.value.id == if idOverride >= 0 then idOverride else fileId
    ensures r.Success? && nameOverride != "" ==> r.value.name == nameOverride
    ensures r.Success? && nameOverride == "" ==> names(fileId) == Some(r.value.name)
  {
    var id: nat := if idOverride >= 0 then idOverride else fileId;
    if nameOverride != "" then Success(Identity(id, nameOverride))
    else
      match names(fileId)
      case Some(name) => Success(Identity(id, name))
      case None => Failure(fileId)
  }

  /**
    Overriding only the id does not change the name: the id written and the
    name written can belong to different accounts.
  */
  lemma IdOverrideKeepsLookedUpName(idOverride: int, fileId: nat, names: nat -> Option<string>)
    requires idOverride >= 0 && names(fileId).Some?
    ensures IdentityOf(idOverride, "", fileId, names) == Success(Identity(idOverride, names(fileId).value))
    ensures IdentityOf(idOverride, "", fileId, names).value.name == IdentityOf(-1, "", fileId, names).value.name
  {
  }

  /** With both overrides given, the account database is never consulted. */
  lemma OverridesNeedNoLookup(idOverride: int, nameOverride: string, fileId: nat, names: nat -> Option<string>, names': nat -> Option<string>)
    requires idOverride >= 0 && nameOverride != ""
    ensures IdentityOf(idOverride, nameOverride, fileId, names) == IdentityOf(idOverride, nameOverride, fileId, names')
    ensures IdentityOf(idOverride, nameOverride, fileId, names) == Success(Identity(idOverride, nameOverride))
  {
  }
}
