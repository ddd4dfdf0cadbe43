/**
  The digest accumulator `md5sum` (genxml.py:32-42): it reads a stream block
  by block until the first empty read and feeds every block to an MD5 and a
  SHA-224 hash object and to a byte counter.

  The hash algorithms themselves are not modelled: a `Hashes` value supplies
  the two digest functions, applied to all bytes a hash object was fed. A
  stream is the sequence of values its successive `read` calls return; a
  read past the end of that sequence returns no bytes.
*/
module Digest {

  newtype byte = b: int | 0 <= b < 256

  type Bytes = seq<byte>

  /** The hex digests MD5 and SHA-224 give for a byte string. */
  datatype Hashes = Hashes(md5: Bytes -> string, sha224: Bytes -> string)

  /** The `HashSize` named tuple: MD5 hex digest, SHA-224 hex digest, size. */
  datatype HashSize = HashSize(hash: string, sha: string, size: nat)

  /**
    A hashlib object: the digest function and every byte fed to it so far.
    `update(a); update(b)` is `update(a + b)`.
  */
  datatype HashState = HashState(algorithm: Bytes -> string, fed: Bytes) {
    function Update(data: Bytes): HashState {
      HashState(algorithm, fed + data)
    }
    function HexDigest(): string {
      algorithm(fed)
    }
  }

  /** The digests and the length of one byte string. */
  function DigestOf(data: Bytes, hashes: Hashes): (hs: HashSize)
    ensures hs.size == |data|
  {
    HashSize(hashes.md5(data), hashes.sha224(data), |data|)
  }

  /** The concatenation of a sequence of blocks. */
  function Flatten(blocks: seq<Bytes>): (b: Bytes)
    ensures blocks == [] ==> b == []
  {
    if blocks == [] then [] else Flatten(blocks[..|blocks| - 1]) + blocks[|blocks| - 1]
  }

  /** The bytes a reader that stops at the first empty read receives from `chunks`. */
  function Consumed(chunks: seq<Bytes>): Bytes {
    if chunks == [] || chunks[0] == [] then [] else chunks[0] + Consumed(chunks[1..])
  }

  /** The successive results of `read(blocksize)` on a regular file holding `content`. */
  function FileReads(content: Bytes, blocksize: nat): seq<Bytes>
    requires 0 < blocksize
    decreases |content|
  {
    if |content| <= blocksize then [content]
    else [content[..blocksize]] + FileReads(content[blocksize..], blocksize)
  }

  /**
    `md5sum(f)`: chunks `f` until the first empty read and returns the digests
    and the size of exactly the bytes read before it.
  */
  method Md5sum(f: seq<Bytes>, hashes: Hashes) returns (hs: HashSize)
    ensures hs == DigestOf(Consumed(f), hashes)
  {
    var hash := HashState(hashes.md5, []);
    var sha := HashState(hashes.sha224, []);
    var size := 0;
    var i := 0;
    while true
      invariant 0 <= i <= |f|
      invariant hash.algorithm == hashes.md5 && sha.algorithm == hashes.sha224
      invariant hash.fed == sha.fed && size == |hash.fed|
      invariant hash.fed + Consumed(f[i..]) == Consumed(f)
      decreases |f| - i
    {
      var data := if i < |f| then f[i] else [];
      ConsumedFrom(f, i);
      if data == [] {
        assert hash.fed + [] == hash.fed;
        break;
      }
      ghost var fed := hash.fed;
      assert fed + data + Consumed(f[i + 1..]) == fed + (data + Consumed(f[i + 1..]));
      hash := hash.Update(data);
      sha := sha.Update(data);
      size := size + |data|;
      i := i + 1;
    }
    hs := HashSize(hash.HexDigest(), sha.HexDigest(), size);
  }

  /** One read of the loop: an empty read ends what is consumed, any other is its first block. */
  lemma ConsumedFrom(f: seq<Bytes>, i: nat)
    requires i <= |f|
    ensures i == |f| || f[i] == [] ==> Consumed(f[i..]) == []
    ensures i < |f| && f[i] != [] ==> Consumed(f[i..]) == f[i] + Consumed(f[i + 1..])
  {
    if i < |f| {
      assert f[i..][1..] == f[i + 1..];
    }
  }

  /** With no empty block among them, a reader receives every block, in order. */
  lemma {:induction false} ConsumedNonEmpty(chunks: seq<Bytes>)
    requires forall k :: 0 <= k < |chunks| ==> chunks[k] != []
    ensures Consumed(chunks) == Flatten(chunks)
  {
    if chunks != [] {
      ConsumedNonEmpty(chunks[1..]);
      FlattenCons(chunks[0], chunks[1..]);
      assert [chunks[0]] + chunks[1..] == chunks;
    }
  }

  lemma {:induction false} FlattenCons(first: Bytes, rest: seq<Bytes>)
    ensures Flatten([first] + rest) == first + Flatten(rest)
    decreases |rest|
  {
    if rest == [] {
      assert Flatten([first]) == Flatten([]) + first;
    } else {
      var all := [first] + rest;
      assert all[..|all| - 1] == [first] + rest[..|rest| - 1];
      FlattenCons(first, rest[..|rest| - 1]);
    }
  }

  /** Nothing after the first empty read reaches the reader. */
  lemma {:induction false} ConsumedStopsAtEmpty(chunks: seq<Bytes>, later: seq<Bytes>)
    requires [] in chunks
    ensures Consumed(chunks + later) == Consumed(chunks)
  {
    if chunks[0] != [] {
      assert (chunks + later)[1..] == chunks[1..] + later;
      ConsumedStopsAtEmpty(chunks[1..], later);
    }
  }

  /** Reading a regular file in blocks of any positive size yields exactly its content. */
  lemma {:induction false} FileReadsConsumeContent(content: Bytes, blocksize: nat)
    requires 0 < blocksize
    ensures Consumed(FileReads(content, blocksize)) == content
    decreases |content|
  {
    if |content| <= blocksize {
      assert [content][1..] == [];
    } else {
      FileReadsConsumeContent(content[blocksize..], blocksize);
      assert content[..blocksize] + content[blocksize..] == content;
    }
  }

  /**
    However a stream is cut into blocks, equal bytes give equal digests and
    size: the result depends only on the concatenation of the blocks read.
  */
  lemma ChunkingIrrelevant(f: seq<Bytes>, g: seq<Bytes>, hashes: Hashes)
    requires forall k :: 0 <= k < |f| ==> f[k] != []
    requires forall k :: 0 <= k < |g| ==> g[k] != []
    requires Flatten(f) == Flatten(g)
    ensures DigestOf(Consumed(f), hashes) == DigestOf(Consumed(g), hashes)
  {
    ConsumedNonEmpty(f);
    ConsumedNonEmpty(g);
  }
}
