/**
  The two functions of Python 2's `os.path` (posixpath) that genxml.py uses
  to take a file name apart: `splitext`, which splits off the extension after
  the last dot of the final component (leading dots do not count), and
  `split`, which splits at the last slash.
*/
module PyPath {

  /** `s.rfind(c)`: the index of the last `c` in `s`, or -1 when there is none. */
  function RFind(s: string, c: char): (i: int)
    ensures -1 <= i < |s|
    ensures 0 <= i ==> s[i] == c
    ensures forall k :: i < k < |s| ==> s[k] != c
  {
    LastBefore(s, c, |s|)
  }

  /** The index of the last `c` among the first `n` characters of `s`, or -1. */
  function LastBefore(s: string, c: char, n: nat): (i: int)
    requires n <= |s|
    ensures -1 <= i < n
    ensures 0 <= i ==> s[i] == c
    ensures forall k :: i < k < n ==> s[k] != c
  {
    if n == 0 then -1
    else if s[n - 1] == c then n - 1
    else LastBefore(s, c, n - 1)
  }

  predicate AllChar(s: string, c: char) {
    forall k :: 0 <= k < |s| ==> s[k] == c
  }

  /** `s.rstrip(c)`: `s` without its trailing run of `c`. */
  function RStrip(s: string, c: char): (r: string)
    ensures |r| <= |s| && r == s[..|r|]
    ensures AllChar(s[|r|..], c)
    ensures r == [] || r[|r| - 1] != c
  {
    if |s| == 0 || s[|s| - 1] != c then s else RStrip(s[..|s| - 1], c)
  }

  /** The final path component: everything after the last slash. */
  function LastComponent(p: string): string {
    p[RFind(p, '/') + 1..]
  }

  /**
    `os.path.splitext(p)`: the extension starts at the last dot of the final
    component, provided something other than a dot precedes that dot within
    the component; otherwise the extension is empty.
  */
  function Splitext(p: string): (r: (string, string))
    ensures r.0 + r.1 == p
  {
    var sep := RFind(p, '/');
    var dot := RFind(p, '.');
    if sep < dot && !AllChar(p[sep + 1..dot], '.') then
      assert p[..dot] + p[dot..] == p;
      (p[..dot], p[dot..])
    else
      (p, "")
  }

  /**
    The extension `Splitext` splits off is empty or a dot followed by
    neither dots nor slashes, and a root it is split from keeps a character
    other than a dot in its final component.
  */
  lemma SplitextExtension(p: string)
    ensures Splitext(p).1 == [] || Splitext(p).1[0] == '.'
    ensures forall k :: 0 < k < |Splitext(p).1| ==> Splitext(p).1[k] != '.' && Splitext(p).1[k] != '/'
    ensures Splitext(p).1 != [] ==> !AllChar(LastComponent(Splitext(p).0), '.')
  {
    var sep := RFind(p, '/');
    var dot := RFind(p, '.');
    if sep < dot && !AllChar(p[sep + 1..dot], '.') {
      ExtensionAfterLastDot(p, sep, dot);
    }
  }

  /** Cutting before the last dot, when it follows the last slash and a non-dot. */
  lemma ExtensionAfterLastDot(p: string, sep: int, dot: int)
    requires sep == RFind(p, '/') && dot == RFind(p, '.') && sep < dot
    requires !AllChar(p[sep + 1..dot], '.')
    ensures p[dot..] == [] || p[dot..][0] == '.'
    ensures forall k :: 0 < k < |p[dot..]| ==> p[dot..][k] != '.' && p[dot..][k] != '/'
    ensures p[dot..] != [] ==> !AllChar(LastComponent(p[..dot]), '.')
  {
    RFindPrefix(p, '/', dot);
  }

  /** The last `c` of `p`, when it lies before `n`, is also the last `c` of `p[..n]`. */
  lemma RFindPrefix(p: string, c: char, n: nat)
    requires RFind(p, c) < n <= |p|
    ensures RFind(p[..n], c) == RFind(p, c)
  {
    var i := RFind(p, c);
    if 0 <= i {
      assert p[..n][i] == c;
    }
  }

  /**
    `os.path.split(p)`: the tail is everything after the last slash; the head
    is everything up to it, with its trailing slashes removed unless the head
    consists of slashes only.
  */
  function Split(p: string): (r: (string, string))
    ensures '/' !in r.1
    ensures |r.0| + |r.1| <= |p| && r.0 == p[..|r.0|] && r.1 == p[|p| - |r.1|..]
    ensures AllChar(p[|r.0|..|p| - |r.1|], '/')
    ensures r.0 == [] <==> '/' !in p
    ensures r.1 == LastComponent(p)
    ensures !AllChar(r.0, '/') ==> r.0[|r.0| - 1] != '/'
    ensures AllChar(r.0, '/') ==> |r.0| + |r.1| == |p|
  {
    var i := RFind(p, '/') + 1;
    var head, tail := p[..i], p[i..];
    assert '/' !in tail by {
      forall k | 0 <= k < |tail| ensures tail[k] != '/' { assert tail[k] == p[i + k]; }
    }
    if head != [] && !AllChar(head, '/') then
      var stripped := RStrip(head, '/');
      assert stripped != [] by {
        assert head[0..] == head;
      }
      assert p[|stripped|..|p| - |tail|] == head[|stripped|..];
      (stripped, tail)
    else
      assert '/' in p <==> head != [] by {
        if head != [] { assert p[i - 1] == '/'; }
      }
      (head, tail)
  }

  /**
    A name made of a stem whose final component holds a character other than
    a dot, a dot, and a word without dots or slashes, splits into exactly that
    stem and that dotted word.
  */
  lemma SplitextOfDottedSuffix(stem: string, word: string)
    requires '.' !in word && '/' !in word
    requires !AllChar(LastComponent(stem), '.')
    ensures Splitext(stem + "." + word) == (stem, "." + word)
  {
    var p := stem + "." + word;
    var s0 := RFind(stem, '/');
    LastSlashAndDot(stem, word);
    DottedParts(stem, word, s0 + 1);
    SplitextAt(p, s0, |stem|);
  }

  /** The pieces of `stem + "." + word` around the dot, and the stem's final component within it. */
  lemma DottedParts(stem: string, word: string, i: nat)
    requires i <= |stem|
    ensures (stem + "." + word)[..|stem|] == stem
    ensures (stem + "." + word)[|stem|..] == "." + word
    ensures (stem + "." + word)[i..|stem|] == stem[i..]
  {
    PrefixSlice(stem, "." + word, i);
    assert stem + ("." + word) == stem + "." + word;
  }

  lemma PrefixSlice(stem: string, rest: string, i: nat)
    requires i <= |stem|
    ensures (stem + rest)[i..|stem|] == stem[i..]
  {
  }

  /** Appending a dot and a word without dots or slashes moves the last dot, not the last slash. */
  lemma LastSlashAndDot(stem: string, word: string)
    requires '.' !in word && '/' !in word
    ensures RFind(stem + "." + word, '.') == |stem|
    ensures RFind(stem + "." + word, '/') == RFind(stem, '/')
  {
    var p := stem + "." + word;
    var n := |stem|;
    var s0 := RFind(stem, '/');
    forall k | n < k < |p| ensures p[k] != '.' && p[k] != '/' {
      assert p[k] == word[k - n - 1];
    }
    assert p[n] == '.';
    RFindUnique(p, '.', n);
    forall k | s0 < k < |p| ensures p[k] != '/' {
      if k < n {
        assert p[k] == stem[k];
      }
    }
    if s0 >= 0 {
      assert p[s0] == stem[s0];
    }
    RFindUnique(p, '/', s0);
  }

  /** Where the last slash and the last dot are known, `Splitext` cuts before that dot. */
  lemma SplitextAt(p: string, sep: int, dot: int)
    requires sep == RFind(p, '/') && dot == RFind(p, '.') && sep < dot
    requires !AllChar(p[sep + 1..dot], '.')
    ensures Splitext(p) == (p[..dot], p[dot..])
  {
  }

  /** `RFind` is characterised by its contract: the index of a `c` with no `c` after it. */
  lemma RFindUnique(s: string, c: char, i: int)
    requires -1 <= i < |s|
    requires 0 <= i ==> s[i] == c
    requires forall k :: i < k < |s| ==> s[k] != c
    ensures RFind(s, c) == i
  {
  }

  /**
    Joining a directory that does not end in a slash with a name that holds
    no slash, and splitting again, gives the directory and the name back.
  */
  lemma SplitOfJoin(dir: string, name: string)
    requires dir != [] && dir[|dir| - 1] != '/'
    requires '/' !in name
    ensures Split(dir + "/" + name) == (dir, name)
    ensures LastComponent(dir + "/" + name) == name
  {
    var p := dir + "/" + name;
    var n := |dir|;
    assert p[n] == '/';
    forall k | n < k < |p| ensures p[k] != '/' {
      assert p[k] == name[k - n - 1];
    }
    assert RFind(p, '/') == n;
    assert p[n + 1..] == name;
    var head := p[..n + 1];
    assert head == dir + "/";
    assert head[n - 1] != '/';
    var stripped := RStrip(head, '/');
    forall j | 0 <= j <= n - 1 ensures !AllChar(head[j..], '/') {
      assert head[j..][n - 1 - j] == head[n - 1];
    }
    assert |stripped| == n;
    assert stripped == dir;
  }
}
