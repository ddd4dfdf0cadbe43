/**
  Digests taken from an existing `MD5SUM` file under `--nochecksums`
  (genxml.py:259-268). The file in the data file's directory is read line
  by line, each line keeping its newline, and every line whose text from
  offset 34 up to its last character equals the data file's name gives the
  first 32 characters of that line as a digest.
*/
module Md5sumFile {
  import opened Wrappers

  /** A Python slice bound: a negative bound counts from the end, then it is clamped to the string. */
  function SliceBound(i: int, n: nat): (b: nat)
    ensures b <= n
    ensures 0 <= i <= n ==> b == i
  {
    var j := if i < 0 then i + n else i;
    if j < 0 then 0 else if j > n then n else j
  }

  /** `s[lo:hi]` with Python's rules: out-of-range bounds never fail, a crossed pair gives `""`. */
  function PySlice(s: string, lo: int, hi: int): (r: string)
    ensures |r| <= |s|
    ensures 0 <= lo <= hi <= |s| ==> r == s[lo..hi]
    ensures lo >= |s| ==> r == []
  {
    var a := SliceBound(lo, |s|);
    var b := SliceBound(hi, |s|);
    if a < b then s[a..b] else ""
  }

  /** The path of the checksum file: the directory part joined with `/MD5SUM`. */
  function Md5sumPath(head: string): string {
    head + "/MD5SUM"
  }

  /** A line as Python's file iteration yields it: not empty, and a newline only at its end, if at all. */
  predicate IsLine(l: string, last: bool) {
    l != [] && (forall j :: 0 <= j < |l| - 1 ==> l[j] != '\n') && (last || l[|l| - 1] == '\n')
  }

  /** The length of the first line of `s`: up to and including the first newline, or all of `s`. */
  function FirstLineLength(s: string): (n: nat)
    requires s != []
    ensures 1 <= n <= |s|
    ensures IsLine(s[..n], n == |s|)
  {
    if s[0] == '\n' || |s| == 1 then 1
    else
      var n := 1 + FirstLineLength(s[1..]);
      assert s[..n] == [s[0]] + s[1..][..n - 1];
      n
  }

  function Join(ls: seq<string>): string {
    if ls == [] then "" else ls[0] + Join(ls[1..])
  }

  /** `for line in fp`: the text cut after every newline. */
  function FileLines(text: string): (ls: seq<string>)
    ensures Join(ls) == text
    ensures forall i :: 0 <= i < |ls| ==> IsLine(ls[i], i == |ls| - 1)
    decreases |text|
  {
    if text == [] then []
    else
      var n := FirstLineLength(text);
      var rest := FileLines(text[n..]);
      assert text[..n] + text[n..] == text;
      var ls := [text[..n]] + rest;
      assert ls[1..] == rest;
      ls
  }

  /** Cutting text made of lines gives back those lines. */
  lemma {:induction false} FileLinesOfJoin(ls: seq<string>)
    requires forall i :: 0 <= i < |ls| ==> IsLine(ls[i], i == |ls| - 1)
    ensures FileLines(Join(ls)) == ls
  {
    if ls != [] {
      var text := Join(ls);
      var n := FirstLineLength(text);
      assert text == ls[0] + Join(ls[1..]);
      FirstLineIsFirst(ls[0], Join(ls[1..]), |ls| == 1);
      assert text[..n] == ls[0] && text[n..] == Join(ls[1..]);
      FileLinesOfJoin(ls[1..]);
    }
  }

  lemma {:induction false} FirstLineIsFirst(l: string, rest: string, last: bool)
    requires IsLine(l, last)
    requires last ==> rest == []
    ensures FirstLineLength(l + rest) == |l|
    decreases |l|
  {
    var s := l + rest;
    if |l| > 1 {
      assert s[0] == l[0] != '\n';
      assert s[1..] == l[1..] + rest;
      FirstLineIsFirst(l[1..], rest, last);
    }
  }

  /** `line[34:len(line)-1] == tail`. */
  predicate LineNames(line: string, tail: string) {
    PySlice(line, 34, |line| - 1) == tail
  }

  /** `line[:32]`. */
  function LineDigest(line: string): string {
    PySlice(line, 0, 32)
  }

  /** The digests of the matching lines, one per matching line, in file order. */
  function MatchingDigests(lines: seq<string>, tail: string): (ds: seq<string>)
    ensures |ds| <= |lines|
    ensures forall d :: d in ds ==> exists i :: 0 <= i < |lines| && LineNames(lines[i], tail) && LineDigest(lines[i]) == d
    ensures forall i :: 0 <= i < |lines| && LineNames(lines[i], tail) ==> LineDigest(lines[i]) in ds
  {
    if lines == [] then []
    else
      var here := if LineNames(lines[0], tail) then [LineDigest(lines[0])] else [];
      var rest := MatchingDigests(lines[1..], tail);
      assert forall i :: 1 <= i < |lines| ==> lines[i] == lines[1..][i - 1];
      here + rest
  }

  /** The digests of two runs of lines are those of the first run, then those of the second. */
  lemma {:induction false} MatchingDigestsAppend(a: seq<string>, b: seq<string>, tail: string)
    ensures MatchingDigests(a + b, tail) == MatchingDigests(a, tail) + MatchingDigests(b, tail)
  {
    if a == [] {
      assert a + b == b;
    } else {
      var here := if LineNames(a[0], tail) then [LineDigest(a[0])] else [];
      assert (a + b)[0] == a[0] && (a + b)[1..] == a[1..] + b;
      MatchingDigestsFirst(a + b, tail);
      MatchingDigestsAppend(a[1..], b, tail);
      MatchingDigestsFirst(a, tail);
      Assoc(here, MatchingDigests(a[1..], tail), MatchingDigests(b, tail));
    }
  }

  /** The first line's digest, if it matches, comes before those of the other lines. */
  lemma MatchingDigestsFirst(lines: seq<string>, tail: string)
    requires lines != []
    ensures MatchingDigests(lines, tail)
      == (if LineNames(lines[0], tail) then [LineDigest(lines[0])] else []) + MatchingDigests(lines[1..], tail)
  {
  }

  /** A single line gives its digest when it names the file, and nothing otherwise. */
  lemma MatchingDigestsLine(line: string, tail: string)
    ensures MatchingDigests([line], tail) == if LineNames(line, tail) then [LineDigest(line)] else []
  {
    assert [line][1..] == [];
  }

  /**
    A line in `md5sum`'s format, a 32-character digest, a two-character
    separator, the name and a newline, gives its digest exactly when the
    name is the file's name.
  */
  lemma WellFormedLine(digest: string, sep: string, name: string, tail: string)
    requires |digest| == 32 && |sep| == 2
    ensures LineNames(digest + sep + name + "\n", tail) <==> name == tail
    ensures LineDigest(digest + sep + name + "\n") == digest
  {
    var line := digest + sep + name + "\n";
    assert line[34..|line| - 1] == name;
    assert line[..32] == digest;
  }

  /**
    A last line without its newline loses the last character of its name
    instead: it matches the name with one character more.
  */
  lemma UnterminatedLastLine(digest: string, sep: string, name: string, tail: string)
    requires |digest| == 32 && |sep| == 2 && name != []
    ensures LineNames(digest + sep + name, tail) <==> name[..|name| - 1] == tail
    ensures LineNames(digest + sep + tail + "x", tail)
  {
    var line := digest + sep + name;
    assert line[34..|line| - 1] == name[..|name| - 1];
    var line' := digest + sep + tail + "x";
    assert line'[34..|line'| - 1] == tail;
  }
}
