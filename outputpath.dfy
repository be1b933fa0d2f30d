/**
 * The default output path: `outputs/<url>_<list>_results.csv`, where `<url>`
 * is the (prefixed) base URL with every `/` turned into `_` and every `:`
 * removed, and `<list>` is the word-list file's base name up to its first `.`.
 */
module OutputPath {
  import opened Wrappers

  /** `s.replace(from, to)` for one-character strings: each `from` becomes `to`, every other character stays. */
  function ReplaceChar(s: string, from: char, to: char): (r: string)
    ensures |r| == |s|
    ensures forall i :: 0 <= i < |s| ==> r[i] == (if s[i] == from then to else s[i])
  {
    if s == [] then [] else [if s[0] == from then to else s[0]] + ReplaceChar(s[1..], from, to)
  }

  /** `s.replace(c, "")`: the string without any `c`, every other character kept in order. */
  function RemoveChar(s: string, c: char): (r: string)
    ensures c !in r
    ensures |r| <= |s|
    ensures forall d :: d != c ==> multiset(r)[d] == multiset(s)[d]
  {
    if s == [] then []
    else
      assert s == [s[0]] + s[1..];
      (if s[0] == c then [] else [s[0]]) + RemoveChar(s[1..], c)
  }

  /** Removing a character that does not occur changes nothing. */
  lemma {:induction false} RemoveCharAbsent(s: string, c: char)
    requires c !in s
    ensures RemoveChar(s, c) == s
  {
    if s != [] {
      RemoveCharAbsent(s[1..], c);
    }
  }

  /** Removing commutes with concatenation, so the kept characters stay in their order. */
  lemma {:induction false} RemoveCharConcat(a: string, b: string, c: char)
    ensures RemoveChar(a + b, c) == RemoveChar(a, c) + RemoveChar(b, c)
  {
    if a == [] {
      assert a + b == b;
    } else {
      assert (a + b)[0] == a[0] && (a + b)[1..] == a[1..] + b;
      RemoveCharConcat(a[1..], b, c);
    }
  }

  /**
   * `os.path.basename(p)` on POSIX paths: what follows the last `/`, or the
   * whole path when it has none.
   */
  function Basename(p: string): (r: string)
    ensures '/' !in r
    ensures |r| <= |p| && r == p[|p| - |r|..]
    ensures |r| == |p| || p[|p| - |r| - 1] == '/'
  {
    if p == [] then []
    else if p[|p| - 1] == '/' then []
    else
      var front := p[..|p| - 1];
      var r := Basename(front);
      assert p[|p| - |r| - 1..] == front[|front| - |r|..] + [p[|p| - 1]];
      r + [p[|p| - 1]]
  }

  /** `s.split(".")[0]`: what precedes the first `.`, or the whole string when it has none. */
  function Stem(s: string): (r: string)
    ensures '.' !in r
    ensures |r| <= |s| && r == s[..|r|]
    ensures |r| == |s| || s[|r|] == '.'
  {
    if s == [] then []
    else if s[0] == '.' then []
    else [s[0]] + Stem(s[1..])
  }

  /** The URL part of the file name: no `/` and no `:` are left in it. */
  function Sanitize(url: string): (r: string)
    ensures '/' !in r && ':' !in r
  {
    var replaced := ReplaceChar(url, '/', '_');
    assert multiset(replaced)['/'] == 0;
    RemoveChar(replaced, ':')
  }

  /** A URL with neither `/` nor `:` is used unchanged. */
  lemma SanitizeClean(url: string)
    requires '/' !in url && ':' !in url
    ensures Sanitize(url) == url
  {
    var replaced := ReplaceChar(url, '/', '_');
    assert replaced == url;
    RemoveCharAbsent(url, ':');
  }

  const Folder: string := "outputs/"
  const Suffix: string := "_results.csv"

  /** A base name cut at its first `.` still has no `/`. */
  lemma StemOfBasename(p: string)
    ensures '/' !in Stem(Basename(p))
  {
  }

  /** A name without `/` placed in the folder, followed by the suffix, leaves the folder's `/` as the only one. */
  lemma InFolder(head: string)
    requires '/' !in head
    ensures var r := Folder + head + Suffix;
            && |r| >= |Folder| + |Suffix| && r[..|Folder|] == Folder && r[|r| - |Suffix|..] == Suffix
            && forall i :: 0 <= i < |r| && r[i] == '/' ==> i == |Folder| - 1
  {
  }

  /**
   * The default path. It lies directly inside `outputs/`: its only `/` is the
   * one that ends the folder name, whatever the URL and the word-list path
   * hold.
   */
  function DefaultPath(url: string, wordListFile: string): (r: string)
    ensures |r| >= |Folder| + |Suffix| && r[..|Folder|] == Folder && r[|r| - |Suffix|..] == Suffix
    ensures forall i :: 0 <= i < |r| && r[i] == '/' ==> i == |Folder| - 1
  {
    var head := Sanitize(url) + "_" + Stem(Basename(wordListFile));
    StemOfBasename(wordListFile);
    assert '/' !in head;
    InFolder(head);
    Folder + head + Suffix
  }

  /** `output_file` when given, else the default path built from the base URL and the word-list path. */
  function Path(url: string, wordListFile: string, outputFile: Option<string>): (r: string)
    ensures outputFile.Some? ==> r == outputFile.value
    ensures outputFile.None? ==> r == DefaultPath(url, wordListFile)
  {
    match outputFile
    case Some(f) => f
    case None => DefaultPath(url, wordListFile)
  }
}
