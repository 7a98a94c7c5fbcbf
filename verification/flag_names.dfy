/** Identifier resolution: the name a flag file is known by in the stylesheet
    (`handleSpecialCases`). */
module FlagNames {
  import opened Text

  /** The two parts of a directory entry's name that `path.parse` reports:
      `name + ext` is the whole entry. */
  datatype ParsedName = ParsedName(name: string, ext: string)

  /** The position of the last occurrence of `c` in `s`. */
  function LastIndexOf(s: string, c: char): (r: Option<nat>)
    ensures r.None? ==> c !in s
    ensures r.Some? ==> r.value < |s| && s[r.value] == c && c !in s[r.value + 1..]
    decreases |s|
  {
    if s == [] then None
    else if s[|s| - 1] == c then Some(|s| - 1)
    else
      var r := LastIndexOf(s[..|s| - 1], c);
      assert r.Some? ==> s[r.value + 1..] == s[..|s| - 1][r.value + 1..] + [s[|s| - 1]];
      r
  }

  /** POSIX `path.parse` of a single directory entry (no separator in it): the
      extension runs from the last dot, except when that dot is the entry's
      first character or the entry is `..`, which have no extension. */
  function ParseEntryName(entry: string): (p: ParsedName)
    requires '/' !in entry
    ensures p.name + p.ext == entry
    ensures p.ext == [] || (p.ext[0] == '.' && '.' !in p.ext[1..])
    ensures entry != [] ==> p.name != []
    ensures (p.ext != []) == (entry != ".." && exists i :: 0 < i < |entry| && entry[i] == '.')
  {
    match LastIndexOf(entry, '.')
    case None => ParsedName(entry, [])
    case Some(dot) =>
      NoneAfter(entry, '.', dot);
      if dot == 0 || entry == ".." then ParsedName(entry, [])
      else ParsedName(entry[..dot], entry[dot..])
  }

  /** No position after `k` holds `c` when the rest of `s` after `k` does
      not contain it. */
  lemma NoneAfter(s: string, c: char, k: nat)
    requires k < |s| && c !in s[k + 1..]
    ensures forall i :: k < i < |s| ==> s[i] != c
  {
    forall i | k < i < |s| ensures s[i] != c {
      assert s[i] == s[k + 1..][i - k - 1];
    }
  }

  /** The last occurrence of `c` is the one with no other `c` after it. */
  lemma {:induction false} LastIndexOfAt(s: string, c: char, k: nat)
    requires k < |s| && s[k] == c && c !in s[k + 1..]
    ensures LastIndexOf(s, c) == Some(k)
    decreases |s|
  {
    if k < |s| - 1 {
      assert s[|s| - 1] in s[k + 1..];
      assert s[..|s| - 1][k + 1..] == s[k + 1..|s| - 1];
      LastIndexOfAt(s[..|s| - 1], c, k);
    }
  }

  /** The override table; an entry found here wins over the derived name. */
  const SpecialCases: map<string, string> := map["sh-ac.svg" := "ac"]

  /** `specialCases[filename] || path.parse(filename).name.toLowerCase()`:
      a table value is used only when it is a non-empty (truthy) string. */
  function FlagName(filename: string): (id: string)
    requires '/' !in filename
    ensures forall i :: 0 <= i < |id| ==> !IsUpper(id[i])
  {
    if filename in SpecialCases && SpecialCases[filename] != "" then SpecialCases[filename]
    else Lower(ParseEntryName(filename).name)
  }

  /** How an `.svg` entry is resolved: `sh-ac.svg` becomes `ac`; the entry
      named exactly `.svg` keeps its whole name (it has no extension); any
      other entry loses its `.svg` extension and is lower-cased. */
  lemma FlagNameOfSvg(filename: string)
    requires '/' !in filename && EndsWith(filename, ".svg")
    ensures filename == "sh-ac.svg" ==> FlagName(filename) == "ac"
    ensures filename == ".svg" ==> FlagName(filename) == ".svg"
    ensures filename != "sh-ac.svg" && filename != ".svg" ==>
              FlagName(filename) == Lower(filename[..|filename| - 4])
  {
    SpecialCase();
    WholeNameSvg();
    if filename != "sh-ac.svg" && filename != ".svg" {
      SvgEntryName(filename);
      assert filename !in SpecialCases;
    }
  }

  lemma SpecialCase()
    ensures FlagName("sh-ac.svg") == "ac"
  {
    assert "sh-ac.svg" in SpecialCases;
  }

  lemma WholeNameSvg()
    ensures FlagName(".svg") == ".svg"
  {
    SvgDot(".svg");
    assert ParseEntryName(".svg").name == ".svg";
    assert Lower(".svg") == ".svg";
  }

  /** An `.svg` entry other than `.svg` itself is parsed into its name and
      the `.svg` extension. */
  lemma SvgEntryName(filename: string)
    requires '/' !in filename && EndsWith(filename, ".svg") && filename != ".svg"
    ensures ParseEntryName(filename).name == filename[..|filename| - 4]
  {
    var n := |filename|;
    SvgDot(filename);
    assert filename == filename[..n - 4] + ".svg";
    assert n - 4 != 0 && filename != "..";
  }

  /** The last dot of an `.svg` entry is the one of its `.svg` suffix. */
  lemma SvgDot(filename: string)
    requires EndsWith(filename, ".svg")
    ensures LastIndexOf(filename, '.') == Some(|filename| - 4)
  {
    var n := |filename|;
    assert filename[n - 4..] == ".svg";
    assert filename[n - 4] == '.' && filename[n - 3..] == "svg";
    assert '.' !in filename[n - 3..];
    LastIndexOfAt(filename, '.', n - 4);
  }

  /** An identifier is a single line when the file name is: the name part
      is a prefix of the entry, and lower-casing turns only capitals, into
      small letters. */
  lemma FlagNameSingleLine(filename: string)
    requires '/' !in filename && '\n' !in filename
    ensures '\n' !in FlagName(filename)
  {
    if !(filename in SpecialCases && SpecialCases[filename] != "") {
      var name := ParseEntryName(filename).name;
      assert name == filename[..|name|];
      var id := Lower(name);
      forall i | 0 <= i < |id| ensures id[i] != '\n' {
        assert name[i] in filename;
      }
    }
  }
}
