/** The requirements-file reader of the package setup script: read the file
    line by line, strip each line, and keep every line that is neither empty
    nor the editable-install marker. The file's contents (after the newline
    translation of text mode) are an input; an absent file is `None`. */
module Requirements {
  import opened Wrappers
  import Seqs

  /** The marker line that installs the project itself. */
  const EditableInstall := "-e ."

  /** The characters `str.isspace` accepts, which `str.strip` removes. */
  predicate IsSpace(c: char) {
    || ('\U{0009}' <= c <= '\U{000D}')
    || ('\U{001C}' <= c <= '\U{001F}')
    || c == ' '
    || c == '\U{0085}'
    || c == '\U{00A0}'
    || c == '\U{1680}'
    || ('\U{2000}' <= c <= '\U{200A}')
    || c == '\U{2028}'
    || c == '\U{2029}'
    || c == '\U{202F}'
    || c == '\U{205F}'
    || c == '\U{3000}'
  }

  /** Index of the first non-space character at or after `i`. */
  function SkipSpaces(s: string, i: nat): (j: nat)
    requires i <= |s|
    ensures i <= j <= |s|
    ensures forall k :: i <= k < j ==> IsSpace(s[k])
    ensures j == |s| || !IsSpace(s[j])
    decreases |s| - i
  {
    if i == |s| || !IsSpace(s[i]) then i else SkipSpaces(s, i + 1)
  }

  /** Index just past the last non-space character at or after `lo`, scanning
      back from `j`. */
  function SkipSpacesBack(s: string, lo: nat, j: nat): (e: nat)
    requires lo <= j <= |s|
    ensures lo <= e <= j
    ensures forall k :: e <= k < j ==> IsSpace(s[k])
    ensures e == lo || !IsSpace(s[e - 1])
    decreases j
  {
    if j == lo || !IsSpace(s[j - 1]) then j else SkipSpacesBack(s, lo, j - 1)
  }

  /** `str.strip()`: the slice between the leading and the trailing run of
      whitespace. */
  function Strip(s: string): (r: string)
    ensures exists i, j :: 0 <= i <= j <= |s| && r == s[i..j]
              && (forall k :: 0 <= k < i ==> IsSpace(s[k]))
              && (forall k :: j <= k < |s| ==> IsSpace(s[k]))
    ensures r != [] ==> !IsSpace(r[0]) && !IsSpace(r[|r| - 1])
    ensures (forall k :: 0 <= k < |s| ==> IsSpace(s[k])) ==> r == []
  {
    var i := SkipSpaces(s, 0);
    var j := SkipSpacesBack(s, i, |s|);
    s[i..j]
  }

  /** A string without whitespace at either end is its own strip. */
  lemma StripTrimmed(s: string)
    requires s != [] ==> !IsSpace(s[0]) && !IsSpace(s[|s| - 1])
    ensures Strip(s) == s
  {
    var i := SkipSpaces(s, 0);
    if s != [] {
      assert i == 0;
      assert SkipSpacesBack(s, i, |s|) == |s|;
    }
  }

  /** Stripping is idempotent. */
  lemma StripIdempotent(s: string)
    ensures Strip(Strip(s)) == Strip(s)
  {
    StripTrimmed(Strip(s));
  }

  /** The lines joined back together. */
  function Concat(lines: seq<string>): string {
    if lines == [] then [] else lines[0] + Concat(lines[1..])
  }

  /** Index just past the end of the line starting at `start`: after its
      newline, or the end of the text. */
  function LineEnd(content: string, start: nat): (e: nat)
    requires start < |content|
    ensures start < e <= |content|
    ensures forall k :: start <= k < e - 1 ==> content[k] != '\n'
    ensures e < |content| ==> content[e - 1] == '\n'
    decreases |content| - start
  {
    if content[start] == '\n' || start + 1 == |content| then start + 1 else LineEnd(content, start + 1)
  }

  function LinesFrom(content: string, start: nat): (lines: seq<string>)
    requires start <= |content|
    ensures Concat(lines) == content[start..]
    ensures forall i :: 0 <= i < |lines| ==> lines[i] != []
    ensures forall i :: 0 <= i < |lines| - 1 ==> lines[i][|lines[i]| - 1] == '\n'
    ensures forall i, k :: 0 <= i < |lines| && 0 <= k < |lines[i]| - 1 ==> lines[i][k] != '\n'
    decreases |content| - start
  {
    if start == |content| then []
    else
      var e := LineEnd(content, start);
      var rest := LinesFrom(content, e);
      assert ([content[start..e]] + rest)[1..] == rest;
      assert content[start..e] + content[e..] == content[start..];
      [content[start..e]] + rest
  }

  /** `file.readlines()`: the text cut after every newline. Joining the lines
      gives the text back; every line but the last ends with its newline, and
      no line holds a newline anywhere else. */
  function ReadLines(content: string): (lines: seq<string>)
    ensures Concat(lines) == content
    ensures forall i :: 0 <= i < |lines| ==> lines[i] != []
    ensures forall i :: 0 <= i < |lines| - 1 ==> lines[i][|lines[i]| - 1] == '\n'
    ensures forall i, k :: 0 <= i < |lines| && 0 <= k < |lines[i]| - 1 ==> lines[i][k] != '\n'
  {
    assert content[0..] == content;
    LinesFrom(content, 0)
  }

  /** `if package and package != "-e ."`. */
  predicate KeepRequirement(package: string) {
    package != [] && package != EditableInstall
  }

  /** What the line filter keeps: stripped requirement lines only, in file
      order, each as often as it occurs among the stripped lines. */
  lemma {:induction false} FilteredRequirements(lines: seq<string>)
    ensures var stripped := Seqs.Map(Strip, lines);
            var packages := Seqs.Filter(KeepRequirement, stripped);
            && (forall p :: p in packages ==> KeepRequirement(p) && Strip(p) == p)
            && Seqs.IsSubsequence(packages, stripped)
            && (forall p :: KeepRequirement(p) ==> Seqs.Count(p, packages) == Seqs.Count(p, stripped))
  {
    var stripped := Seqs.Map(Strip, lines);
    var packages := Seqs.Filter(KeepRequirement, stripped);
    Seqs.FilterIsSubsequence(KeepRequirement, stripped);
    forall p | KeepRequirement(p)
      ensures Seqs.Count(p, packages) == Seqs.Count(p, stripped)
    {
      Seqs.FilterCount(KeepRequirement, stripped, p);
    }
    forall p | p in packages
      ensures Strip(p) == p
    {
      var k :| 0 <= k < |lines| && stripped[k] == p;
      StripIdempotent(lines[k]);
    }
  }

  /** `get_requirements`: every line stripped, empty lines and the
      editable-install marker dropped, everything else kept in file order with
      its duplicates; an absent file gives no requirements. */
  method GetRequirements(file: Option<string>) returns (packages: seq<string>)
    ensures file.None? ==> packages == []
    ensures file.Some? ==>
              packages == Seqs.Filter(KeepRequirement, Seqs.Map(Strip, ReadLines(file.value)))
    ensures forall p :: p in packages ==> KeepRequirement(p) && Strip(p) == p
    ensures file.Some? ==>
              && Seqs.IsSubsequence(packages, Seqs.Map(Strip, ReadLines(file.value)))
              && (forall p :: KeepRequirement(p) ==>
                    Seqs.Count(p, packages) == Seqs.Count(p, Seqs.Map(Strip, ReadLines(file.value))))
  {
    packages := [];
    if file.None? {
      return;
    }
    var lines := ReadLines(file.value);
    var i := 0;
    while i < |lines|
      invariant 0 <= i <= |lines|
      invariant packages == Seqs.Filter(KeepRequirement, Seqs.Map(Strip, lines[..i]))
    {
      var package := Strip(lines[i]);
      Seqs.MapPrefix(Strip, lines, i);
      Seqs.FilterAppend(KeepRequirement, Seqs.Map(Strip, lines[..i]), package);
      if package != [] && package != EditableInstall {
        packages := packages + [package];
      }
      i := i + 1;
    }
    assert lines[..|lines|] == lines;
    FilteredRequirements(lines);
  }
}
