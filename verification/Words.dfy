/** White space, trimming and words, shared by the naming modules. */
module Words {

  /** unicode.IsSpace. */
  predicate IsSpace(c: char) {
    var n := c as int;
    || (0x09 <= n <= 0x0D) || n == 0x20 || n == 0x85 || n == 0xA0 || n == 0x1680
    || (0x2000 <= n <= 0x200A) || n == 0x2028 || n == 0x2029 || n == 0x202F || n == 0x205F || n == 0x3000
  }

  function TrimLeft(s: string, cut: char -> bool): (r: string)
    ensures r == "" || !cut(r[0])
  {
    if s != "" && cut(s[0]) then TrimLeft(s[1..], cut) else s
  }

  function TrimRight(s: string, cut: char -> bool): (r: string)
    ensures r == "" || !cut(r[|r| - 1])
  {
    if s != "" && cut(s[|s| - 1]) then TrimRight(s[..|s| - 1], cut) else s
  }

  function Trim(s: string, cut: char -> bool): string {
    TrimRight(TrimLeft(s, cut), cut)
  }

  lemma NothingToTrim(s: string, cut: char -> bool)
    requires s != "" && !cut(s[0]) && !cut(s[|s| - 1])
    ensures Trim(s, cut) == s
  {
  }

  /** Length of the run of characters before the first separator. */
  function RunLength(s: string, sep: char -> bool): (n: nat)
    ensures n <= |s|
    ensures forall i :: 0 <= i < n ==> !sep(s[i])
    ensures n < |s| ==> sep(s[n])
  {
    if s == "" || sep(s[0]) then 0 else 1 + RunLength(s[1..], sep)
  }

  /** The maximal runs of characters that are not separators. */
  function Split(s: string, sep: char -> bool): (words: seq<string>)
    ensures forall i :: 0 <= i < |words| ==> words[i] != ""
    decreases |s|
  {
    if s == "" then []
    else if sep(s[0]) then Split(s[1..], sep)
    else
      var n := RunLength(s, sep);
      [s[..n]] + Split(s[n..], sep)
  }

  /** Words joined by single spaces. */
  function JoinWords(words: seq<string>): string {
    if words == [] then ""
    else if |words| == 1 then words[0]
    else words[0] + " " + JoinWords(words[1..])
  }

  /** A text of words with one space between them and no other separators. */
  ghost predicate SingleSpaced(s: string, sep: char -> bool) {
    && s != "" && s[0] != ' ' && s[|s| - 1] != ' '
    && (forall i :: 0 <= i < |s| && sep(s[i]) ==> s[i] == ' ')
    && (forall i :: 0 <= i < |s| - 1 && s[i] == ' ' ==> s[i + 1] != ' ')
  }

  lemma JoinFirst(word: string, words: seq<string>)
    ensures JoinWords([word] + words) == if words == [] then word else word + " " + JoinWords(words)
  {
    assert ([word] + words)[1..] == words;
  }

  /** The first word of a text, the space behind it, and the rest. */
  lemma SplitFirst(s: string, sep: char -> bool, n: nat)
    requires s != "" && !sep(s[0]) && n == RunLength(s, sep) < |s|
    ensures Split(s, sep) == [s[..n]] + Split(s[n + 1..], sep)
  {
    assert s[n..][1..] == s[n + 1..];
  }

  /** A text without separators is one word. */
  lemma SplitOne(s: string, sep: char -> bool)
    requires s != "" && !sep(s[0]) && RunLength(s, sep) == |s|
    ensures Split(s, sep) == [s] && JoinWords([s]) == s
  {
    assert s[..|s|] == s && s[|s|..] == "";
  }

  lemma SingleSpacedRest(s: string, sep: char -> bool, n: nat)
    requires sep(' ') && SingleSpaced(s, sep) && n < |s| && sep(s[n])
    ensures s[n] == ' ' && SingleSpaced(s[n + 1..], sep)
  {
    var rest := s[n + 1..];
    assert n < |s| - 1 && s[n + 1] != ' ';
    assert forall i :: 0 <= i < |rest| ==> rest[i] == s[n + 1 + i];
  }

  /** Splitting such a text and joining the words gives it back. */
  lemma {:induction false} SplitThenJoin(s: string, sep: char -> bool)
    requires sep(' ') && SingleSpaced(s, sep)
    ensures JoinWords(Split(s, sep)) == s && Split(s, sep) != []
    decreases |s|
  {
    hide Split, JoinWords, RunLength;
    var n := RunLength(s, sep);
    if n < |s| {
      SplitLater(s, sep, n);
      SplitThenJoin(s[n + 1..], sep);
      JoinFirst(s[..n], Split(s[n + 1..], sep));
      assert s == s[..n] + " " + s[n + 1..];
    } else {
      SplitOne(s, sep);
    }
  }

  lemma SplitLater(s: string, sep: char -> bool, n: nat)
    requires sep(' ') && SingleSpaced(s, sep) && n == RunLength(s, sep) < |s|
    ensures s[n] == ' ' && SingleSpaced(s[n + 1..], sep)
    ensures Split(s, sep) == [s[..n]] + Split(s[n + 1..], sep)
  {
    SingleSpacedRest(s, sep, n);
    SplitFirst(s, sep, n);
  }
}
