/** Lines, blanks and comments of a configuration text.  A char stands for one byte of the file. */
module ConfText {

  predicate Blank(c: char) { c == ' ' || c == '\t' }

  /** The eighth bit is allowed, for multi-byte characters. */
  predicate Printable(c: char) { (c >= ' ' && c != '\U{007F}') || c == '\t' }

  predicate CommentChar(c: char) { c == ';' || c == '#' }

  /** Nothing left on the line but a comment. */
  predicate Eol(s: string) { s == [] || CommentChar(s[0]) }

  predicate AllPrintable(s: string) { forall i :: 0 <= i < |s| ==> Printable(s[i]) }

  predicate Free(s: string, c: char) { forall i :: 0 <= i < |s| ==> s[i] != c }

  predicate NoComment(s: string) { forall i :: 0 <= i < |s| ==> !CommentChar(s[i]) }

  /** The place of the first c, or the length. */
  function IndexOf(s: string, c: char): (i: nat)
    ensures i <= |s| && (i < |s| ==> s[i] == c) && Free(s[..i], c)
  {
    if s == [] || s[0] == c then 0
    else
      var i := IndexOf(s[1..], c);
      assert forall j :: 0 < j < 1 + i ==> s[j] == s[1..][..i][j - 1];
      1 + i
  }

  lemma IndexIs(s: string, c: char, i: nat)
    requires i <= |s| && (i < |s| ==> s[i] == c) && Free(s[..i], c)
    ensures IndexOf(s, c) == i
  {
  }

  function LTrim(s: string): string {
    if s != [] && Blank(s[0]) then LTrim(s[1..]) else s
  }

  /** Leaves at least the first character, as the source does. */
  function RTrim(s: string): string {
    if |s| > 1 && Blank(s[|s| - 1]) then RTrim(s[..|s| - 1]) else s
  }

  /** What stands before the first comment character. */
  function UpToEol(s: string): (r: string)
    ensures NoComment(r) && r <= s
    ensures |r| < |s| ==> CommentChar(s[|r|])
  {
    if Eol(s) then [] else [s[0]] + UpToEol(s[1..])
  }

  lemma {:induction false} LTrimTrims(s: string)
    ensures LTrim(s) == [] || !Blank(LTrim(s)[0])
    ensures |LTrim(s)| <= |s| && LTrim(s) == s[|s| - |LTrim(s)|..]
    ensures forall i :: 0 <= i < |s| - |LTrim(s)| ==> Blank(s[i])
  {
    if s != [] && Blank(s[0]) {
      LTrimTrims(s[1..]);
      var n := |s| - |LTrim(s)|;
      assert forall i :: 0 < i < n ==> s[i] == s[1..][i - 1];
    }
  }

  lemma {:induction false} RTrimTrims(s: string)
    ensures |RTrim(s)| <= |s| && RTrim(s) <= s
    ensures |RTrim(s)| > 1 ==> !Blank(RTrim(s)[|RTrim(s)| - 1])
    ensures s != [] ==> RTrim(s) != []
  {
    if |s| > 1 && Blank(s[|s| - 1]) {
      RTrimTrims(s[..|s| - 1]);
    }
  }

  lemma {:induction false} RTrimStops(s: string, n: nat)
    requires s != [] && !Blank(s[|s| - 1])
    ensures RTrim(s + Blanks(n)) == s
    decreases n
  {
    if n == 0 {
      assert s + Blanks(0) == s;
    } else {
      var t := s + Blanks(n);
      assert t[..|t| - 1] == s + Blanks(n - 1);
      RTrimStops(s, n - 1);
    }
  }

  function Blanks(n: nat): (s: string)
    ensures |s| == n && forall i :: 0 <= i < n ==> s[i] == ' '
  {
    seq(n, _ => ' ')
  }

  lemma {:induction false} UpToEolAll(s: string)
    requires NoComment(s)
    ensures UpToEol(s) == s
  {
    if s != [] {
      assert !CommentChar(s[0]);
      UpToEolAll(s[1..]);
    }
  }

  // ---------------------------------------------------------------- lines

  /** The pieces between newlines; a newline at the end closes the last piece. */
  function Lines(text: string): seq<string>
    decreases |text|
  {
    if text == [] then []
    else
      var i := IndexOf(text, '\n');
      [text[..i]] + if i == |text| then [] else Lines(text[i + 1..])
  }

  function Unlines(lines: seq<string>): string {
    if lines == [] then [] else lines[0] + "\n" + Unlines(lines[1..])
  }

  lemma {:induction false} LinesUndoUnlines(lines: seq<string>)
    requires forall i :: 0 <= i < |lines| ==> Free(lines[i], '\n')
    ensures Lines(Unlines(lines)) == lines
  {
    if lines != [] {
      var text, rest := Unlines(lines), Unlines(lines[1..]);
      var n := |lines[0]|;
      assert text[..n] == lines[0] && text[n] == '\n';
      IndexIs(text, '\n', n);
      assert text[n + 1..] == rest;
      LinesUndoUnlines(lines[1..]);
    }
  }

  lemma {:induction false} UnlinesConcat(a: seq<string>, b: seq<string>)
    ensures Unlines(a + b) == Unlines(a) + Unlines(b)
  {
    if a == [] {
      assert a + b == b;
    } else {
      assert (a + b)[1..] == a[1..] + b;
      UnlinesConcat(a[1..], b);
    }
  }

  // ---------------------------------------------------------------- letter case

  function LowerChar(c: char): char { if 'A' <= c <= 'Z' then c + 'a' - 'A' else c }

  function Lower(s: string): (r: string)
    ensures |r| == |s|
  {
    seq(|s|, i requires 0 <= i < |s| => LowerChar(s[i]))
  }

  /** Two spellings have one lower-case form if and only if they differ at most in the case of ASCII letters. */
  lemma SameInLowerCase(a: string, b: string)
    ensures Lower(a) == Lower(b) <==>
            && |a| == |b|
            && forall i :: 0 <= i < |a| ==>
                 || a[i] == b[i]
                 || ('A' <= a[i] <= 'Z' && b[i] as int == a[i] as int + 32)
                 || ('A' <= b[i] <= 'Z' && a[i] as int == b[i] as int + 32)
  {
    if Lower(a) == Lower(b) {
      forall i | 0 <= i < |a|
        ensures LowerChar(a[i]) == LowerChar(b[i])
      {
        assert Lower(a)[i] == Lower(b)[i];
      }
    }
  }
}
