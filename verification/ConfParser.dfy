/**
  The configuration parser: groups, keys, comments and trimming.  Keys are equal up to letter case,
  group names up to case folding; the first definition of a key in a group wins.

  Case folding of names and the check for UTF-8 are parameters.
 */
module ConfParser {
  import opened Bytes
  import opened ConfText

  datatype Env = Env(fold: string -> string, utf8: string -> bool)

  datatype Entry = Entry(key: string, value: string)

  /** The keys of kv are the lower-case spellings. */
  datatype Group = Group(name: string, kv: map<string, Entry>)

  /** The keys of groups are the folded names; current is the group that takes the next entry. */
  datatype State = State(groups: map<string, Group>, current: Option<string>)

  const START := State(map[], None)

  const MAX_SHARE_NAME := 64

  predicate ShareName(env: Env, name: string) {
    0 < |name| < MAX_SHARE_NAME && env.utf8(name) && AllPrintable(name) && Free(name, '[') && Free(name, ']')
  }

  /** A name has 1 to 63 characters, none of them a bracket or a control character. */
  lemma NamesAre(env: Env, name: string)
    ensures ShareName(env, name) <==>
            && 1 <= |name| <= 63 && env.utf8(name)
            && forall i :: 0 <= i < |name| ==>
                 name[i] != '[' && name[i] != ']' && ((name[i] >= ' ' && name[i] != '\U{007F}') || name[i] == '\t')
  {
  }

  /** A C string ends at its first NUL. */
  function CString(s: string): string { s[..IndexOf(s, '\0')] }

  /** The part of a line that is looked at. */
  function Content(line: string): string { LTrim(CString(line)) }

  // ---------------------------------------------------------------- what a line is

  predicate IsGroup(env: Env, e: string) {
    && e != [] && e[0] == '['
    && var d := IndexOf(e[1..], ']');
       && d < |e| - 1
       && ShareName(env, e[1..1 + d])
       && Eol(LTrim(e[d + 2..]))
  }

  function GroupName(e: string): string
    requires e != []
  {
    e[1..1 + IndexOf(e[1..], ']')]
  }

  /** The value: without leading blanks, up to a comment.  Trailing blanks belong to it. */
  function ValueOf(e: string): string
    requires IndexOf(e, '=') < |e|
  {
    UpToEol(LTrim(e[IndexOf(e, '=') + 1..]))
  }

  function KeyOf(e: string): string { RTrim(e[..IndexOf(e, '=')]) }

  predicate IsKeyValue(e: string) {
    var d := IndexOf(e, '=');
    && 0 < d < |e|
    && AllPrintable(e[..d]) && NoComment(e[..d])
    && AllPrintable(ValueOf(e))
  }

  // ---------------------------------------------------------------- what a line does

  function AddGroup(env: Env, st: State, name: string): (r: State)
    ensures r.current == Some(env.fold(name)) && env.fold(name) in r.groups
  {
    var f := env.fold(name);
    State(if f in st.groups then st.groups else st.groups[f := Group(name, map[])], Some(f))
  }

  /** The parser's own pointer to the group of this name. */
  function LinkOf(env: Env, groups: map<string, Group>, name: string): Option<string> {
    if env.fold(name) in groups then Some(env.fold(name)) else None
  }

  /** The writer gets by with [global], or without [ipc$]. */
  predicate Orderly(env: Env, groups: map<string, Group>) {
    env.fold("global") in groups || env.fold("ipc$") !in groups
  }

  ghost predicate HasCurrent(st: State) { st.current.Some? ==> st.current.value in st.groups }

  /** An empty value and a key that is already there are passed over. */
  function AddEntry(st: State, k: string, v: string): State
    requires st.current.Some? && st.current.value in st.groups
  {
    var g := st.groups[st.current.value];
    if v == [] || Lower(k) in g.kv then st
    else st.(groups := st.groups[st.current.value := g.(kv := g.kv[Lower(k) := Entry(k, v)])])
  }

  /** None is the error of an invalid line. */
  function ParseEntry(env: Env, st: State, e: string): (r: Option<State>)
    requires HasCurrent(st)
    ensures r.Some? ==> HasCurrent(r.value)
  {
    if Eol(e) then Some(st)
    else if IsGroup(env, e) then Some(AddGroup(env, st, GroupName(e)))
    else if IsKeyValue(e) && st.current.Some? then Some(AddEntry(st, KeyOf(e), ValueOf(e)))
    else None
  }

  function ParseLine(env: Env, st: State, line: string): (r: Option<State>)
    requires HasCurrent(st)
    ensures r.Some? ==> HasCurrent(r.value)
  {
    ParseEntry(env, st, Content(line))
  }

  function ParseLines(env: Env, st: State, lines: seq<string>): (r: Option<State>)
    requires HasCurrent(st)
    ensures r.Some? ==> HasCurrent(r.value)
    decreases |lines|
  {
    if lines == [] then Some(st)
    else
      var r := ParseLine(env, st, lines[0]);
      if r.None? then None else ParseLines(env, r.value, lines[1..])
  }

  function Parse(env: Env, text: string): Option<State> { ParseLines(env, START, Lines(text)) }

  lemma {:induction false} ParseConcat(env: Env, st: State, a: seq<string>, b: seq<string>)
    requires HasCurrent(st)
    ensures ParseLines(env, st, a + b) ==
            var r := ParseLines(env, st, a);
            if r.None? then None else ParseLines(env, r.value, b)
    decreases |a|
  {
    if a == [] {
      assert a + b == b;
    } else {
      assert (a + b)[1..] == a[1..] + b;
      var r := ParseLine(env, st, a[0]);
      if r.Some? {
        ParseConcat(env, r.value, a[1..], b);
      }
    }
  }

  // ---------------------------------------------------------------- what the parser keeps

  ghost predicate ValidKey(k: string) {
    && k != [] && !Blank(k[0]) && !Blank(k[|k| - 1])
    && AllPrintable(k) && NoComment(k) && Free(k, '=')
  }

  ghost predicate ValidValue(v: string) { v != [] && !Blank(v[0]) && AllPrintable(v) && NoComment(v) }

  ghost predicate ValidEntry(e: Entry) { ValidKey(e.key) && ValidValue(e.value) }

  ghost predicate ValidGroup(env: Env, g: Group) {
    && ShareName(env, g.name)
    && forall k :: k in g.kv ==> Lower(g.kv[k].key) == k && ValidEntry(g.kv[k])
  }

  ghost predicate ValidGroups(env: Env, groups: map<string, Group>) {
    forall f :: f in groups ==> env.fold(groups[f].name) == f && ValidGroup(env, groups[f])
  }

  lemma KeyIsValid(e: string)
    requires IsKeyValue(e) && !Blank(e[0])
    ensures ValidKey(KeyOf(e))
  {
    var d := IndexOf(e, '=');
    var raw := e[..d];
    RTrimTrims(raw);
    var k := RTrim(raw);
    assert k == raw[..|k|];
    assert k[0] == e[0];
    assert forall i :: 0 <= i < |k| ==> k[i] == raw[i];
  }

  lemma ValueIsValid(e: string)
    requires IsKeyValue(e) && ValueOf(e) != []
    ensures ValidValue(ValueOf(e))
  {
    var raw := e[IndexOf(e, '=') + 1..];
    LTrimTrims(raw);
    assert ValueOf(e)[0] == LTrim(raw)[0];
  }

  lemma ParseEntryKeeps(env: Env, st: State, e: string)
    requires HasCurrent(st) && ValidGroups(env, st.groups) && ParseEntry(env, st, e).Some? && (e == [] || !Blank(e[0]))
    ensures ValidGroups(env, ParseEntry(env, st, e).value.groups)
  {
    if !Eol(e) && !IsGroup(env, e) && ValueOf(e) != [] {
      KeyIsValid(e);
      ValueIsValid(e);
    }
  }

  /** Whatever the text, the groups a successful parse leaves are well formed. */
  lemma {:induction false} ParseKeeps(env: Env, st: State, lines: seq<string>)
    requires HasCurrent(st) && ValidGroups(env, st.groups) && ParseLines(env, st, lines).Some?
    ensures ValidGroups(env, ParseLines(env, st, lines).value.groups)
    decreases |lines|
  {
    hide ValidGroups, ParseEntry;
    if lines != [] {
      LTrimTrims(CString(lines[0]));
      ParseEntryKeeps(env, st, LTrim(CString(lines[0])));
      ParseKeeps(env, ParseLine(env, st, lines[0]).value, lines[1..]);
    }
  }

  // ---------------------------------------------------------------- what the lines say

  predicate Opens(env: Env, line: string) { !Eol(Content(line)) && IsGroup(env, Content(line)) }

  predicate Assigns(env: Env, line: string) {
    !Eol(Content(line)) && !IsGroup(env, Content(line)) && IsKeyValue(Content(line))
  }

  /** The group whose section the end of the lines is in. */
  ghost function InForce(env: Env, start: Option<string>, lines: seq<string>): Option<string> {
    if lines == [] then start
    else
      var last := lines[|lines| - 1];
      if Opens(env, last) then Some(env.fold(GroupName(Content(last)))) else InForce(env, start, lines[..|lines| - 1])
  }

  /** Line i gives the key k of group f a value. */
  ghost predicate Gives(env: Env, start: Option<string>, lines: seq<string>, i: nat, f: string, k: string)
    requires i < |lines|
  {
    && InForce(env, start, lines[..i]) == Some(f) && Assigns(env, lines[i])
    && Lower(KeyOf(Content(lines[i]))) == k && ValueOf(Content(lines[i])) != []
  }

  /** Line i is blank or a comment, opens a section, or stands in one and assigns. */
  ghost predicate Legal(env: Env, start: Option<string>, lines: seq<string>, i: nat)
    requires i < |lines|
  {
    || Eol(Content(lines[i])) || Opens(env, lines[i])
    || (Assigns(env, lines[i]) && InForce(env, start, lines[..i]).Some?)
  }

  /** The entry of a key in a group. */
  ghost function EntryAt(groups: map<string, Group>, f: string, k: string): Option<Entry> {
    if f in groups && k in groups[f].kv then Some(groups[f].kv[k]) else None
  }

  ghost function NameAt(groups: map<string, Group>, f: string): Option<string> {
    if f in groups then Some(groups[f].name) else None
  }

  /** What one line does, key by key. */
  lemma LineGives(env: Env, st: State, line: string, f: string, k: string)
    requires HasCurrent(st)
    ensures ParseLine(env, st, line).Some? <==>
            Eol(Content(line)) || Opens(env, line) || (Assigns(env, line) && st.current.Some?)
    ensures ParseLine(env, st, line).Some? ==>
              var after := ParseLine(env, st, line).value;
              var e := Content(line);
              && after.current == (if Opens(env, line) then Some(env.fold(GroupName(e))) else st.current)
              && EntryAt(after.groups, f, k) ==
                 (if EntryAt(st.groups, f, k).None? && Assigns(env, line) && st.current == Some(f) &&
                     Lower(KeyOf(e)) == k && ValueOf(e) != []
                  then Some(Entry(KeyOf(e), ValueOf(e))) else EntryAt(st.groups, f, k))
              && NameAt(after.groups, f) ==
                 (if NameAt(st.groups, f).None? && Opens(env, line) && env.fold(GroupName(e)) == f
                  then Some(GroupName(e)) else NameAt(st.groups, f))
  {
    hide IsGroup, IsKeyValue, KeyOf, ValueOf, Lower, GroupName, Eol, CString, LTrim;
  }

  lemma PrefixGives(env: Env, start: Option<string>, lines: seq<string>, n: nat, i: nat, f: string, k: string)
    requires i < n <= |lines|
    ensures Gives(env, start, lines[..n], i, f, k) <==> Gives(env, start, lines, i, f, k)
    ensures Legal(env, start, lines[..n], i) <==> Legal(env, start, lines, i)
  {
    hide InForce, Assigns, Opens;
    assert lines[..n][..i] == lines[..i] && lines[..n][i] == lines[i];
  }

  lemma LastLine(env: Env, st: State, lines: seq<string>)
    requires HasCurrent(st) && lines != []
    ensures var r := ParseLines(env, st, lines[..|lines| - 1]);
            ParseLines(env, st, lines) == if r.None? then None else ParseLine(env, r.value, lines[|lines| - 1])
  {
    hide ParseLine;
    var n := |lines| - 1;
    assert lines == lines[..n] + [lines[n]] && [lines[n]][1..] == [];
    ParseConcat(env, st, lines[..n], [lines[n]]);
  }

  ghost predicate AllLegal(env: Env, start: Option<string>, lines: seq<string>) {
    forall i :: 0 <= i < |lines| ==> Legal(env, start, lines, i)
  }

  lemma LegalSplits(env: Env, start: Option<string>, lines: seq<string>)
    requires lines != []
    ensures var n := |lines| - 1;
            AllLegal(env, start, lines) <==> AllLegal(env, start, lines[..n]) && Legal(env, start, lines, n)
  {
    hide Legal;
    var n := |lines| - 1;
    forall i | 0 <= i < n
      ensures Legal(env, start, lines[..n], i) <==> Legal(env, start, lines, i)
    {
      PrefixGives(env, start, lines, n, i, "", "");
    }
  }

  /** A text parses if and only if every line is legal, and then the section at its end takes the next entry. */
  lemma {:induction false} ParsesExactly(env: Env, st: State, lines: seq<string>)
    requires HasCurrent(st)
    ensures ParseLines(env, st, lines).Some? <==> AllLegal(env, st.current, lines)
    ensures ParseLines(env, st, lines).Some? ==>
              ParseLines(env, st, lines).value.current == InForce(env, st.current, lines)
    decreases |lines|
  {
    hide ParseLine, ParseLines, Opens, Assigns, Content, Eol;
    if lines == [] {
      ParseNothing(env, st);
    } else {
      var n := |lines| - 1;
      ParsesExactly(env, st, lines[..n]);
      LastLine(env, st, lines);
      LegalSplits(env, st.current, lines);
      hide AllLegal;
      var r := ParseLines(env, st, lines[..n]);
      if r.Some? {
        LineGives(env, r.value, lines[n], "", "");
      }
    }
  }

  lemma ParseNothing(env: Env, st: State)
    requires HasCurrent(st)
    ensures ParseLines(env, st, []) == Some(st)
  {
  }

  /** What stands stays; otherwise the first line that gives the key a value sets it, and nothing else does. */
  lemma {:induction false} FirstLineSets(env: Env, st: State, lines: seq<string>, f: string, k: string)
    requires HasCurrent(st) && ParseLines(env, st, lines).Some?
    ensures var before, after := EntryAt(st.groups, f, k), EntryAt(ParseLines(env, st, lines).value.groups, f, k);
            && (before.Some? ==> after == before)
            && (before.None? ==>
                  (after.Some? <==> exists i :: 0 <= i < |lines| && Gives(env, st.current, lines, i, f, k)))
            && (before.None? ==>
                  forall i :: 0 <= i < |lines| && Gives(env, st.current, lines, i, f, k) &&
                              (forall j :: 0 <= j < i ==> !Gives(env, st.current, lines, j, f, k)) ==>
                    after == Some(Entry(KeyOf(Content(lines[i])), ValueOf(Content(lines[i])))))
    decreases |lines|
  {
    hide ParseLine, ParseLines, Content, KeyOf, ValueOf, Lower, Assigns, InForce;
    if lines == [] {
      ParseNothing(env, st);
    } else {
      var n := |lines| - 1;
      LastLine(env, st, lines);
      FirstLineSets(env, st, lines[..n], f, k);
      ParsesExactly(env, st, lines[..n]);
      LineGives(env, ParseLines(env, st, lines[..n]).value, lines[n], f, k);
      forall i | 0 <= i < n
        ensures Gives(env, st.current, lines[..n], i, f, k) <==> Gives(env, st.current, lines, i, f, k)
      {
        PrefixGives(env, st.current, lines, n, i, f, k);
      }
      assert Gives(env, st.current, lines, n, f, k) || !Gives(env, st.current, lines, n, f, k);
      var front := EntryAt(ParseLines(env, st, lines[..n]).value.groups, f, k);
      if EntryAt(st.groups, f, k).None? && front.Some? {
        var i :| 0 <= i < n && Gives(env, st.current, lines[..n], i, f, k);
        assert Gives(env, st.current, lines, i, f, k);
      }
    }
  }

  ghost predicate Heads(env: Env, line: string, f: string) {
    Opens(env, line) && env.fold(GroupName(Content(line))) == f
  }

  /** The groups are those with a header, and the first header of a group gives its name. */
  lemma {:induction false} FirstHeaderNames(env: Env, st: State, lines: seq<string>, f: string)
    requires HasCurrent(st) && ParseLines(env, st, lines).Some?
    ensures var before, after := NameAt(st.groups, f), NameAt(ParseLines(env, st, lines).value.groups, f);
            && (before.Some? ==> after == before)
            && (before.None? ==> (after.Some? <==> exists i :: 0 <= i < |lines| && Heads(env, lines[i], f)))
            && (before.None? ==>
                  forall i :: 0 <= i < |lines| && Heads(env, lines[i], f) &&
                              (forall j :: 0 <= j < i ==> !Heads(env, lines[j], f)) ==>
                    after == Some(GroupName(Content(lines[i]))))
    decreases |lines|
  {
    hide ParseLine, ParseLines, Content, Opens, GroupName;
    if lines == [] {
      ParseNothing(env, st);
    } else {
      var n := |lines| - 1;
      LastLine(env, st, lines);
      FirstHeaderNames(env, st, lines[..n], f);
      LineGives(env, ParseLines(env, st, lines[..n]).value, lines[n], f, "");
      assert forall i :: 0 <= i < n ==> lines[..n][i] == lines[i];
    }
  }
}
