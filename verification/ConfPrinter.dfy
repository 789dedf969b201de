/** The printed form of a configuration, and the law that the parser undoes it. */
module ConfPrinter {
  import opened Bytes
  import opened ConfText
  import opened ConfParser

  /** A group as it is printed: its other keys first, then the recognised share parameters. */
  datatype Section = Section(name: string, isGlobal: bool, plain: seq<Entry>, listed: seq<Entry>)

  function Body(e: Entry): string { e.key + " = " + e.value }

  function EntryLine(e: Entry): string { "\t" + Body(e) }

  function EntryLines(es: seq<Entry>): (lines: seq<string>)
    ensures |lines| == |es|
  {
    seq(|es|, i requires 0 <= i < |es| => EntryLine(es[i]))
  }

  function PlainMark(isGlobal: bool): string {
    "\t;" + if isGlobal then " global parameters" else " parameters"
  }

  function ListedMark(isGlobal: bool): string {
    "\t;" + if isGlobal then " default share parameters" else " share parameters"
  }

  function PlainLines(sec: Section): seq<string> {
    if sec.plain == [] then []
    else [PlainMark(sec.isGlobal)] + EntryLines(sec.plain)
  }

  function ListedLines(sec: Section): seq<string> {
    if sec.listed == [] then []
    else
      (if sec.plain == [] then [] else [""]) +
      [ListedMark(sec.isGlobal)] +
      EntryLines(sec.listed)
  }

  function HeaderLine(name: string): string { "[" + name + "]" }

  function SectionLines(sec: Section): seq<string> {
    [HeaderLine(sec.name)] + PlainLines(sec) + ListedLines(sec) + [""]
  }

  function SectionsLines(secs: seq<Section>): seq<string> {
    if secs == [] then [] else SectionsLines(secs[..|secs| - 1]) + SectionLines(secs[|secs| - 1])
  }

  const PREAMBLE := ["; see ksmbd.conf(5) for details", ""]

  function ConfLines(secs: seq<Section>): seq<string> { PREAMBLE + SectionsLines(secs) }

  function Print(secs: seq<Section>): string { Unlines(ConfLines(secs)) }

  /** All entries of a section in the order they are printed. */
  function Entries(sec: Section): seq<Entry> { sec.plain + sec.listed }

  // ---------------------------------------------------------------- sections and the groups they print

  ghost predicate DistinctKeys(es: seq<Entry>) {
    forall i, j :: 0 <= i < j < |es| ==> Lower(es[i].key) != Lower(es[j].key)
  }

  ghost predicate Shows(g: Group, sec: Section) {
    && sec.name == g.name
    && DistinctKeys(Entries(sec))
    && (forall i :: 0 <= i < |Entries(sec)| ==>
          Lower(Entries(sec)[i].key) in g.kv && g.kv[Lower(Entries(sec)[i].key)] == Entries(sec)[i])
    && (forall k :: k in g.kv ==> g.kv[k] in Entries(sec))
  }

  /** The sections show every group once, in any order. */
  ghost predicate ShowsAll(env: Env, groups: map<string, Group>, secs: seq<Section>) {
    && (forall i :: 0 <= i < |secs| ==>
          env.fold(secs[i].name) in groups && Shows(groups[env.fold(secs[i].name)], secs[i]))
    && (forall i, j :: 0 <= i < j < |secs| ==> env.fold(secs[i].name) != env.fold(secs[j].name))
    && (forall f :: f in groups ==> exists i :: 0 <= i < |secs| && env.fold(secs[i].name) == f)
  }

  function KvOf(es: seq<Entry>): map<string, Entry> {
    if es == [] then map[] else KvOf(es[..|es| - 1])[Lower(es[|es| - 1].key) := es[|es| - 1]]
  }

  function GroupsOf(env: Env, secs: seq<Section>): map<string, Group> {
    if secs == [] then map[]
    else
      var sec := secs[|secs| - 1];
      GroupsOf(env, secs[..|secs| - 1])[env.fold(sec.name) := Group(sec.name, KvOf(Entries(sec)))]
  }

  lemma {:induction false} KvOfKeys(es: seq<Entry>)
    requires DistinctKeys(es)
    ensures forall k :: k in KvOf(es) <==> exists i :: 0 <= i < |es| && Lower(es[i].key) == k
    ensures forall i :: 0 <= i < |es| ==> Lower(es[i].key) in KvOf(es) && KvOf(es)[Lower(es[i].key)] == es[i]
  {
    if es != [] {
      var front := es[..|es| - 1];
      KvOfKeys(front);
      forall k | k in KvOf(es)
        ensures exists i :: 0 <= i < |es| && Lower(es[i].key) == k
      {
        if k in KvOf(front) {
          var i :| 0 <= i < |front| && Lower(front[i].key) == k;
          assert Lower(es[i].key) == k;
        } else {
          assert Lower(es[|es| - 1].key) == k;
        }
      }
      forall i | 0 <= i < |es|
        ensures Lower(es[i].key) in KvOf(es) && KvOf(es)[Lower(es[i].key)] == es[i]
      {
        if i < |es| - 1 {
          assert front[i] == es[i];
        }
      }
    }
  }

  lemma ShowsKv(env: Env, g: Group, sec: Section)
    requires Shows(g, sec) && ValidGroup(env, g)
    ensures KvOf(Entries(sec)) == g.kv
  {
    var es := Entries(sec);
    KvOfKeys(es);
    forall k | k in g.kv
      ensures k in KvOf(es)
    {
      var i :| 0 <= i < |es| && es[i] == g.kv[k];
      assert Lower(es[i].key) == k;
    }
  }

  lemma {:induction false} GroupsOfKeys(env: Env, secs: seq<Section>, i: nat)
    requires i < |secs|
    ensures env.fold(secs[i].name) in GroupsOf(env, secs)
  {
    hide KvOf;
    if i < |secs| - 1 {
      assert secs[..|secs| - 1][i] == secs[i];
      GroupsOfKeys(env, secs[..|secs| - 1], i);
    }
  }

  lemma {:induction false} GroupsOfValues(env: Env, groups: map<string, Group>, secs: seq<Section>)
    requires ValidGroups(env, groups)
    requires forall i :: 0 <= i < |secs| ==>
               env.fold(secs[i].name) in groups && Shows(groups[env.fold(secs[i].name)], secs[i])
    ensures forall f :: f in GroupsOf(env, secs) ==> f in groups && GroupsOf(env, secs)[f] == groups[f]
  {
    if secs != [] {
      var sec := secs[|secs| - 1];
      ShowsKv(env, groups[env.fold(sec.name)], sec);
      ShowsName(groups[env.fold(sec.name)], sec);
      hide KvOf, Shows, ValidGroup;
      GroupsOfValues(env, groups, secs[..|secs| - 1]);
    }
  }

  lemma ShowsName(g: Group, sec: Section)
    requires Shows(g, sec)
    ensures g == Group(sec.name, g.kv)
  {
  }

  lemma ShowsAllGroups(env: Env, groups: map<string, Group>, secs: seq<Section>)
    requires ValidGroups(env, groups) && ShowsAll(env, groups, secs)
    ensures GroupsOf(env, secs) == groups
  {
    GroupsOfValues(env, groups, secs);
    forall f | f in groups
      ensures f in GroupsOf(env, secs)
    {
      var i :| 0 <= i < |secs| && env.fold(secs[i].name) == f;
      GroupsOfKeys(env, secs, i);
    }
  }

  // ---------------------------------------------------------------- parsing what was printed

  lemma CStringAll(s: string)
    requires AllPrintable(s)
    ensures CString(s) == s
  {
    IndexIs(s, '\0', |s|);
  }

  lemma LTrimNone(s: string)
    requires s == [] || !Blank(s[0])
    ensures LTrim(s) == s
  {
  }

  lemma LTrimOne(c: char, s: string)
    requires Blank(c) && (s == [] || !Blank(s[0]))
    ensures LTrim([c] + s) == s
  {
    assert ([c] + s)[1..] == s;
  }

  /** A printed entry reads as the key and the value it was printed from, if it is not taken for a header. */
  lemma BodyReads(e: Entry)
    requires ValidEntry(e)
    ensures IsKeyValue(Body(e)) && KeyOf(Body(e)) == e.key && ValueOf(Body(e)) == e.value
    ensures LTrim(CString(EntryLine(e))) == Body(e)
  {
    var s, d := Body(e), |e.key| + 1;
    assert s[..d] == e.key + " " && s[d] == '=' && s[d + 1..] == " " + e.value;
    assert Free(s[..d], '=') by {
      assert forall i :: 0 <= i < |e.key| ==> s[..d][i] == e.key[i];
    }
    IndexIs(s, '=', d);
    assert Blanks(1) == " ";
    RTrimStops(e.key, 1);
    LTrimOne(' ', e.value);
    UpToEolAll(e.value);
    assert AllPrintable(EntryLine(e));
    CStringAll(EntryLine(e));
    LTrimOne('\t', s);
  }

  lemma EntryParses(env: Env, st: State, e: Entry)
    requires HasCurrent(st) && st.current.Some? && ValidEntry(e) && !IsGroup(env, Body(e))
    requires Lower(e.key) !in st.groups[st.current.value].kv
    ensures ParseLine(env, st, EntryLine(e)) == Some(WithEntry(st, e))
  {
    hide IsGroup, IsKeyValue, KeyOf, ValueOf;
    BodyReads(e);
  }

  function WithEntry(st: State, e: Entry): State
    requires st.current.Some? && st.current.value in st.groups
  {
    var g := st.groups[st.current.value];
    st.(groups := st.groups[st.current.value := g.(kv := g.kv[Lower(e.key) := e])])
  }

  /** The current group has exactly these entries. */
  function WithKv(st: State, kv: map<string, Entry>): State
    requires st.current.Some? && st.current.value in st.groups
  {
    st.(groups := st.groups[st.current.value := st.groups[st.current.value].(kv := kv)])
  }

  ghost predicate IsComment(line: string) { AllPrintable(line) && Eol(LTrim(line)) }

  lemma CommentParses(env: Env, st: State, line: string)
    requires HasCurrent(st) && IsComment(line)
    ensures ParseLine(env, st, line) == Some(st)
  {
    CStringAll(line);
  }

  lemma HeaderIsGroup(env: Env, name: string)
    requires ShareName(env, name)
    ensures LTrim(CString(HeaderLine(name))) == HeaderLine(name)
    ensures IsGroup(env, HeaderLine(name)) && GroupName(HeaderLine(name)) == name
  {
    var e := HeaderLine(name);
    CStringAll(e);
    LTrimNone(e);
    assert e[1..] == name + "]";
    assert (name + "]")[..|name|] == name;
    IndexIs(name + "]", ']', |name|);
    assert e[1..1 + |name|] == name && e[|name| + 2..] == [];
  }

  lemma HeaderParses(env: Env, st: State, name: string)
    requires HasCurrent(st) && ShareName(env, name)
    ensures ParseLine(env, st, HeaderLine(name)) == Some(AddGroup(env, st, name))
  {
    HeaderIsGroup(env, name);
  }

  lemma {:induction false} EntriesParse(env: Env, st: State, es: seq<Entry>, all: seq<Entry>, n: nat)
    requires HasCurrent(st) && st.current.Some?
    requires n + |es| <= |all| && all[n..n + |es|] == es && DistinctKeys(all)
    requires st == WithKv(st, KvOf(all[..n]))
    requires forall i :: 0 <= i < |es| ==> ValidEntry(es[i]) && !IsGroup(env, Body(es[i]))
    ensures ParseLines(env, st, EntryLines(es)) == Some(WithKv(st, KvOf(all[..n + |es|])))
    decreases |es|
  {
    hide ParseLine, IsGroup, ValidEntry, KvOf;
    if es != [] {
      var e := es[0];
      assert e == all[n];
      KvOfStep(all, n);
      NewKey(all, n);
      EntryParses(env, st, e);
      var st1 := WithEntry(st, e);
      assert st1 == WithKv(st, KvOf(all[..n + 1]));
      assert EntryLines(es)[1..] == EntryLines(es[1..]);
      assert st1 == WithKv(st1, KvOf(all[..n + 1]));
      EntriesParse(env, st1, es[1..], all, n + 1);
      assert WithKv(st1, KvOf(all[..n + |es|])) == WithKv(st, KvOf(all[..n + |es|]));
    }
  }

  lemma NewKey(all: seq<Entry>, n: nat)
    requires n < |all| && DistinctKeys(all)
    ensures Lower(all[n].key) !in KvOf(all[..n])
  {
    KvOfKeys(all[..n]);
  }

  lemma KvOfStep(all: seq<Entry>, n: nat)
    requires n < |all|
    ensures KvOf(all[..n + 1]) == KvOf(all[..n])[Lower(all[n].key) := all[n]]
  {
    assert all[..n + 1][..n] == all[..n];
  }

  /** No entry of the section would be taken for a group header. */
  ghost predicate NoRogue(env: Env, sec: Section) {
    forall i :: 0 <= i < |Entries(sec)| ==> !IsGroup(env, Body(Entries(sec)[i]))
  }

  ghost predicate ValidSection(env: Env, sec: Section) {
    && ShareName(env, sec.name) && DistinctKeys(Entries(sec))
    && forall i :: 0 <= i < |Entries(sec)| ==> ValidEntry(Entries(sec)[i])
  }

  lemma ParseCons(env: Env, st: State, line: string, lines: seq<string>)
    requires HasCurrent(st) && ParseLine(env, st, line).Some?
    ensures ParseLines(env, st, [line] + lines) == ParseLines(env, ParseLine(env, st, line).value, lines)
  {
    hide ParseLine;
    assert ([line] + lines)[1..] == lines;
  }

  lemma ParseComment(env: Env, st: State, line: string, lines: seq<string>)
    requires HasCurrent(st) && IsComment(line)
    ensures ParseLines(env, st, [line] + lines) == ParseLines(env, st, lines)
  {
    hide ParseLine, ParseLines;
    CommentParses(env, st, line);
    ParseCons(env, st, line, lines);
  }

  /** A tab and a semicolon make a comment of what follows. */
  lemma CommentLine(s: string)
    requires AllPrintable(s)
    ensures IsComment("\t;" + s)
  {
    assert "\t;" + s == ['\t'] + (";" + s);
    LTrimOne('\t', ";" + s);
  }

  lemma MarksAreComments(isGlobal: bool)
    ensures IsComment(PlainMark(isGlobal)) && IsComment(ListedMark(isGlobal)) && IsComment("")
  {
    hide IsComment;
    CommentLine(if isGlobal then " global parameters" else " parameters");
    CommentLine(if isGlobal then " default share parameters" else " share parameters");
    EmptyIsComment();
  }

  lemma EmptyIsComment()
    ensures IsComment("")
  {
  }

  lemma PlainParses(env: Env, st: State, sec: Section)
    requires HasCurrent(st) && st.current.Some? && ValidSection(env, sec) && NoRogue(env, sec)
    requires st == WithKv(st, map[])
    ensures ParseLines(env, st, PlainLines(sec)) == Some(WithKv(st, KvOf(sec.plain)))
  {
    hide ParseLines, ParseLine, IsGroup, ValidEntry, KvOf, IsComment, PlainMark, ListedMark;
    var all := Entries(sec);
    KvOfNothing();
    if sec.plain == [] {
      ParseNothing(env, st);
    } else {
      MarksAreComments(sec.isGlobal);
      ParseComment(env, st, PlainLines(sec)[0], EntryLines(sec.plain));
      assert all[0..|sec.plain|] == sec.plain && all[..0] == [] && all[..0 + |sec.plain|] == sec.plain;
      assert forall i :: 0 <= i < |sec.plain| ==> sec.plain[i] == all[i];
      EntriesParse(env, st, sec.plain, all, 0);
    }
  }

  lemma KvOfNothing()
    ensures KvOf([]) == map[]
  {
  }

  lemma ParseNothing(env: Env, st: State)
    requires HasCurrent(st)
    ensures ParseLines(env, st, []) == Some(st)
  {
  }

  lemma ListedParses(env: Env, st: State, sec: Section)
    requires HasCurrent(st) && st.current.Some? && ValidSection(env, sec) && NoRogue(env, sec)
    requires st == WithKv(st, KvOf(sec.plain))
    ensures ParseLines(env, st, ListedLines(sec)) == Some(WithKv(st, KvOf(Entries(sec))))
  {
    hide ParseLines, ParseLine, IsGroup, ValidEntry, KvOf, IsComment, PlainMark, ListedMark;
    var all, n := Entries(sec), |sec.plain|;
    assert all[..n] == sec.plain && all[n..] == sec.listed;
    if sec.listed == [] {
      assert all == sec.plain;
      ParseNothing(env, st);
    } else {
      MarksAreComments(sec.isGlobal);
      var mark := ListedMark(sec.isGlobal);
      var rest := EntryLines(sec.listed);
      assert ListedLines(sec) == if sec.plain == [] then [mark] + rest else [""] + ([mark] + rest);
      ParseComment(env, st, "", [mark] + rest);
      ParseComment(env, st, mark, rest);
      assert all[n..n + |sec.listed|] == sec.listed && all[..n + |sec.listed|] == all;
      assert forall i :: 0 <= i < |sec.listed| ==> sec.listed[i] == all[n + i];
      EntriesParse(env, st, sec.listed, all, n);
    }
  }

  function WithGroup(env: Env, st: State, sec: Section): State {
    var f := env.fold(sec.name);
    State(st.groups[f := Group(sec.name, KvOf(Entries(sec)))], Some(f))
  }

  lemma SectionParses(env: Env, st: State, sec: Section)
    requires HasCurrent(st) && ValidSection(env, sec) && NoRogue(env, sec) && env.fold(sec.name) !in st.groups
    ensures ParseLines(env, st, SectionLines(sec)) == Some(WithGroup(env, st, sec))
  {
    hide ParseLines, ParseLine, KvOf, PlainLines, ListedLines, NoRogue, IsComment, HeaderLine;
    var h, p, l := [HeaderLine(sec.name)], PlainLines(sec), ListedLines(sec);
    var st1 := AddGroup(env, st, sec.name);
    var st2 := WithKv(st1, KvOf(sec.plain));
    var st3 := WithKv(st2, KvOf(Entries(sec)));
    HeaderParses(env, st, sec.name);
    ParseCons(env, st, HeaderLine(sec.name), p + l + [""]);
    assert SectionLines(sec) == h + (p + l + [""]);
    ParseConcat(env, st1, p + l, [""]);
    ParseConcat(env, st1, p, l);
    PlainParses(env, st1, sec);
    ListedParses(env, st2, sec);
    EmptyIsComment();
    ParseComment(env, st3, "", []);
    assert [""] + [] == [""];
    ParseNothing(env, st3);
    assert st3.groups == WithGroup(env, st, sec).groups;
  }

  lemma {:induction false} SectionsParse(env: Env, secs: seq<Section>)
    requires forall i :: 0 <= i < |secs| ==> ValidSection(env, secs[i]) && NoRogue(env, secs[i])
    requires forall i, j :: 0 <= i < j < |secs| ==> env.fold(secs[i].name) != env.fold(secs[j].name)
    ensures ParseLines(env, START, SectionsLines(secs)).Some?
    ensures ParseLines(env, START, SectionsLines(secs)).value.groups == GroupsOf(env, secs)
  {
    hide ParseLines, ParseLine, KvOf, SectionLines, ValidSection, NoRogue;
    if secs == [] {
      ParseNothing(env, START);
    } else {
      var front, sec := secs[..|secs| - 1], secs[|secs| - 1];
      SectionsParse(env, front);
      var st := ParseLines(env, START, SectionsLines(front)).value;
      NewFold(env, front, env.fold(sec.name));
      SectionParses(env, st, sec);
      ParseConcat(env, START, SectionsLines(front), SectionLines(sec));
    }
  }

  lemma {:induction false} NewFold(env: Env, secs: seq<Section>, f: string)
    requires forall i :: 0 <= i < |secs| ==> env.fold(secs[i].name) != f
    ensures f !in GroupsOf(env, secs)
  {
    hide KvOf;
    if secs != [] {
      NewFold(env, secs[..|secs| - 1], f);
    }
  }

  // ---------------------------------------------------------------- every printed line

  ghost predicate AllLines(lines: seq<string>, P: string -> bool) { forall i :: 0 <= i < |lines| ==> P(lines[i]) }

  lemma AllLinesConcat(a: seq<string>, b: seq<string>, P: string -> bool)
    requires AllLines(a, P) && AllLines(b, P)
    ensures AllLines(a + b, P)
  {
  }

  /** What holds of headers, entries and comments holds of every line of the printed text. */
  lemma {:induction false} EveryLine(env: Env, secs: seq<Section>, P: string -> bool)
    requires forall i :: 0 <= i < |secs| ==> ValidSection(env, secs[i])
    requires forall name :: ShareName(env, name) ==> P(HeaderLine(name))
    requires forall e :: ValidEntry(e) ==> P(EntryLine(e))
    requires forall line :: IsComment(line) ==> P(line)
    ensures AllLines(SectionsLines(secs), P)
  {
    hide ShareName, HeaderLine, ValidEntry, EntryLine, IsComment, SectionLines;
    if secs != [] {
      var front, sec := secs[..|secs| - 1], secs[|secs| - 1];
      EveryLine(env, front, P);
      EverySectionLine(env, sec, P);
      AllLinesConcat(SectionsLines(front), SectionLines(sec), P);
    }
  }

  lemma EverySectionLine(env: Env, sec: Section, P: string -> bool)
    requires ValidSection(env, sec)
    requires forall name :: ShareName(env, name) ==> P(HeaderLine(name))
    requires forall e :: ValidEntry(e) ==> P(EntryLine(e))
    requires forall line :: IsComment(line) ==> P(line)
    ensures AllLines(SectionLines(sec), P)
  {
    hide ShareName, HeaderLine, EntryLine, IsComment, PlainMark, ListedMark, EntryLines;
    MarksAreComments(sec.isGlobal);
    EveryEntryLine(sec.plain, P) by {
      assert forall i :: 0 <= i < |sec.plain| ==> sec.plain[i] == Entries(sec)[i];
    }
    EveryEntryLine(sec.listed, P) by {
      assert forall i :: 0 <= i < |sec.listed| ==> sec.listed[i] == Entries(sec)[|sec.plain| + i];
    }
    hide ValidSection, ValidEntry;
    AllLinesConcat([PlainMark(sec.isGlobal)], EntryLines(sec.plain), P);
    AllLinesConcat([ListedMark(sec.isGlobal)], EntryLines(sec.listed), P);
    AllLinesConcat([""], [ListedMark(sec.isGlobal)] + EntryLines(sec.listed), P);
    assert [""] + ([ListedMark(sec.isGlobal)] + EntryLines(sec.listed)) ==
           [""] + [ListedMark(sec.isGlobal)] + EntryLines(sec.listed);
    assert [] + [ListedMark(sec.isGlobal)] == [ListedMark(sec.isGlobal)];
    assert AllLines(PlainLines(sec), P) && AllLines(ListedLines(sec), P);
    hide PlainLines, ListedLines;
    AllLinesConcat([HeaderLine(sec.name)], PlainLines(sec), P);
    AllLinesConcat([HeaderLine(sec.name)] + PlainLines(sec), ListedLines(sec), P);
    AllLinesConcat([HeaderLine(sec.name)] + PlainLines(sec) + ListedLines(sec), [""], P);
  }

  lemma EveryEntryLine(es: seq<Entry>, P: string -> bool)
    requires forall i :: 0 <= i < |es| ==> ValidEntry(es[i])
    requires forall e :: ValidEntry(e) ==> P(EntryLine(e))
    ensures AllLines(EntryLines(es), P)
  {
    hide ValidEntry, EntryLine;
  }

  lemma PrintedLines(env: Env, secs: seq<Section>)
    requires forall i :: 0 <= i < |secs| ==> ValidSection(env, secs[i])
    ensures Lines(Print(secs)) == ConfLines(secs)
  {
    hide ValidSection, SectionsLines;
    var P := (line: string) => Free(line, '\n');
    forall e | ValidEntry(e)
      ensures P(EntryLine(e))
    {
      assert AllPrintable(EntryLine(e));
    }
    EveryLine(env, secs, P);
    PreambleIsComment();
    assert AllLines(PREAMBLE, P);
    AllLinesConcat(PREAMBLE, SectionsLines(secs), P);
    assert forall i :: 0 <= i < |ConfLines(secs)| ==> P(ConfLines(secs)[i]);
    LinesUndoUnlines(ConfLines(secs));
  }

  lemma PreambleIsComment()
    ensures IsComment(PREAMBLE[0]) && IsComment(PREAMBLE[1])
  {
  }

  lemma PreambleParses(env: Env, lines: seq<string>)
    ensures ParseLines(env, START, PREAMBLE + lines) == ParseLines(env, START, lines)
  {
    hide ParseLines, IsComment;
    PreambleIsComment();
    ParseComment(env, START, PREAMBLE[0], [PREAMBLE[1]] + lines);
    ParseComment(env, START, PREAMBLE[1], lines);
    assert PREAMBLE + lines == [PREAMBLE[0]] + ([PREAMBLE[1]] + lines);
  }

  lemma ShownIsValid(env: Env, groups: map<string, Group>, secs: seq<Section>)
    requires ValidGroups(env, groups) && ShowsAll(env, groups, secs)
    ensures forall i :: 0 <= i < |secs| ==> ValidSection(env, secs[i])
  {
    forall i | 0 <= i < |secs|
      ensures ValidSection(env, secs[i])
    {
      var g := groups[env.fold(secs[i].name)];
      assert Shows(g, secs[i]) && ValidGroup(env, g);
    }
  }

  ghost predicate NoRogues(env: Env, groups: map<string, Group>) {
    forall f, k :: f in groups && k in groups[f].kv ==> !IsGroup(env, Body(groups[f].kv[k]))
  }

  lemma PrintThenParse(env: Env, groups: map<string, Group>, secs: seq<Section>)
    requires ValidGroups(env, groups) && ShowsAll(env, groups, secs) && NoRogues(env, groups)
    ensures Parse(env, Print(secs)).Some? && Parse(env, Print(secs)).value.groups == groups
  {
    ShownIsValid(env, groups, secs);
    forall i | 0 <= i < |secs|
      ensures NoRogue(env, secs[i])
    {
      assert Shows(groups[env.fold(secs[i].name)], secs[i]);
    }
    hide ParseLines, IsGroup, ValidSection, Lines, Print, NoRogue, SectionsLines;
    PrintedLines(env, secs);
    PreambleParses(env, SectionsLines(secs));
    SectionsParse(env, secs);
    ShowsAllGroups(env, groups, secs);
  }

  // ---------------------------------------------------------------- and only then

  /** The line defines this entry. */
  ghost predicate Defines(env: Env, line: string, e: Entry) {
    Assigns(env, line) && Entry(KeyOf(Content(line)), ValueOf(Content(line))) == e
  }

  ghost predicate Has(groups: map<string, Group>, e: Entry) {
    exists f, k :: f in groups && k in groups[f].kv && groups[f].kv[k] == e
  }

  lemma LineDefines(env: Env, st: State, line: string, e: Entry)
    requires HasCurrent(st) && ParseLine(env, st, line).Some? && Has(ParseLine(env, st, line).value.groups, e)
    ensures Has(st.groups, e) || Defines(env, line, e)
  {
    hide IsGroup, IsKeyValue, KeyOf, ValueOf, Lower;
    var r := ParseLine(env, st, line).value;
    var f, k :| f in r.groups && k in r.groups[f].kv && r.groups[f].kv[k] == e;
    if f in st.groups && k in st.groups[f].kv {
      assert st.groups[f].kv[k] == e;
    }
  }

  /** Every entry of the result is defined by one of the lines. */
  lemma {:induction false} LinesDefine(env: Env, st: State, lines: seq<string>, e: Entry)
    requires HasCurrent(st) && ParseLines(env, st, lines).Some? && Has(ParseLines(env, st, lines).value.groups, e)
    ensures Has(st.groups, e) || exists i :: 0 <= i < |lines| && Defines(env, lines[i], e)
    decreases |lines|
  {
    hide ParseLine, Has, Defines;
    if lines != [] {
      var mid := ParseLine(env, st, lines[0]).value;
      LinesDefine(env, mid, lines[1..], e);
      if Has(mid.groups, e) {
        LineDefines(env, st, lines[0], e);
      } else {
        var i :| 0 <= i < |lines[1..]| && Defines(env, lines[1..][i], e);
        assert Defines(env, lines[i + 1], e);
      }
    }
  }

  /** A printed line never defines an entry that would itself be printed as a header. */
  lemma PrintedDefinesClean(env: Env, secs: seq<Section>, e: Entry)
    requires (forall i :: 0 <= i < |secs| ==> ValidSection(env, secs[i])) && IsGroup(env, Body(e))
    ensures forall i :: 0 <= i < |ConfLines(secs)| ==> !Defines(env, ConfLines(secs)[i], e)
  {
    hide ValidSection, SectionsLines, Defines, ShareName, HeaderLine, ValidEntry, EntryLine, IsComment, IsGroup;
    ghost var P := (line: string) => !Defines(env, line, e);
    forall name | ShareName(env, name)
      ensures P(HeaderLine(name))
    {
      HeaderDefinesNothing(env, name, e);
    }
    forall x | ValidEntry(x)
      ensures P(EntryLine(x))
    {
      if Defines(env, EntryLine(x), e) {
        EntryDefinesItself(env, x, e);
      }
    }
    forall line | IsComment(line)
      ensures P(line)
    {
      CommentDefinesNothing(env, line, e);
    }
    EveryLine(env, secs, P);
    PreambleIsComment();
    assert AllLines(PREAMBLE, P);
    AllLinesConcat(PREAMBLE, SectionsLines(secs), P);
  }

  lemma HeaderDefinesNothing(env: Env, name: string, e: Entry)
    requires ShareName(env, name)
    ensures !Defines(env, HeaderLine(name), e)
  {
    HeaderIsGroup(env, name);
  }

  lemma EntryDefinesItself(env: Env, x: Entry, e: Entry)
    requires ValidEntry(x) && Defines(env, EntryLine(x), e)
    ensures x == e && !IsGroup(env, Body(e))
  {
    BodyReads(x);
  }

  lemma CommentDefinesNothing(env: Env, line: string, e: Entry)
    requires IsComment(line)
    ensures !Defines(env, line, e)
  {
    CStringAll(line);
  }

  /**
    Printing well-formed groups in any order and parsing the text gives the same groups back exactly
    when no entry, printed as key = value, reads as a group header.
   */
  lemma RoundTripExactly(env: Env, groups: map<string, Group>, secs: seq<Section>)
    requires ValidGroups(env, groups) && ShowsAll(env, groups, secs)
    ensures (Parse(env, Print(secs)).Some? && Parse(env, Print(secs)).value.groups == groups) <==> NoRogues(env, groups)
  {
    if NoRogues(env, groups) {
      PrintThenParse(env, groups, secs);
    } else if Parse(env, Print(secs)).Some? && Parse(env, Print(secs)).value.groups == groups {
      var f, k :| f in groups && k in groups[f].kv && IsGroup(env, Body(groups[f].kv[k]));
      var e := groups[f].kv[k];
      ShownIsValid(env, groups, secs);
      hide ParseLines, IsGroup, ValidSection, Lines, Print, Defines;
      PrintedLines(env, secs);
      assert Has(groups, e);
      LinesDefine(env, START, ConfLines(secs), e);
      PrintedDefinesClean(env, secs, e);
    }
  }

  /**
    Such groups can come out of the parser.  A line is too long to be a header because of the blanks
    before its equals sign; printed again, with one blank there, it is a header.
   */
  lemma RogueFromText(env: Env, st: State, n: nat)
    requires HasCurrent(st) && st.current.Some? && Lower("[a") !in st.groups[st.current.value].kv
    requires n >= MAX_SHARE_NAME && env.utf8("a = b")
    ensures ParseLine(env, st, "[a" + Blanks(n) + "=b]") == Some(WithEntry(st, Entry("[a", "b]")))
    ensures IsGroup(env, Body(Entry("[a", "b]")))
  {
    hide Lower;
    var e := "[a" + Blanks(n) + "=b]";
    LongNameIsNoGroup(env, n);
    LongNameIsKeyValue(n);
    assert AllPrintable(e);
    CStringAll(e);
    LTrimNone(e);
    var s := Body(Entry("[a", "b]"));
    assert s == HeaderLine("a = b");
    HeaderIsGroup(env, "a = b");
  }

  lemma LongNameIsNoGroup(env: Env, n: nat)
    requires n >= MAX_SHARE_NAME
    ensures !IsGroup(env, "[a" + Blanks(n) + "=b]")
  {
    var e := "[a" + Blanks(n) + "=b]";
    assert e[1..] == "a" + Blanks(n) + "=b]";
    IndexIs(e[1..], ']', n + 3);
  }

  lemma LongNameIsKeyValue(n: nat)
    ensures var e := "[a" + Blanks(n) + "=b]";
            IsKeyValue(e) && KeyOf(e) == "[a" && ValueOf(e) == "b]"
  {
    var e := "[a" + Blanks(n) + "=b]";
    assert e[..n + 2] == "[a" + Blanks(n) && e[n + 3..] == "b]";
    IndexIs(e, '=', n + 2);
    RTrimStops("[a", n);
    LTrimNone("b]");
    UpToEolAll("b]");
  }
}
