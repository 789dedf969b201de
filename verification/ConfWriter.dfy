/** Writing the configuration back: the order of groups and keys, and the text. */
module ConfWriter {
  import opened Bytes
  import opened ConfText
  import opened ConfParser
  import opened ConfPrinter
  import opened ShareConf
  import opened Sorting

  // ---------------------------------------------------------------- listing a hash table

  ghost predicate Keyed<V>(m: map<string, V>, key: V -> string) { forall k :: k in m ==> key(m[k]) == k }

  /** The list holds every value of the table once. */
  ghost predicate Lists<V>(m: map<string, V>, key: V -> string, l: seq<V>) {
    && Distinct(l)
    && (forall i :: 0 <= i < |l| ==> key(l[i]) in m && m[key(l[i])] == l[i])
    && (forall k :: k in m ==> m[k] in l)
  }

  /** The hash table lists its values in no particular order. */
  method Values<V>(m: map<string, V>, ghost key: V -> string) returns (l: seq<V>)
    requires Keyed(m, key)
    ensures Lists(m, key, l)
  {
    l := [];
    var todo := m.Keys;
    while todo != {}
      invariant todo <= m.Keys && Distinct(l)
      invariant forall i :: 0 <= i < |l| ==> key(l[i]) in m && key(l[i]) !in todo && m[key(l[i])] == l[i]
      invariant forall k :: k in m && k !in todo ==> m[k] in l
      decreases |todo|
    {
      var k :| k in todo;
      ghost var before := l;
      l := l + [m[k]];
      todo := todo - {k};
      forall k' | k' in m && k' !in todo
        ensures m[k'] in l
      {
        if k' == k {
          assert l[|l| - 1] == m[k'];
        } else {
          assert m[k'] in before;
        }
      }
    }
  }

  lemma ListsPermuted<V>(m: map<string, V>, key: V -> string, a: seq<V>, b: seq<V>)
    requires Lists(m, key, a) && multiset(a) == multiset(b)
    ensures Lists(m, key, b)
  {
    PermutationDistinct(a, b);
    forall i | 0 <= i < |b|
      ensures key(b[i]) in m && m[key(b[i])] == b[i]
    {
      assert b[i] in b;
      var j :| 0 <= j < |a| && a[j] == b[i];
    }
  }

  method Remove<T(==)>(l: seq<T>, x: T) returns (r: seq<T>)
    ensures multiset(r) == multiset(l) - multiset{x}
  {
    for i := 0 to |l|
      invariant x !in l[..i]
    {
      if l[i] == x {
        r := l[..i] + l[i + 1..];
        assert l == l[..i] + [x] + l[i + 1..];
        return;
      }
    }
    assert l[..|l|] == l;
    r := l;
  }

  // ---------------------------------------------------------------- the keys of a group

  ghost predicate NamedBelow(k: string, c: nat, isGlobal: bool) {
    exists b: nat :: b < c && Names(b, k, isGlobal)
  }

  lemma NamedBelowStep(k: string, c: nat, isGlobal: bool)
    ensures NamedBelow(k, c + 1, isGlobal) <==> NamedBelow(k, c, isGlobal) || Names(c, k, isGlobal)
  {
    hide Names;
  }

  lemma NamedOnce(k: string, c: nat, isGlobal: bool)
    requires Names(c, k, isGlobal)
    ensures !NamedBelow(k, c, isGlobal)
  {
    forall b: nat | b < c && Names(b, k, isGlobal)
      ensures false
    {
      NamesDistinct(b, c);
    }
  }

  lemma RecognisedIsNamed(k: string, isGlobal: bool)
    ensures Recognised(k, isGlobal) <==> NamedBelow(k, CONF_MAX, isGlobal)
  {
    hide Name, Lower;
  }

  function KeyName(e: Entry): string { e.key }

  function TableKey(e: Entry): string { Lower(e.key) }

  ghost predicate AllNamed(l: seq<Entry>, c: nat, isGlobal: bool) {
    forall e :: e in l ==> NamedBelow(e.key, c, isGlobal)
  }

  ghost predicate NoneNamed(l: seq<Entry>, c: nat, isGlobal: bool) {
    forall e :: e in l ==> !NamedBelow(e.key, c, isGlobal)
  }

  /** l and kl share out the entries of the table; kl has those that the first c parameters name. */
  ghost predicate Sharing(kv: map<string, Entry>, l: seq<Entry>, kl: seq<Entry>, c: nat, isGlobal: bool) {
    && Lists(kv, TableKey, l + kl)
    && NoneNamed(l, c, isGlobal) && AllNamed(kl, c, isGlobal)
  }

  lemma SharedEntry(kv: map<string, Entry>, l: seq<Entry>, kl: seq<Entry>, e: Entry)
    requires Lists(kv, TableKey, l + kl)
    ensures e in l || e in kl ==> TableKey(e) in kv && kv[TableKey(e)] == e
    ensures TableKey(e) in kv && kv[TableKey(e)] == e ==> e in l || e in kl
  {
    hide TableKey;
    var all := l + kl;
    if e in l || e in kl {
      assert e in all;
      var i :| 0 <= i < |all| && all[i] == e;
    }
    if TableKey(e) in kv && kv[TableKey(e)] == e {
      assert e in all;
    }
  }

  lemma SharingSkips(kv: map<string, Entry>, l: seq<Entry>, kl: seq<Entry>, c: nat, isGlobal: bool)
    requires Sharing(kv, l, kl, c, isGlobal) && !(Offered(c, isGlobal) && Lower(Name(c)) in kv)
    ensures Sharing(kv, l, kl, c + 1, isGlobal)
  {
    hide Lists, NamedBelow, Offered, Name, Lower;
    forall e: Entry
      ensures e in l ==> !NamedBelow(e.key, c + 1, isGlobal)
      ensures e in kl ==> NamedBelow(e.key, c + 1, isGlobal)
    {
      NamedBelowStep(e.key, c, isGlobal);
      SharedEntry(kv, l, kl, e);
    }
  }

  lemma SharingMoves(kv: map<string, Entry>, l: seq<Entry>, kl: seq<Entry>, l': seq<Entry>, kl': seq<Entry>,
                     c: nat, isGlobal: bool)
    requires Sharing(kv, l, kl, c, isGlobal) && Offered(c, isGlobal) && Lower(Name(c)) in kv && Keyed(kv, TableKey)
    requires multiset(l') == multiset(l) - multiset{kv[Lower(Name(c))]}
    requires multiset(kl') == multiset(kl) + multiset{kv[Lower(Name(c))]}
    ensures Sharing(kv, l', kl', c + 1, isGlobal)
  {
    hide Lists, NamedBelow, Offered, Name, Lower;
    var e := kv[Lower(Name(c))];
    assert TableKey(e) == Lower(Name(c));
    NamedOnce(e.key, c, isGlobal);
    SharedEntry(kv, l, kl, e);
    assert e in l;
    MovedOnce(kv, l, kl, e);
    assert multiset(l' + kl') == multiset(l + kl);
    ListsPermuted(kv, TableKey, l + kl, l' + kl');
    forall x: Entry
      ensures x in l' ==> !NamedBelow(x.key, c + 1, isGlobal)
      ensures x in kl' ==> NamedBelow(x.key, c + 1, isGlobal)
    {
      NamedBelowStep(x.key, c, isGlobal);
      SharedEntry(kv, l, kl, x);
      assert x in l' ==> x in multiset(l') && x in multiset(l) && x != e;
      assert x in kl' ==> x in multiset(kl') && (x in multiset(kl) || x == e);
    }
  }

  lemma MovedOnce(kv: map<string, Entry>, l: seq<Entry>, kl: seq<Entry>, e: Entry)
    requires Lists(kv, TableKey, l + kl)
    ensures multiset(l)[e] <= 1
  {
    DistinctCounts(l + kl, e);
    assert multiset(l + kl) == multiset(l) + multiset(kl);
  }

  /** The keys as they are printed: those that are no share parameters first, each part sorted. */
  method NewShareKl(kv: map<string, Entry>, isGlobal: bool) returns (plain: seq<Entry>, listed: seq<Entry>)
    requires Keyed(kv, TableKey)
    ensures Lists(kv, TableKey, plain + listed) && Sorted(plain, KeyName) && Sorted(listed, KeyName)
    ensures forall e :: e in listed ==> Recognised(e.key, isGlobal)
    ensures forall e :: e in plain ==> !Recognised(e.key, isGlobal)
  {
    hide Lists, NamedBelow, Name, Lower, Recognised;
    var l := Values(kv, TableKey);
    listed := [];
    assert l + [] == l;
    SharingStarts(kv, l, isGlobal);
    for c := 0 to CONF_MAX
      invariant Sharing(kv, l, listed, c, isGlobal) && Sorted(listed, KeyName)
    {
      if Offered(c, isGlobal) && Lower(Name(c)) in kv {
        var e := kv[Lower(Name(c))];
        var l' := Remove(l, e);
        var listed' := InsertSorted(listed, e, KeyName);
        SharingMoves(kv, l, listed, l', listed', c, isGlobal);
        l, listed := l', listed';
      } else {
        SharingSkips(kv, l, listed, c, isGlobal);
      }
    }
    plain := Sort(l, KeyName);
    assert multiset(plain + listed) == multiset(l + listed);
    ListsPermuted(kv, TableKey, l + listed, plain + listed);
    forall e: Entry
      ensures e in listed ==> Recognised(e.key, isGlobal)
      ensures e in plain ==> !Recognised(e.key, isGlobal)
    {
      RecognisedIsNamed(e.key, isGlobal);
      assert e in plain ==> e in multiset(plain) && e in multiset(l);
    }
  }

  lemma SharingStarts(kv: map<string, Entry>, l: seq<Entry>, isGlobal: bool)
    requires Lists(kv, TableKey, l)
    ensures Sharing(kv, l, [], 0, isGlobal)
  {
    assert l + [] == l;
  }

  // ---------------------------------------------------------------- the order of the groups

  ghost function FoldKey(env: Env): Group -> string { (g: Group) => env.fold(g.name) }

  function GroupTitle(g: Group): string { g.name }

  predicate IsNamed(env: Env, g: Group, name: string) { env.fold(g.name) == env.fold(name) }

  ghost function FrontOf(nl: seq<Group>, i: nat): seq<Group>
    requires i < |nl|
  {
    [nl[i]] + nl[..i] + nl[i + 1..]
  }

  method FindGroup(nl: seq<Group>, g: Group) returns (i: nat)
    requires g in nl
    ensures i < |nl| && nl[i] == g
  {
    i := 0;
    while nl[i] != g
      invariant i < |nl| && g in nl[i..]
      decreases |nl| - i
    {
      assert nl[i..] == [nl[i]] + nl[i + 1..];
      i := i + 1;
    }
  }

  lemma FrontOfLists(groups: map<string, Group>, key: Group -> string, nl: seq<Group>, i: nat)
    requires Lists(groups, key, nl) && i < |nl|
    ensures Lists(groups, key, FrontOf(nl, i))
  {
    hide Lists;
    assert nl == nl[..i] + [nl[i]] + nl[i + 1..];
    assert multiset(FrontOf(nl, i)) == multiset(nl);
    ListsPermuted(groups, key, nl, FrontOf(nl, i));
  }

  /** Takes the link of this group out of the list and puts it in front. */
  method ToFront(env: Env, groups: map<string, Group>, nl: seq<Group>, name: string) returns (r: seq<Group>, i: nat)
    requires Lists(groups, FoldKey(env), nl) && env.fold(name) in groups && Keyed(groups, FoldKey(env))
    ensures Lists(groups, FoldKey(env), r)
    ensures i < |nl| && IsNamed(env, nl[i], name) && r == FrontOf(nl, i)
  {
    var g := groups[env.fold(name)];
    assert FoldKey(env)(g) == env.fold(name);
    i := FindGroup(nl, g);
    FrontOfLists(groups, FoldKey(env), nl, i);
    r := [nl[i]] + nl[..i] + nl[i + 1..];
  }

  /** How many groups stand before the sorted ones: [global] and [ipc$], when they exist. */
  function Ahead(env: Env, groups: map<string, Group>): nat {
    (if env.fold("global") in groups then 1 else 0) + (if env.fold("ipc$") in groups then 1 else 0)
  }

  ghost predicate GroupsInOrder(env: Env, groups: map<string, Group>, nl: seq<Group>) {
    var n := Ahead(env, groups);
    && n <= |nl| && Sorted(nl[n..], GroupTitle)
    && (env.fold("global") in groups ==> IsNamed(env, nl[0], "global"))
    && (env.fold("ipc$") in groups ==> IsNamed(env, nl[n - 1], "ipc$"))
  }

  lemma FrontOfSorted(nl: seq<Group>, i: nat)
    requires Sorted(nl, GroupTitle) && i < |nl|
    ensures Sorted(FrontOf(nl, i)[1..], GroupTitle)
  {
  }

  lemma FrontOfSecond(nl: seq<Group>, i: nat)
    requires 0 < i < |nl| && Sorted(nl[1..], GroupTitle)
    ensures FrontOf(nl, i)[1] == nl[0] && Sorted(FrontOf(nl, i)[2..], GroupTitle)
  {
    var tail := nl[1..];
    assert FrontOf(nl, i)[2..] == tail[..i - 1] + tail[i..];
  }

  /** A linked list, or one whose last link leads back to its first. */
  datatype GList = Chain(items: seq<Group>) | Ring(items: seq<Group>)

  /**
    [global] first, then [ipc$], then the shares by name.  Without [global] the link of [ipc$], which is the
    first of the list already, is joined to it once more, and the list becomes a ring.
   */
  method NewShareNl(env: Env, groups: map<string, Group>, global: Option<string>, ipc: Option<string>)
    returns (r: GList)
    requires Keyed(groups, FoldKey(env)) && env.fold("global") != env.fold("ipc$")
    requires global == LinkOf(env, groups, "global") && ipc == LinkOf(env, groups, "ipc$")
    ensures r.Ring? <==> !Orderly(env, groups)
    ensures Lists(groups, FoldKey(env), r.items) && (r.Chain? ==> GroupsInOrder(env, groups, r.items))
  {
    hide Lists, Sorted, Keyed, FrontOf, FoldKey;
    var nl := Values(groups, FoldKey(env));
    ghost var unsorted := nl;
    nl := Sort(nl, GroupTitle);
    ListsPermuted(groups, FoldKey(env), unsorted, nl);
    assert nl[0..] == nl;
    var shared := false;
    if ipc.Some? {
      var moved, i := ToFront(env, groups, nl, "ipc$");
      FrontOfHead(nl, i);
      FrontOfSorted(nl, i);
      nl, shared := moved, true;
    }
    if global.Some? {
      var moved, i := ToFront(env, groups, nl, "global");
      FrontOfHead(nl, i);
      if ipc.Some? {
        FrontOfSecond(nl, i);
      } else {
        FrontOfSorted(nl, i);
      }
      nl, shared := moved, false;
    }
    r := if shared then Ring(nl) else Chain(nl);
  }

  lemma FrontOfHead(nl: seq<Group>, i: nat)
    requires i < |nl|
    ensures |FrontOf(nl, i)| == |nl| && FrontOf(nl, i)[0] == nl[i]
  {
  }

  // ---------------------------------------------------------------- the text

  method AddEntries(text: string, es: seq<Entry>) returns (r: string)
    ensures r == text + Unlines(EntryLines(es))
  {
    hide EntryLine;
    r := text;
    for i := 0 to |es|
      invariant r == text + Unlines(EntryLines(es[..i]))
    {
      var line := EntryLine(es[i]);
      assert EntryLines(es[..i + 1]) == EntryLines(es[..i]) + [line];
      UnlinesConcat(EntryLines(es[..i]), [line]);
      assert Unlines([line]) == line + "\n";
      r := r + (line + "\n");
    }
    assert es[..|es|] == es;
  }

  method AddLine(text: string, line: string) returns (r: string)
    ensures r == text + Unlines([line])
  {
    assert Unlines([line]) == line + "\n";
    r := text + (line + "\n");
  }

  lemma UnlinesAppend(text: string, a: seq<string>, b: seq<string>)
    ensures text + Unlines(a) + Unlines(b) == text + Unlines(a + b)
  {
    UnlinesConcat(a, b);
  }

  method AddSection(text: string, sec: Section) returns (r: string)
    ensures r == text + Unlines(SectionLines(sec))
  {
    hide Unlines, HeaderLine, PlainMark, ListedMark, EntryLines;
    var h, p, l := [HeaderLine(sec.name)], PlainLines(sec), ListedLines(sec);
    r := AddLine(text, HeaderLine(sec.name));
    if sec.plain != [] {
      r := AddLine(r, PlainMark(sec.isGlobal));
      UnlinesAppend(text, h, [PlainMark(sec.isGlobal)]);
      r := AddEntries(r, sec.plain);
      UnlinesAppend(text, h + [PlainMark(sec.isGlobal)], EntryLines(sec.plain));
      assert h + [PlainMark(sec.isGlobal)] + EntryLines(sec.plain) == h + p;
    } else {
      assert h + p == h;
    }
    r := AddListed(r, sec);
    UnlinesAppend(text, h + p, l);
    r := AddLine(r, "");
    UnlinesAppend(text, h + p + l, [""]);
  }

  method AddListed(text: string, sec: Section) returns (r: string)
    ensures r == text + Unlines(ListedLines(sec))
  {
    hide Unlines, ListedMark, EntryLines;
    r := text;
    var mark, rest := ListedMark(sec.isGlobal), EntryLines(sec.listed);
    if sec.listed == [] {
      UnlinesNothing();
      return;
    }
    if sec.plain != [] {
      r := AddLine(r, "");
      r := AddLine(r, mark);
      UnlinesAppend(text, [""], [mark]);
      r := AddEntries(r, sec.listed);
      UnlinesAppend(text, [""] + [mark], rest);
    } else {
      r := AddLine(r, mark);
      r := AddEntries(r, sec.listed);
      UnlinesAppend(text, [mark], rest);
      assert [] + [mark] + rest == [mark] + rest;
    }
  }

  lemma UnlinesNothing()
    ensures Unlines([]) == []
  {
  }

  ghost predicate SectionInOrder(env: Env, sec: Section) {
    && sec.isGlobal == (env.fold(sec.name) == env.fold("global"))
    && Sorted(sec.plain, KeyName) && Sorted(sec.listed, KeyName)
    && (forall e :: e in sec.listed ==> Recognised(e.key, sec.isGlobal))
    && (forall e :: e in sec.plain ==> !Recognised(e.key, sec.isGlobal))
  }

  lemma ListsShows(env: Env, g: Group, sec: Section)
    requires ValidGroup(env, g) && sec.name == g.name && Lists(g.kv, TableKey, Entries(sec))
    ensures Shows(g, sec)
  {
    var es := Entries(sec);
    forall i, j | 0 <= i < j < |es|
      ensures Lower(es[i].key) != Lower(es[j].key)
    {
      assert es[i] == g.kv[TableKey(es[i])] && es[j] == g.kv[TableKey(es[j])];
    }
    forall i | 0 <= i < |es|
      ensures Lower(es[i].key) in g.kv && g.kv[Lower(es[i].key)] == es[i]
    {
      assert TableKey(es[i]) in g.kv;
    }
  }

  ghost predicate SectionOf(env: Env, g: Group, sec: Section) {
    sec.name == g.name && Shows(g, sec) && SectionInOrder(env, sec)
  }

  method NewSection(env: Env, g: Group) returns (sec: Section)
    requires ValidGroup(env, g)
    ensures SectionOf(env, g, sec)
  {
    hide Sorted, Recognised, Lists, Shows;
    var isGlobal := IsNamed(env, g, "global");
    assert Keyed(g.kv, TableKey) by {
      forall k | k in g.kv
        ensures TableKey(g.kv[k]) == k
      {
      }
    }
    var plain, listed := NewShareKl(g.kv, isGlobal);
    sec := Section(g.name, isGlobal, plain, listed);
    ListsShows(env, g, sec);
  }

  lemma ListsShowsAll(env: Env, groups: map<string, Group>, nl: seq<Group>, secs: seq<Section>)
    requires Lists(groups, FoldKey(env), nl) && Keyed(groups, FoldKey(env)) && |secs| == |nl|
    requires forall i :: 0 <= i < |nl| ==> SectionOf(env, nl[i], secs[i])
    ensures ShowsAll(env, groups, secs)
  {
    hide Shows, SectionInOrder;
    var key := FoldKey(env);
    forall i | 0 <= i < |secs|
      ensures env.fold(secs[i].name) in groups && Shows(groups[env.fold(secs[i].name)], secs[i])
    {
      assert SectionOf(env, nl[i], secs[i]);
      assert key(nl[i]) in groups && groups[key(nl[i])] == nl[i];
    }
    forall i, j | 0 <= i < j < |secs|
      ensures env.fold(secs[i].name) != env.fold(secs[j].name)
    {
      assert SectionOf(env, nl[i], secs[i]) && SectionOf(env, nl[j], secs[j]);
      assert groups[key(nl[i])] == nl[i] && groups[key(nl[j])] == nl[j];
    }
    forall f | f in groups
      ensures exists i :: 0 <= i < |secs| && env.fold(secs[i].name) == f
    {
      var i :| 0 <= i < |nl| && nl[i] == groups[f];
      assert SectionOf(env, nl[i], secs[i]) && key(groups[f]) == f;
    }
  }

  lemma ValidIsKeyed(env: Env, groups: map<string, Group>)
    requires ValidGroups(env, groups)
    ensures Keyed(groups, FoldKey(env))
  {
  }

  ghost predicate SectionsInOrder(env: Env, groups: map<string, Group>, nl: seq<Group>, secs: seq<Section>) {
    && Lists(groups, FoldKey(env), nl) && GroupsInOrder(env, groups, nl) && |secs| == |nl|
    && forall i :: 0 <= i < |nl| ==> SectionOf(env, nl[i], secs[i])
  }

  /** Endless: the loop over the groups does not end.  Freed: a group is read that is gone. */
  datatype Contents = Text(text: string, nl: seq<Group>, secs: seq<Section>) | Endless | Freed

  /**
    The text that replaces the configuration file.  It lists every group and key once, in a fixed
    order, and parsing it gives the same groups back exactly when no entry reads as a group header.
    There is no text exactly when [ipc$] was removed under the parser's feet or stands without [global].
   */
  method GetConfContents(env: Env, groups: map<string, Group>, global: Option<string>, ipc: Option<string>)
    returns (r: Contents)
    requires ValidGroups(env, groups) && env.fold("global") != env.fold("ipc$")
    requires global == LinkOf(env, groups, "global")
    requires ipc == LinkOf(env, groups, "ipc$") || ipc == Some(env.fold("ipc$"))
    ensures r.Freed? <==> ipc.Some? && ipc.value !in groups
    ensures r.Endless? <==> !Orderly(env, groups)
    ensures r.Text? ==> r.text == Print(r.secs) && SectionsInOrder(env, groups, r.nl, r.secs)
    ensures r.Text? ==>
              ((Parse(env, r.text).Some? && Parse(env, r.text).value.groups == groups) <==> NoRogues(env, groups))
  {
    if ipc.Some? && ipc.value !in groups {
      return Freed;
    }
    hide Lists, Sorted, GroupsInOrder, Print, SectionOf, Parse, NoRogues, ValidGroups;
    ValidIsKeyed(env, groups);
    var list := NewShareNl(env, groups, global, ipc);
    if list.Ring? {
      return Endless;
    }
    var text, secs := WriteGroups(env, groups, list.items);
    ListsShowsAll(env, groups, list.items, secs);
    RoundTripExactly(env, groups, secs);
    r := Text(text, list.items, secs);
  }

  method WriteGroups(env: Env, ghost groups: map<string, Group>, nl: seq<Group>)
    returns (text: string, secs: seq<Section>)
    requires ValidGroups(env, groups) && Lists(groups, FoldKey(env), nl)
    ensures text == Print(secs) && |secs| == |nl|
    ensures forall i :: 0 <= i < |nl| ==> SectionOf(env, nl[i], secs[i])
  {
    hide Lists, SectionLines, ShareName, Unlines, SectionOf;
    text := PrintPreamble();
    secs := [];
    for i := 0 to |nl|
      invariant |secs| == i && text == Print(secs)
      invariant forall j :: 0 <= j < i ==> SectionOf(env, nl[j], secs[j])
    {
      ListedIsValid(env, groups, nl, i);
      var sec := NewSection(env, nl[i]);
      text := AddSection(text, sec);
      PrintAppend(secs, sec);
      secs := secs + [sec];
    }
  }

  method PrintPreamble() returns (text: string)
    ensures text == Print([])
  {
    text := AddLine("", PREAMBLE[0]);
    text := AddLine(text, PREAMBLE[1]);
    UnlinesAppend("", [PREAMBLE[0]], [PREAMBLE[1]]);
    assert ConfLines([]) == [PREAMBLE[0]] + [PREAMBLE[1]];
  }

  lemma PrintAppend(secs: seq<Section>, sec: Section)
    ensures Print(secs + [sec]) == Print(secs) + Unlines(SectionLines(sec))
  {
    hide Unlines, SectionLines;
    assert (secs + [sec])[..|secs|] == secs;
    assert ConfLines(secs + [sec]) == ConfLines(secs) + SectionLines(sec);
    UnlinesConcat(ConfLines(secs), SectionLines(sec));
  }

  lemma ListedIsValid(env: Env, groups: map<string, Group>, nl: seq<Group>, i: nat)
    requires ValidGroups(env, groups) && Lists(groups, FoldKey(env), nl) && i < |nl|
    ensures ValidGroup(env, nl[i])
  {
    assert FoldKey(env)(nl[i]) in groups;
  }
}
