/** The parser as the program runs it, line by line into tables it keeps. */
module ConfReader {
  import opened Bytes
  import opened ConfText
  import opened ConfParser
  import opened ConfPrinter
  import opened ConfUpdate
  import opened ShareConf

  method StrChr(s: string, c: char) returns (i: nat)
    ensures i == IndexOf(s, c)
  {
    i := 0;
    while i < |s| && s[i] != c
      invariant i <= |s| && Free(s[..i], c)
    {
      i := i + 1;
    }
    IndexIs(s, c, i);
  }

  method Ltrim(v: string) returns (r: string)
    ensures r == LTrim(v)
  {
    r := v;
    while r != [] && Blank(r[0])
      invariant LTrim(r) == LTrim(v)
      decreases |r|
    {
      r := r[1..];
    }
  }

  /** Steps back from p over blanks, as far as the first character. */
  method Rtrim(v: string, p: nat) returns (q: nat)
    requires p < |v|
    ensures q <= p && v[..q + 1] == RTrim(v[..p + 1])
  {
    q := p;
    while q != 0 && Blank(v[q])
      invariant q <= p && RTrim(v[..q + 1]) == RTrim(v[..p + 1])
    {
      assert v[..q + 1][..q] == v[..q];
      q := q - 1;
    }
  }

  method IsShareName(env: Env, name: string) returns (ok: bool)
    ensures ok == ShareName(env, name)
  {
    if |name| == 0 || |name| >= MAX_SHARE_NAME || !env.utf8(name) {
      return false;
    }
    for i := 0 to |name|
      invariant forall j :: 0 <= j < i ==> Printable(name[j]) && name[j] != '[' && name[j] != ']'
    {
      if !(Printable(name[i]) && name[i] != '[' && name[i] != ']') {
        return false;
      }
    }
    return true;
  }

  method IsAGroup(env: Env, entry: string) returns (ok: bool)
    ensures ok == IsGroup(env, entry)
  {
    if entry == [] || entry[0] != '[' {
      return false;
    }
    var delim := StrChr(entry[1..], ']');
    if delim == |entry| - 1 {
      return false;
    }
    ok := IsShareName(env, entry[1..1 + delim]);
    if ok {
      var rest := Ltrim(entry[delim + 2..]);
      ok := Eol(rest);
    }
  }

  /** Printable up to the first comment character. */
  method PrintableToEol(v: string) returns (ok: bool, r: string)
    ensures ok == AllPrintable(UpToEol(v)) && (ok ==> r == UpToEol(v))
  {
    hide UpToEol;
    ghost var up := UpToEol(v);
    var i := 0;
    while i < |v| && !CommentChar(v[i])
      invariant i <= |up| && AllPrintable(v[..i])
    {
      if !Printable(v[i]) {
        assert up[i] == v[i];
        return false, [];
      }
      i := i + 1;
    }
    assert up == v[..i];
    return true, v[..i];
  }

  /** Searches the table of share parameters. */
  method IsParameter(k: string, isGlobal: bool) returns (found: bool)
    ensures found == Recognised(k, isGlobal)
  {
    hide Name, Lower;
    for c := 0 to CONF_MAX
      invariant forall b: nat :: b < c ==> !Names(b, k, isGlobal)
    {
      if Offered(c, isGlobal) && Lower(Name(c)) == Lower(k) {
        assert Names(c, k, isGlobal);
        return true;
      }
    }
    return false;
  }

  class Parser {
    const env: Env
    var groups: map<string, Group>
    var current: Option<string>
    var global: Option<string>
    var ipc: Option<string>

    constructor (env: Env)
      ensures this.env == env && Now() == START && (env.fold("global") != env.fold("ipc$") ==> Linked())
    {
      this.env := env;
      groups := map[];
      current, global, ipc := None, None, None;
    }

    /** The pointers to [global] and [ipc$] lead to their groups, if there are any. */
    ghost predicate Linked()
      reads this
    {
      && env.fold("global") != env.fold("ipc$")
      && global == LinkOf(env, groups, "global") && ipc == LinkOf(env, groups, "ipc$")
    }

    function Now(): State
      reads this
    {
      State(groups, current)
    }

    method IsAKeyValue(entry: string) returns (ok: bool)
      ensures ok == (IsKeyValue(entry) && current.Some?)
    {
      var delim := StrChr(entry, '=');
      if delim == 0 || delim == |entry| {
        return false;
      }
      for i := 0 to delim
        invariant forall j :: 0 <= j < i ==> Printable(entry[j]) && !CommentChar(entry[j])
      {
        if !Printable(entry[i]) || CommentChar(entry[i]) {
          assert entry[..delim][i] == entry[i];
          return false;
        }
      }
      if current.None? {
        return false;
      }
      var v := Ltrim(entry[delim + 1..]);
      ok, v := PrintableToEol(v);
    }

    method AddsGroup(entry: string)
      requires IsGroup(env, entry)
      modifies this
      ensures Now() == AddGroup(env, old(Now()), GroupName(entry)) && (old(Linked()) ==> Linked())
    {
      var delim := StrChr(entry[1..], ']');
      var name := entry[1..1 + delim];
      var f := env.fold(name);
      current := Some(f);
      if f in groups {
        return;
      }
      groups := groups[f := Group(name, map[])];
      if global.None? && f == env.fold("global") {
        global := Some(f);
      } else if ipc.None? && f == env.fold("ipc$") {
        ipc := Some(f);
      }
    }

    method AddGroupKeyValue(entry: string)
      requires IsKeyValue(entry) && current.Some? && current.value in groups
      modifies this
      ensures Now() == AddEntry(old(Now()), KeyOf(entry), ValueOf(entry)) && (old(Linked()) ==> Linked())
    {
      var delim := StrChr(entry, '=');
      var p := Rtrim(entry, delim - 1);
      var k := entry[..p + 1];
      var v := Ltrim(entry[delim + 1..]);
      var ok;
      ok, v := PrintableToEol(v);
      var g := groups[current.value];
      if v == [] || Lower(k) in g.kv {
        return;
      }
      groups := groups[current.value := g.(kv := g.kv[Lower(k) := Entry(k, v)])];
    }

    method ProcessEntry(line: string) returns (ok: bool)
      requires HasCurrent(Now())
      modifies this
      ensures ok == ParseLine(env, old(Now()), line).Some?
      ensures Now() == if ok then ParseLine(env, old(Now()), line).value else old(Now())
      ensures old(Linked()) ==> Linked()
    {
      hide Linked, IsGroup, IsKeyValue, KeyOf, ValueOf, AddGroup, AddEntry;
      var nul := StrChr(line, '\0');
      var entry := Ltrim(line[..nul]);
      if Eol(entry) {
        return true;
      }
      var group := IsAGroup(env, entry);
      if group {
        AddsGroup(entry);
        return true;
      }
      ok := IsAKeyValue(entry);
      if ok {
        AddGroupKeyValue(entry);
      }
    }

    /** A line that fails ends the parse; the lines before it have taken effect. */
    method ParseText(text: string) returns (ok: bool)
      requires HasCurrent(Now()) && ValidGroups(env, groups)
      modifies this
      ensures ok == ParseLines(env, old(Now()), Lines(text)).Some?
      ensures ok ==> Now() == ParseLines(env, old(Now()), Lines(text)).value
      ensures HasCurrent(Now()) && ValidGroups(env, groups) && (old(Linked()) ==> Linked())
    {
      hide ParseLine, ValidGroups, ParseEntry, Linked;
      var contents := text;
      while contents != []
        invariant HasCurrent(Now()) && ValidGroups(env, groups) && (old(Linked()) ==> Linked())
        invariant ParseLines(env, Now(), Lines(contents)) == ParseLines(env, old(Now()), Lines(text))
        decreases |contents|
      {
        var delim := StrChr(contents, '\n');
        var line := contents[..delim];
        ghost var before, lines := Now(), Lines(contents);
        assert lines[0] == line;
        LineKeeps(env, before, line);
        ok := ProcessEntry(line);
        if !ok {
          return;
        }
        contents := if delim == |contents| then [] else contents[delim + 1..];
        assert lines[1..] == Lines(contents);
      }
      return true;
    }

    /** One option: if it sets a share parameter, the old value goes and the new one is added. */
    method TakeOption(entry: string, isGlobal: bool)
      requires current.Some? && current.value in groups
      modifies this
      ensures current == old(current) && current.value in groups && (old(Linked()) ==> Linked())
      ensures groups == old(groups)[current.value :=
                old(groups[current.value]).(kv := WithOption(old(groups[current.value].kv), isGlobal, entry))]
    {
      hide Lower, ValueOf, KeyOf, Recognised;
      var option := Ltrim(entry);
      if Eol(option) {
        return;
      }
      var ok := IsAKeyValue(option);
      if ok {
        var k := KeyPart(option);
        var found := IsParameter(k, isGlobal);
        if found {
          var g := groups[current.value];
          groups := groups[current.value := g.(kv := g.kv - {Lower(k)})];
          AddGroupKeyValue(option);
        }
      }
    }

    method KeyPart(option: string) returns (k: string)
      requires IsKeyValue(option)
      ensures k == KeyOf(option)
    {
      var delim := StrChr(option, '=');
      var p := Rtrim(option, delim - 1);
      k := option[..p + 1];
    }

    /** Makes the group if need be and sets its share parameters from the options, one after the other. */
    method ParseExternalGroup(name: string, options: seq<string>)
      requires ShareName(env, name)
      modifies this
      ensures groups == Edited(env, old(groups), name, options) && HasCurrent(Now()) && (old(Linked()) ==> Linked())
    {
      hide Linked, WithOption, IsGroup, Recognised, HeaderLine, ShareName;
      HeaderIsGroup(env, name);
      AddsGroup(HeaderLine(name));
      ghost var g0 := groups;
      ghost var f := current.value;
      var isGlobal := current.value == env.fold("global");
      assert groups == g0[f := g0[f].(kv := WithOptions(g0[f].kv, isGlobal, []))];
      for i := 0 to |options|
        invariant current == Some(f) && f in groups && (old(Linked()) ==> Linked())
        invariant groups == g0[f := g0[f].(kv := WithOptions(g0[f].kv, isGlobal, options[..i]))]
      {
        assert options[..i + 1][..i] == options[..i];
        TakeOption(options[i], isGlobal);
      }
      assert options[..|options|] == options;
    }
  }

  lemma LineKeeps(env: Env, st: State, line: string)
    requires HasCurrent(st) && ValidGroups(env, st.groups)
    ensures ParseLine(env, st, line).Some? ==> ValidGroups(env, ParseLine(env, st, line).value.groups)
  {
    hide ValidGroups, ParseEntry;
    LTrimTrims(CString(line));
    if ParseLine(env, st, line).Some? {
      ParseEntryKeeps(env, st, LTrim(CString(line)));
    }
  }
}
