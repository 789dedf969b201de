/** Editing a share from the options of the command line, and what that means for the file. */
module ConfUpdate {
  import opened Bytes
  import opened ConfText
  import opened ConfParser
  import opened ConfPrinter
  import opened ShareConf

  /** The option sets a share parameter. */
  ghost predicate Takes(o: string, isGlobal: bool) { !Eol(o) && IsKeyValue(o) && Recognised(KeyOf(o), isGlobal) }

  /** The option sets the parameter k. */
  ghost predicate Mentions(option: string, isGlobal: bool, k: string) {
    Takes(LTrim(option), isGlobal) && Lower(KeyOf(LTrim(option))) == k
  }

  /** What an option leaves of the parameter it sets: nothing, when its value is empty. */
  function Sets(option: string): Option<Entry>
    requires IsKeyValue(LTrim(option))
  {
    var o := LTrim(option);
    if ValueOf(o) == [] then None else Some(Entry(KeyOf(o), ValueOf(o)))
  }

  /** The old value goes and the new one is added. */
  ghost function WithOption(kv: map<string, Entry>, isGlobal: bool, option: string): map<string, Entry> {
    var o := LTrim(option);
    if !Takes(o, isGlobal) then kv
    else
      var rest := kv - {Lower(KeyOf(o))};
      if ValueOf(o) == [] then rest else rest[Lower(KeyOf(o)) := Entry(KeyOf(o), ValueOf(o))]
  }

  ghost function WithOptions(kv: map<string, Entry>, isGlobal: bool, options: seq<string>): map<string, Entry> {
    if options == [] then kv
    else WithOption(WithOptions(kv, isGlobal, options[..|options| - 1]), isGlobal, options[|options| - 1])
  }

  ghost function Lookup(kv: map<string, Entry>, k: string): Option<Entry> { if k in kv then Some(kv[k]) else None }

  lemma OneOption(kv: map<string, Entry>, isGlobal: bool, option: string, k: string)
    ensures Lookup(WithOption(kv, isGlobal, option), k) ==
            if Mentions(option, isGlobal, k) then Sets(option) else Lookup(kv, k)
  {
    hide IsKeyValue, KeyOf, ValueOf, Lower, Recognised;
  }

  /** Among the options that set a parameter the last one wins. */
  lemma {:induction false} LastMentionWins(kv: map<string, Entry>, isGlobal: bool, options: seq<string>,
                                           k: string, i: nat)
    requires i < |options| && Mentions(options[i], isGlobal, k)
    requires forall j :: i < j < |options| ==> !Mentions(options[j], isGlobal, k)
    ensures Lookup(WithOptions(kv, isGlobal, options), k) == Sets(options[i])
    decreases |options|
  {
    hide WithOption, Takes, Sets, Lower, IsKeyValue;
    var front := options[..|options| - 1];
    OneOption(WithOptions(kv, isGlobal, front), isGlobal, options[|options| - 1], k);
    if i < |front| {
      LastMentionWins(kv, isGlobal, front, k, i);
    }
  }

  /** Every parameter that no option sets keeps its value. */
  lemma {:induction false} UnmentionedStays(kv: map<string, Entry>, isGlobal: bool, options: seq<string>, k: string)
    requires forall j :: 0 <= j < |options| ==> !Mentions(options[j], isGlobal, k)
    ensures Lookup(WithOptions(kv, isGlobal, options), k) == Lookup(kv, k)
    decreases |options|
  {
    hide WithOption, Mentions;
    if options != [] {
      var front := options[..|options| - 1];
      OneOption(WithOptions(kv, isGlobal, front), isGlobal, options[|options| - 1], k);
      UnmentionedStays(kv, isGlobal, front, k);
    }
  }

  // ---------------------------------------------------------------- edits of one group

  /** The group of this name, made if need be, with its parameters set. */
  ghost function Edited(env: Env, groups: map<string, Group>, name: string, options: seq<string>): map<string, Group> {
    var f := env.fold(name);
    var g := if f in groups then groups[f] else Group(name, map[]);
    groups[f := g.(kv := WithOptions(g.kv, f == env.fold("global"), options))]
  }

  ghost predicate KvIs(kv: map<string, Entry>, P: Entry -> bool) {
    forall k :: k in kv ==> Lower(kv[k].key) == k && P(kv[k])
  }

  ghost predicate GroupsAre(env: Env, groups: map<string, Group>, P: Entry -> bool) {
    forall f :: f in groups ==> env.fold(groups[f].name) == f && ShareName(env, groups[f].name) && KvIs(groups[f].kv, P)
  }

  /** Whatever an option sets has this property. */
  ghost predicate OptionsAre(P: Entry -> bool) {
    forall option, isGlobal ::
      Takes(LTrim(option), isGlobal) && Sets(option).Some? ==> P(Sets(option).value)
  }

  lemma OptionKeeps(kv: map<string, Entry>, isGlobal: bool, option: string, P: Entry -> bool)
    requires KvIs(kv, P) && OptionsAre(P)
    ensures KvIs(WithOption(kv, isGlobal, option), P)
  {
    hide KeyOf, ValueOf, Recognised, Lower;
    var o := LTrim(option);
    if Takes(o, isGlobal) && ValueOf(o) != [] {
      assert Sets(option) == Some(Entry(KeyOf(o), ValueOf(o)));
    }
  }

  lemma {:induction false} OptionsKeep(kv: map<string, Entry>, isGlobal: bool, options: seq<string>, P: Entry -> bool)
    requires KvIs(kv, P) && OptionsAre(P)
    ensures KvIs(WithOptions(kv, isGlobal, options), P)
    decreases |options|
  {
    hide KvIs, WithOption, OptionsAre;
    if options != [] {
      var front := options[..|options| - 1];
      OptionsKeep(kv, isGlobal, front, P);
      OptionKeeps(WithOptions(kv, isGlobal, front), isGlobal, options[|options| - 1], P);
    }
  }

  lemma NoEntries(P: Entry -> bool)
    ensures KvIs(map[], P)
  {
  }

  lemma EditKeeps(env: Env, groups: map<string, Group>, name: string, options: seq<string>, P: Entry -> bool)
    requires GroupsAre(env, groups, P) && OptionsAre(P) && ShareName(env, name)
    ensures GroupsAre(env, Edited(env, groups, name, options), P)
  {
    hide ShareName, KvIs, WithOptions, OptionsAre;
    var f := env.fold(name);
    NoEntries(P);
    OptionsKeep(if f in groups then groups[f].kv else map[], f == env.fold("global"), options, P);
  }

  // ---------------------------------------------------------------- commands

  datatype Command =
    | Add(name: string, options: seq<string>)
    | Update(name: string, options: seq<string>)
    | Delete(name: string)

  /** Every parameter without a value; those that are not offered are commented out. */
  function BlankOptions(isGlobal: bool): (options: seq<string>)
    ensures |options| == CONF_MAX
  {
    seq(CONF_MAX, c requires 0 <= c < CONF_MAX => (if Offered(c, isGlobal) then "" else "; ") + Name(c) + " = ")
  }

  /** None is the error of an invalid name, or of a share that exists already or does not exist. */
  ghost function Apply(env: Env, groups: map<string, Group>, cmd: Command): Option<map<string, Group>> {
    var f := env.fold(cmd.name);
    if !ShareName(env, cmd.name) then None else
    match cmd
    case Add(name, options) => if f in groups then None else Some(Edited(env, groups, name, options))
    case Update(name, options) => if f in groups then Some(Edited(env, groups, name, options)) else None
    case Delete(name) =>
      if f !in groups then None
      else if f == env.fold("global") then Some(Edited(env, groups, name, BlankOptions(true)))
      else Some(groups - {f})
  }

  lemma ApplyKeeps(env: Env, groups: map<string, Group>, cmd: Command, P: Entry -> bool)
    requires GroupsAre(env, groups, P) && OptionsAre(P)
    ensures Apply(env, groups, cmd).Some? ==> GroupsAre(env, Apply(env, groups, cmd).value, P)
  {
    hide ShareName, Edited, BlankOptions, OptionsAre, KvIs;
    if ShareName(env, cmd.name) {
      match cmd
      case Add(name, options) => EditKeeps(env, groups, name, options, P);
      case Update(name, options) => EditKeeps(env, groups, name, options, P);
      case Delete(name) => EditKeeps(env, groups, name, BlankOptions(true), P);
    }
  }

  // ---------------------------------------------------------------- well-formed groups, and clean ones

  lemma RecognisedIsNoHeader(env: Env, e: Entry, isGlobal: bool)
    requires Recognised(e.key, isGlobal) && e.key != []
    ensures !IsGroup(env, Body(e))
  {
    hide Name;
    var c :| Names(c, e.key, isGlobal);
    NameIsWords(c);
    assert Lower(e.key)[0] == LowerChar(e.key[0]) && Lower(Name(c))[0] == LowerChar(Name(c)[0]);
    assert Body(e)[0] == e.key[0];
  }

  /** A well-formed entry that does not read as a group header. */
  ghost predicate CleanEntry(env: Env, e: Entry) { ValidEntry(e) && !IsGroup(env, Body(e)) }

  lemma OptionIsClean(env: Env, option: string, isGlobal: bool)
    requires Takes(LTrim(option), isGlobal) && Sets(option).Some?
    ensures CleanEntry(env, Sets(option).value)
  {
    var o := LTrim(option);
    LTrimTrims(option);
    KeyIsValid(o);
    ValueIsValid(o);
    RecognisedIsNoHeader(env, Entry(KeyOf(o), ValueOf(o)), isGlobal);
  }

  lemma OptionsAreClean(env: Env)
    ensures OptionsAre(e => CleanEntry(env, e)) && OptionsAre(e => ValidEntry(e))
  {
    hide Sets, IsGroup, IsKeyValue, KeyOf, Recognised;
    forall option, isGlobal | Takes(LTrim(option), isGlobal) && Sets(option).Some?
      ensures CleanEntry(env, Sets(option).value)
    {
      OptionIsClean(env, option, isGlobal);
    }
  }

  lemma ValidGroupsAre(env: Env, groups: map<string, Group>)
    ensures ValidGroups(env, groups) <==> GroupsAre(env, groups, e => ValidEntry(e))
  {
    hide ShareName, ValidEntry, Lower;
    if ValidGroups(env, groups) {
      forall f | f in groups
        ensures ShareName(env, groups[f].name) && KvIs(groups[f].kv, e => ValidEntry(e))
      {
        assert ValidGroup(env, groups[f]);
      }
    }
  }

  /** Groups that print and parse back. */
  ghost predicate Clean(env: Env, groups: map<string, Group>) { ValidGroups(env, groups) && NoRogues(env, groups) }

  lemma CleanGroupsAre(env: Env, groups: map<string, Group>)
    ensures Clean(env, groups) <==> GroupsAre(env, groups, e => CleanEntry(env, e))
  {
    hide ShareName, ValidEntry, Lower, IsGroup, Body;
    if Clean(env, groups) {
      forall f | f in groups
        ensures ShareName(env, groups[f].name) && KvIs(groups[f].kv, e => CleanEntry(env, e))
      {
        assert ValidGroup(env, groups[f]);
      }
    }
  }

  lemma ApplyKeepsClean(env: Env, groups: map<string, Group>, cmd: Command)
    requires Apply(env, groups, cmd).Some?
    ensures ValidGroups(env, groups) ==> ValidGroups(env, Apply(env, groups, cmd).value)
    ensures Clean(env, groups) ==> Clean(env, Apply(env, groups, cmd).value)
  {
    hide Apply, ShareName, ValidGroups, Clean, GroupsAre, OptionsAre, ValidEntry, CleanEntry;
    OptionsAreClean(env);
    var after := Apply(env, groups, cmd).value;
    ValidGroupsAre(env, groups);
    ValidGroupsAre(env, after);
    CleanGroupsAre(env, groups);
    CleanGroupsAre(env, after);
    if ValidGroups(env, groups) {
      ApplyKeeps(env, groups, cmd, e => ValidEntry(e));
    }
    if Clean(env, groups) {
      ApplyKeeps(env, groups, cmd, e => CleanEntry(env, e));
    }
  }

  // ---------------------------------------------------------------- deleting [global]

  lemma BlankReads(name: string)
    requires Words(name)
    ensures var o := name + " = "; LTrim(o) == o && !Eol(o) && IsKeyValue(o) && KeyOf(o) == name && ValueOf(o) == []
  {
    var o, d := name + " = ", |name| + 1;
    assert o[0] == name[0] && o[..d] == name + " " && o[d] == '=' && o[d + 1..] == " ";
    IndexIs(o, '=', d);
    assert Blanks(1) == " ";
    RTrimStops(name, 1);
    LTrimOne(' ', "");
    assert " " == [' '] + "";
    LTrimNone(o);
  }

  lemma BlankOptionMentions(c: nat, isGlobal: bool, key: string)
    requires c < CONF_MAX
    ensures Mentions(BlankOptions(isGlobal)[c], isGlobal, Lower(key)) <==> Names(c, key, isGlobal)
    ensures Names(c, key, isGlobal) ==> Sets(BlankOptions(isGlobal)[c]) == None
  {
    NameIsWords(c);
    hide Name, IsKeyValue, KeyOf, ValueOf, Lower, Words;
    var o := BlankOptions(isGlobal)[c];
    if Offered(c, isGlobal) {
      assert o == Name(c) + " = ";
      BlankReads(Name(c));
      assert Names(c, Name(c), isGlobal);
    } else {
      assert o[0] == ';';
    }
  }

  /** Deleting [global] leaves the group and takes exactly its share parameters away. */
  lemma DeletingGlobalExactly(kv: map<string, Entry>, key: string)
    ensures Lookup(WithOptions(kv, true, BlankOptions(true)), Lower(key)) ==
            if Recognised(key, true) then None else Lookup(kv, Lower(key))
  {
    hide WithOptions, Sets, Names, Lower, IsKeyValue, KeyOf;
    var options := BlankOptions(true);
    hide BlankOptions;
    forall j | 0 <= j < |options|
      ensures Mentions(options[j], true, Lower(key)) <==> Names(j, key, true)
      ensures Names(j, key, true) ==> Mentions(options[j], true, Lower(key)) && Sets(options[j]) == None
    {
      BlankOptionMentions(j, true, key);
    }
    if Recognised(key, true) {
      var c :| Names(c, key, true);
      NamedOnlyOnce(c, key, true);
      LastMentionWins(kv, true, options, Lower(key), c);
    } else {
      UnmentionedStays(kv, true, options, Lower(key));
    }
  }

  lemma NamedOnlyOnce(c: nat, key: string, isGlobal: bool)
    requires Names(c, key, isGlobal)
    ensures c < CONF_MAX && forall j: nat :: Names(j, key, isGlobal) ==> j == c
  {
    hide Name, Lower;
    forall j: nat | Names(j, key, isGlobal)
      ensures j == c
    {
      NamesDistinct(j, c);
    }
  }

  // ---------------------------------------------------------------- what a command changes

  /** The last option that sets the parameter k. */
  ghost predicate LastMention(options: seq<string>, isGlobal: bool, k: string, i: nat) {
    && i < |options| && Mentions(options[i], isGlobal, k)
    && forall j :: i < j < |options| ==> !Mentions(options[j], isGlobal, k)
  }

  /** Every parameter is what the last option for it says, and what it was if there is none. */
  ghost predicate SetByOptions(before: map<string, Entry>, isGlobal: bool, options: seq<string>,
                               after: map<string, Entry>) {
    && (forall k, i: nat :: LastMention(options, isGlobal, k, i) ==> Lookup(after, k) == Sets(options[i]))
    && (forall k ::
          (forall j :: 0 <= j < |options| ==> !Mentions(options[j], isGlobal, k)) ==>
            Lookup(after, k) == Lookup(before, k))
  }

  /** Exactly the share parameters are gone. */
  ghost predicate WithoutParameters(before: map<string, Entry>, after: map<string, Entry>) {
    forall key ::
      Lookup(after, Lower(key)) == if Recognised(key, true) then None else Lookup(before, Lower(key))
  }

  ghost predicate SameElsewhere(before: map<string, Group>, f: string, after: map<string, Group>) {
    before - {f} == after - {f}
  }

  /** What a command does to the groups of the file, one parameter at a time. */
  ghost predicate Changes(env: Env, before: map<string, Group>, cmd: Command, after: map<string, Group>) {
    var f := env.fold(cmd.name);
    && SameElsewhere(before, f, after)
    && match cmd
       case Add(name, options) =>
         f in after && after[f].name == name && SetByOptions(map[], f == env.fold("global"), options, after[f].kv)
       case Update(name, options) =>
         && f in before && f in after && after[f].name == before[f].name
         && SetByOptions(before[f].kv, f == env.fold("global"), options, after[f].kv)
       case Delete(name) =>
         if f == env.fold("global")
         then
           && f in before && f in after && after[f].name == before[f].name
           && WithoutParameters(before[f].kv, after[f].kv)
         else f !in after
  }

  lemma OptionsSet(kv: map<string, Entry>, isGlobal: bool, options: seq<string>)
    ensures SetByOptions(kv, isGlobal, options, WithOptions(kv, isGlobal, options))
  {
    hide WithOptions, IsKeyValue, Recognised, KeyOf, Lower, Sets, Lookup;
    forall k, i: nat | LastMention(options, isGlobal, k, i)
      ensures Lookup(WithOptions(kv, isGlobal, options), k) == Sets(options[i])
    {
      LastMentionWins(kv, isGlobal, options, k, i);
    }
    forall k | forall j :: 0 <= j < |options| ==> !Mentions(options[j], isGlobal, k)
      ensures Lookup(WithOptions(kv, isGlobal, options), k) == Lookup(kv, k)
    {
      UnmentionedStays(kv, isGlobal, options, k);
    }
  }

  lemma BlankOptionsClear(kv: map<string, Entry>)
    ensures WithoutParameters(kv, WithOptions(kv, true, BlankOptions(true)))
  {
    hide WithOptions, BlankOptions, Recognised, Lower, Lookup;
    forall key
      ensures Lookup(WithOptions(kv, true, BlankOptions(true)), Lower(key)) ==
              if Recognised(key, true) then None else Lookup(kv, Lower(key))
    {
      DeletingGlobalExactly(kv, key);
    }
  }

  /**
    A command is accepted if and only if its name is valid and the group is there, or for an addition is not;
    and then it changes what it names and nothing else.
   */
  lemma ApplyChanges(env: Env, groups: map<string, Group>, cmd: Command)
    ensures Apply(env, groups, cmd).Some? <==> ShareName(env, cmd.name) && (cmd.Add? <==> env.fold(cmd.name) !in groups)
    ensures Apply(env, groups, cmd).Some? ==> Changes(env, groups, cmd, Apply(env, groups, cmd).value)
  {
    hide ShareName, WithOptions, BlankOptions, SetByOptions, WithoutParameters;
    var f := env.fold(cmd.name);
    var kv := if f in groups then groups[f].kv else map[];
    if cmd.Delete? {
      BlankOptionsClear(kv);
    } else {
      OptionsSet(kv, f == env.fold("global"), cmd.options);
    }
  }

  // ---------------------------------------------------------------- runs of the program

  ghost function GroupsIn(env: Env, text: string): map<string, Group>
    requires Parse(env, text).Some?
  {
    Parse(env, text).value.groups
  }

  /**
    One run of the program.  loads: the configuration is valid beyond its syntax, so that the password database
    parses, the guest account is valid and every share can be made.
   */
  datatype Invocation = Invocation(cmd: Command, loads: bool)

  ghost predicate Fails(env: Env, text: string, run: Invocation) {
    Parse(env, text).None? || !run.loads || Apply(env, GroupsIn(env, text), run.cmd).None?
  }

  /** Removes the group of [ipc$], which the writer then still looks for. */
  predicate DropsIpc(env: Env, cmd: Command) { cmd.Delete? && env.fold(cmd.name) == env.fold("ipc$") }

  /** The command comes to an end: it fails, or what it makes can be written. */
  ghost predicate Completes(env: Env, text: string, run: Invocation) {
    || Fails(env, text, run)
    || (!DropsIpc(env, run.cmd) && Orderly(env, Apply(env, GroupsIn(env, text), run.cmd).value))
  }

  /**
    One run that comes to its end: the file is parsed, the command applied, and the file rewritten, with its
    groups and keys in any order.  On an error the file stays.
   */
  ghost predicate Step(env: Env, text: string, run: Invocation, after: string) {
    && Completes(env, text, run)
    && if Fails(env, text, run) then after == text
       else exists secs :: ShowsAll(env, Apply(env, GroupsIn(env, text), run.cmd).value, secs) && after == Print(secs)
  }

  /**
    What a command makes can be written exactly when [global] is there or added, or [ipc$] is neither there
    to stay nor added.
   */
  lemma WritableExactly(env: Env, groups: map<string, Group>, cmd: Command)
    requires Apply(env, groups, cmd).Some? && env.fold("global") != env.fold("ipc$")
    ensures var global := env.fold("global") in groups || (cmd.Add? && env.fold(cmd.name) == env.fold("global"));
            var ipc := if env.fold("ipc$") in groups then !DropsIpc(env, cmd)
                       else cmd.Add? && env.fold(cmd.name) == env.fold("ipc$");
            Orderly(env, Apply(env, groups, cmd).value) <==> global || !ipc
    ensures Orderly(env, groups) ==>
              (Orderly(env, Apply(env, groups, cmd).value) <==>
               !(cmd.Add? && env.fold(cmd.name) == env.fold("ipc$") && env.fold("global") !in groups))
  {
    hide ShareName, WithOptions, BlankOptions;
  }

  /** The two commands that do not complete: removing [ipc$], and adding it to a file without [global]. */
  lemma IpcCommandsStop(env: Env, text: string, options: seq<string>)
    requires env.utf8("ipc$") && Parse(env, text).Some?
    ensures env.fold("ipc$") in GroupsIn(env, text) && env.fold("global") != env.fold("ipc$") ==>
              !Completes(env, text, Invocation(Delete("ipc$"), true))
    ensures env.fold("ipc$") !in GroupsIn(env, text) && env.fold("global") !in GroupsIn(env, text) &&
            env.fold("global") != env.fold("ipc$") ==>
              !Completes(env, text, Invocation(Add("ipc$", options), true))
  {
    hide Parse, WithOptions, BlankOptions;
    assert ShareName(env, "ipc$");
  }

  /** With [global] in the file every command completes but the removal of [ipc$], and [global] stays. */
  lemma GlobalCompletes(env: Env, text: string, run: Invocation)
    requires env.fold("global") != env.fold("ipc$") && Parse(env, text).Some?
    requires env.fold("global") in GroupsIn(env, text)
    ensures Completes(env, text, run) <==> Fails(env, text, run) || !DropsIpc(env, run.cmd)
    ensures !Fails(env, text, run) ==> env.fold("global") in Apply(env, GroupsIn(env, text), run.cmd).value
  {
    hide ShareName, WithOptions, BlankOptions, Parse;
  }

  /** What a command makes of the groups, and what several make of them. */
  ghost function Made(env: Env, groups: map<string, Group>, run: Invocation): map<string, Group> {
    var r := Apply(env, groups, run.cmd);
    if run.loads && r.Some? then r.value else groups
  }

  ghost function Applied(env: Env, groups: map<string, Group>, runs: seq<Invocation>): map<string, Group> {
    if runs == [] then groups
    else
      var before := Applied(env, groups, runs[..|runs| - 1]);
      Made(env, before, runs[|runs| - 1])
  }

  ghost predicate Steps(env: Env, texts: seq<string>, runs: seq<Invocation>) {
    |texts| == |runs| + 1 && forall i :: 0 <= i < |runs| ==> Step(env, texts[i], runs[i], texts[i + 1])
  }

  ghost predicate Holds(env: Env, text: string, groups: map<string, Group>) {
    Parse(env, text).Some? && GroupsIn(env, text) == groups && Clean(env, groups)
  }

  lemma StepHolds(env: Env, text: string, groups: map<string, Group>, run: Invocation, after: string)
    requires Holds(env, text, groups) && Step(env, text, run, after)
    ensures Holds(env, after, Applied(env, groups, [run]))
  {
    hide Parse, ShowsAll, ShareName, Print;
    assert [run][..0] == [];
    assert Applied(env, groups, []) == groups;
    assert Applied(env, groups, [run]) == Made(env, groups, run);
    hide Apply, Applied, Clean;
    if run.loads && Apply(env, groups, run.cmd).Some? {
      ApplyKeepsClean(env, groups, run.cmd);
      StepPrints(env, text, groups, run, after);
    }
  }

  lemma StepPrints(env: Env, text: string, groups: map<string, Group>, run: Invocation, after: string)
    requires Holds(env, text, groups) && Step(env, text, run, after)
    requires run.loads && Apply(env, groups, run.cmd).Some? && Clean(env, Apply(env, groups, run.cmd).value)
    ensures Parse(env, after).Some? && GroupsIn(env, after) == Apply(env, groups, run.cmd).value
  {
    hide Parse, ShowsAll, Print, Apply, ValidGroups, NoRogues;
    var secs :| ShowsAll(env, Apply(env, groups, run.cmd).value, secs) && after == Print(secs);
    RoundTripExactly(env, Apply(env, groups, run.cmd).value, secs);
  }

  /** From a clean file, one run that is not rejected changes in the file what its command names, and nothing else. */
  lemma StepChanges(env: Env, text: string, groups: map<string, Group>, run: Invocation, after: string)
    requires Holds(env, text, groups) && Step(env, text, run, after) && !Fails(env, text, run)
    ensures Parse(env, after).Some? && Changes(env, groups, run.cmd, GroupsIn(env, after))
  {
    hide Apply, Changes, Parse, ShowsAll, Print;
    ApplyKeepsClean(env, groups, run.cmd);
    StepPrints(env, text, groups, run, after);
    ApplyChanges(env, groups, run.cmd);
  }

  lemma AppliedLast(env: Env, groups: map<string, Group>, runs: seq<Invocation>)
    requires runs != []
    ensures Applied(env, groups, runs) ==
            Applied(env, Applied(env, groups, runs[..|runs| - 1]), [runs[|runs| - 1]])
  {
    hide Apply;
    var last := runs[|runs| - 1];
    assert [last][..0] == [];
    assert Applied(env, Applied(env, groups, runs[..|runs| - 1]), []) == Applied(env, groups, runs[..|runs| - 1]);
  }

  /** However many commands complete, the file parses to exactly what they made of its first groups. */
  lemma {:induction false} FileFollowsCommands(env: Env, texts: seq<string>, runs: seq<Invocation>,
                                               groups: map<string, Group>)
    requires Steps(env, texts, runs) && Holds(env, texts[0], groups)
    ensures Holds(env, texts[|runs|], Applied(env, groups, runs))
    decreases |runs|
  {
    hide Holds, Step, Applied;
    if runs == [] {
      AppliedNothing(env, groups);
    } else {
      var n := |runs| - 1;
      FileFollowsCommands(env, texts[..n + 1], runs[..n], groups);
      AppliedLast(env, groups, runs);
      StepHolds(env, texts[n], Applied(env, groups, runs[..n]), runs[n], texts[n + 1]);
    }
  }

  lemma AppliedNothing(env: Env, groups: map<string, Group>)
    ensures Applied(env, groups, []) == groups
  {
  }

  lemma EmptyFileHolds(env: Env)
    ensures Holds(env, "", map[])
  {
  }

  /** A file that was made by commands alone parses to what they say, and prints and parses back. */
  lemma MadeByCommands(env: Env, texts: seq<string>, runs: seq<Invocation>)
    requires Steps(env, texts, runs) && texts[0] == ""
    ensures Parse(env, texts[|runs|]).Some? && GroupsIn(env, texts[|runs|]) == Applied(env, map[], runs)
    ensures NoRogues(env, Applied(env, map[], runs))
  {
    hide Steps, Applied, Parse, ValidGroups, NoRogues;
    EmptyFileHolds(env);
    FileFollowsCommands(env, texts, runs, map[]);
  }

  /** Once the file has [global], it can be written after every further command, until one removes [ipc$]. */
  lemma {:induction false} GlobalStays(env: Env, texts: seq<string>, runs: seq<Invocation>, groups: map<string, Group>,
                                       next: Invocation)
    requires env.fold("global") != env.fold("ipc$") && Steps(env, texts, runs) && Holds(env, texts[0], groups)
    requires env.fold("global") in groups
    ensures env.fold("global") in Applied(env, groups, runs)
    ensures Completes(env, texts[|runs|], next) <==> Fails(env, texts[|runs|], next) || !DropsIpc(env, next.cmd)
    decreases |runs|
  {
    hide Step, Fails, Completes, Parse, Clean, Applied;
    FileFollowsCommands(env, texts, runs, groups);
    if runs == [] {
      AppliedNothing(env, groups);
    } else {
      var n := |runs| - 1;
      GlobalStays(env, texts[..n + 1], runs[..n], groups, next);
      AppliedKeepsGlobal(env, groups, runs);
    }
    GlobalCompletes(env, texts[|runs|], next);
  }

  lemma AppliedKeepsGlobal(env: Env, groups: map<string, Group>, runs: seq<Invocation>)
    requires runs != [] && env.fold("global") in Applied(env, groups, runs[..|runs| - 1])
    ensures env.fold("global") in Applied(env, groups, runs)
  {
    hide ShareName, WithOptions, BlankOptions;
  }
}
