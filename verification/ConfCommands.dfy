/** The share commands, from the text of the file to its new text. */
module ConfCommands {
  import opened Bytes
  import opened ConfText
  import opened ConfParser
  import opened ConfPrinter
  import opened ConfReader
  import opened ConfUpdate
  import opened ConfWriter

  /** The groups after the command; false is the error of a share that exists or does not exist. */
  method ApplyCommand(p: Parser, cmd: Command) returns (ok: bool)
    requires ShareName(p.env, cmd.name) && p.Linked()
    modifies p
    ensures ok == Apply(p.env, old(p.groups), cmd).Some?
    ensures p.groups == if ok then Apply(p.env, old(p.groups), cmd).value else old(p.groups)
    ensures p.global == LinkOf(p.env, p.groups, "global")
    ensures if ok && DropsIpc(p.env, cmd) then p.ipc == Some(p.env.fold("ipc$")) && p.ipc.value !in p.groups
            else p.ipc == LinkOf(p.env, p.groups, "ipc$")
  {
    hide Edited, ShareName, BlankOptions;
    var f := p.env.fold(cmd.name);
    ok := cmd.Add? != (f in p.groups);
    if ok {
      match cmd
      case Add(name, options) => p.ParseExternalGroup(name, options);
      case Update(name, options) => p.ParseExternalGroup(name, options);
      case Delete(name) =>
        if p.global == Some(f) {
          p.ParseExternalGroup(name, BlankOptions(true));
        } else {
          p.groups := p.groups - {f};
        }
    }
  }

  /** Rejected: an error, and the file stays.  Hangs and UseAfterFree: the writer does not come to an end. */
  datatype Outcome = Written(after: string) | Rejected | Hangs | UseAfterFree

  /** Every command on every file: it is rejected, rewrites the file as one step of a run, or does not complete. */
  method RunCommand(env: Env, text: string, run: Invocation) returns (r: Outcome)
    requires env.fold("global") != env.fold("ipc$")
    ensures r.Rejected? <==> Fails(env, text, run)
    ensures r.UseAfterFree? <==> !Fails(env, text, run) && DropsIpc(env, run.cmd)
    ensures r.Hangs? <==>
            && !Fails(env, text, run) && !DropsIpc(env, run.cmd)
            && !Orderly(env, Apply(env, GroupsIn(env, text), run.cmd).value)
    ensures r.Written? || r.Rejected? <==> Completes(env, text, run)
    ensures r.Written? ==> Step(env, text, run, r.after)
    ensures r.Rejected? <==>
            || !ShareName(env, run.cmd.name) || !run.loads || Parse(env, text).None?
            || (run.cmd.Add? <==> env.fold(run.cmd.name) in GroupsIn(env, text))
    ensures r.Written? && Clean(env, GroupsIn(env, text)) ==>
              Parse(env, r.after).Some? && Changes(env, GroupsIn(env, text), run.cmd, GroupsIn(env, r.after))
    ensures r.Rejected? ==> Step(env, text, run, text)
  {
    hide Apply, Changes, ParseLines, ShareName, ValidGroups, Print, ShowsAll, SectionsInOrder, NoRogues;
    var named := IsShareName(env, run.cmd.name);
    if !named {
      InvalidNameFails(env, text, run);
      return Rejected;
    }
    var p := new Parser(env);
    NoGroupsValid(env);
    var ok := p.ParseText(text);
    if !ok || !run.loads {
      return Rejected;
    }
    ghost var groups := p.groups;
    ApplyChanges(env, groups, run.cmd);
    ok := ApplyCommand(p, run.cmd);
    if !ok {
      return Rejected;
    }
    ApplyKeepsClean(env, groups, run.cmd);
    var contents := GetConfContents(env, p.groups, p.global, p.ipc);
    match contents
    case Freed => r := UseAfterFree;
    case Endless => r := Hangs;
    case Text(after, nl, secs) =>
      InOrderShowsAll(env, p.groups, nl, secs);
      r := Written(after);
      if Clean(env, groups) {
        StepChanges(env, text, groups, run, after);
      }
  }

  lemma InvalidNameFails(env: Env, text: string, run: Invocation)
    requires !ShareName(env, run.cmd.name)
    ensures Fails(env, text, run)
  {
  }

  lemma NoGroupsValid(env: Env)
    ensures ValidGroups(env, map[])
  {
  }

  lemma InOrderShowsAll(env: Env, groups: map<string, Group>, nl: seq<Group>, secs: seq<Section>)
    requires SectionsInOrder(env, groups, nl, secs) && ValidGroups(env, groups)
    ensures ShowsAll(env, groups, secs)
  {
    ValidIsKeyed(env, groups);
    ListsShowsAll(env, groups, nl, secs);
  }
}
