/**
 A small part of the POSIX.1-2017 shell: enough to give a meaning to the install and hook wrappers.
 `set -e` follows section 2.14 (set), conditionals section 2.9.4.1, lists section 2.9.3, and a syntax
 error ends a non-interactive shell with a non-zero status (section 2.8.1).
 */
module ShellScripts {
  import opened Common

  /** A double-quoted word: literal text, or a variable followed by literal text. */
  datatype Word = Lit(text: string) | Var(name: string, suffix: string)

  datatype Cmd =
    | Assign(name: string, value: string)
    | IsFile(w: Word)                                  // [ -f w ]
    | IsNotFile(w: Word)                               // [ ! -f w ]
    | And(a: Cmd, b: Cmd)
    | Or(a: Cmd, b: Cmd)
    | If(cond: Cmd, thn: Cmds, els: Option<Cmds>)
    | Run(script: Word, timeout: Option<nat>)          // [timeout n] sh ...
    | MkdirParent(w: Word)                             // mkdir -p "$(dirname w)"
    | Touch(w: Word)
    | Echo(text: string)
    | SetE
    | Exit(code: nat)

  datatype Cmds = End | Then(first: Cmd, rest: Cmds)

  /** A compound list holds at least one command. */
  predicate WellFormed(c: Cmd) {
    match c
    case And(a, b) => WellFormed(a) && WellFormed(b)
    case Or(a, b) => WellFormed(a) && WellFormed(b)
    case If(cond, thn, els) =>
      && WellFormed(cond) && thn.Then? && AllWellFormed(thn)
      && (els.Some? ==> els.value.Then? && AllWellFormed(els.value))
    case _ => true
  }

  predicate AllWellFormed(cs: Cmds) {
    cs.Then? ==> WellFormed(cs.first) && AllWellFormed(cs.rest)
  }

  /** A script that ran, and the status it (or the timeout around it) ended with. */
  datatype Ran = Ran(script: string, status: nat)

  /** `parents` are the paths whose parent directory exists. */
  datatype Shell = Shell(env: map<string, string>, errexit: bool, files: set<string>, parents: set<string>, ran: seq<Ran>)

  /** What scripts do, should they be run: the status they end with, and the files after them. */
  datatype Scripts = Scripts(status: string -> nat, leaves: (string, set<string>) -> set<string>)

  datatype Outcome = Outcome(sh: Shell, status: nat, exited: bool)

  function Expand(w: Word, env: map<string, string>): string {
    match w
    case Lit(t) => t
    case Var(n, suffix) => (if n in env then env[n] else "") + suffix
  }

  /** A simple command's end: under `set -e`, outside conditions, a failure ends the shell. */
  function Simple(sh: Shell, status: nat, guarded: bool): Outcome {
    Outcome(sh, status, status != 0 && sh.errexit && !guarded)
  }

  function Exec(c: Cmd, sh: Shell, world: Scripts, guarded: bool): Outcome
    decreases c
  {
    match c
    case Assign(n, v) => Simple(sh.(env := sh.env[n := v]), 0, guarded)
    case IsFile(w) => Simple(sh, if Expand(w, sh.env) in sh.files then 0 else 1, guarded)
    case IsNotFile(w) => Simple(sh, if Expand(w, sh.env) in sh.files then 1 else 0, guarded)
    case And(a, b) =>
      var r := Exec(a, sh, world, true);
      if r.exited || r.status != 0 then r else Exec(b, r.sh, world, guarded)
    case Or(a, b) =>
      var r := Exec(a, sh, world, true);
      if r.exited || r.status == 0 then r else Exec(b, r.sh, world, guarded)
    case If(cond, thn, els) =>
      var r := Exec(cond, sh, world, true);
      if r.exited then r
      else if r.status == 0 then ExecAll(thn, r.sh, world, guarded, 0)
      else if els.Some? then ExecAll(els.value, r.sh, world, guarded, 0)
      else Outcome(r.sh, 0, false)
    case Run(script, _) =>
      var name := Expand(script, sh.env);
      var sh' := sh.(ran := sh.ran + [Ran(name, world.status(name))], files := world.leaves(name, sh.files));
      Simple(sh', world.status(name), guarded)
    case MkdirParent(w) => Simple(sh.(parents := sh.parents + {Expand(w, sh.env)}), 0, guarded)
    case Touch(w) =>
      var path := Expand(w, sh.env);
      if path in sh.parents then Simple(sh.(files := sh.files + {path}), 0, guarded) else Simple(sh, 1, guarded)
    case Echo(_) => Simple(sh, 0, guarded)
    case SetE => Simple(sh.(errexit := true), 0, guarded)
    case Exit(code) => Outcome(sh, code, true)
  }

  /** Commands in turn; `last` is the status so far. */
  function ExecAll(cs: Cmds, sh: Shell, world: Scripts, guarded: bool, last: nat): Outcome
    decreases cs
  {
    match cs
    case End => Outcome(sh, last, false)
    case Then(c, rest) =>
      var r := Exec(c, sh, world, guarded);
      if r.exited then r else ExecAll(rest, r.sh, world, guarded, r.status)
  }

  const SYNTAX_ERROR: nat := 2

  /** `sh -c`: one complete command after the other is parsed, then run. */
  function RunScript(cs: Cmds, sh: Shell, world: Scripts, last: nat): Outcome {
    match cs
    case End => Outcome(sh, last, true)
    case Then(c, rest) =>
      if !WellFormed(c) then Outcome(sh, SYNTAX_ERROR, true)
      else
        var r := Exec(c, sh, world, false);
        if r.exited then r else RunScript(rest, r.sh, world, r.status)
  }

  function Fresh(files: set<string>, parents: set<string>): Shell {
    Shell(map[], false, files, parents, [])
  }
}

/**
 The wrappers around a plugin's install script and its baked hooks, run at every pod start over a
 persistent file system.
 */
module Wrappers {
  import opened Common
  import opened ShellScripts

  /** The install settings that shape a wrapper; the default failure policy is to ignore. */
  datatype Install = Install(runOnce: bool, failClosed: bool, timeout: Option<nat>)

  const MARKER := Var("MARKER", "")
  const BODY := "JELLYOPS_INSTALL_SCRIPT"

  /** Records a success. */
  function TouchMarker(rest: Cmds): Cmds {
    Then(MkdirParent(MARKER), Then(Touch(MARKER), rest))
  }

  function InstallWrapper(marker: string, inst: Install): Cmds {
    var run := Run(Lit(BODY), inst.timeout);
    var tail :=
      if inst.failClosed then Then(SetE, Then(run, if inst.runOnce then TouchMarker(End) else End))
      else Then(If(run, if inst.runOnce then TouchMarker(End) else End, Some(Then(Echo("install failed"), End))),
                Then(Exit(0), End));
    if inst.runOnce
    then Then(Assign("MARKER", marker), Then(If(IsFile(MARKER), Then(Exit(0), End), None), tail))
    else tail
  }

  const FIRST_RUN := Var("STAGE", "/firstrun.sh")
  const BOOTSTRAP := Var("STAGE", "/bootstrap.sh")

  /** firstrun.sh, once. */
  function OnceCmd(failClosed: bool, timeout: Option<nat>): Cmd {
    If(And(IsFile(FIRST_RUN), IsNotFile(MARKER)),
       if failClosed then Then(Run(FIRST_RUN, timeout), TouchMarker(End))
       else Then(If(Run(FIRST_RUN, timeout), TouchMarker(End), Some(Then(Echo("firstrun failed"), End))), End),
       None)
  }

  /** bootstrap.sh, every time. */
  function AlwaysCmd(failClosed: bool, timeout: Option<nat>): Cmd {
    var boot := Run(BOOTSTRAP, timeout);
    If(IsFile(BOOTSTRAP), Then(if failClosed then boot else Or(boot, Echo("bootstrap failed")), End), None)
  }

  function HookWrapper(stage: string, marker: string, failClosed: bool, timeout: Option<nat>): Cmds {
    var body := Then(Assign("STAGE", stage), Then(Assign("MARKER", marker),
                  Then(OnceCmd(failClosed, timeout), Then(AlwaysCmd(failClosed, timeout),
                  if failClosed then End else Then(Exit(0), End)))));
    if failClosed then Then(SetE, body) else body
  }

  /** Recording a success adds the marker and nothing else. */
  lemma TouchMarkerRuns(sh: Shell, world: Scripts, marker: string, last: nat)
    requires "MARKER" in sh.env && sh.env["MARKER"] == marker
    ensures
      var r := ExecAll(TouchMarker(End), sh, world, false, last);
      r == Outcome(sh.(files := sh.files + {marker}, parents := sh.parents + {marker}), 0, false)
  {
    assert Expand(MARKER, sh.env) == marker + "" == marker;
    var sh1 := sh.(parents := sh.parents + {marker});
    assert Exec(MkdirParent(MARKER), sh, world, false) == Outcome(sh1, 0, false);
    var sh2 := sh1.(files := sh1.files + {marker});
    assert Exec(Touch(MARKER), sh1, world, false) == Outcome(sh2, 0, false);
    assert ExecAll(Then(Touch(MARKER), End), sh1, world, false, 0) == ExecAll(End, sh2, world, false, 0);
  }

  /** The scripts a pod start ran, the exit code of the container, and the files it left. */
  datatype Start = Start(ran: seq<Ran>, code: nat, files: set<string>)

  function StartOf(cs: Cmds, files: set<string>, parents: set<string>, world: Scripts): Start {
    var r := RunScript(cs, Fresh(files, parents), world, 0);
    Start(r.sh.ran, r.status, r.sh.files)
  }

  /** What one start of the install container does, case by case. */
  ghost predicate InstallStart(st: Start, marker: string, inst: Install, files: set<string>, world: Scripts) {
    var status, left := world.status(BODY), world.leaves(BODY, files);
    if inst.runOnce && marker in files then st == Start([], 0, files)
    else if inst.failClosed then
      st == Start([Ran(BODY, status)], status, if inst.runOnce && status == 0 then left + {marker} else left)
    else if inst.runOnce then
      st == Start([Ran(BODY, status)], 0, if status == 0 then left + {marker} else left)
    else st == Start([], SYNTAX_ERROR, files)
  }

  lemma InstallTail(marker: string, inst: Install, sh: Shell, world: Scripts, last: nat)
    requires inst.runOnce ==> "MARKER" in sh.env && sh.env["MARKER"] == marker
    requires !sh.errexit
    ensures
      var run := Run(Lit(BODY), inst.timeout);
      var status := world.status(BODY);
      var tail := Then(SetE, Then(run, if inst.runOnce then TouchMarker(End) else End));
      var r := RunScript(tail, sh, world, last);
      r.sh.ran == sh.ran + [Ran(BODY, status)] && r.status == status
      && r.sh.files == world.leaves(BODY, sh.files) + if inst.runOnce && status == 0 then {marker} else {}
  {
    var run := Run(Lit(BODY), inst.timeout);
    var status := world.status(BODY);
    var sh1 := sh.(errexit := true);
    var sh2 := sh1.(ran := sh.ran + [Ran(BODY, status)], files := world.leaves(BODY, sh.files));
    assert Exec(SetE, sh, world, false) == Outcome(sh1, 0, false);
    assert Exec(run, sh1, world, false) == Outcome(sh2, status, status != 0);
    var rest := if inst.runOnce then TouchMarker(End) else End;
    assert RunScript(Then(run, rest), sh1, world, 0)
        == if status != 0 then Outcome(sh2, status, true) else RunScript(rest, sh2, world, 0);
    if inst.runOnce && status == 0 {
      RunTouchMarker(sh2, world, marker);
    }
  }

  lemma RunTouchMarker(sh: Shell, world: Scripts, marker: string)
    requires "MARKER" in sh.env && sh.env["MARKER"] == marker
    ensures
      RunScript(TouchMarker(End), sh, world, 0)
      == Outcome(sh.(files := sh.files + {marker}, parents := sh.parents + {marker}), 0, true)
  {
    assert Expand(MARKER, sh.env) == marker + "" == marker;
    var sh1 := sh.(parents := sh.parents + {marker});
    assert Exec(MkdirParent(MARKER), sh, world, false) == Outcome(sh1, 0, false);
    var sh2 := sh1.(files := sh1.files + {marker});
    assert Exec(Touch(MARKER), sh1, world, false) == Outcome(sh2, 0, false);
    assert RunScript(Then(Touch(MARKER), End), sh1, world, 0) == RunScript(End, sh2, world, 0);
  }

  lemma InstallTailIgnore(marker: string, inst: Install, sh: Shell, world: Scripts, last: nat)
    requires inst.runOnce && "MARKER" in sh.env && sh.env["MARKER"] == marker
    requires !sh.errexit
    ensures
      var run := Run(Lit(BODY), inst.timeout);
      var status := world.status(BODY);
      var tail := Then(If(run, TouchMarker(End), Some(Then(Echo("install failed"), End))), Then(Exit(0), End));
      var r := RunScript(tail, sh, world, last);
      r.sh.ran == sh.ran + [Ran(BODY, status)] && r.status == 0
      && r.sh.files == world.leaves(BODY, sh.files) + if status == 0 then {marker} else {}
  {
    var run := Run(Lit(BODY), inst.timeout);
    var status := world.status(BODY);
    var els := Then(Echo("install failed"), End);
    var c := If(run, TouchMarker(End), Some(els));
    var sh1 := sh.(ran := sh.ran + [Ran(BODY, status)], files := world.leaves(BODY, sh.files));
    assert Exec(run, sh, world, true) == Outcome(sh1, status, false);
    assert AllWellFormed(Then(Touch(MARKER), End)) && AllWellFormed(TouchMarker(End)) && AllWellFormed(els);
    assert WellFormed(c);
    if status == 0 {
      TouchMarkerRuns(sh1, world, marker, 0);
    } else {
      assert Exec(Echo("install failed"), sh1, world, false) == Outcome(sh1, 0, false);
      assert ExecAll(els, sh1, world, false, 0) == ExecAll(End, sh1, world, false, 0);
    }
    var sh2 := Exec(c, sh, world, false).sh;
    assert RunScript(Then(Exit(0), End), sh2, world, 0) == Outcome(sh2, 0, true);
  }

  lemma RunNext(c: Cmd, rest: Cmds, sh: Shell, world: Scripts, last: nat)
    requires WellFormed(c)
    ensures
      var r := Exec(c, sh, world, false);
      RunScript(Then(c, rest), sh, world, last) == if r.exited then r else RunScript(rest, r.sh, world, r.status)
  {
  }

  lemma InstallRuns(marker: string, inst: Install, files: set<string>, parents: set<string>, world: Scripts)
    ensures InstallStart(StartOf(InstallWrapper(marker, inst), files, parents, world), marker, inst, files, world)
  {
    var sh := Fresh(files, parents);
    var cs := InstallWrapper(marker, inst);
    if inst.runOnce {
      var sh1 := sh.(env := sh.env["MARKER" := marker]);
      RunNext(cs.first, cs.rest, sh, world, 0);
      assert Exec(cs.first, sh, world, false) == Outcome(sh1, 0, false);
      assert Expand(MARKER, sh1.env) == marker + "" == marker;
      var done := If(IsFile(MARKER), Then(Exit(0), End), None);
      assert cs.rest.first == done && WellFormed(done);
      RunNext(done, cs.rest.rest, sh1, world, 0);
      assert Exec(IsFile(MARKER), sh1, world, true) == Outcome(sh1, if marker in files then 0 else 1, false);
      if marker in files {
        assert Exec(Exit(0), sh1, world, false) == Outcome(sh1, 0, true);
        assert ExecAll(Then(Exit(0), End), sh1, world, false, 0) == Outcome(sh1, 0, true);
        assert Exec(done, sh1, world, false) == Outcome(sh1, 0, true);
      } else {
        assert Exec(done, sh1, world, false) == Outcome(sh1, 0, false);
        if inst.failClosed {
          InstallTail(marker, inst, sh1, world, 0);
        } else {
          InstallTailIgnore(marker, inst, sh1, world, 0);
        }
      }
    } else if inst.failClosed {
      InstallTail(marker, inst, sh, world, 0);
    } else {
      assert !WellFormed(cs.first);
    }
  }

  // ---------- hooks ----------

  /** What one start of the hook container does, case by case. */
  ghost predicate HookStart(st: Start, stage: string, marker: string, failClosed: bool, files: set<string>, world: Scripts) {
    var first, boot := stage + "/firstrun.sh", stage + "/bootstrap.sh";
    var runsFirst := first in files && marker !in files;
    var firstRan := if runsFirst then [Ran(first, world.status(first))] else [];
    var files0 := if runsFirst then world.leaves(first, files) else files;
    var files1 := if runsFirst && world.status(first) == 0 then files0 + {marker} else files0;
    if failClosed && runsFirst && world.status(first) != 0 then st == Start(firstRan, world.status(first), files1)
    else if boot in files1 then
      st == Start(firstRan + [Ran(boot, world.status(boot))], if failClosed then world.status(boot) else 0, world.leaves(boot, files1))
    else st == Start(firstRan, 0, files1)
  }

  /** The shell once both variables are set. */
  ghost predicate Ready(sh: Shell, stage: string, marker: string, failClosed: bool) {
    sh.env == map["STAGE" := stage, "MARKER" := marker] && sh.errexit == failClosed
  }

  lemma OnceRuns(sh: Shell, stage: string, marker: string, failClosed: bool, timeout: Option<nat>, world: Scripts)
    requires Ready(sh, stage, marker, failClosed)
    ensures WellFormed(OnceCmd(failClosed, timeout))
    ensures
      var r := Exec(OnceCmd(failClosed, timeout), sh, world, false);
      var first := stage + "/firstrun.sh";
      var status := world.status(first);
      if first in sh.files && marker !in sh.files then
        && r.sh.ran == sh.ran + [Ran(first, status)] && Ready(r.sh, stage, marker, failClosed)
        && r.sh.files == (if status == 0 then world.leaves(first, sh.files) + {marker} else world.leaves(first, sh.files))
        && r.exited == (failClosed && status != 0) && r.status == (if failClosed then status else 0)
      else r == Outcome(sh, 0, false)
  {
    var first := stage + "/firstrun.sh";
    var status := world.status(first);
    var run := Run(FIRST_RUN, timeout);
    assert Expand(MARKER, sh.env) == marker + "" == marker;
    assert Expand(FIRST_RUN, sh.env) == first;
    var c := OnceCmd(failClosed, timeout);
    var els := Then(Echo("firstrun failed"), End);
    assert AllWellFormed(Then(Touch(MARKER), End)) && AllWellFormed(TouchMarker(End)) && AllWellFormed(els);
    assert WellFormed(If(run, TouchMarker(End), Some(els)));
    var cond := Exec(c.cond, sh, world, true);
    assert cond.sh == sh && !cond.exited && (cond.status == 0 <==> first in sh.files && marker !in sh.files);
    if first in sh.files && marker !in sh.files {
      var sh1 := sh.(ran := sh.ran + [Ran(first, status)], files := world.leaves(first, sh.files));
      assert Exec(run, sh, world, !failClosed) == Outcome(sh1, status, failClosed && status != 0);
      if status == 0 {
        TouchMarkerRuns(sh1, world, marker, 0);
      } else if !failClosed {
        assert Exec(Echo("firstrun failed"), sh1, world, false) == Outcome(sh1, 0, false);
        assert ExecAll(els, sh1, world, false, 0) == ExecAll(End, sh1, world, false, 0);
      }
      if !failClosed {
        var inner := If(run, TouchMarker(End), Some(els));
        var r := Exec(inner, sh, world, false);
        assert ExecAll(Then(inner, End), sh, world, false, 0) == ExecAll(End, r.sh, world, false, r.status);
      }
    }
  }

  lemma AlwaysRuns(sh: Shell, stage: string, marker: string, failClosed: bool, timeout: Option<nat>, world: Scripts)
    requires Ready(sh, stage, marker, failClosed)
    ensures WellFormed(AlwaysCmd(failClosed, timeout))
    ensures
      var r := Exec(AlwaysCmd(failClosed, timeout), sh, world, false);
      var boot := stage + "/bootstrap.sh";
      if boot in sh.files then
        && r.sh.ran == sh.ran + [Ran(boot, world.status(boot))] && r.sh.files == world.leaves(boot, sh.files)
        && r.exited == (failClosed && world.status(boot) != 0) && r.status == (if failClosed then world.status(boot) else 0)
      else r == Outcome(sh, 0, false)
  {
    var boot := stage + "/bootstrap.sh";
    var run := Run(BOOTSTRAP, timeout);
    assert Expand(BOOTSTRAP, sh.env) == boot;
    var c := AlwaysCmd(failClosed, timeout);
    assert WellFormed(run) && WellFormed(Echo("bootstrap failed"));
    assert WellFormed(c.thn.first) && AllWellFormed(c.thn);
    assert Exec(c.cond, sh, world, true) == Outcome(sh, if boot in sh.files then 0 else 1, false);
    if boot in sh.files {
      var sh1 := sh.(ran := sh.ran + [Ran(boot, world.status(boot))], files := world.leaves(boot, sh.files));
      assert Exec(run, sh, world, !failClosed) == Outcome(sh1, world.status(boot), failClosed && world.status(boot) != 0);
      var r := Exec(c.thn.first, sh, world, false);
      assert Exec(Echo("bootstrap failed"), sh1, world, false) == Simple(sh1, 0, false);
      assert r == Outcome(sh1, if failClosed then world.status(boot) else 0, failClosed && world.status(boot) != 0);
      assert ExecAll(c.thn, sh, world, false, 0) == if r.exited then r else ExecAll(End, r.sh, world, false, r.status);
    }
  }

  /** Two commands, and nothing or `exit 0` after them. */
  lemma RunTwo(a: Cmd, b: Cmd, exits: bool, sh: Shell, world: Scripts)
    requires WellFormed(a) && WellFormed(b)
    ensures
      var ra := Exec(a, sh, world, false);
      var rb := Exec(b, ra.sh, world, false);
      RunScript(Then(a, Then(b, if exits then Then(Exit(0), End) else End)), sh, world, 0)
      == if ra.exited then ra else if rb.exited then rb else Outcome(rb.sh, if exits then 0 else rb.status, true)
  {
    var last := if exits then Then(Exit(0), End) else End;
    var ra := Exec(a, sh, world, false);
    RunNext(a, Then(b, last), sh, world, 0);
    RunNext(b, last, ra.sh, world, ra.status);
  }

  /** Both hooks, once the variables are set. */
  lemma HookTail(sh: Shell, stage: string, marker: string, failClosed: bool, timeout: Option<nat>, world: Scripts)
    requires Ready(sh, stage, marker, failClosed) && sh.ran == [] && marker != stage + "/bootstrap.sh"
    ensures
      var tail := Then(OnceCmd(failClosed, timeout), Then(AlwaysCmd(failClosed, timeout), if !failClosed then Then(Exit(0), End) else End));
      var r := RunScript(tail, sh, world, 0);
      HookStart(Start(r.sh.ran, r.status, r.sh.files), stage, marker, failClosed, sh.files, world)
  {
    var once, always := OnceCmd(failClosed, timeout), AlwaysCmd(failClosed, timeout);
    OnceRuns(sh, stage, marker, failClosed, timeout, world);
    var ra := Exec(once, sh, world, false);
    if Ready(ra.sh, stage, marker, failClosed) {
      AlwaysRuns(ra.sh, stage, marker, failClosed, timeout, world);
      RunTwo(once, always, !failClosed, sh, world);
    }
  }

  lemma HookRuns(stage: string, marker: string, failClosed: bool, timeout: Option<nat>,
                 files: set<string>, parents: set<string>, world: Scripts)
    requires marker != stage + "/bootstrap.sh"
    ensures HookStart(StartOf(HookWrapper(stage, marker, failClosed, timeout), files, parents, world),
                      stage, marker, failClosed, files, world)
  {
    var sh0 := Fresh(files, parents).(errexit := failClosed);
    var cs := HookWrapper(stage, marker, failClosed, timeout);
    var body := if failClosed then cs.rest else cs;
    assert RunScript(cs, Fresh(files, parents), world, 0) == RunScript(body, sh0, world, 0);
    var sh1 := sh0.(env := sh0.env["STAGE" := stage]);
    RunNext(body.first, body.rest, sh0, world, 0);
    var sh2 := sh1.(env := sh1.env["MARKER" := marker]);
    RunNext(body.rest.first, body.rest.rest, sh1, world, 0);
    assert sh2.env == map["STAGE" := stage, "MARKER" := marker];
    HookTail(sh2, stage, marker, failClosed, timeout, world);
  }

  // ---------- over many pod starts ----------

  /** What a pod start meets: every file but this wrapper's marker is up to the others. */
  datatype Boot = Boot(others: set<string>, parents: set<string>, world: Scripts)

  /** The last of a history of starts; the marker alone is carried from one start to the next. */
  function LastStart(cs: Cmds, marker: string, boots: seq<Boot>): Start
    requires boots != []
    decreases |boots|, 0
  {
    var b := boots[|boots| - 1];
    var kept := if Marked(cs, marker, boots[..|boots| - 1]) then {marker} else {};
    StartOf(cs, (b.others - {marker}) + kept, b.parents, b.world)
  }

  predicate Marked(cs: Cmds, marker: string, boots: seq<Boot>)
    decreases |boots|, 1
  {
    boots != [] && marker in LastStart(cs, marker, boots).files
  }

  function StartAt(cs: Cmds, marker: string, boots: seq<Boot>, k: nat): Start
    requires k < |boots|
  {
    LastStart(cs, marker, boots[..k + 1])
  }

  /** The scripts neither make nor remove the marker. */
  ghost predicate Spares(world: Scripts, marker: string) {
    forall script, files :: marker in world.leaves(script, files) <==> marker in files
  }

  /** At start `k` only a success of `script` marks, and a mark keeps it from running. */
  ghost predicate Obeys(cs: Cmds, marker: string, script: string, boots: seq<Boot>, k: nat)
    requires k < |boots|
  {
    var ran := StartAt(cs, marker, boots, k).ran;
    && (Marked(cs, marker, boots[..k + 1]) <==> Marked(cs, marker, boots[..k]) || Ran(script, 0) in ran)
    && (Marked(cs, marker, boots[..k]) ==> forall r :: r in ran ==> r.script != script)
  }

  /** Then, over all starts, the marker records success, and after a success the script never runs. */
  lemma {:induction false} MarkRecords(cs: Cmds, marker: string, script: string, boots: seq<Boot>, n: nat)
    requires n <= |boots| && forall k :: 0 <= k < n ==> Obeys(cs, marker, script, boots, k)
    ensures Marked(cs, marker, boots[..n]) <==> exists k :: 0 <= k < n && Ran(script, 0) in StartAt(cs, marker, boots, k).ran
    ensures forall j, k :: 0 <= j < k < n && Ran(script, 0) in StartAt(cs, marker, boots, j).ran ==>
      forall r :: r in StartAt(cs, marker, boots, k).ran ==> r.script != script
  {
    if n > 0 {
      MarkRecords(cs, marker, script, boots, n - 1);
      assert Obeys(cs, marker, script, boots, n - 1);
    } else {
      assert boots[..n] == [];
    }
  }

  /** What start `k` meets: the others' files, and the marker if an earlier start left it. */
  ghost function FilesAt(cs: Cmds, marker: string, boots: seq<Boot>, k: nat): set<string>
    requires k < |boots|
  {
    (boots[k].others - {marker}) + if Marked(cs, marker, boots[..k]) then {marker} else {}
  }

  lemma StartAtIs(cs: Cmds, marker: string, boots: seq<Boot>, k: nat)
    requires k < |boots|
    ensures StartAt(cs, marker, boots, k) == StartOf(cs, FilesAt(cs, marker, boots, k), boots[k].parents, boots[k].world)
    ensures Marked(cs, marker, boots[..k + 1]) <==> marker in StartAt(cs, marker, boots, k).files
    ensures marker in FilesAt(cs, marker, boots, k) <==> Marked(cs, marker, boots[..k])
  {
    assert boots[..k + 1][..k] == boots[..k];
  }

  /**
   A once-only install: the marker exists exactly when some start ran the script with success, and
   after such a start the script never runs again.
   */
  lemma InstallHistory(marker: string, inst: Install, boots: seq<Boot>)
    requires inst.runOnce && forall b :: b in boots ==> Spares(b.world, marker)
    ensures
      var cs := InstallWrapper(marker, inst);
      && (Marked(cs, marker, boots) <==> exists k :: 0 <= k < |boots| && Ran(BODY, 0) in StartAt(cs, marker, boots, k).ran)
      && (forall j, k :: 0 <= j < k < |boots| && Ran(BODY, 0) in StartAt(cs, marker, boots, j).ran ==>
            StartAt(cs, marker, boots, k).ran == [])
  {
    var cs := InstallWrapper(marker, inst);
    forall k | 0 <= k < |boots|
      ensures Obeys(cs, marker, BODY, boots, k)
      ensures StartAt(cs, marker, boots, k).ran == [] || Ran(BODY, boots[k].world.status(BODY)) in StartAt(cs, marker, boots, k).ran
    {
      assert boots[k] in boots;
      StartAtIs(cs, marker, boots, k);
      InstallRuns(marker, inst, FilesAt(cs, marker, boots, k), boots[k].parents, boots[k].world);
    }
    MarkRecords(cs, marker, BODY, boots, |boots|);
    assert boots[..|boots|] == boots;
  }

  /** A fail-closed install exits 0 exactly when every script it ran succeeded. */
  lemma InstallFailClosed(marker: string, inst: Install, files: set<string>, parents: set<string>, world: Scripts)
    requires inst.failClosed
    ensures
      var st := StartOf(InstallWrapper(marker, inst), files, parents, world);
      st.code == 0 <==> forall r :: r in st.ran ==> r.status == 0
  {
    InstallRuns(marker, inst, files, parents, world);
    var st := StartOf(InstallWrapper(marker, inst), files, parents, world);
    assert st.ran == [] || st.ran == [Ran(BODY, world.status(BODY))];
    if st.ran != [] {
      assert st.ran[0] in st.ran;
    }
  }

  /**
   The default policy promises never to block a start. It keeps that promise exactly when the install
   runs once: otherwise the branch for success is empty, which is a syntax error, and neither the script
   runs nor the container succeeds.
   */
  lemma IgnoreNeverBlocksIff(marker: string, inst: Install)
    requires !inst.failClosed
    ensures (forall files, parents, world :: StartOf(InstallWrapper(marker, inst), files, parents, world).code == 0) <==> inst.runOnce
    ensures !inst.runOnce ==> forall files, parents, world ::
      StartOf(InstallWrapper(marker, inst), files, parents, world) == Start([], SYNTAX_ERROR, files)
  {
    var cs := InstallWrapper(marker, inst);
    forall files, parents, world
      ensures StartOf(cs, files, parents, world).code == 0 <==> inst.runOnce
      ensures !inst.runOnce ==> StartOf(cs, files, parents, world) == Start([], SYNTAX_ERROR, files)
    {
      InstallRuns(marker, inst, files, parents, world);
    }
    assert inst.runOnce || StartOf(cs, {}, {}, Scripts((s: string) => 0 as nat, (s: string, fs: set<string>) => fs)).code != 0;
  }

  // Where the hooks and their marker live; `folder` is the plugin's directory name.
  function StageOf(folder: string): string { "/config/plugins/" + folder }
  function FirstRunMarkerOf(folder: string): string { "/config/.jellyops/firstrun/" + folder }

  lemma MarkerIsNoHook(folder: string)
    ensures FirstRunMarkerOf(folder) != StageOf(folder) + "/bootstrap.sh"
  {
    assert FirstRunMarkerOf(folder)[8] == '.';
    assert (StageOf(folder) + "/bootstrap.sh")[8] == 'p';
  }

  /** The files a start leaves: what its scripts made of them, and the marker of a first run that succeeded. */
  ghost function Left(st: Start, stage: string, marker: string, files: set<string>, world: Scripts): set<string> {
    var first, boot := stage + "/firstrun.sh", stage + "/bootstrap.sh";
    var files0 := AfterFirst(st, stage, files, world);
    var files1 := if Ran(first, 0) in st.ran then files0 + {marker} else files0;
    if Ran(boot, world.status(boot)) in st.ran then world.leaves(boot, files1) else files1
  }

  ghost function AfterFirst(st: Start, stage: string, files: set<string>, world: Scripts): set<string> {
    var first := stage + "/firstrun.sh";
    if Ran(first, world.status(first)) in st.ran then world.leaves(first, files) else files
  }

  /** The contract of a start of the hook container, told by the scripts it ran. */
  ghost predicate Hooked(st: Start, stage: string, marker: string, failClosed: bool, files: set<string>, world: Scripts) {
    var first, boot := stage + "/firstrun.sh", stage + "/bootstrap.sh";
    && (st.code == 0 <==> !failClosed || forall r :: r in st.ran ==> r.status == 0)
    && ((exists r :: r in st.ran && r.script == boot) <==>
          boot in AfterFirst(st, stage, files, world) && !(failClosed && exists r :: r in st.ran && r.script == first && r.status != 0))
    && ((exists r :: r in st.ran && r.script == first) <==> first in files && marker !in files)
    && st.files == Left(st, stage, marker, files, world)
  }

  /** Which scripts ran, told from the case list. */
  lemma HookRan(st: Start, stage: string, marker: string, failClosed: bool, files: set<string>, world: Scripts)
    requires HookStart(st, stage, marker, failClosed, files, world) && marker != stage + "/bootstrap.sh"
    ensures
      var first, boot := stage + "/firstrun.sh", stage + "/bootstrap.sh";
      var f, b := Ran(first, world.status(first)), Ran(boot, world.status(boot));
      && first != boot && (forall r :: r in st.ran ==> r == f || r == b)
      && (f in st.ran <==> first in files && marker !in files)
      && (b in st.ran <==> boot in AfterFirst(st, stage, files, world) && !(failClosed && f in st.ran && f.status != 0))
      && st.code == if failClosed && f in st.ran && f.status != 0 then f.status else if failClosed && b in st.ran then b.status else 0
  {
    var first, boot := stage + "/firstrun.sh", stage + "/bootstrap.sh";
    assert |first| != |boot|;
    var f, b := Ran(first, world.status(first)), Ran(boot, world.status(boot));
    if first in files && marker !in files {
      assert st.ran == [f] || st.ran == [f, b];
      assert f in st.ran;
    } else {
      assert st.ran == [] || st.ran == [b];
      assert f !in st.ran;
    }
  }

  /** The case list, read as that contract. */
  lemma HookCases(st: Start, stage: string, marker: string, failClosed: bool, files: set<string>, world: Scripts)
    requires HookStart(st, stage, marker, failClosed, files, world) && marker != stage + "/bootstrap.sh"
    ensures Hooked(st, stage, marker, failClosed, files, world)
  {
    var first, boot := stage + "/firstrun.sh", stage + "/bootstrap.sh";
    HookRan(st, stage, marker, failClosed, files, world);
    assert Ran(first, 0) in st.ran <==> Ran(first, world.status(first)) in st.ran && world.status(first) == 0;
  }

  /**
   One start of the hook container, at its real paths and whatever the scripts do to the files: fail-open
   never blocks, fail-closed exits 0 exactly when all it ran succeeded; bootstrap runs whenever it is there
   after the first run, unless a fail-closed first run failed before it; the first run happens exactly when
   it is there and unmarked; what is left is what the scripts left, and the mark of a first run's success.
   */
  lemma HookContract(folder: string, failClosed: bool, timeout: Option<nat>,
                     files: set<string>, parents: set<string>, world: Scripts)
    ensures
      var stage, marker := StageOf(folder), FirstRunMarkerOf(folder);
      var st := StartOf(HookWrapper(stage, marker, failClosed, timeout), files, parents, world);
      Hooked(st, stage, marker, failClosed, files, world)
  {
    var stage, marker := StageOf(folder), FirstRunMarkerOf(folder);
    MarkerIsNoHook(folder);
    HookRuns(stage, marker, failClosed, timeout, files, parents, world);
    var st := StartOf(HookWrapper(stage, marker, failClosed, timeout), files, parents, world);
    HookCases(st, stage, marker, failClosed, files, world);
  }

  /**
   The first-run hook: its marker exists exactly when some start ran it with success, and after such a
   start it never runs again.
   */
  lemma HookHistory(folder: string, failClosed: bool, timeout: Option<nat>, boots: seq<Boot>)
    requires forall b :: b in boots ==> Spares(b.world, FirstRunMarkerOf(folder))
    ensures
      var marker, first := FirstRunMarkerOf(folder), StageOf(folder) + "/firstrun.sh";
      var cs := HookWrapper(StageOf(folder), marker, failClosed, timeout);
      && (Marked(cs, marker, boots) <==> exists k :: 0 <= k < |boots| && Ran(first, 0) in StartAt(cs, marker, boots, k).ran)
      && (forall j, k :: 0 <= j < k < |boots| && Ran(first, 0) in StartAt(cs, marker, boots, j).ran ==>
            forall r :: r in StartAt(cs, marker, boots, k).ran ==> r.script != first)
  {
    var marker, first := FirstRunMarkerOf(folder), StageOf(folder) + "/firstrun.sh";
    var cs := HookWrapper(StageOf(folder), marker, failClosed, timeout);
    forall k | 0 <= k < |boots|
      ensures Obeys(cs, marker, first, boots, k)
    {
      assert boots[k] in boots;
      StartAtIs(cs, marker, boots, k);
      HookContract(folder, failClosed, timeout, FilesAt(cs, marker, boots, k), boots[k].parents, boots[k].world);
      HookMarks(StartAt(cs, marker, boots, k), StageOf(folder), marker, failClosed, FilesAt(cs, marker, boots, k), boots[k].world);
    }
    MarkRecords(cs, marker, first, boots, |boots|);
    assert boots[..|boots|] == boots;
  }

  /** As long as scripts leave the marker alone, it is there after a start if it was before or firstrun succeeded. */
  lemma HookMarks(st: Start, stage: string, marker: string, failClosed: bool, files: set<string>, world: Scripts)
    requires Hooked(st, stage, marker, failClosed, files, world) && Spares(world, marker)
    ensures marker in st.files <==> marker in files || Ran(stage + "/firstrun.sh", 0) in st.ran
  {
  }

  // ---------- several plugins over one file system ----------

  function InstalledMarkerOf(folder: string): string { "/config/.jellyops/installed/" + folder }

  /** Markers of different folders differ, as do the two kinds of marker, and none is a hook. */
  lemma MarkersApart(f: string, g: string)
    ensures f != g ==> FirstRunMarkerOf(f) != FirstRunMarkerOf(g) && InstalledMarkerOf(f) != InstalledMarkerOf(g)
    ensures FirstRunMarkerOf(f) != InstalledMarkerOf(g)
    ensures FirstRunMarkerOf(f) != StageOf(g) + "/firstrun.sh" && FirstRunMarkerOf(f) != StageOf(g) + "/bootstrap.sh"
    ensures InstalledMarkerOf(f) != StageOf(g) + "/firstrun.sh" && InstalledMarkerOf(f) != StageOf(g) + "/bootstrap.sh"
  {
    var first, installed := "/config/.jellyops/firstrun/", "/config/.jellyops/installed/";
    assert |first| == 27 && |installed| == 28;
    assert FirstRunMarkerOf(f)[27..] == f && FirstRunMarkerOf(g)[27..] == g;
    assert InstalledMarkerOf(f)[28..] == f && InstalledMarkerOf(g)[28..] == g;
    assert FirstRunMarkerOf(f)[18] == 'f' && InstalledMarkerOf(g)[18] == 'i';
    assert FirstRunMarkerOf(f)[8] == InstalledMarkerOf(f)[8] == '.' && StageOf(g)[8] == 'p';
    assert (StageOf(g) + "/firstrun.sh")[8] == 'p' && (StageOf(g) + "/bootstrap.sh")[8] == 'p';
  }

  /**
   A start for one plugin neither makes nor removes a marker of another, nor a marker of the other kind of its
   own, so each plugin's history is its own.
   */
  lemma OtherMarkersStay(g: string, failClosed: bool, timeout: Option<nat>, inst: Install, marker: string,
                         files: set<string>, parents: set<string>, world: Scripts)
    requires Spares(world, marker)
    ensures marker != FirstRunMarkerOf(g) ==>
      (marker in StartOf(HookWrapper(StageOf(g), FirstRunMarkerOf(g), failClosed, timeout), files, parents, world).files <==> marker in files)
    ensures marker != InstalledMarkerOf(g) ==>
      (marker in StartOf(InstallWrapper(InstalledMarkerOf(g), inst), files, parents, world).files <==> marker in files)
  {
    HookContract(g, failClosed, timeout, files, parents, world);
    InstallRuns(InstalledMarkerOf(g), inst, files, parents, world);
  }

  // ---------- timeouts ----------

  /** Every script is run under the timeout, if there is one. */
  predicate Timed(c: Cmd, timeout: Option<nat>) {
    match c
    case And(a, b) => Timed(a, timeout) && Timed(b, timeout)
    case Or(a, b) => Timed(a, timeout) && Timed(b, timeout)
    case If(cond, thn, els) => Timed(cond, timeout) && AllTimed(thn, timeout) && (els.Some? ==> AllTimed(els.value, timeout))
    case Run(_, t) => t == timeout
    case _ => true
  }

  predicate AllTimed(cs: Cmds, timeout: Option<nat>) {
    cs.Then? ==> Timed(cs.first, timeout) && AllTimed(cs.rest, timeout)
  }

  lemma WrappersAreTimed(stage: string, marker: string, failClosed: bool, inst: Install, timeout: Option<nat>)
    ensures AllTimed(InstallWrapper(marker, inst), inst.timeout)
    ensures AllTimed(HookWrapper(stage, marker, failClosed, timeout), timeout)
  {
    OnceIsTimed(failClosed, timeout);
    InstallIsTimed(marker, inst);
    var end := if failClosed then End else Then(Exit(0), End);
    assert AllTimed(end, timeout);
    var hooks := Then(OnceCmd(failClosed, timeout), Then(AlwaysCmd(failClosed, timeout), end));
    assert AllTimed(hooks.rest, timeout) && AllTimed(hooks, timeout);
    assert AllTimed(Then(Assign("MARKER", marker), hooks), timeout);
    assert AllTimed(Then(Assign("STAGE", stage), Then(Assign("MARKER", marker), hooks)), timeout);
  }

  lemma TouchIsTimed(timeout: Option<nat>)
    ensures AllTimed(TouchMarker(End), timeout)
  {
    assert AllTimed(End, timeout) && Timed(Touch(MARKER), timeout);
    assert AllTimed(Then(Touch(MARKER), End), timeout);
  }

  lemma OnceIsTimed(failClosed: bool, timeout: Option<nat>)
    ensures Timed(OnceCmd(failClosed, timeout), timeout) && Timed(AlwaysCmd(failClosed, timeout), timeout)
  {
    TouchIsTimed(timeout);
    var els := Then(Echo("firstrun failed"), End);
    assert AllTimed(els, timeout);
    assert Timed(If(Run(FIRST_RUN, timeout), TouchMarker(End), Some(els)), timeout);
    var boot, echo := Run(BOOTSTRAP, timeout), Echo("bootstrap failed");
    assert Timed(boot, timeout) && Timed(echo, timeout);
    assert Timed(Or(boot, echo), timeout);
  }

  lemma InstallIsTimed(marker: string, inst: Install)
    ensures AllTimed(InstallWrapper(marker, inst), inst.timeout)
  {
    TouchIsTimed(inst.timeout);
    var els := Then(Echo("install failed"), End);
    assert AllTimed(els, inst.timeout);
    var cs := InstallWrapper(marker, inst);
    var tail := if inst.runOnce then cs.rest.rest else cs;
    assert AllTimed(Then(Exit(0), End), inst.timeout);
    assert inst.failClosed ==> AllTimed(tail.rest, inst.timeout);
    assert !inst.failClosed ==> Timed(tail.first, inst.timeout) && AllTimed(tail.rest, inst.timeout);
    assert AllTimed(tail, inst.timeout);
    if inst.runOnce {
      assert Timed(If(IsFile(MARKER), Then(Exit(0), End), None), inst.timeout);
      assert AllTimed(cs.rest, inst.timeout);
    }
  }
}
