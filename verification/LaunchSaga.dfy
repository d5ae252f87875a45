/**
 Launching an application: preparation commands run forward, and whatever ends the launch
 runs the undo commands backward from where the forward run stopped.

 Which commands succeed is a parameter. The log records every command run.
 */
module LaunchSaga {
  import opened Options

  datatype Cmd = Cmd(doCmd: string, undoCmd: string)

  datatype App = App(id: int, prep: seq<Cmd>, detached: seq<string>, cmd: string)

  datatype Event =
    | Did(cmd: Cmd)
    | Failed(cmd: Cmd)
    | Undid(undo: string)
    | Spawned(line: string)
    | Started(line: string)

  // ---- The discipline: a stack of undo commands owed ----------------------------------------

  function Debt(cmd: Cmd): seq<string> {
    if cmd.undoCmd == "" then [] else [cmd.undoCmd]
  }

  /** A completed command owes its undo; an undo must be the one owed last. */
  function Settle(owed: Option<seq<string>>, e: Event): Option<seq<string>> {
    match (owed, e)
    case (None, _) => None
    case (Some(stack), Did(cmd)) => Some(stack + Debt(cmd))
    case (Some(stack), Undid(undo)) =>
      if stack != [] && stack[|stack| - 1] == undo then Some(stack[..|stack| - 1]) else None
    case (Some(stack), _) => Some(stack)
  }

  /** Replaying a log. */
  function Owed(log: seq<Event>): Option<seq<string>> {
    if log == [] then Some([]) else Settle(Owed(log[..|log| - 1]), log[|log| - 1])
  }

  lemma OwedStep(log: seq<Event>, e: Event)
    ensures Owed(log + [e]) == Settle(Owed(log), e)
  {
    assert (log + [e])[..|log|] == log;
  }

  /** What the first `k` preparation commands owe. */
  function Debts(prep: seq<Cmd>, k: nat): seq<string>
    requires k <= |prep|
  {
    if k == 0 then [] else Debts(prep, k - 1) + Debt(prep[k - 1])
  }

  lemma NoDebts(prep: seq<Cmd>)
    ensures Debts(prep, 0) == []
  {
  }

  /** The undo commands of the first `k`, last first, empty ones left out. */
  function UndoRun(prep: seq<Cmd>, k: nat): seq<Event>
    requires k <= |prep|
  {
    if k == 0 then []
    else if prep[k - 1].undoCmd == "" then UndoRun(prep, k - 1)
    else [Undid(prep[k - 1].undoCmd)] + UndoRun(prep, k - 1)
  }

  /** The first `k` preparation commands, completed in list order. */
  function DoRun(prep: seq<Cmd>, k: nat): seq<Event>
    requires k <= |prep|
  {
    if k == 0 then [] else DoRun(prep, k - 1) + [Did(prep[k - 1])]
  }

  function SpawnRun(cmds: seq<string>, k: nat): seq<Event>
    requires k <= |cmds|
  {
    if k == 0 then [] else SpawnRun(cmds, k - 1) + [Spawned(cmds[k - 1])]
  }

  /** Every one of the first `k` is run, in list order. */
  lemma {:induction false} DoRunIs(prep: seq<Cmd>, k: nat)
    requires k <= |prep|
    ensures |DoRun(prep, k)| == k && forall i :: 0 <= i < k ==> DoRun(prep, k)[i] == Did(prep[i])
  {
    if k > 0 {
      DoRunIs(prep, k - 1);
    }
  }

  lemma {:induction false} SpawnRunIs(cmds: seq<string>, k: nat)
    requires k <= |cmds|
    ensures |SpawnRun(cmds, k)| == k && forall i :: 0 <= i < k ==> SpawnRun(cmds, k)[i] == Spawned(cmds[i])
  {
    if k > 0 {
      SpawnRunIs(cmds, k - 1);
    }
  }

  /** These are the non-empty undo commands of the first `k`, last first; `at` says whose each one is. */
  ghost predicate UndoesLastFirst(prep: seq<Cmd>, k: nat, run: seq<Event>, at: seq<nat>) {
    && k <= |prep| && |run| == |at|
    && (forall i :: 0 <= i < |at| ==> at[i] < k && run[i] == Undid(prep[at[i]].undoCmd))
    && (forall i, j :: 0 <= i < j < |at| ==> at[j] < at[i])
    && (forall m: nat :: m < k ==> (m in at <==> prep[m].undoCmd != ""))
  }

  lemma UndoesOneMore(prep: seq<Cmd>, k: nat, run: seq<Event>, at: seq<nat>)
    requires k < |prep| && UndoesLastFirst(prep, k, run, at) && prep[k].undoCmd != ""
    ensures UndoesLastFirst(prep, k + 1, [Undid(prep[k].undoCmd)] + run, [k] + at)
  {
    var at', run' := [k] + at, [Undid(prep[k].undoCmd)] + run;
    forall i | 0 <= i < |at'|
      ensures at'[i] < k + 1 && run'[i] == Undid(prep[at'[i]].undoCmd)
    {
      assert i > 0 ==> at'[i] == at[i - 1] && run'[i] == run[i - 1];
    }
    forall i, j | 0 <= i < j < |at'|
      ensures at'[j] < at'[i]
    {
      assert at'[j] == at[j - 1] && (i > 0 ==> at'[i] == at[i - 1]);
    }
    forall m: nat | m < k + 1
      ensures m in at' <==> prep[m].undoCmd != ""
    {
      assert m in at' <==> m == k || m in at;
    }
  }

  lemma UndoesNoMore(prep: seq<Cmd>, k: nat, run: seq<Event>, at: seq<nat>)
    requires k < |prep| && UndoesLastFirst(prep, k, run, at) && prep[k].undoCmd == ""
    ensures UndoesLastFirst(prep, k + 1, run, at)
  {
    assert forall i :: 0 <= i < |at| ==> at[i] in at;
  }

  lemma {:induction false} UndoRunIs(prep: seq<Cmd>, k: nat) returns (at: seq<nat>)
    requires k <= |prep|
    ensures UndoesLastFirst(prep, k, UndoRun(prep, k), at)
    decreases k
  {
    if k == 0 {
      at := [];
    } else {
      hide UndoesLastFirst;
      var rest := UndoRunIs(prep, k - 1);
      if prep[k - 1].undoCmd == "" {
        UndoesNoMore(prep, k - 1, UndoRun(prep, k - 1), rest);
        at := rest;
      } else {
        UndoesOneMore(prep, k - 1, UndoRun(prep, k - 1), rest);
        at := [k - 1] + rest;
      }
    }
  }

  /** Paying the last debt. */
  lemma UndoStep(log: seq<Event>, prep: seq<Cmd>, k: nat)
    requires 0 < k <= |prep| && Owed(log) == Some(Debts(prep, k))
    ensures var undo := prep[k - 1].undoCmd;
      Owed(if undo == "" then log else log + [Undid(undo)]) == Some(Debts(prep, k - 1))
  {
    OwedStep(log, Undid(prep[k - 1].undoCmd));
    assert Debts(prep, k - 1) + [] == Debts(prep, k - 1);
  }

  lemma UndoNext(done: seq<Event>, prep: seq<Cmd>, k: nat)
    requires 0 < k <= |prep|
    ensures var undo := prep[k - 1].undoCmd;
      (if undo == "" then done else done + [Undid(undo)]) + UndoRun(prep, k - 1) == done + UndoRun(prep, k)
  {
    var undo := prep[k - 1].undoCmd;
    assert done + [Undid(undo)] + UndoRun(prep, k - 1) == done + ([Undid(undo)] + UndoRun(prep, k - 1));
  }

  lemma UndoneAll(done: seq<Event>, prep: seq<Cmd>)
    ensures done + UndoRun(prep, 0) == done
  {
  }

  function Completions(log: seq<Event>, undo: string): nat {
    if log == [] then 0
    else Completions(log[..|log| - 1], undo) + match log[|log| - 1]
      case Did(cmd) => if cmd.undoCmd == undo then 1 else 0
      case _ => 0
  }

  function Undos(log: seq<Event>, undo: string): nat {
    if log == [] then 0
    else Undos(log[..|log| - 1], undo) + match log[|log| - 1]
      case Undid(u) => if u == undo then 1 else 0
      case _ => 0
  }

  /** In a disciplined log every undo command ran once per completed command that owed it, less those still owed. */
  lemma {:induction false} UndoneOnce(log: seq<Event>, undo: string)
    requires Owed(log).Some? && undo != ""
    ensures Completions(log, undo) == Undos(log, undo) + multiset(Owed(log).value)[undo]
  {
    if log != [] {
      UndoneOnce(log[..|log| - 1], undo);
      var before := Owed(log[..|log| - 1]).value;
      if before != [] {
        assert before == before[..|before| - 1] + [before[|before| - 1]];
      }
    }
  }

  // ---- The class ------------------------------------------------------------------------------

  /** How far the preparation gets when `doOk` says which commands succeed. */
  function Reached(prep: seq<Cmd>, doOk: nat -> bool, k: nat): (r: nat)
    requires k <= |prep|
    ensures k <= r <= |prep|
    ensures r < |prep| ==> !doOk(r)
    ensures forall i: nat :: k <= i < r ==> doOk(i)
    decreases |prep| - k
  {
    if k == |prep| || !doOk(k) then k else Reached(prep, doOk, k + 1)
  }

  /** The first application with this id. */
  function Find(apps: seq<App>, id: int): (r: Option<App>)
    ensures r == None <==> forall i :: 0 <= i < |apps| ==> apps[i].id != id
    ensures r.Some? ==> exists k ::
      0 <= k < |apps| && apps[k] == r.value && apps[k].id == id && forall i :: 0 <= i < k ==> apps[i].id != id
  {
    if apps == [] then None else if apps[0].id == id then Some(apps[0]) else Find(apps[1..], id)
  }

  datatype Call = Launch(id: int, doOk: nat -> bool, mainOk: bool) | Poll(alive: bool) | End

  class Process {
    const apps: seq<App>
    var appId: int
    var app: App
    var prepIt: nat
    var placebo: bool
    var process: bool        // a child was started and not yet reaped
    ghost var log: seq<Event>

    /** The debts of the log are those of the preparation commands still standing. */
    ghost predicate Valid()
      reads this
    {
      prepIt <= |app.prep| && Owed(log) == Some(Debts(app.prep, prepIt))
    }

    constructor (apps: seq<App>)
      ensures Valid() && log == [] && prepIt == 0 && this.apps == apps
    {
      this.apps := apps;
      appId, app, prepIt := 0, App(0, [], [], ""), 0;
      placebo, process, log := false, false, [];
    }

    method Terminate()
      requires Valid()
      modifies this`placebo, this`process, this`appId, this`prepIt, this`log
      ensures Valid() && prepIt == 0 && !placebo && !process && appId == -1
      ensures log == old(log) + UndoRun(app.prep, old(prepIt))
    {
      hide Owed, Debts, UndoRun;
      placebo, process, appId := false, false, -1;
      ghost var done: seq<Event> := [];
      while prepIt != 0
        invariant Valid() && log == old(log) + done && !placebo && !process && appId == -1
        invariant prepIt <= old(prepIt) && done + UndoRun(app.prep, prepIt) == UndoRun(app.prep, old(prepIt))
        decreases prepIt
      {
        var cmd := app.prep[prepIt - 1].undoCmd;
        UndoStep(log, app.prep, prepIt);
        UndoNext(done, app.prep, prepIt);
        if cmd != "" {
          log := log + [Undid(cmd)];
          done := done + [Undid(cmd)];
        }
        prepIt := prepIt - 1;
      }
      UndoneAll(done, app.prep);
    }

    /** The loop over the do-commands, up to the first that fails. */
    method Prepare(doOk: nat -> bool) returns (ok: bool)
      requires Valid() && prepIt == 0
      modifies this`prepIt, this`log
      ensures Valid() && prepIt == Reached(app.prep, doOk, 0) && ok == (prepIt == |app.prep|)
      ensures log == old(log) + DoRun(app.prep, prepIt) + if ok then [] else [Failed(app.prep[prepIt])]
    {
      hide Owed;
      while prepIt != |app.prep|
        invariant Valid() && log == old(log) + DoRun(app.prep, prepIt)
        invariant Reached(app.prep, doOk, prepIt) == Reached(app.prep, doOk, 0)
        decreases |app.prep| - prepIt
      {
        var cmd := app.prep[prepIt];
        if !doOk(prepIt) {
          OwedStep(log, Failed(cmd));
          log := log + [Failed(cmd)];
          return false;
        }
        OwedStep(log, Did(cmd));
        log := log + [Did(cmd)];
        prepIt := prepIt + 1;
        assert log == old(log) + DoRun(app.prep, prepIt);
      }
      return true;
    }

    method SpawnDetached()
      requires Valid()
      modifies this`log
      ensures Valid() && log == old(log) + SpawnRun(app.detached, |app.detached|)
    {
      hide Owed;
      for i := 0 to |app.detached|
        invariant Valid() && log == old(log) + SpawnRun(app.detached, i)
      {
        OwedStep(log, Spawned(app.detached[i]));
        log := log + [Spawned(app.detached[i])];
        assert log == old(log) + SpawnRun(app.detached, i + 1);
      }
    }

    /**
     Starts from a clean slate. If command `k` fails, exactly the first `k` are undone and the
     failing one is not; a main command that does not start undoes them all.
     */
    method Execute(id: int, doOk: nat -> bool, mainOk: bool) returns (code: int)
      requires Valid()
      modifies this
      ensures Valid()
      ensures Find(apps, id) == None ==>
        && code == 404 && app == old(app) && prepIt == 0 && appId == -1 && !placebo && !process
        && log == old(log) + UndoRun(old(app.prep), old(prepIt))
      ensures Find(apps, id).Some? ==>
        var a := Find(apps, id).value;
        var k := Reached(a.prep, doOk, 0);
        var started := k == |a.prep| && (a.cmd == "" || mainOk);
        && app == a
        && code == (if started then 0 else -1) && appId == (if started then id else -1)
        && prepIt == (if started then k else 0)
        && placebo == (started && a.cmd == "") && process == (started && a.cmd != "")
        && log == old(log) + UndoRun(old(app.prep), old(prepIt)) + DoRun(a.prep, k)
             + (if k < |a.prep| then [Failed(a.prep[k])] else SpawnRun(a.detached, |a.detached|))
             + (if !started then UndoRun(a.prep, k) else if a.cmd == "" then [] else [Started(a.cmd)])
    {
      hide Owed, Debts, UndoRun, DoRun, SpawnRun, Reached, Find;
      Terminate();
      NoDebts(app.prep);
      var found := Find(apps, id);
      if found == None {
        return 404;
      }
      appId, app, prepIt := id, found.value, 0;
      NoDebts(app.prep);
      var ok := Prepare(doOk);
      if !ok {
        Terminate();
        return -1;
      }
      SpawnDetached();
      if app.cmd == "" {
        placebo := true;
      } else if !mainOk {
        Terminate();
        return -1;
      } else {
        OwedStep(log, Started(app.cmd));
        log := log + [Started(app.cmd)];
        process := true;
      }
      return 0;
    }

    /** A child found dead is cleaned up after; `alive` is what the system says about it. */
    method Running(alive: bool) returns (id: int)
      requires Valid()
      modifies this`placebo, this`process, this`appId, this`prepIt, this`log
      ensures Valid()
      ensures if old(placebo || (process && alive)) then
          id == appId && log == old(log) && prepIt == old(prepIt) && appId == old(appId)
          && placebo == old(placebo) && process == old(process)
        else
          && id == 0 && !placebo && !process
          && log == old(log) + (if old(process) then UndoRun(app.prep, old(prepIt)) else [])
          && prepIt == (if old(process) then 0 else old(prepIt))
    {
      if placebo || (process && alive) {
        return appId;
      }
      if process {
        Terminate();
      }
      return 0;
    }

    /**
     Any sequence of calls with any failures keeps the discipline, and a last `terminate`
     leaves nothing owed; a second one runs nothing.
     */
    method Live(calls: seq<Call>)
      requires Valid()
      modifies this
      ensures Valid() && Owed(log) == Some([]) && old(log) <= log
    {
      for i := 0 to |calls|
        invariant Valid() && old(log) <= log
      {
        match calls[i]
        case Launch(id, doOk, mainOk) =>
          var code := Execute(id, doOk, mainOk);
        case Poll(alive) =>
          var id := Running(alive);
        case End =>
          Terminate();
      }
      Terminate();
      ghost var ended := log;
      Terminate();
      assert log == ended;
    }
  }
}
