/** The process-supervisor bridge (app/lib/pm2Service.js): every instance runs
    as a pm2 process named after its subdomain, and starting, stopping and
    restarting it are short sequences of pm2 commands followed by a write of the
    row's `status`. pm2 itself is kept as the little it shows the bridge: the
    names it lists, which of them are online, the commands it was given, and
    whether it can be reached at all. */
module Supervisor {
  import opened Wrappers
  import opened Text
  import opened Values
  import opened Errors
  import opened Schema
  import opened Registry

  datatype Command =
    | List
    | Launch(name: string, dir: string)
    | Stop(name: string)
    | Delete(name: string)
    | Restart(name: string)
    | Describe(name: string)
    | Logs(name: string, lines: int)

  /** The arguments after `pm2`. */
  function CommandText(c: Command): string {
    match c
    case List => "list"
    case Launch(n, d) => "start npx --name " + n + " --cwd " + d + " -- directus start"
    case Stop(n) => "stop " + n
    case Delete(n) => "delete " + n
    case Restart(n) => "restart " + n
    case Describe(n) => "describe " + n
    case Logs(n, k) => "logs " + n + " --lines " + IntToString(k) + " --nostream"
  }

  /** The shell line run for a command: pm2 through npx, with its home directory. */
  function FullCommand(home: string, c: Command): string {
    "PM2_HOME=" + home + " npx pm2 " + CommandText(c)
  }

  /** pm2's complaint about a name it does not list. */
  function NotFound(name: string): string {
    "[PM2][ERROR] Process or Namespace " + name + " not found\n"
  }

  /** What pm2 shows the bridge. `down` holds pm2's error output when it cannot
      be reached, in which case every command fails with it. */
  datatype Manager = Manager(listed: seq<string>, online: set<string>, issued: seq<Command>, down: Option<string>)

  /** The output of `pm2 list`: one line per listed process. */
  function ListText(listed: seq<string>): string {
    JoinLines(listed)
  }

  /** The listed names without any process called `name`. */
  function Unlist(listed: seq<string>, name: string): (r: seq<string>)
    ensures forall n :: n in r <==> n in listed && n != name
    decreases |listed|
  {
    if |listed| == 0 then []
    else if listed[0] == name then Unlist(listed[1..], name)
    else [listed[0]] + Unlist(listed[1..], name)
  }

  /** A command's effect on pm2 and its standard output, or the message the
      promise rejects with. */
  datatype Exec = Exec(pm2: Manager, out: Result<string, string>)

  /** Runs one command. `report` is what pm2 prints for `describe` and `logs`
      (or its error output when that command fails); no other command reads it. */
  function Run(m: Manager, home: string, c: Command, report: Result<string, string>): (x: Exec)
    ensures x.pm2.issued == m.issued + [c] && x.pm2.down == m.down
    ensures m.down.Some? ==> x == Exec(m.(issued := m.issued + [c]), Err(CommandFailed(FullCommand(home, c), m.down.value)))
  {
    var full := FullCommand(home, c);
    var m := m.(issued := m.issued + [c]);
    if m.down.Some? then Exec(m, Err(CommandFailed(full, m.down.value)))
    else match c
      case List => Exec(m, Ok(ListText(m.listed)))
      case Launch(n, _) => Exec(m.(listed := m.listed + [n], online := m.online + {n}), Ok(""))
      case Stop(n) =>
        if n !in m.listed then Exec(m, Err(CommandFailed(full, NotFound(n))))
        else Exec(m.(online := m.online - {n}), Ok(""))
      case Delete(n) =>
        if n !in m.listed then Exec(m, Err(CommandFailed(full, NotFound(n))))
        else Exec(m.(listed := Unlist(m.listed, n), online := m.online - {n}), Ok(""))
      case Restart(n) =>
        if n !in m.listed then Exec(m, Err(CommandFailed(full, NotFound(n))))
        else Exec(m.(online := m.online + {n}), Ok(""))
      case Describe(_) =>
        Exec(m, if report.Ok? then report else Err(CommandFailed(full, report.error)))
      case Logs(_, _) =>
        Exec(m, if report.Ok? then report else Err(CommandFailed(full, report.error)))
  }

  /** The store and pm2 together. */
  datatype Hub = Hub(store: Store, pm2: Manager)

  /** A call's effect on both, together with what it returned or threw. */
  datatype Answer<T> = Answer(hub: Hub, result: Result<T, Error>)

  /** The pm2 home directory and the directory holding the instances' working
      directories (environment settings of the service). */
  datatype Paths = Paths(pm2Home: string, instancesDir: string)

  /** `getInstancePath(id)`. */
  function InstancePath(p: Paths, id: string): string {
    p.instancesDir + "/" + id
  }

  /** The pm2 process name of an instance. */
  function AppName(row: Instance): (name: string)
    ensures |name| >= 9 && name[..9] == "directus-" && name[9..] == CellString(row.subdomain)
  {
    "directus-" + CellString(row.subdomain)
  }

  const StartPrefix: string := "Failed to start instance: "
  const StopPrefix: string := "Failed to stop instance: "
  const RestartPrefix: string := "Failed to restart instance: "

  /** The update body `{ status }`. */
  function StatusBody(status: string): Body {
    [("status", Str(status))]
  }

  /** The status write that ends a successful start, stop or restart; it runs
      inside the same `try`, so an error it raises is reported with the
      operation's prefix. */
  function Settle(s: Store, m: Manager, id: string, status: string, now: string, prefix: string, done: string): (a: Answer<string>)
    ensures a.hub.pm2 == m
    ensures a.result.Err? ==> a.hub.store == s
  {
    var u := UpdateInstance(s, id, StatusBody(status), now);
    match u.result
    case Err(e) => Answer(Hub(s, m), Err(Wrapped(prefix, e)))
    case Ok(_) => Answer(Hub(u.store, m), Ok(done))
  }

  /** A failed pm2 command inside one of the three operations. */
  function Failed(s: Store, m: Manager, prefix: string, message: string): (a: Answer<string>)
    ensures a.hub == Hub(s, m) && a.result.Err?
  {
    Answer(Hub(s, m), Err(Wrapped(prefix, ToolFailed(message))))
  }

  /** "Already listed", decided on the list output by exact name. */
  predicate AlreadyListed(out: string, name: string) {
    name in SplitLines(out)
  }

  /** "Already listed" as the source decides it: the name occurs anywhere in
      the list output. */
  predicate AlreadyListedAsWritten(out: string, name: string) {
    Contains(out, name)
  }

  /** The part of `startInstance` after the list: restart the listed process or
      launch a new one in the instance's directory, then mark the row running. */
  function StartFrom(s: Store, m: Manager, p: Paths, id: string, row: Instance, now: string, restart: bool): (a: Answer<string>)
    ensures a.result.Err? ==> a.hub.store == s
  {
    var name := AppName(row);
    var x := Run(m, p.pm2Home, if restart then Restart(name) else Launch(name, InstancePath(p, id)), Ok(""));
    match x.out
    case Err(msg) => Failed(s, x.pm2, StartPrefix, msg)
    case Ok(_) => Settle(s, x.pm2, id, "running", now, StartPrefix, "Instance started successfully")
  }

  /** `startInstance(id)`, deciding "already listed" by exact name. */
  function Start(h: Hub, p: Paths, id: string, now: string): (a: Answer<string>)
    ensures a.result.Err? ==> a.hub.store == h.store
  {
    match Find(h.store.rows, id)
    case None => Answer(h, Err(InstanceNotFound))
    case Some(row) =>
      var l := Run(h.pm2, p.pm2Home, List, Ok(""));
      match l.out
      case Err(msg) => Failed(h.store, l.pm2, StartPrefix, msg)
      case Ok(out) => StartFrom(h.store, l.pm2, p, id, row, now, AlreadyListed(out, AppName(row)))
  }

  /** `startInstance(id)` as the source writes it, with the substring test. */
  function StartAsWritten(h: Hub, p: Paths, id: string, now: string): (a: Answer<string>)
    ensures a.result.Err? ==> a.hub.store == h.store
  {
    match Find(h.store.rows, id)
    case None => Answer(h, Err(InstanceNotFound))
    case Some(row) =>
      var l := Run(h.pm2, p.pm2Home, List, Ok(""));
      match l.out
      case Err(msg) => Failed(h.store, l.pm2, StartPrefix, msg)
      case Ok(out) => StartFrom(h.store, l.pm2, p, id, row, now, AlreadyListedAsWritten(out, AppName(row)))
  }

  /** `stopInstance(id)`: stop, then delete from pm2's list, then mark the row
      stopped. */
  function StopInstance(h: Hub, p: Paths, id: string, now: string): (a: Answer<string>)
    ensures a.result.Err? ==> a.hub.store == h.store
  {
    match Find(h.store.rows, id)
    case None => Answer(h, Err(InstanceNotFound))
    case Some(row) =>
      var name := AppName(row);
      var x := Run(h.pm2, p.pm2Home, Stop(name), Ok(""));
      if x.out.Err? then Failed(h.store, x.pm2, StopPrefix, x.out.error)
      else
        var y := Run(x.pm2, p.pm2Home, Delete(name), Ok(""));
        if y.out.Err? then Failed(h.store, y.pm2, StopPrefix, y.out.error)
        else Settle(h.store, y.pm2, id, "stopped", now, StopPrefix, "Instance stopped successfully")
  }

  /** `restartInstance(id)`: restart, then mark the row running. */
  function RestartInstance(h: Hub, p: Paths, id: string, now: string): (a: Answer<string>)
    ensures a.result.Err? ==> a.hub.store == h.store
  {
    match Find(h.store.rows, id)
    case None => Answer(h, Err(InstanceNotFound))
    case Some(row) =>
      var x := Run(h.pm2, p.pm2Home, Restart(AppName(row)), Ok(""));
      match x.out
      case Err(msg) => Failed(h.store, x.pm2, RestartPrefix, msg)
      case Ok(_) => Settle(h.store, x.pm2, id, "running", now, RestartPrefix, "Instance restarted successfully")
  }

  /** `getInstanceStatus(id)`: pm2's description of the process, or null
      (`None`) when pm2 fails. */
  function InstanceStatus(h: Hub, p: Paths, id: string, report: Result<string, string>): Answer<Option<string>> {
    match Find(h.store.rows, id)
    case None => Answer(h, Err(InstanceNotFound))
    case Some(row) =>
      var x := Run(h.pm2, p.pm2Home, Describe(AppName(row)), report);
      Answer(h.(pm2 := x.pm2), Ok(if x.out.Ok? then Some(x.out.value) else None))
  }

  /** The number of log lines asked for when the caller gives none. */
  const DefaultLogLines: int := 50

  /** `getInstanceLogs(id, lines)`: the log text, or `''` when pm2 fails. */
  function InstanceLogs(h: Hub, p: Paths, id: string, lines: int, report: Result<string, string>): Answer<string> {
    match Find(h.store.rows, id)
    case None => Answer(h, Err(InstanceNotFound))
    case Some(row) =>
      var x := Run(h.pm2, p.pm2Home, Logs(AppName(row), lines), report);
      Answer(h.(pm2 := x.pm2), Ok(if x.out.Ok? then x.out.value else ""))
  }

  /** `listAll()`: the list output, or `''` when pm2 fails. */
  function ListAll(m: Manager, home: string): (Manager, string) {
    var x := Run(m, home, List, Ok(""));
    (x.pm2, if x.out.Ok? then x.out.value else "")
  }

  // ---------------------------------------------------------------------------
  // Properties

  /** Start, stop, restart, status and logs on an unknown id throw `Instance not
      found` before any pm2 command, and change nothing. */
  lemma UnknownIdIssuesNothing(h: Hub, p: Paths, id: string, now: string, lines: int, report: Result<string, string>)
    requires forall o :: o in h.store.rows ==> o.id != id
    ensures Start(h, p, id, now) == Answer(h, Err(InstanceNotFound))
    ensures StopInstance(h, p, id, now) == Answer(h, Err(InstanceNotFound))
    ensures RestartInstance(h, p, id, now) == Answer(h, Err(InstanceNotFound))
    ensures InstanceStatus(h, p, id, report) == Answer(h, Err(InstanceNotFound))
    ensures InstanceLogs(h, p, id, lines, report) == Answer(h, Err(InstanceNotFound))
  {
  }

  /** Two rows with different text subdomains run under different process names. */
  lemma AppNamesDistinct(a: Instance, b: Instance)
    requires a.subdomain.SqlText? && b.subdomain.SqlText? && a.subdomain != b.subdomain
    ensures AppName(a) != AppName(b)
  {
    assert AppName(a)[9..] == a.subdomain.t;
    assert AppName(b)[9..] == b.subdomain.t;
  }

  /** Writing a status to a stored row always succeeds: it changes that row's
      `status` and `updated_at` and nothing else, and the table stays well formed. */
  lemma StatusWrite(s: Store, id: string, status: string, now: string)
    requires Wf(s.rows) && Find(s.rows, id).Some?
    ensures var i := IndexOf(s.rows, id).value;
      var row' := s.rows[i].(status := SqlText(status), updatedAt := SqlText(now));
      && UpdateInstance(s, id, StatusBody(status), now) == Reply(s.(rows := s.rows[i := row']), Ok(row'))
      && Wf(s.rows[i := row'])
  {
    var i := IndexOf(s.rows, id).value;
    var row := s.rows[i];
    var row' := row.(status := SqlText(status), updatedAt := SqlText(now));
    StatusBodyChecks(status);
    StatusAssign(row, status, now);
    StatusFits(s.rows, i, row, status, now);
    UpdateApplies(s, id, StatusBody(status), now, i, row');
  }

  /** The status body passes the update's checks: one known, bindable column. */
  lemma StatusBodyChecks(status: string)
    ensures var asg := StatusBody(status);
      && Assignments(asg) == asg && |asg| == 1
      && UnknownKey(asg) == None
      && forall j :: 0 <= j < |asg| ==> Bindable(asg[j].1)
  {
  }

  /** A new status and timestamp keep the row within the constraints. */
  lemma StatusFits(rows: seq<Instance>, i: nat, row: Instance, status: string, now: string)
    requires Wf(rows) && i < |rows| && rows[i] == row
    ensures var row' := row.(status := SqlText(status), updatedAt := SqlText(now));
      Fits(Without(rows, i), row') && Wf(rows[i := row'])
  {
    var row' := row.(status := SqlText(status), updatedAt := SqlText(now));
    assert NotNullOk(rows[i]);
    FitsInPlace(rows, i, row');
    WfReplace(rows, i, row');
  }

  lemma ResolvedStatus(status: string)
    ensures Resolved(StatusBody(status)) == [(Status, SqlText(status))]
  {
    assert ColumnNamed("status") == Some(Status);
  }

  lemma AssignTwo(row: Instance, st: Cell, at: Cell)
    ensures Assign(row, [(Status, st), (UpdatedAt, at)]) == row.(status := st, updatedAt := at)
  {
    AssignPair(row, Status, st, UpdatedAt, at);
    var once := WithField(row, Status, st);
    assert once == row.(status := st);
    assert WithField(once, UpdatedAt, at) == once.(updatedAt := at);
  }

  lemma StatusAssign(row: Instance, status: string, now: string)
    ensures Assign(row, Resolved(StatusBody(status)) + [(UpdatedAt, SqlText(now))])
      == row.(status := SqlText(status), updatedAt := SqlText(now))
  {
    var sets := Resolved(StatusBody(status)) + [(UpdatedAt, SqlText(now))];
    ResolvedStatus(status);
    assert sets == [(Status, SqlText(status)), (UpdatedAt, SqlText(now))];
    AssignTwo(row, SqlText(status), SqlText(now));
  }

  /** The process name, decided by exact name on the list output, is listed
      exactly when pm2 lists it. An empty list prints nothing, which holds
      only the empty name. */
  lemma AlreadyListedIff(listed: seq<string>, name: string)
    requires forall i :: 0 <= i < |listed| ==> NoNewline(listed[i])
    requires |listed| >= 1 || name != ""
    ensures AlreadyListed(ListText(listed), name) <==> name in listed
  {
    if |listed| == 0 {
      assert SplitLines("") == [""];
    } else {
      SplitJoinLines(listed);
    }
  }

  /** With pm2 reachable, starting a stored instance whose process name and
      pm2's names are single lines always succeeds: a listed process is
      restarted, an unlisted one launched in the instance's directory, either
      way it ends up listed and online, and the row becomes `running`. */
  lemma StartSucceeds(h: Hub, p: Paths, id: string, now: string)
    requires Wf(h.store.rows) && h.pm2.down.None? && Find(h.store.rows, id).Some?
    requires forall i :: 0 <= i < |h.pm2.listed| ==> NoNewline(h.pm2.listed[i])
    ensures var row := Find(h.store.rows, id).value;
      var name := AppName(row);
      var i := IndexOf(h.store.rows, id).value;
      var a := Start(h, p, id, now);
      && a.result == Ok("Instance started successfully")
      && name in a.hub.pm2.listed && name in a.hub.pm2.online
      && a.hub.pm2.issued == h.pm2.issued + [List, if name in h.pm2.listed then Restart(name) else Launch(name, InstancePath(p, id))]
      && a.hub.store.rows == h.store.rows[i := row.(status := SqlText("running"), updatedAt := SqlText(now))]
      && a.hub.store.dirs == h.store.dirs
      && Wf(a.hub.store.rows)
  {
    var row := Find(h.store.rows, id).value;
    var m := h.pm2.(issued := h.pm2.issued + [List]);
    StartAfterList(h, p, id, now);
    StartFromSucceeds(h.store, m, p, id, row, now, AppName(row) in h.pm2.listed);
  }

  /** With pm2 reachable, the exact-name start lists the processes and then
      restarts the instance's process exactly when pm2 lists it. */
  lemma StartAfterList(h: Hub, p: Paths, id: string, now: string)
    requires h.pm2.down.None? && Find(h.store.rows, id).Some?
    requires forall i :: 0 <= i < |h.pm2.listed| ==> NoNewline(h.pm2.listed[i])
    ensures var row := Find(h.store.rows, id).value;
      Start(h, p, id, now)
        == StartFrom(h.store, h.pm2.(issued := h.pm2.issued + [List]), p, id, row, now, AppName(row) in h.pm2.listed)
  {
    var row := Find(h.store.rows, id).value;
    var l := Run(h.pm2, p.pm2Home, List, Ok(""));
    assert l.out == Ok(ListText(h.pm2.listed)) && l.pm2 == h.pm2.(issued := h.pm2.issued + [List]);
    AlreadyListedIff(h.pm2.listed, AppName(row));
  }

  /** Restarting a listed process or launching an unlisted one, with pm2
      reachable, succeeds and marks the row running. */
  lemma StartFromSucceeds(s: Store, m: Manager, p: Paths, id: string, row: Instance, now: string, restart: bool)
    requires Wf(s.rows) && m.down.None? && Find(s.rows, id) == Some(row)
    requires restart <==> AppName(row) in m.listed
    ensures var name := AppName(row);
      var i := IndexOf(s.rows, id).value;
      var a := StartFrom(s, m, p, id, row, now, restart);
      && a.result == Ok("Instance started successfully")
      && name in a.hub.pm2.listed && name in a.hub.pm2.online
      && a.hub.pm2.issued == m.issued + [if restart then Restart(name) else Launch(name, InstancePath(p, id))]
      && a.hub.store.rows == s.rows[i := row.(status := SqlText("running"), updatedAt := SqlText(now))]
      && a.hub.store.dirs == s.dirs
      && Wf(a.hub.store.rows)
  {
    var name := AppName(row);
    var x := Run(m, p.pm2Home, if restart then Restart(name) else Launch(name, InstancePath(p, id)), Ok(""));
    assert x.out.Ok? && name in x.pm2.listed && name in x.pm2.online;
    SettleWrites(s, x.pm2, id, "running", now, StartPrefix, "Instance started successfully");
  }

  /** The source's start goes wrong whenever the list output contains the
      process name without pm2 listing that name (another name extends it):
      it issues `restart` for a process pm2 does not have and fails, while the
      exact-name start launches the process. */
  lemma StartAsWrittenMisfires(h: Hub, p: Paths, id: string, now: string)
    requires Wf(h.store.rows) && h.pm2.down.None? && Find(h.store.rows, id).Some?
    requires forall i :: 0 <= i < |h.pm2.listed| ==> NoNewline(h.pm2.listed[i])
    requires var name := AppName(Find(h.store.rows, id).value);
      Contains(ListText(h.pm2.listed), name) && name !in h.pm2.listed
    ensures var name := AppName(Find(h.store.rows, id).value);
      var a := StartAsWritten(h, p, id, now);
      && a.result == Err(Wrapped(StartPrefix, ToolFailed(CommandFailed(FullCommand(p.pm2Home, Restart(name)), NotFound(name)))))
      && a.hub.pm2.issued == h.pm2.issued + [List, Restart(name)]
      && a.hub.store == h.store
      && Start(h, p, id, now).result == Ok("Instance started successfully")
  {
    StartSucceeds(h, p, id, now);
    AsWrittenRestarts(h, p, id, now);
  }

  /** The source's start on a list output that contains the name: it goes
      straight to `restart`, which fails when pm2 does not list that name. */
  lemma AsWrittenRestarts(h: Hub, p: Paths, id: string, now: string)
    requires h.pm2.down.None? && Find(h.store.rows, id).Some?
    requires var name := AppName(Find(h.store.rows, id).value);
      Contains(ListText(h.pm2.listed), name) && name !in h.pm2.listed
    ensures var name := AppName(Find(h.store.rows, id).value);
      var a := StartAsWritten(h, p, id, now);
      && a.result == Err(Wrapped(StartPrefix, ToolFailed(CommandFailed(FullCommand(p.pm2Home, Restart(name)), NotFound(name)))))
      && a.hub.pm2.issued == h.pm2.issued + [List, Restart(name)]
      && a.hub.store == h.store
  {
    var row := Find(h.store.rows, id).value;
    var name := AppName(row);
    var l := Run(h.pm2, p.pm2Home, List, Ok(""));
    assert l.out == Ok(ListText(h.pm2.listed)) && l.pm2 == h.pm2.(issued := h.pm2.issued + [List]);
    assert StartAsWritten(h, p, id, now) == StartFrom(h.store, l.pm2, p, id, row, now, true);
    var x := Run(l.pm2, p.pm2Home, Restart(name), Ok(""));
    assert x.out == Err(CommandFailed(FullCommand(p.pm2Home, Restart(name)), NotFound(name)));
    assert x.pm2.issued == h.pm2.issued + [List, Restart(name)];
  }

  /** Such a list exists: pm2 lists only `directus-ab`, and the instance with
      subdomain `a` runs as `directus-a`, which the output contains. */
  lemma NameInsideAnother()
    ensures var row := DefaultRow("i1", "t0").(subdomain := SqlText("a"));
      Contains(ListText(["directus-ab"]), AppName(row)) && AppName(row) !in ["directus-ab"]
  {
    var row := DefaultRow("i1", "t0").(subdomain := SqlText("a"));
    assert AppName(row) == "directus-a";
    ContainsAt("directus-ab", "directus-a", 0);
  }

  /** Stopping a stored instance whose process pm2 lists, with pm2 reachable,
      succeeds: the process is stopped and removed from the list, other names
      stay listed, and the row becomes `stopped`. */
  lemma StopSucceeds(h: Hub, p: Paths, id: string, now: string)
    requires Wf(h.store.rows) && Find(h.store.rows, id).Some?
    requires h.pm2.down.None? && AppName(Find(h.store.rows, id).value) in h.pm2.listed
    ensures var row := Find(h.store.rows, id).value;
      var name := AppName(row);
      var i := IndexOf(h.store.rows, id).value;
      var a := StopInstance(h, p, id, now);
      && a.result == Ok("Instance stopped successfully")
      && name !in a.hub.pm2.listed && name !in a.hub.pm2.online
      && (forall n :: n != name ==> (n in a.hub.pm2.listed <==> n in h.pm2.listed))
      && a.hub.pm2.issued == h.pm2.issued + [Stop(name), Delete(name)]
      && a.hub.store.rows == h.store.rows[i := row.(status := SqlText("stopped"), updatedAt := SqlText(now))]
  {
    var name := AppName(Find(h.store.rows, id).value);
    var x := Run(h.pm2, p.pm2Home, Stop(name), Ok(""));
    assert x.out.Ok? && x.pm2.listed == h.pm2.listed;
    var y := Run(x.pm2, p.pm2Home, Delete(name), Ok(""));
    assert y.out.Ok? && y.pm2.listed == Unlist(h.pm2.listed, name);
    SettleWrites(h.store, y.pm2, id, "stopped", now, StopPrefix, "Instance stopped successfully");
    assert StopInstance(h, p, id, now) == Settle(h.store, y.pm2, id, "stopped", now, StopPrefix, "Instance stopped successfully");
  }

  /** A stop of a stored instance either leaves the store as it was or marks
      that one row stopped. */
  lemma StopStore(h: Hub, p: Paths, id: string, now: string)
    requires Wf(h.store.rows) && Find(h.store.rows, id).Some?
    ensures var i := IndexOf(h.store.rows, id).value;
      var a := StopInstance(h, p, id, now);
      || a.hub.store == h.store
      || a.hub.store == h.store.(rows := h.store.rows[i := h.store.rows[i].(status := SqlText("stopped"), updatedAt := SqlText(now))])
  {
    if h.pm2.down.None? && AppName(Find(h.store.rows, id).value) in h.pm2.listed {
      StopSucceeds(h, p, id, now);
    } else {
      StopFails(h, p, id, now);
    }
  }

  /** When pm2 is down or does not list the process, stopping fails after the
      `stop` command alone: the row is left as it was and the error carries the
      stop prefix. */
  lemma StopFails(h: Hub, p: Paths, id: string, now: string)
    requires Find(h.store.rows, id).Some?
    requires h.pm2.down.Some? || AppName(Find(h.store.rows, id).value) !in h.pm2.listed
    ensures var name := AppName(Find(h.store.rows, id).value);
      var a := StopInstance(h, p, id, now);
      && a.hub.store == h.store
      && a.result.Err? && a.result.error.Wrapped? && a.result.error.prefix == StopPrefix
      && a.hub.pm2.issued == h.pm2.issued + [Stop(name)]
      && a.hub.pm2.listed == h.pm2.listed
  {
  }

  /** Restarting a stored instance succeeds exactly when pm2 is reachable and
      lists its process; then the process is online and the row `running`. */
  lemma RestartEffect(h: Hub, p: Paths, id: string, now: string)
    requires Wf(h.store.rows) && Find(h.store.rows, id).Some?
    ensures var row := Find(h.store.rows, id).value;
      var name := AppName(row);
      var i := IndexOf(h.store.rows, id).value;
      var a := RestartInstance(h, p, id, now);
      && (a.result.Ok? <==> h.pm2.down.None? && name in h.pm2.listed)
      && a.hub.pm2.issued == h.pm2.issued + [Restart(name)]
      && a.hub.pm2.listed == h.pm2.listed
      && (a.result.Ok? ==>
            && a.result.value == "Instance restarted successfully"
            && name in a.hub.pm2.online
            && a.hub.store.rows == h.store.rows[i := row.(status := SqlText("running"), updatedAt := SqlText(now))])
      && (a.result.Err? ==> a.hub.store == h.store && a.result.error == Wrapped(RestartPrefix, ToolFailed(
            CommandFailed(FullCommand(p.pm2Home, Restart(name)),
                          if h.pm2.down.Some? then h.pm2.down.value else NotFound(name)))))
  {
    var row := Find(h.store.rows, id).value;
    var name := AppName(row);
    var x := Run(h.pm2, p.pm2Home, Restart(name), Ok(""));
    assert x.out.Ok? <==> h.pm2.down.None? && name in h.pm2.listed;
    if x.out.Ok? {
      SettleWrites(h.store, x.pm2, id, "running", now, RestartPrefix, "Instance restarted successfully");
      assert RestartInstance(h, p, id, now)
          == Settle(h.store, x.pm2, id, "running", now, RestartPrefix, "Instance restarted successfully");
    } else {
      assert RestartInstance(h, p, id, now) == Failed(h.store, x.pm2, RestartPrefix, x.out.error);
    }
  }

  /** Settling a stored row writes its status and answers with the success text. */
  lemma SettleWrites(s: Store, m: Manager, id: string, status: string, now: string, prefix: string, done: string)
    requires Wf(s.rows) && Find(s.rows, id).Some?
    ensures var i := IndexOf(s.rows, id).value;
      var row' := s.rows[i].(status := SqlText(status), updatedAt := SqlText(now));
      && Settle(s, m, id, status, now, prefix, done) == Answer(Hub(s.(rows := s.rows[i := row']), m), Ok(done))
      && Wf(s.rows[i := row'])
  {
    StatusWrite(s, id, status, now);
  }

  /** With pm2 unreachable, start, stop and restart all throw their prefixed
      error and leave every row as it was. */
  lemma ManagerDownKeepsRows(h: Hub, p: Paths, id: string, now: string)
    requires h.pm2.down.Some? && Find(h.store.rows, id).Some?
    ensures var e := h.pm2.down.value;
      && Start(h, p, id, now).result == Err(Wrapped(StartPrefix, ToolFailed(CommandFailed(FullCommand(p.pm2Home, List), e))))
      && StopInstance(h, p, id, now).result.Err? && StopInstance(h, p, id, now).hub.store == h.store
      && RestartInstance(h, p, id, now).result.Err? && RestartInstance(h, p, id, now).hub.store == h.store
      && Start(h, p, id, now).hub.store == h.store
  {
  }

  /** The read-only queries never throw for a stored instance: status is pm2's
      description or null, logs are pm2's text or `''`, and neither touches the
      rows or pm2's list. */
  lemma QueriesNeverThrow(h: Hub, p: Paths, id: string, lines: int, report: Result<string, string>)
    requires Find(h.store.rows, id).Some?
    ensures var name := AppName(Find(h.store.rows, id).value);
      var st := InstanceStatus(h, p, id, report);
      var lg := InstanceLogs(h, p, id, lines, report);
      && st.result == Ok(if h.pm2.down.None? && report.Ok? then Some(report.value) else None)
      && lg.result == Ok(if h.pm2.down.None? && report.Ok? then report.value else "")
      && st.hub.store == h.store && lg.hub.store == h.store
      && st.hub.pm2.listed == h.pm2.listed && lg.hub.pm2.listed == h.pm2.listed
      && st.hub.pm2.issued == h.pm2.issued + [Describe(name)]
      && lg.hub.pm2.issued == h.pm2.issued + [Logs(name, lines)]
  {
  }

  /** The default logs query asks pm2 for the last 50 lines without following. */
  lemma DefaultLogsCommand(name: string)
    ensures CommandText(Logs(name, DefaultLogLines)) == "logs " + name + " --lines 50 --nostream"
  {
    assert IntToString(50) == "50" by {
      assert NatToString(50) == NatToString(5) + [DigitChar(0)];
    }
  }

  /** `listAll` returns the list output, or `''` when pm2 cannot be reached;
      it changes nothing in pm2. */
  lemma ListAllEffect(m: Manager, home: string)
    ensures var (m', out) := ListAll(m, home);
      && out == (if m.down.None? then ListText(m.listed) else "")
      && m' == m.(issued := m.issued + [List])
  {
  }
}
