/** The HTTP routes of app/server.js that change instances: the create and
    clone progress streams, and the update, delete, start, stop, restart and
    MCP handlers, each as the sequence of service calls it makes. The world a
    handler sees is the store with pm2, the file-watch coordinator, and the
    Caddyfile on disk. Every handler answers with a status and either its
    result or `error.message`; the two streaming handlers answer with the
    events they write instead. */
module Server {
  import opened Wrappers
  import opened Text
  import opened Values
  import opened Errors
  import opened Schema
  import opened Registry
  import opened Json
  import Provision
  import Supervisor
  import Watcher
  import Caddy

  // ---------------------------------------------------------------------------
  // Event stream

  /** One event of a create or clone stream: `{ step, message, progress }`, with
      the instance on the final `complete` event. */
  datatype Notice = Notice(step: string, message: string, progress: int, instance: Option<Instance>)

  /** The events that end a stream for its reader. */
  predicate Terminal(n: Notice) {
    n.step == "complete" || n.step == "error"
  }

  /** The columns of a row as `SELECT *` returns them, in table order. */
  const RowKeys: seq<string> := [
    "id", "name", "subdomain", "port", "custom_domain",
    "database_type", "database_host", "database_port", "database_name", "database_user", "database_password",
    "admin_email", "admin_password", "api_key", "mcp_enabled", "status", "auto_reload",
    "created_at", "updated_at"]

  function RowCells(r: Instance): (cs: seq<Cell>)
    ensures |cs| == |RowKeys|
  {
    [SqlText(r.id), r.name, r.subdomain, r.port, r.customDomain,
     r.databaseType, r.databaseHost, r.databasePort, r.databaseName, r.databaseUser, r.databasePassword,
     r.adminEmail, r.adminPassword, r.apiKey, r.mcpEnabled, r.status, r.autoReload,
     r.createdAt, r.updatedAt]
  }

  /** The row a list of column values describes; the key must be text. */
  function RowOf(cs: seq<Cell>): (r: Option<Instance>)
    requires |cs| == |RowKeys|
    ensures r.Some? ==> RowCells(r.value) == cs
  {
    if !cs[0].SqlText? then None
    else Some(Instance(cs[0].t, cs[1], cs[2], cs[3], cs[4], cs[5], cs[6], cs[7], cs[8], cs[9], cs[10],
                       cs[11], cs[12], cs[13], cs[14], cs[15], cs[16], cs[17], cs[18]))
  }

  /** `JSON.stringify` of a row. */
  function InstanceJson(r: Instance): (t: string)
    ensures Printable(t)
  {
    Object(RowKeys, RowCells(r))
  }

  const NoticeKeys: seq<string> := ["step", "message", "progress"]

  function NoticeCells(n: Notice): seq<Cell> {
    [SqlText(n.step), SqlText(n.message), SqlInt(n.progress)]
  }

  /** What follows the three fixed members: the closing brace, or the instance
      member first. */
  const InstanceTag: string := ",\"instance\":"

  function NoticeTail(n: Notice): (r: string)
    ensures Printable(r)
  {
    match n.instance
    case None => "}"
    case Some(row) =>
      LiteralsPrintable();
      PrintableAppend(InstanceTag, InstanceJson(row));
      PrintableAppend(InstanceTag + InstanceJson(row), "}");
      InstanceTag + InstanceJson(row) + "}"
  }

  lemma LiteralsPrintable()
    ensures Printable(InstanceTag) && Printable("}") && Printable("{") && Printable("data: ")
  {
  }

  /** `JSON.stringify({ step, message, progress })`, or with `instance` last. */
  function NoticeJson(n: Notice): (r: string)
    ensures Printable(r)
  {
    var head := "{" + Members(NoticeKeys, NoticeCells(n));
    LiteralsPrintable();
    PrintableAppend("{", Members(NoticeKeys, NoticeCells(n)));
    PrintableAppend(head, NoticeTail(n));
    head + NoticeTail(n)
  }

  /** Reads a whole event object back. */
  function ReadNotice(t: string): Option<Notice> {
    if |t| == 0 || t[0] != '{' then None
    else match ReadMembers(t[1..], NoticeKeys)
      case None => None
      case Some((cs, rest)) =>
        if !(cs[0].SqlText? && cs[1].SqlText? && cs[2].SqlInt?) then None
        else if rest == "}" then Some(Notice(cs[0].t, cs[1].t, cs[2].i, None))
        else if !IsPrefix(InstanceTag, rest) then None
        else match ReadObject(rest[|InstanceTag|..], RowKeys)
          case None => None
          case Some((rc, after)) =>
            if after != "}" then None
            else match RowOf(rc)
              case None => None
              case Some(r) => Some(Notice(cs[0].t, cs[1].t, cs[2].i, Some(r)))
  }

  /** `res.write(\`data: ${JSON.stringify(...)}\n\n\`)`. */
  function Frame(n: Notice): string {
    "data: " + NoticeJson(n) + "\n\n"
  }

  /** Everything a handler writes to the response. */
  function Stream(ns: seq<Notice>): string
    decreases |ns|
  {
    if |ns| == 0 then "" else Frame(ns[0]) + Stream(ns[1..])
  }

  /** The JSON text of each event. */
  function Jsons(ns: seq<Notice>): (js: seq<string>)
    ensures |js| == |ns|
    ensures forall i :: 0 <= i < |ns| ==> js[i] == NoticeJson(ns[i])
  {
    seq(|ns|, i requires 0 <= i < |ns| => NoticeJson(ns[i]))
  }

  /** A `data: ` line for each text, each followed by a blank line. */
  function DataLines(js: seq<string>): seq<string>
    decreases |js|
  {
    if |js| == 0 then [] else ["data: " + js[0], ""] + DataLines(js[1..])
  }

  /** The stream's lines: each event's data line and the blank line after it. */
  function FrameLines(ns: seq<Notice>): seq<string> {
    DataLines(Jsons(ns))
  }

  /** A reader of the framing: split into lines, keep the `data: ` lines and
      parse what follows the prefix. An unreadable data line fails the read. */
  function DataNotices(lines: seq<string>): Option<seq<Notice>>
    decreases |lines|
  {
    if |lines| == 0 then Some([])
    else if !IsPrefix("data: ", lines[0]) then DataNotices(lines[1..])
    else match ReadNotice(lines[0][6..])
      case None => None
      case Some(n) =>
        match DataNotices(lines[1..])
        case None => None
        case Some(more) => Some([n] + more)
  }

  function ReadStream(text: string): Option<seq<Notice>> {
    DataNotices(SplitLines(text))
  }

  /** The index of the first event that ends the stream for its reader. */
  function FirstTerminal(ns: seq<Notice>): (k: nat)
    ensures k <= |ns|
    ensures forall i :: 0 <= i < k ==> !Terminal(ns[i])
    ensures k < |ns| ==> Terminal(ns[k])
    decreases |ns|
  {
    if |ns| == 0 || Terminal(ns[0]) then 0 else 1 + FirstTerminal(ns[1..])
  }

  /** A row reads back from its column values. */
  lemma RowOfCells(r: Instance)
    ensures RowOf(RowCells(r)) == Some(r)
  {
  }

  /** What follows an object's opening brace. */
  lemma AfterBrace(m: string, tail: string)
    ensures ("{" + m + tail)[1..] == m + tail
  {
  }

  /** A tagged member followed by a closing brace. */
  lemma AfterTag(tag: string, obj: string)
    ensures var t := tag + obj + "}";
      && IsPrefix(tag, t) && t[|tag|..] == obj + "}"
  {
    var t := tag + obj + "}";
    assert t[..|tag|] == tag;
  }

  /** The tail starts with a character that cannot continue a number. */
  lemma NoticeTailStart(n: Notice)
    ensures EndsNumber(NoticeTail(n))
    ensures n.instance.Some? ==> NoticeTail(n) != "}"
  {
    if n.instance.Some? {
      var j := InstanceJson(n.instance.value);
      assert InstanceTag[0] == ',';
      assert (InstanceTag + j + "}")[0] == ',';
    }
  }

  /** The instance member and closing brace read back as the row. */
  lemma ReadInstanceTail(row: Instance)
    ensures var tail := InstanceTag + InstanceJson(row) + "}";
      && IsPrefix(InstanceTag, tail)
      && ReadObject(tail[|InstanceTag|..], RowKeys) == Some((RowCells(row), "}"))
  {
    AfterTag(InstanceTag, InstanceJson(row));
    ReadObjectJson(RowKeys, RowCells(row), "}");
  }

  /** The three fixed members read back, leaving the tail. */
  lemma ReadNoticeHead(n: Notice)
    ensures var t := NoticeJson(n);
      && |t| > 0 && t[0] == '{'
      && ReadMembers(t[1..], NoticeKeys) == Some((NoticeCells(n), NoticeTail(n)))
  {
    AfterBrace(Members(NoticeKeys, NoticeCells(n)), NoticeTail(n));
    NoticeTailStart(n);
    ReadMembersJson(NoticeKeys, NoticeCells(n), NoticeTail(n));
  }

  /** The reader accepts a text made of the fixed members and a tail it
      recognises. */
  lemma ReadNoticeFrom(t: string, n: Notice, tail: string)
    requires |t| > 0 && t[0] == '{'
    requires ReadMembers(t[1..], NoticeKeys) == Some((NoticeCells(n), tail))
    requires n.instance.None? ==> tail == "}"
    requires n.instance.Some? ==>
      && tail != "}" && IsPrefix(InstanceTag, tail)
      && ReadObject(tail[|InstanceTag|..], RowKeys) == Some((RowCells(n.instance.value), "}"))
    ensures ReadNotice(t) == Some(n)
  {
    if n.instance.Some? {
      RowOfCells(n.instance.value);
    }
  }

  /** Every event reads back from its JSON text. */
  lemma ReadNoticeJson(n: Notice)
    ensures ReadNotice(NoticeJson(n)) == Some(n)
  {
    ReadNoticeHead(n);
    NoticeTailStart(n);
    if n.instance.Some? {
      ReadInstanceTail(n.instance.value);
    }
    ReadNoticeFrom(NoticeJson(n), n, NoticeTail(n));
  }

  /** A data line and the blank line after it, each with its break. */
  lemma FrameUnlines(line: string)
    ensures Unlines([line, ""]) == line + "\n\n"
  {
    assert [line, ""][1..] == [""];
    assert [""][1..] == [];
  }

  /** The stream is its lines, each ended by a line break. */
  lemma {:induction false} StreamLines(ns: seq<Notice>)
    ensures Stream(ns) == Unlines(FrameLines(ns))
    decreases |ns|
  {
    if |ns| > 0 {
      var line := "data: " + NoticeJson(ns[0]);
      assert Jsons(ns)[1..] == Jsons(ns[1..]);
      assert FrameLines(ns) == [line, ""] + FrameLines(ns[1..]);
      StreamLines(ns[1..]);
      UnlinesAppend([line, ""], FrameLines(ns[1..]));
      FrameUnlines(line);
    }
  }

  /** One frame's two lines are read as its event, then the reading goes on. */
  lemma DataStep(j: string, n: Notice, more: seq<string>, ns: seq<Notice>)
    requires ReadNotice(j) == Some(n) && DataNotices(more) == Some(ns)
    ensures DataNotices(["data: " + j, ""] + more) == Some([n] + ns)
  {
    var ls := ["data: " + j, ""] + more;
    assert ls[0][..6] == "data: " && ls[0][6..] == j;
    assert ls[1..][0] == "" && ls[1..][1..] == more;
  }

  /** Texts that each read back as an event, framed as data lines and
      followed by the empty line after the last break, read back as those
      events. */
  lemma {:induction false} DataLinesRead(js: seq<string>, ns: seq<Notice>)
    requires |js| == |ns|
    requires forall i :: 0 <= i < |js| ==> ReadNotice(js[i]) == Some(ns[i])
    ensures DataNotices(DataLines(js) + [""]) == Some(ns)
    decreases |js|
  {
    if |js| == 0 {
      assert DataLines(js) + [""] == [""];
      assert DataNotices([""]) == DataNotices([""][1..]);
    } else {
      var pair := ["data: " + js[0], ""];
      AppendAssoc(pair, DataLines(js[1..]), [""]);
      DataLinesRead(js[1..], ns[1..]);
      DataStep(js[0], ns[0], DataLines(js[1..]) + [""], ns[1..]);
      assert [ns[0]] + ns[1..] == ns;
    }
  }

  /** A data line carries no line break. */
  lemma DataLineSingle(j: string)
    requires Printable(j)
    ensures NoNewline("data: " + j)
  {
    LiteralsPrintable();
    PrintableAppend("data: ", j);
    PrintableNoNewline("data: " + j);
  }

  /** Data lines of printable texts carry no line break. */
  lemma {:induction false} DataLinesSingle(js: seq<string>)
    requires forall i :: 0 <= i < |js| ==> Printable(js[i])
    ensures forall i :: 0 <= i < |DataLines(js)| ==> NoNewline(DataLines(js)[i])
    decreases |js|
  {
    if |js| > 0 {
      DataLineSingle(js[0]);
      assert NoNewline("");
      DataLinesSingle(js[1..]);
      LinesSingleAppend(["data: " + js[0], ""], DataLines(js[1..]));
    }
  }

  /** The framing is read back whole: the reader sees every event written, in
      order, and nothing else. */
  lemma ReadStreamFrames(ns: seq<Notice>)
    ensures ReadStream(Stream(ns)) == Some(ns)
  {
    var js := Jsons(ns);
    forall i | 0 <= i < |js|
      ensures ReadNotice(js[i]) == Some(ns[i]) && Printable(js[i])
    {
      ReadNoticeJson(ns[i]);
    }
    StreamLines(ns);
    DataLinesSingle(js);
    assert NoNewline("");
    LinesSingleAppend(DataLines(js), [""]);
    UnlinesJoin(DataLines(js));
    SplitJoinLines(DataLines(js) + [""]);
    DataLinesRead(js, ns);
  }

  // ---------------------------------------------------------------------------
  // Handlers

  /** Everything the routes act on. */
  datatype World = World(hub: Supervisor.Hub, watch: Watcher.Watch, caddyfile: string)

  /** The settings the services read from the environment. */
  datatype Config = Config(paths: Supervisor.Paths, env: Provision.Env, ports: Caddy.Ports)

  /** `generateCaddyfile()`: the file is rewritten from the current rows; the
      write itself is an external step that may fail. */
  function Regenerate(w: World, cfg: Config, at: string, write: Outcome): (r: Result<World, Error>)
    ensures r.Ok? ==> r.value == w.(caddyfile := Caddy.Caddyfile(w.hub.store.rows, cfg.ports, at))
    ensures r.Ok? <==> write.Pass?
  {
    if write.Fail? then Err(ToolFailed(write.message))
    else Ok(w.(caddyfile := Caddy.Caddyfile(w.hub.store.rows, cfg.ports, at)))
  }

  /** A rewrite fails exactly when the write does, and one that succeeds
      changes nothing but the file, which opens with the global block; when no
      stored row has a line break in a rendered field, the file serves exactly
      the sites of the newest-first listing of the current rows. */
  lemma RegenerateSites(w: World, cfg: Config, at: string, write: Outcome)
    requires NoNewline(cfg.ports.http) && NoNewline(cfg.ports.https) && NoNewline(at)
    ensures var r := Regenerate(w, cfg, at, write);
      && (r.Err? <==> write.Fail?)
      && (r.Ok? ==> r.value.hub == w.hub && r.value.watch == w.watch)
      && (r.Ok? ==> var ls := SplitLines(r.value.caddyfile); |ls| > 4 && ls[4] == "  http_port " + cfg.ports.http)
      && (r.Ok? && (forall o :: o in w.hub.store.rows ==> Caddy.SingleLineRow(o)) ==>
            Caddy.ReadCaddyfile(r.value.caddyfile) == Caddy.Routes(NewestFirst(w.hub.store.rows), cfg.ports))
  {
    Caddy.CaddyfileHeader(w.hub.store.rows, cfg.ports, at);
    if forall o :: o in w.hub.store.rows ==> Caddy.SingleLineRow(o) {
      Caddy.CaddyfileSites(w.hub.store.rows, cfg.ports, at);
    }
  }

  /** A progress notification as the `sendProgress` callback writes it. */
  function Relay(ev: seq<Provision.Progress>): (ns: seq<Notice>)
    ensures |ns| == |ev|
    ensures forall i :: 0 <= i < |ns| ==> ns[i] == Notice(ev[i].step, ev[i].message, ev[i].percent, None)
    ensures forall i :: 0 <= i < |ns| ==> ns[i].instance.None? && (Terminal(ns[i]) <==> !Ongoing(ev[i]))
  {
    seq(|ev|, i requires 0 <= i < |ev| => Notice(ev[i].step, ev[i].message, ev[i].percent, None))
  }

  /** The progress notifications, leaving out any whose step would end the
      stream for its reader. */
  function RelayProgress(ev: seq<Provision.Progress>): (ns: seq<Notice>)
    ensures forall i :: 0 <= i < |ns| ==> !Terminal(ns[i]) && ns[i].instance.None?
    ensures forall p :: p in ev && p.step != "complete" && p.step != "error" ==>
      Notice(p.step, p.message, p.percent, None) in ns
    decreases |ev|
  {
    if |ev| == 0 then []
    else
      var n := Notice(ev[0].step, ev[0].message, ev[0].percent, None);
      var more := RelayProgress(ev[1..]);
      assert forall p :: p in ev ==> p == ev[0] || p in ev[1..];
      if Terminal(n) then more else [n] + more
  }

  /** The events a streaming handler writes, and the world after it. */
  datatype Streamed = Streamed(world: World, events: seq<Notice>)

  /** What both streaming handlers do once the service returns or throws: the
      Caddyfile is regenerated and `complete` is sent with the instance, or
      `error` is sent with the message of whatever threw. */
  function Finish(w: World, cfg: Config, run: Provision.Run, sent: seq<Notice>, done: string, at: string, write: Outcome): Streamed {
    var w := w.(hub := w.hub.(store := run.store));
    match run.result
    case Err(e) => Streamed(w, sent + [Notice("error", Message(e), 0, None)])
    case Ok(row) =>
      match Regenerate(w, cfg, at, write)
      case Err(e) => Streamed(w, sent + [Notice("error", Message(e), 0, None)])
      case Ok(w') => Streamed(w', sent + [Notice("complete", done, 100, Some(row))])
  }

  /** `POST /api/instances/create`. */
  function CreateHandler(w: World, cfg: Config, body: Body, f: Provision.Fresh, steps: Provision.CreateSteps, at: string, write: Outcome): Streamed {
    var run := Provision.Create(w.hub.store, body, f, cfg.env, steps);
    Finish(w, cfg, run, Relay(run.events), "Instance created successfully!", at, write)
  }

  /** The service call of `POST /api/instances/:id/clone`: only `name` and
      `subdomain` of the body are passed on. */
  function CloneRun(w: World, cfg: Config, sourceId: string, body: Body, f: Provision.Fresh, steps: Provision.CloneSteps): Provision.Run {
    Provision.Clone(w.hub.store, sourceId, Get(body, "name"), Get(body, "subdomain"), f, cfg.env, steps)
  }

  /** `POST /api/instances/:id/clone` as the source writes it: the clone's own
      last notification, whose step is `complete`, is relayed like any other. */
  function CloneHandlerAsWritten(w: World, cfg: Config, sourceId: string, body: Body, f: Provision.Fresh, steps: Provision.CloneSteps, at: string, write: Outcome): Streamed {
    var run := CloneRun(w, cfg, sourceId, body, f, steps);
    Finish(w, cfg, run, Relay(run.events), "Instance cloned successfully!", at, write)
  }

  /** `POST /api/instances/:id/clone` with only the handler's own event ending
      the stream. */
  function CloneHandler(w: World, cfg: Config, sourceId: string, body: Body, f: Provision.Fresh, steps: Provision.CloneSteps, at: string, write: Outcome): Streamed {
    var run := CloneRun(w, cfg, sourceId, body, f, steps);
    Finish(w, cfg, run, RelayProgress(run.events), "Instance cloned successfully!", at, write)
  }

  /** A JSON response: 200 with the result, or 400 with `{ error: message }`. */
  datatype Response<T> = Response(status: int, body: Result<T, string>)

  datatype Handled<T> = Handled(world: World, response: Response<T>)

  function Answered<T>(r: Result<T, Error>): (resp: Response<T>)
    ensures r.Ok? ==> resp == Response(200, Ok(r.value))
    ensures r.Err? ==> resp == Response(400, Err(Message(r.error)))
  {
    match r
    case Ok(v) => Response(200, Ok(v))
    case Err(e) => Response(400, Err(Message(e)))
  }

  /** The message of the `TypeError` thrown by reading a property of a missing
      record. */
  const NoRecord: string := "Cannot read properties of undefined (reading 'auto_reload')"

  /** `startWatching(id)` inside a handler: its error, if any, becomes the
      handler's. */
  function Watched<T>(w: World, id: string, ok: T): Handled<T> {
    var st := Watcher.StartWatching(w.watch, w.hub.store.rows, id);
    var w := w.(watch := st.watch);
    match st.error
    case Some(e) => Handled(w, Response(400, Err(Message(e))))
    case None => Handled(w, Response(200, Ok(ok)))
  }

  /** `PUT /api/instances/:id`: update the row, then start or stop watching by
      `auto_reload`, only when the body has one. */
  function UpdateHandler(w: World, id: string, body: Body, now: string): Handled<Instance> {
    var u := UpdateInstance(w.hub.store, id, body, now);
    var w := w.(hub := w.hub.(store := u.store));
    match u.result
    case Err(e) => Handled(w, Answered(u.result))
    case Ok(row) =>
      var flag := Get(body, "auto_reload");
      if flag == Undefined then Handled(w, Response(200, Ok(row)))
      else if Truthy(flag) then Watched(w, id, row)
      else Handled(w.(watch := Watcher.StopWatching(w.watch, id)), Response(200, Ok(row)))
  }

  /** `DELETE /api/instances/:id`: stop the process, ignoring any failure, stop
      watching, delete the record and its directory, and rewrite the Caddyfile. */
  function DeleteHandler(w: World, cfg: Config, id: string, now: string, at: string, write: Outcome): Handled<string> {
    var stop := Supervisor.StopInstance(w.hub, cfg.paths, id, now);
    var w := World(stop.hub, Watcher.StopWatching(w.watch, id), w.caddyfile);
    var d := DeleteInstance(w.hub.store, id);
    var w := w.(hub := w.hub.(store := d.store));
    match d.result
    case Err(e) => Handled(w, Answered(d.result))
    case Ok(msg) =>
      match Regenerate(w, cfg, at, write)
      case Err(e) => Handled(w, Response(400, Err(Message(e))))
      case Ok(w') => Handled(w', Response(200, Ok(msg)))
  }

  /** `POST /api/instances/:id/start`: start the process, then watch it when the
      record has `auto_reload` on. */
  function StartHandler(w: World, cfg: Config, id: string, now: string): Handled<string> {
    var a := Supervisor.Start(w.hub, cfg.paths, id, now);
    var w := w.(hub := a.hub);
    match a.result
    case Err(e) => Handled(w, Answered(a.result))
    case Ok(msg) =>
      match GetInstanceById(w.hub.store, id)
      case None => Handled(w, Response(400, Err(NoRecord)))
      case Some(row) =>
        if CellTruthy(row.autoReload) then Watched(w, id, msg) else Handled(w, Response(200, Ok(msg)))
  }

  /** `POST /api/instances/:id/stop`: stop the process, then stop watching; a
      failed stop leaves the watch alone. */
  function StopHandler(w: World, cfg: Config, id: string, now: string): Handled<string> {
    var a := Supervisor.StopInstance(w.hub, cfg.paths, id, now);
    var w := w.(hub := a.hub);
    match a.result
    case Err(e) => Handled(w, Answered(a.result))
    case Ok(msg) => Handled(w.(watch := Watcher.StopWatching(w.watch, id)), Response(200, Ok(msg)))
  }

  /** `POST /api/instances/:id/restart`. */
  function RestartHandler(w: World, cfg: Config, id: string, now: string): Handled<string> {
    var a := Supervisor.RestartInstance(w.hub, cfg.paths, id, now);
    Handled(w.(hub := a.hub), Answered(a.result))
  }

  /** `POST /api/instances/:id/mcp`. */
  function McpHandler(w: World, id: string, body: Body, now: string): Handled<Instance> {
    var t := ToggleMcp(w.hub.store, id, Get(body, "enabled"), now);
    Handled(w.(hub := w.hub.(store := t.store)), Answered(t.result))
  }

  /** A debounce timer coming due: the coordinator restarts the instance and
      only logs a failure. */
  function TimerFires(w: World, cfg: Config, id: string, now: string): World {
    var fired := Watcher.Fire(w.watch, id);
    if fired.restarts == w.watch.restarts then w.(watch := fired)
    else World(Supervisor.RestartInstance(w.hub, cfg.paths, id, now).hub, fired, w.caddyfile)
  }

  // ---------------------------------------------------------------------------
  // Properties of the handlers

  /** A step that a reader does not take as the end of the stream. */
  predicate Ongoing(p: Provision.Progress) {
    p.step != "complete" && p.step != "error"
  }

  /** The stream ends with its last event and no earlier one: the reader sees
      every event. */
  predicate EndsOnce(ns: seq<Notice>) {
    |ns| >= 1 && FirstTerminal(ns) == |ns| - 1
  }

  /** How a streaming handler ends, given what the service did and whether
      the Caddyfile could be written: `complete` at 100 with the instance
      exactly when both succeeded, and the Caddyfile then describes the new
      rows; otherwise `error` at 0 with the message of what threw, and the
      Caddyfile on disk is the old one. */
  predicate Concludes(r: Streamed, w: World, cfg: Config, run: Provision.Run, done: string, at: string, write: Outcome)
    requires |r.events| >= 1
  {
    var last := r.events[|r.events| - 1];
    && r.world.hub == w.hub.(store := run.store)
    && r.world.watch == w.watch
    && (last.step == "complete" <==> run.result.Ok? && write.Pass?)
    && (run.result.Ok? && write.Pass? ==>
          && last == Notice("complete", done, 100, Some(run.result.value))
          && r.world.caddyfile == Caddy.Caddyfile(run.store.rows, cfg.ports, at))
    && (run.result.Err? ==> last == Notice("error", Message(run.result.error), 0, None))
    && (run.result.Ok? && write.Fail? ==> last == Notice("error", Message(ToolFailed(write.message)), 0, None))
    && (!(run.result.Ok? && write.Pass?) ==> r.world.caddyfile == w.caddyfile)
  }

  /** After progress notifications that do not end the stream, the handler's
      own event is the one and only terminal event. */
  lemma FinishEndsOnce(w: World, cfg: Config, run: Provision.Run, sent: seq<Notice>, done: string, at: string, write: Outcome)
    requires forall i :: 0 <= i < |sent| ==> !Terminal(sent[i])
    ensures var r := Finish(w, cfg, run, sent, done, at, write);
      && |r.events| == |sent| + 1 && r.events[..|sent|] == sent
      && EndsOnce(r.events)
      && Concludes(r, w, cfg, run, done, at, write)
  {
    var r := Finish(w, cfg, run, sent, done, at, write);
    assert r.events[..|sent|] == sent;
    assert Terminal(r.events[|sent|]);
  }

  /** None of the notifications a create can send ends the stream. */
  lemma CreatePlanOngoing(boot: Provision.Step)
    ensures var full := Provision.CreatePlan + [Provision.BootstrapNotice(boot)];
      forall i :: 0 <= i < |full| ==> Ongoing(full[i])
  {
  }

  /** The create stream relays every notification of the service, in order,
      and then ends with exactly one terminal event: `complete` with the new
      instance when both the create and the Caddyfile write succeed, `error`
      otherwise. */
  lemma CreateStreamEndsOnce(w: World, cfg: Config, body: Body, f: Provision.Fresh, steps: Provision.CreateSteps, at: string, write: Outcome)
    ensures var run := Provision.Create(w.hub.store, body, f, cfg.env, steps);
      var r := CreateHandler(w, cfg, body, f, steps, at, write);
      && |r.events| == |run.events| + 1
      && r.events[..|run.events|] == Relay(run.events)
      && EndsOnce(r.events)
      && Concludes(r, w, cfg, run, "Instance created successfully!", at, write)
  {
    var run := Provision.Create(w.hub.store, body, f, cfg.env, steps);
    Provision.CreateProgress(w.hub.store, body, f, cfg.env, steps);
    CreatePlanOngoing(steps.bootstrap);
    var full := Provision.CreatePlan + [Provision.BootstrapNotice(steps.bootstrap)];
    var sent := Relay(run.events);
    forall i | 0 <= i < |sent| ensures !Terminal(sent[i]) {
      assert run.events[i] == full[i];
    }
    FinishEndsOnce(w, cfg, run, sent, "Instance created successfully!", at, write);
  }

  /** The corrected clone stream: every notification of the service that does
      not end the stream is relayed, and the handler's own event is the only
      terminal one. */
  lemma CloneStreamEndsOnce(w: World, cfg: Config, sourceId: string, body: Body, f: Provision.Fresh, steps: Provision.CloneSteps, at: string, write: Outcome)
    ensures var run := CloneRun(w, cfg, sourceId, body, f, steps);
      var r := CloneHandler(w, cfg, sourceId, body, f, steps, at, write);
      && r.events[..|r.events| - 1] == RelayProgress(run.events)
      && EndsOnce(r.events)
      && Concludes(r, w, cfg, run, "Instance cloned successfully!", at, write)
  {
    var run := CloneRun(w, cfg, sourceId, body, f, steps);
    FinishEndsOnce(w, cfg, run, RelayProgress(run.events), "Instance cloned successfully!", at, write);
  }

  /** Every notification of a successful clone but the last continues the
      stream; the last is the service's own `complete`. */
  lemma ClonePlanEnds(nodeModules: bool)
    ensures var plan := Provision.ClonePlan(nodeModules);
      && (forall i :: 0 <= i < |plan| - 1 ==> Ongoing(plan[i]))
      && plan[|plan| - 1] == Provision.Progress("complete", "Clone created successfully!", 95)
  {
  }

  /** The clone stream as the source writes it ends too early for its reader
      whenever the clone succeeds: the service's own `complete` at 95, which
      carries no instance, comes first, so the reader stops there; the
      handler's event after it, and with it the error of a Caddyfile write
      that fails, is never read. */
  lemma CloneAsWrittenEndsEarly(w: World, cfg: Config, sourceId: string, body: Body, f: Provision.Fresh, steps: Provision.CloneSteps, at: string, write: Outcome)
    requires CloneRun(w, cfg, sourceId, body, f, steps).result.Ok?
    ensures var r := CloneHandlerAsWritten(w, cfg, sourceId, body, f, steps, at, write);
      var k := FirstTerminal(r.events);
      && k == |r.events| - 2
      && r.events[k] == Notice("complete", "Clone created successfully!", 95, None)
      && (write.Fail? ==> r.events[|r.events| - 1].step == "error")
  {
    var run := CloneRun(w, cfg, sourceId, body, f, steps);
    Provision.CloneProgress(w.hub.store, sourceId, Get(body, "name"), Get(body, "subdomain"), f, cfg.env, steps);
    ClonePlanEnds("node_modules" in Provision.SourceDir(w.hub.store, sourceId));
    var r := Finish(w, cfg, run, Relay(run.events), "Instance cloned successfully!", at, write);
    FinishAppends(w, cfg, run, Relay(run.events), "Instance cloned successfully!", at, write);
    RelayStopsAtLast(run.events, r.events[|r.events| - 1]);
  }

  /** A streaming handler writes one event of its own after those it relays;
      when the service returned but the Caddyfile could not be written, that
      event is an error. */
  lemma FinishAppends(w: World, cfg: Config, run: Provision.Run, sent: seq<Notice>, done: string, at: string, write: Outcome)
    ensures var r := Finish(w, cfg, run, sent, done, at, write);
      && |r.events| == |sent| + 1 && r.events == sent + [r.events[|sent|]]
      && (run.result.Ok? && write.Fail? ==> r.events[|sent|].step == "error")
  {
  }

  /** Relayed notifications whose last alone ends the stream, followed by one
      more event: the reader stops one short of the end. */
  lemma RelayStopsAtLast(ev: seq<Provision.Progress>, last: Notice)
    requires |ev| >= 1 && forall i :: 0 <= i < |ev| - 1 ==> Ongoing(ev[i])
    requires !Ongoing(ev[|ev| - 1])
    ensures FirstTerminal(Relay(ev) + [last]) == |ev| - 1
  {
    var ns := Relay(ev) + [last];
    assert Terminal(ns[|ev| - 1]);
    assert forall i :: 0 <= i < |ev| - 1 ==> !Terminal(ns[i]);
  }

  /** `PUT`: a failed update answers 400 and changes nothing; a successful one
      answers the stored row. The watch changes only for that instance and
      only when the body has `auto_reload`: then it is watched exactly when
      the flag and the stored `auto_reload` are both on. */
  lemma UpdateWatchRule(w: World, id: string, body: Body, now: string)
    requires Wf(w.hub.store.rows)
    ensures var u := UpdateInstance(w.hub.store, id, body, now);
      var h := UpdateHandler(w, id, body, now);
      var flag := Get(body, "auto_reload");
      && h.world.hub == w.hub.(store := u.store) && h.world.caddyfile == w.caddyfile
      && (u.result.Err? ==> h.world == w && h.response == Response(400, Err(Message(u.result.error))))
      && (u.result.Ok? ==> h.response == Response(200, Ok(u.result.value)))
      && (u.result.Err? || flag == Undefined ==> h.world.watch == w.watch)
      && (u.result.Ok? && flag != Undefined ==>
            (Watcher.IsWatching(h.world.watch, id) <==> Truthy(flag) && CellTruthy(u.result.value.autoReload)))
      && (forall j :: j != id ==> (Watcher.IsWatching(h.world.watch, j) <==> Watcher.IsWatching(w.watch, j)))
  {
    var u := UpdateInstance(w.hub.store, id, body, now);
    UpdateReadsBack(w.hub.store, id, body, now);
    Watcher.StartWatchingEffect(w.watch, u.store.rows, id);
  }

  /** `DELETE`: whatever happened to the process, the instance is no longer
      watched and has no row; when it existed its directory is gone and the
      other rows are as they were, and the answer is 200 exactly when the
      Caddyfile was then rewritten from the remaining rows. */
  lemma DeleteRemoves(w: World, cfg: Config, id: string, now: string, at: string, write: Outcome)
    requires Wf(w.hub.store.rows)
    ensures var h := DeleteHandler(w, cfg, id, now, at, write);
      var existed := Find(w.hub.store.rows, id).Some?;
      && !Watcher.IsWatching(h.world.watch, id)
      && Find(h.world.hub.store.rows, id).None?
      && (!existed ==> h.response == Response(400, Err(Message(InstanceNotFound))) && h.world.hub == w.hub)
      && (existed ==> id !in h.world.hub.store.dirs)
      && (existed ==> forall o: Instance :: o.id != id ==> (o in h.world.hub.store.rows <==> o in w.hub.store.rows))
      && (h.response.status == 200 <==> existed && write.Pass?)
      && (existed && write.Pass? ==>
            && h.response == Response(200, Ok("Instance deleted successfully"))
            && h.world.caddyfile == Caddy.Caddyfile(h.world.hub.store.rows, cfg.ports, at))
      && (!(existed && write.Pass?) ==> h.world.caddyfile == w.caddyfile)
  {
    if Find(w.hub.store.rows, id).Some? {
      var stop := Supervisor.StopInstance(w.hub, cfg.paths, id, now);
      StopKeepsOthers(w.hub, cfg.paths, id, now);
      DeleteEffect(stop.hub.store, id);
    }
  }

  /** Stopping a stored instance, successfully or not, keeps its row, every
      other row and every directory. */
  lemma StopKeepsOthers(h: Supervisor.Hub, p: Supervisor.Paths, id: string, now: string)
    requires Wf(h.store.rows) && Find(h.store.rows, id).Some?
    ensures var a := Supervisor.StopInstance(h, p, id, now);
      && Wf(a.hub.store.rows) && Find(a.hub.store.rows, id).Some?
      && a.hub.store.dirs == h.store.dirs
      && forall o: Instance :: o.id != id ==> (o in a.hub.store.rows <==> o in h.store.rows)
  {
    var s := h.store;
    var a := Supervisor.StopInstance(h, p, id, now);
    var i := IndexOf(s.rows, id).value;
    var row' := s.rows[i].(status := SqlText("stopped"), updatedAt := SqlText(now));
    Supervisor.StopStore(h, p, id, now);
    Supervisor.StatusWrite(s, id, "stopped", now);
    if a.hub.store != s {
      ReplaceKeepsOthers(s.rows, i, row');
      assert a.hub.store.rows[i] == row';
    }
  }

  /** Replacing a row by one with the same id keeps every row with another id. */
  lemma ReplaceKeepsOthers(rows: seq<Instance>, i: nat, r: Instance)
    requires i < |rows| && r.id == rows[i].id
    ensures forall o: Instance :: o.id != r.id ==> (o in rows[i := r] <==> o in rows)
  {
    forall o: Instance | o.id != r.id ensures o in rows[i := r] <==> o in rows {
      if o in rows[i := r] {
        var k :| 0 <= k < |rows| && rows[i := r][k] == o;
        assert k != i && rows[k] == o;
      }
      if o in rows {
        var k :| 0 <= k < |rows| && rows[k] == o;
        assert k != i && rows[i := r][k] == o;
      }
    }
  }

  /** `DELETE` with pm2 reachable also takes the process off pm2's list,
      whether or not it was listed. */
  lemma DeleteUnlists(w: World, cfg: Config, id: string, now: string, at: string, write: Outcome)
    requires Wf(w.hub.store.rows) && Find(w.hub.store.rows, id).Some? && w.hub.pm2.down.None?
    ensures Supervisor.AppName(Find(w.hub.store.rows, id).value) !in DeleteHandler(w, cfg, id, now, at, write).world.hub.pm2.listed
  {
    var name := Supervisor.AppName(Find(w.hub.store.rows, id).value);
    if name in w.hub.pm2.listed {
      Supervisor.StopSucceeds(w.hub, cfg.paths, id, now);
    } else {
      Supervisor.StopFails(w.hub, cfg.paths, id, now);
    }
  }

  /** `POST …/start`: a failed start answers 400 and leaves the watch alone; a
      successful one answers its message and watches the instance when its
      record has `auto_reload` on, leaving the watch alone otherwise. */
  lemma StartWatchRule(w: World, cfg: Config, id: string, now: string)
    requires Wf(w.hub.store.rows)
    ensures var a := Supervisor.Start(w.hub, cfg.paths, id, now);
      var h := StartHandler(w, cfg, id, now);
      && h.world.hub == a.hub && h.world.caddyfile == w.caddyfile
      && (a.result.Err? ==> h.world.watch == w.watch && h.response == Response(400, Err(Message(a.result.error))))
      && (a.result.Ok? ==>
            && h.response == Response(200, Ok(a.result.value))
            && var on := CellTruthy(Find(w.hub.store.rows, id).value.autoReload);
            && (on ==> Watcher.IsWatching(h.world.watch, id))
            && (!on ==> h.world.watch == w.watch))
      && (forall j :: j != id ==> (Watcher.IsWatching(h.world.watch, j) <==> Watcher.IsWatching(w.watch, j)))
  {
    var a := Supervisor.Start(w.hub, cfg.paths, id, now);
    if a.result.Ok? {
      var s := w.hub.store;
      var i := IndexOf(s.rows, id).value;
      var row' := s.rows[i].(status := SqlText("running"), updatedAt := SqlText(now));
      Supervisor.StatusWrite(s, id, "running", now);
      assert a.hub.store.rows == s.rows[i := row'];
      assert a.hub.store.rows[i] == row';
      FindUnique(a.hub.store.rows, row');
      Watcher.StartWatchingEffect(w.watch, a.hub.store.rows, id);
    }
  }

  /** `POST …/stop`: a failed stop answers 400 and leaves the watch running; a
      successful one stops watching that instance only. */
  lemma StopWatchRule(w: World, cfg: Config, id: string, now: string)
    ensures var a := Supervisor.StopInstance(w.hub, cfg.paths, id, now);
      var h := StopHandler(w, cfg, id, now);
      && h.world.hub == a.hub && h.world.caddyfile == w.caddyfile
      && (a.result.Err? ==> h.world.watch == w.watch && h.response == Response(400, Err(Message(a.result.error))))
      && (a.result.Ok? ==> h.response == Response(200, Ok(a.result.value)) && !Watcher.IsWatching(h.world.watch, id))
      && (forall j :: j != id ==> (Watcher.IsWatching(h.world.watch, j) <==> Watcher.IsWatching(w.watch, j)))
  {
  }

  /** `POST …/restart` and `POST …/mcp` never touch the watch or the Caddyfile;
      their answer is the service's. */
  lemma RestartAndMcpLeaveWatch(w: World, cfg: Config, id: string, body: Body, now: string)
    ensures var a := Supervisor.RestartInstance(w.hub, cfg.paths, id, now);
      var h := RestartHandler(w, cfg, id, now);
      && h.world == w.(hub := a.hub)
      && (a.result.Ok? <==> h.response.status == 200)
    ensures var t := ToggleMcp(w.hub.store, id, Get(body, "enabled"), now);
      var h := McpHandler(w, id, body, now);
      && h.world == w.(hub := w.hub.(store := t.store))
      && (t.result.Ok? ==> h.response == Response(200, Ok(t.result.value)))
      && (t.result.Err? ==> h.world == w && h.response == Response(400, Err(Message(t.result.error))))
  {
  }

  /** A timer that comes due restarts its instance once: the restart is
      logged, the hub is the restart's, and a failed restart changes no row.
      Any other timer event leaves the hub alone. */
  lemma TimerRestarts(w: World, cfg: Config, id: string, now: string)
    ensures var r := TimerFires(w, cfg, id, now);
      var due := id in w.watch.timers && w.watch.timers[id].pending && w.watch.timers[id].due <= w.watch.clock;
      var a := Supervisor.RestartInstance(w.hub, cfg.paths, id, now);
      && r.caddyfile == w.caddyfile
      && (due ==> r.watch.restarts == w.watch.restarts + [id] && r.hub == a.hub && !r.watch.timers[id].pending)
      && (due && a.result.Err? ==> r.hub.store == w.hub.store)
      && (!due ==> r.hub == w.hub && r.watch == w.watch)
  {
  }
}
