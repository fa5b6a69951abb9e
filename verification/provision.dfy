/** Provisioning (`createInstanceWithProgress` and `cloneInstance` in
    app/lib/instanceService.js). External commands (`npm init`, `npm install`,
    `npx directus bootstrap`, `cp -R`) are inputs: each either succeeds, leaving
    some entries in the working directory, or fails with a message. The values
    the service draws at random (the uuid, the api key, the two `.env` tokens)
    and the clock are inputs too. Every call reports the progress notifications
    it sent, in order. */
module Provision {
  import opened Wrappers
  import opened Text
  import opened Values
  import opened Errors
  import opened Schema
  import opened Ports
  import opened EnvFile
  import opened Registry

  /** One `sendProgress(step, message, progress)`. */
  datatype Progress = Progress(step: string, message: string, percent: int)

  /** What an external command did. */
  datatype Step = Done(files: Workspace) | Failed(message: string)

  /** The three commands a create runs. */
  datatype CreateSteps = CreateSteps(npmInit: Step, npmInstall: Step, bootstrap: Step)

  /** The three `cp -R` commands a clone may run. */
  datatype CloneSteps = CloneSteps(nodeModules: Outcome, uploads: Outcome, extensions: Outcome)

  /** The values a call draws for itself: the new id (`uuidv4`), the api key,
      the `KEY` and `SECRET` tokens of the `.env` file, and `CURRENT_TIMESTAMP`. */
  datatype Fresh = Fresh(id: string, apiKey: string, key: string, secret: string, now: string)

  /** The process environment the provisioner reads: the allocator's starting
      port and the hub's own port (`process.env.PORT || 3001`). */
  datatype Env = Env(startingPort: int, hubPort: string)

  /** A provisioning call's effect, the notifications it sent, and its result. */
  datatype Run = Run(store: Store, events: seq<Progress>, result: Result<Instance, Error>)

  /** `fs.mkdirSync(dir/name, { recursive: true })`: an existing entry is kept. */
  function Mkdir(ws: Workspace, name: string): (r: Workspace)
    ensures name in r && r.Keys == ws.Keys + {name}
    ensures forall n :: n in ws ==> r[n] == ws[n]
  {
    if name in ws then ws else ws[name := EmptyDir]
  }

  /** The cleanup of the `catch` blocks: the new directory and any row with the
      new id are removed. */
  function Rollback(s: Store, id: string): Store {
    Store(RemoveId(s.rows, id), s.dirs - {id})
  }

  /** A failure after the new directory was made: the cleanup runs and the
      error is thrown. */
  function Abort(s: Store, id: string, ws: Workspace, events: seq<Progress>, e: Error): (r: Run)
    ensures r.result == Err(e) && r.events == events
    ensures FreshId(s, id) ==> r.store == s
  {
    if FreshId(s, id) then RollbackRestores(s, id, ws); Run(Rollback(s.(dirs := s.dirs[id := ws]), id), events, Err(e))
    else Run(Rollback(s.(dirs := s.dirs[id := ws]), id), events, Err(e))
  }

  /** `value || null`: the result is null or truthy, truthy exactly when the
      value is, and then it is the value itself. */
  function OrNull(v: Val): (r: Val)
    ensures r == Null || Truthy(r)
    ensures Truthy(r) <==> Truthy(v)
    ensures Truthy(r) ==> r == v
  {
    if Truthy(v) then v else Null
  }

  // ---------------------------------------------------------------------------
  // Create

  /** Every notification a create can send before the bootstrap finishes, in
      the order it sends them. A create that stops early has sent a prefix. */
  const CreatePlan: seq<Progress> := [
    Progress("validate", "Validating input...", 5),
    Progress("prepare", "Preparing instance...", 10),
    Progress("install", "Installing Directus (this may take a few minutes)...", 20),
    Progress("install", "Initialized package.json...", 30),
    Progress("install", "Directus installed successfully!", 60),
    Progress("setup", "Creating directories...", 65),
    Progress("setup", "Generating configuration...", 70),
    Progress("database", "Saving instance details...", 75),
    Progress("bootstrap", "Bootstrapping Directus...", 85)]

  /** The last notification: the bootstrap's outcome, which never fails the call. */
  function BootstrapNotice(boot: Step): Progress {
    if boot.Done? then Progress("bootstrap", "Bootstrap complete!", 95)
    else Progress("bootstrap", "Bootstrap completed with warnings", 95)
  }

  /** The `databaseType = 'sqlite'` default of the destructuring: it applies only
      when the body has no such value. */
  function DatabaseTypeOf(data: Body): (r: Val)
    ensures r != Undefined
    ensures r == Get(data, "databaseType") || r == Str("sqlite")
  {
    var t := Get(data, "databaseType");
    if t == Undefined then Str("sqlite") else t
  }

  /** The public URL the create path computes before spreading the body. */
  function DefaultPublicUrl(data: Body, env: Env): string {
    var custom := Get(data, "custom_domain");
    if Truthy(custom) then "https://" + JsString(custom)
    else "http://" + JsString(Get(data, "subdomain")) + ".localhost:" + env.hubPort
  }

  /** The computed fields of the create's configuration object. */
  function CreateBase(data: Body, port: int, apiKey: string, env: Env): Body {
    [("port", Num(port)), ("databaseType", DatabaseTypeOf(data)),
     ("adminEmail", Get(data, "adminEmail")), ("adminPassword", Get(data, "adminPassword")),
     ("apiKey", Str(apiKey)), ("publicUrl", Str(DefaultPublicUrl(data, env)))]
  }

  /** The object passed to `generateEnvFile`: the computed fields first, then
      `...data`, so that the body's own keys win in the file. */
  function CreateConfig(data: Body, port: int, apiKey: string, env: Env): Body {
    Spread(CreateBase(data, port, apiKey, env), data)
  }

  /** The values bound by the create `INSERT`, in column order from `name` to
      `admin_password`. */
  function CreateValues(data: Body): seq<Val> {
    [Get(data, "name"), Get(data, "subdomain"), OrNull(Get(data, "custom_domain")), DatabaseTypeOf(data),
     OrNull(Get(data, "databaseHost")), OrNull(Get(data, "databasePort")), OrNull(Get(data, "databaseName")),
     OrNull(Get(data, "databaseUser")), OrNull(Get(data, "databasePassword")),
     Get(data, "adminEmail"), Get(data, "adminPassword")]
  }

  predicate AllBindable(vs: seq<Val>) {
    forall i :: 0 <= i < |vs| ==> Bindable(vs[i])
  }

  /** The row the create `INSERT` stores; the columns it does not name
      (`auto_reload`, the timestamps) take their defaults. */
  function CreateRow(data: Body, f: Fresh, port: int): (row: Instance)
    requires AllBindable(CreateValues(data))
  {
    var vs := CreateValues(data);
    DefaultRow(f.id, f.now).(
      name := Bind(vs[0]), subdomain := Bind(vs[1]), port := SqlInt(port), customDomain := Bind(vs[2]),
      databaseType := Bind(vs[3]), databaseHost := Bind(vs[4]), databasePort := Bind(vs[5]),
      databaseName := Bind(vs[6]), databaseUser := Bind(vs[7]), databasePassword := Bind(vs[8]),
      adminEmail := Bind(vs[9]), adminPassword := Bind(vs[10]), apiKey := SqlText(f.apiKey),
      mcpEnabled := SqlInt(0), status := SqlText("stopped"))
  }

  /** The checks before any directory is made; `None` when they all pass. The
      lookups bind the subdomain (and a truthy custom domain), so a value
      better-sqlite3 cannot bind fails there. */
  function CreateRejects(s: Store, data: Body): (r: Option<Error>)
  {
    var subdomain := Get(data, "subdomain");
    var custom := Get(data, "custom_domain");
    if !Truthy(Get(data, "name")) || !Truthy(subdomain)
       || !Truthy(Get(data, "adminEmail")) || !Truthy(Get(data, "adminPassword")) then Some(MissingRequiredFields)
    else if !Bindable(subdomain) then Some(CannotBind)
    else if exists o :: o in s.rows && o.subdomain == Bind(subdomain) then Some(SubdomainInUse(JsString(subdomain)))
    else if Truthy(custom) && !Bindable(custom) then Some(CannotBind)
    else if Truthy(custom) && exists o :: o in s.rows && o.customDomain == Bind(custom) then
      Some(CustomDomainInUse(JsString(custom)))
    else None
  }

  /** `npm init -y`, `npm install directus`, then the `uploads` and `extensions`
      directories: the resulting directory, or the failing command's message. */
  function Install(steps: CreateSteps): (r: Result<Workspace, string>)
    ensures r.Ok? <==> steps.npmInit.Done? && steps.npmInstall.Done?
    ensures r.Ok? ==> "uploads" in r.value && "extensions" in r.value
  {
    match steps.npmInit
    case Failed(m) => Err(m)
    case Done(init) =>
      match steps.npmInstall
      case Failed(m) => Err(m)
      case Done(installed) => Ok(Mkdir(Mkdir(init + installed, "uploads"), "extensions"))
  }

  /** `createInstanceWithProgress(data, sendProgress)`. */
  function Create(s: Store, data: Body, f: Fresh, env: Env, steps: CreateSteps): Run {
    match CreateRejects(s, data)
    case Some(e) =>
      Run(s, CreatePlan[..if e == MissingRequiredFields then 0 else 1], Err(e))
    case None =>
      CreateAt(s, data, f, env, FindAvailablePort(s.rows, env.startingPort), steps)
  }

  /** The part of a create after the checks, once the port is chosen: the
      directory is made and everything from here on runs under the cleanup. */
  function CreateAt(s: Store, data: Body, f: Fresh, env: Env, port: int, steps: CreateSteps): Run {
    match Install(steps)
    case Err(m) =>
      Abort(s, f.id, map[], CreatePlan[..if steps.npmInit.Failed? then 3 else 4], ToolFailed(m))
    case Ok(ws) =>
      var ws := ws[".env" := EnvFileOf(CreateConfig(data, port, f.apiKey, env), f.key, f.secret)];
      if !AllBindable(CreateValues(data)) then Abort(s, f.id, ws, CreatePlan[..8], CannotBind)
      else
        var row := CreateRow(data, f, port);
        if !Fits(s.rows, row) then Abort(s, f.id, ws, CreatePlan[..8], ConstraintFailed)
        else
          var ws := if steps.bootstrap.Done? then ws + steps.bootstrap.files else ws;
          Run(Store(s.rows + [row], s.dirs[f.id := ws]), CreatePlan + [BootstrapNotice(steps.bootstrap)], Ok(row))
  }

  // ---------------------------------------------------------------------------
  // Clone

  /** Every notification a clone can send, in order; the node_modules one only
      when the source has node_modules. A clone that stops early has sent a
      prefix. */
  function ClonePlan(nodeModules: bool): (r: seq<Progress>)
    ensures |r| == if nodeModules then 9 else 8
  {
    [Progress("validate", "Validating input...", 5),
     Progress("prepare", "Preparing to clone instance...", 10),
     Progress("copy", "Copying instance files...", 20)]
    + (if nodeModules then [Progress("copy", "Copying node_modules (this may take a while)...", 25)] else [])
    + [Progress("copy", "Copying uploads and extensions...", 50),
       Progress("copy", "Copying database...", 65),
       Progress("config", "Generating new configuration...", 75),
       Progress("database", "Saving clone details...", 85),
       Progress("complete", "Clone created successfully!", 95)]
  }

  /** The object the clone path passes to `generateEnvFile`: no public URL and no
      storage settings, so the file gets `http://localhost:<port>` and local
      storage. */
  function CloneConfig(src: Instance, port: int, apiKey: string): Body {
    [("port", Num(port)), ("databaseType", FromCell(src.databaseType)),
     ("adminEmail", FromCell(src.adminEmail)), ("adminPassword", FromCell(src.adminPassword)),
     ("apiKey", Str(apiKey)),
     ("databaseHost", FromCell(src.databaseHost)), ("databasePort", FromCell(src.databasePort)),
     ("databaseName", FromCell(src.databaseName)), ("databaseUser", FromCell(src.databaseUser)),
     ("databasePassword", FromCell(src.databasePassword))]
  }

  /** The row the clone `INSERT` stores: name and subdomain from the request,
      database settings, admin credentials and `mcp_enabled` from the source; no
      custom domain, and `auto_reload` at its default. */
  function CloneRow(src: Instance, name: Cell, subdomain: Cell, f: Fresh, port: int): Instance {
    DefaultRow(f.id, f.now).(
      name := name, subdomain := subdomain, port := SqlInt(port),
      databaseType := src.databaseType, databaseHost := src.databaseHost, databasePort := src.databasePort,
      databaseName := src.databaseName, databaseUser := src.databaseUser,
      databasePassword := src.databasePassword, adminEmail := src.adminEmail,
      adminPassword := src.adminPassword, apiKey := SqlText(f.apiKey),
      mcpEnabled := src.mcpEnabled, status := SqlText("stopped"))
  }

  /** Copy entry `name` of the source directory when it exists (a `cp -R`
      that may fail with a message); otherwise make it empty. */
  function CopyOrMake(ws: Workspace, src: Workspace, name: string, cp: Outcome): (r: Result<Workspace, string>)
    ensures r.Ok? ==> name in r.value && r.value.Keys == ws.Keys + {name}
    ensures r.Ok? ==> forall n :: n in ws && n != name ==> r.value[n] == ws[n]
    ensures r.Ok? && name in src ==> r.value[name] == src[name]
    ensures r.Err? <==> name in src && cp.Fail?
  {
    if name !in src then Ok(Mkdir(ws, name))
    else match cp
      case Pass => Ok(ws[name := src[name]])
      case Fail(m) => Err(m)
  }

  /** `uploads` then `extensions`, each copied or created. */
  function CopyDirs(from: Workspace, steps: CloneSteps): (r: Result<Workspace, string>)
    ensures r.Ok? ==> r.value.Keys == {"uploads", "extensions"}
    ensures r.Ok? ==> forall n :: n in from && n in r.value ==> r.value[n] == from[n]
    ensures r.Err? <==> ("uploads" in from && steps.uploads.Fail?) || ("extensions" in from && steps.extensions.Fail?)
  {
    var ws :- CopyOrMake(map[], from, "uploads", steps.uploads);
    CopyOrMake(ws, from, "extensions", steps.extensions)
  }

  /** `package.json` copied when present, and `data.db` copied only for a
      sqlite source that has one. */
  function CopyFiles(ws: Workspace, src: Instance, from: Workspace): (r: Workspace)
    ensures r.Keys == ws.Keys
      + (if "package.json" in from then {"package.json"} else {})
      + (if src.databaseType == SqlText("sqlite") && "data.db" in from then {"data.db"} else {})
    ensures forall n :: n in r && n !in ws ==> n in from && r[n] == from[n]
    ensures forall n :: n in ws && n != "package.json" && n != "data.db" ==> r[n] == ws[n]
  {
    var ws := if "package.json" in from then ws["package.json" := from["package.json"]] else ws;
    if src.databaseType == SqlText("sqlite") && "data.db" in from then ws["data.db" := from["data.db"]] else ws
  }

  /** The source directory as the clone sees it; a missing directory behaves as
      one whose entries are all missing. */
  function SourceDir(s: Store, sourceId: string): Workspace {
    if sourceId in s.dirs then s.dirs[sourceId] else map[]
  }

  /** The checks a clone makes before drawing an id; `None` when they pass. */
  function CloneRejects(s: Store, name: Val, subdomain: Val): (r: Option<Error>)
    ensures r.None? <==> Truthy(name) && Truthy(subdomain) && Bindable(subdomain)
                         && forall o :: o in s.rows ==> o.subdomain != Bind(subdomain)
  {
    if !Truthy(name) || !Truthy(subdomain) then Some(NameAndSubdomainRequired)
    else if !Bindable(subdomain) then Some(CannotBind)
    else if exists o :: o in s.rows && o.subdomain == Bind(subdomain) then Some(SubdomainInUse(JsString(subdomain)))
    else None
  }

  /** The copy stage of a clone: node_modules (when the source has it), then
      uploads and extensions, then the plain files. The result is the clone's
      directory before its `.env` is written, or the failing copy's message.
      What the node_modules copy leaves behind is not modelled. */
  function CloneWorkspace(src: Instance, from: Workspace, steps: CloneSteps): (r: Result<Workspace, string>)
    ensures r.Err? <==> ("node_modules" in from && steps.nodeModules.Fail?) || CopyDirs(from, steps).Err?
  {
    if "node_modules" in from && steps.nodeModules.Fail? then Err(steps.nodeModules.message)
    else
      var ws :- CopyDirs(from, steps);
      Ok(CopyFiles(ws, src, from))
  }

  /** How many notifications a clone has sent when a copy fails: up to the
      node_modules one when that copy fails, up to "Copying uploads and
      extensions..." otherwise. */
  function CopyFailureSent(from: Workspace, steps: CloneSteps): nat {
    if "node_modules" in from then (if steps.nodeModules.Fail? then 4 else 5) else 4
  }

  /** `cloneInstance(sourceId, { name, subdomain }, sendProgress)`. */
  function Clone(s: Store, sourceId: string, name: Val, subdomain: Val, f: Fresh, env: Env, steps: CloneSteps): Run {
    match Find(s.rows, sourceId)
    case None => Run(s, [], Err(SourceNotFound))
    case Some(src) =>
      match CloneRejects(s, name, subdomain)
      case Some(e) => Run(s, ClonePlan(false)[..1], Err(e))
      case None =>
        CloneAt(s, src, SourceDir(s, sourceId), name, Bind(subdomain), f, FindAvailablePort(s.rows, env.startingPort), steps)
  }

  /** The part of a clone after the checks, once the port is chosen, copying
      from the source directory `from`; `sub` is the bound subdomain. */
  function CloneAt(s: Store, src: Instance, from: Workspace, name: Val, sub: Cell, f: Fresh, port: int, steps: CloneSteps): Run {
    var plan := ClonePlan("node_modules" in from);
    match CloneWorkspace(src, from, steps)
    case Err(m) =>
      Abort(s, f.id, map[], plan[..CopyFailureSent(from, steps)], ToolFailed(m))
    case Ok(ws) =>
      var ws := ws[".env" := EnvFileOf(CloneConfig(src, port, f.apiKey), f.key, f.secret)];
      if !Bindable(name) then Abort(s, f.id, ws, plan[..|plan| - 1], CannotBind)
      else
        var row := CloneRow(src, Bind(name), sub, f, port);
        if !Fits(s.rows, row) then Abort(s, f.id, ws, plan[..|plan| - 1], ConstraintFailed)
        else Run(Store(s.rows + [row], s.dirs[f.id := ws]), plan, Ok(row))
  }

  // ---------------------------------------------------------------------------
  // Properties

  /** The drawn id is neither a stored row's id nor an existing directory, as a
      fresh uuid is. */
  predicate FreshId(s: Store, id: string) {
    (forall o :: o in s.rows ==> o.id != id) && id !in s.dirs
  }

  /** No stored row uses the port. */
  predicate PortFree(s: Store, port: int) {
    forall o :: o in s.rows ==> o.port != SqlInt(port)
  }

  /** Progress never goes backwards and stays within 0 to 100. */
  predicate Monotone(ev: seq<Progress>) {
    && (forall i :: 0 <= i < |ev| ==> 0 <= ev[i].percent <= 100)
    && (forall i :: 0 < i < |ev| ==> ev[i - 1].percent <= ev[i].percent)
  }

  /** The cleanup undoes the directory made for a fresh id, whatever it holds. */
  lemma RollbackRestores(s: Store, id: string, ws: Workspace)
    requires FreshId(s, id)
    ensures Rollback(s.(dirs := s.dirs[id := ws]), id) == s
  {
    RemoveIdAbsent(s.rows, id);
    assert s.dirs[id := ws] - {id} == s.dirs;
  }

  /** A create that throws leaves the table and the directories as they were. */
  lemma CreateFailureRestores(s: Store, data: Body, f: Fresh, env: Env, steps: CreateSteps)
    requires FreshId(s, f.id)
    ensures Create(s, data, f, env, steps).result.Err? ==> Create(s, data, f, env, steps).store == s
  {
  }

  /** The inserted row holds the bound request values, the allocated port, a
      fresh api key, `mcp_enabled = 0`, `status = 'stopped'` and the defaults. */
  lemma CreateRowFields(data: Body, f: Fresh, port: int)
    requires AllBindable(CreateValues(data))
    ensures var row := CreateRow(data, f, port);
      && row.id == f.id
      && FromCell(row.name) == Get(data, "name")
      && FromCell(row.subdomain) == Get(data, "subdomain")
      && FromCell(row.customDomain) == OrNull(Get(data, "custom_domain"))
      && FromCell(row.databaseType) == DatabaseTypeOf(data)
      && FromCell(row.adminEmail) == Get(data, "adminEmail")
      && FromCell(row.adminPassword) == Get(data, "adminPassword")
      && row.port == SqlInt(port) && row.apiKey == SqlText(f.apiKey)
      && row.mcpEnabled == SqlInt(0) && row.status == SqlText("stopped") && row.autoReload == SqlInt(1)
      && row.createdAt == SqlText(f.now) && row.updatedAt == SqlText(f.now)
  {
  }

  /** Once the checks pass, the inserted row satisfies the table's constraints
      exactly when its database type is not null: the lookups already ruled out
      a taken subdomain or custom domain, and the allocator a taken port. */
  lemma CreateRowFits(s: Store, data: Body, f: Fresh, port: int)
    requires FreshId(s, f.id) && PortFree(s, port)
    requires CreateRejects(s, data).None? && AllBindable(CreateValues(data))
    ensures Fits(s.rows, CreateRow(data, f, port)) <==> DatabaseTypeOf(data) != Null
  {
    var row := CreateRow(data, f, port);
    forall o | o in s.rows ensures !Clash(o, row) {
      assert o.subdomain != row.subdomain;
      if row.customDomain != SqlNull {
        assert Truthy(Get(data, "custom_domain"));
      }
    }
  }

  /** What a create needs to return a row: the checks pass, both npm commands
      succeed, every inserted value can be bound, and the database type is not
      null. The bootstrap outcome plays no part. */
  predicate CreateCanSucceed(s: Store, data: Body, steps: CreateSteps) {
    && CreateRejects(s, data).None?
    && steps.npmInit.Done? && steps.npmInstall.Done?
    && AllBindable(CreateValues(data))
    && DatabaseTypeOf(data) != Null
  }

  lemma CreateSucceedsIff(s: Store, data: Body, f: Fresh, env: Env, steps: CreateSteps)
    requires FreshId(s, f.id)
    ensures Create(s, data, f, env, steps).result.Ok? <==> CreateCanSucceed(s, data, steps)
  {
    if CreateRejects(s, data).None? && AllBindable(CreateValues(data)) {
      CreateRowFits(s, data, f, FindAvailablePort(s.rows, env.startingPort));
    }
  }

  /** The stage after the checks: a row comes back only when the insert fits,
      and then it is appended, reads back by its id and keeps the table's
      constraints. */
  lemma CreateAtSuccess(s: Store, data: Body, f: Fresh, env: Env, port: int, steps: CreateSteps)
    requires Wf(s.rows) && FreshId(s, f.id)
    ensures var r := CreateAt(s, data, f, env, port, steps);
      r.result.Ok? ==>
        var row := r.result.value;
        && AllBindable(CreateValues(data))
        && row == CreateRow(data, f, port)
        && r.store.rows == s.rows + [row]
        && Wf(r.store.rows)
        && GetInstanceById(r.store, f.id) == Some(row)
  {
    if Install(steps).Ok? && AllBindable(CreateValues(data)) && Fits(s.rows, CreateRow(data, f, port)) {
      var row := CreateRow(data, f, port);
      WfAppend(s.rows, row);
      FindUnique(s.rows + [row], row);
    }
  }

  /** The working directory of a successful create: the other directories are
      untouched, and the new one has `uploads`, `extensions` and the `.env`
      generated from the request, unless the bootstrap wrote its own. */
  lemma CreateAtFiles(s: Store, data: Body, f: Fresh, env: Env, port: int, steps: CreateSteps)
    ensures var r := CreateAt(s, data, f, env, port, steps);
      r.result.Ok? ==>
        && r.store.dirs.Keys == s.dirs.Keys + {f.id}
        && (forall id :: id in s.dirs && id != f.id ==> r.store.dirs[id] == s.dirs[id])
        && "uploads" in r.store.dirs[f.id] && "extensions" in r.store.dirs[f.id] && ".env" in r.store.dirs[f.id]
        && (steps.bootstrap.Failed? || ".env" !in steps.bootstrap.files ==>
              r.store.dirs[f.id][".env"] == EnvFileOf(CreateConfig(data, port, f.apiKey, env), f.key, f.secret))
  {
  }

  /** A create that returns a row stores the row its request describes, with
      the port the allocator chose. */
  lemma CreateSuccess(s: Store, data: Body, f: Fresh, env: Env, steps: CreateSteps)
    requires Wf(s.rows) && FreshId(s, f.id)
    ensures var r := Create(s, data, f, env, steps);
      r.result.Ok? ==>
        var port := FindAvailablePort(s.rows, env.startingPort);
        && CreateRejects(s, data).None?
        && r == CreateAt(s, data, f, env, port, steps)
        && r.result.value.port == SqlInt(port)
        && r.store.rows == s.rows + [r.result.value]
        && Wf(r.store.rows)
  {
    var port := FindAvailablePort(s.rows, env.startingPort);
    CreateAtSuccess(s, data, f, env, port, steps);
  }

  /** The `.env` file is generated from the computed fields overlaid with the
      whole request body: a body that carries its own `port` puts that value in
      the file, while the row keeps the allocated port. */
  lemma CreateEnvPort(data: Body, port: int, f: Fresh, env: Env)
    requires HasKey(data, "port") ==> NoNewline(JsString(Get(data, "port")))
    ensures Setting("PORT", if HasKey(data, "port") then JsString(Get(data, "port")) else IntToString(port))
      in ReadEnv(Contents(EnvFileOf(CreateConfig(data, port, f.apiKey, env), f.key, f.secret)))
  {
    var config := CreateConfig(data, port, f.apiKey, env);
    GetSpread(CreateBase(data, port, f.apiKey, env), data, "port");
    EnvFilePort(config, f.key, f.secret);
  }

  /** The configuration object of a create has no multi-line string when its
      parts have none. */
  lemma CreateConfigSingleLine(data: Body, port: int, apiKey: string, env: Env)
    requires SingleLine(data) && NoNewline(apiKey) && NoNewline(env.hubPort)
    ensures SingleLine(CreateConfig(data, port, apiKey, env))
  {
    CreateBaseSingleLine(data, port, apiKey, env);
    SingleLineSpread(CreateBase(data, port, apiKey, env), data);
  }

  lemma CreateBaseSingleLine(data: Body, port: int, apiKey: string, env: Env)
    requires SingleLine(data) && NoNewline(apiKey) && NoNewline(env.hubPort)
    ensures SingleLine(CreateBase(data, port, apiKey, env))
  {
    SingleLineGet(data, "custom_domain");
    SingleLineGet(data, "subdomain");
    SingleLineGet(data, "databaseType");
    SingleLineGet(data, "adminEmail");
    SingleLineGet(data, "adminPassword");
    assert NoNewline(DefaultPublicUrl(data, env));
  }

  lemma SingleLineSpread(base: Body, over: Body)
    requires SingleLine(base) && SingleLine(over)
    ensures SingleLine(Spread(base, over))
  {
    var c := Spread(base, over);
    forall i | 0 <= i < |c| && c[i].1.Str? ensures NoNewline(c[i].1.s) {
      if i < |over| {
        assert c[i] == over[i];
      } else {
        assert c[i] == base[i - |over|];
      }
    }
  }

  /** A failed bootstrap changes neither the result nor the table. */
  lemma BootstrapFailureSwallowed(s: Store, data: Body, f: Fresh, env: Env, steps: CreateSteps, m: string)
    ensures var a := Create(s, data, f, env, steps);
      var b := Create(s, data, f, env, steps.(bootstrap := Failed(m)));
      a.result == b.result && a.store.rows == b.store.rows
  {
  }

  lemma CreatePlanMonotone(boot: Step)
    ensures Monotone(CreatePlan + [BootstrapNotice(boot)])
  {
  }

  lemma ClonePlanMonotone(nodeModules: bool)
    ensures Monotone(ClonePlan(nodeModules))
  {
  }

  lemma MonotonePrefix(ev: seq<Progress>, k: nat)
    requires Monotone(ev) && k <= |ev|
    ensures Monotone(ev[..k])
  {
  }

  /** A create's notifications are a prefix of the full plan, which rises from
      5 to 95; a create that returns a row has sent all ten. */
  lemma CreateAtProgress(s: Store, data: Body, f: Fresh, env: Env, port: int, steps: CreateSteps)
    ensures var r := CreateAt(s, data, f, env, port, steps);
      var full := CreatePlan + [BootstrapNotice(steps.bootstrap)];
      && Monotone(r.events)
      && |r.events| <= |full| && r.events == full[..|r.events|]
      && (r.result.Ok? <==> r.events == full)
  {
    var full := CreatePlan + [BootstrapNotice(steps.bootstrap)];
    var r := CreateAt(s, data, f, env, port, steps);
    CreateAtSent(s, data, f, env, port, steps);
    CreatePlanMonotone(steps.bootstrap);
    assert CreatePlan[..3] == full[..3] && CreatePlan[..4] == full[..4] && CreatePlan[..8] == full[..8];
    SentPrefix(full, r.events, r.result.Ok?, if r.result.Ok? then |full| else |r.events|);
  }

  /** Where a create after the checks can stop: after installing fails at
      either command, after the row is refused, or at the end. */
  lemma CreateAtSent(s: Store, data: Body, f: Fresh, env: Env, port: int, steps: CreateSteps)
    ensures var r := CreateAt(s, data, f, env, port, steps);
      || (r.result.Err? && (r.events == CreatePlan[..3] || r.events == CreatePlan[..4] || r.events == CreatePlan[..8]))
      || (r.result.Ok? && r.events == CreatePlan + [BootstrapNotice(steps.bootstrap)])
  {
  }

  /** Notifications sent up to some point of a rising plan rise too, and they
      are the whole plan exactly when the call succeeded. */
  lemma SentPrefix(full: seq<Progress>, events: seq<Progress>, ok: bool, k: nat)
    requires Monotone(full) && k <= |full| && events == full[..k]
    requires ok <==> k == |full|
    ensures Monotone(events) && |events| <= |full| && events == full[..|events|]
    ensures ok <==> events == full
  {
    MonotonePrefix(full, k);
    assert ok ==> events == full;
    assert events == full ==> |events| == |full|;
  }

  lemma CreateProgress(s: Store, data: Body, f: Fresh, env: Env, steps: CreateSteps)
    ensures var r := Create(s, data, f, env, steps);
      var full := CreatePlan + [BootstrapNotice(steps.bootstrap)];
      && Monotone(r.events)
      && |r.events| <= |full| && r.events == full[..|r.events|]
      && (r.result.Ok? <==> r.events == full)
  {
    var full := CreatePlan + [BootstrapNotice(steps.bootstrap)];
    CreatePlanMonotone(steps.bootstrap);
    assert CreatePlan[..0] == full[..0] && CreatePlan[..1] == full[..1];
    MonotonePrefix(full, 0);
    MonotonePrefix(full, 1);
    if CreateRejects(s, data).None? {
      CreateAtProgress(s, data, f, env, FindAvailablePort(s.rows, env.startingPort), steps);
    }
  }

  /** A clone that throws leaves the table and the directories as they were. */
  lemma CloneFailureRestores(s: Store, sourceId: string, name: Val, subdomain: Val, f: Fresh, env: Env, steps: CloneSteps)
    requires FreshId(s, f.id)
    ensures var r := Clone(s, sourceId, name, subdomain, f, env, steps);
      r.result.Err? ==> r.store == s
  {
  }

  /** The columns a clone takes from its source. */
  const CopiedColumns: set<Column> :=
    {DatabaseType, DatabaseHost, DatabasePort, DatabaseName, DatabaseUser, DatabasePassword,
     AdminEmail, AdminPassword, McpEnabled}

  /** The cloned row copies the source's database settings, admin credentials
      and MCP flag, and has the requested name and subdomain, the allocated
      port, a fresh api key, no custom domain, `status = 'stopped'` and
      `auto_reload = 1`. */
  lemma CloneRowFields(src: Instance, name: Cell, sub: Cell, f: Fresh, port: int)
    ensures var row := CloneRow(src, name, sub, f, port);
      && row.id == f.id && row.name == name && row.subdomain == sub
      && row.port == SqlInt(port) && row.apiKey == SqlText(f.apiKey)
      && (forall c :: c in CopiedColumns ==> Field(row, c) == Field(src, c))
      && row.customDomain == SqlNull && row.status == SqlText("stopped") && row.autoReload == SqlInt(1)
  {
  }

  /** What a clone needs to return a row: the source exists, the name and
      subdomain are truthy and bindable, the subdomain is free, and every copy
      command that runs succeeds. */
  predicate CloneCanSucceed(s: Store, sourceId: string, name: Val, subdomain: Val, steps: CloneSteps) {
    && Find(s.rows, sourceId).Some?
    && CloneRejects(s, name, subdomain).None? && Bindable(name)
    && CloneWorkspace(Find(s.rows, sourceId).value, SourceDir(s, sourceId), steps).Ok?
  }

  /** After the checks, the clone's row always fits: the source's database type
      is not null, the subdomain was checked, the port is free and the id fresh. */
  lemma CloneRowFits(s: Store, src: Instance, name: Cell, sub: Cell, f: Fresh, port: int)
    requires Wf(s.rows) && src in s.rows && FreshId(s, f.id) && PortFree(s, port)
    requires name != SqlNull && sub != SqlNull && forall o :: o in s.rows ==> o.subdomain != sub
    ensures Fits(s.rows, CloneRow(src, name, sub, f, port))
  {
    var i :| 0 <= i < |s.rows| && s.rows[i] == src;
    assert NotNullOk(s.rows[i]);
  }

  lemma CloneSucceedsIff(s: Store, sourceId: string, name: Val, subdomain: Val, f: Fresh, env: Env, steps: CloneSteps)
    requires Wf(s.rows) && FreshId(s, f.id)
    ensures Clone(s, sourceId, name, subdomain, f, env, steps).result.Ok?
      <==> CloneCanSucceed(s, sourceId, name, subdomain, steps)
  {
    if CloneCanSucceed(s, sourceId, name, subdomain, steps) {
      var src := Find(s.rows, sourceId).value;
      var port := FindAvailablePort(s.rows, env.startingPort);
      CloneRowFits(s, src, Bind(name), Bind(subdomain), f, port);
    }
  }

  /** The stage after the checks: a row comes back only when the insert fits,
      and then it is appended and every stored row, the source's included,
      still reads back; the only new directory is the clone's, holding the
      copied entries and the generated `.env`. */
  lemma CloneAtSuccess(s: Store, src: Instance, from: Workspace, name: Val, sub: Cell, f: Fresh, port: int, steps: CloneSteps)
    requires Wf(s.rows) && FreshId(s, f.id) && src in s.rows
    ensures var r := CloneAt(s, src, from, name, sub, f, port, steps);
      r.result.Ok? ==>
        var row := r.result.value;
        && Bindable(name) && CloneWorkspace(src, from, steps).Ok?
        && row == CloneRow(src, Bind(name), sub, f, port)
        && r.store.rows == s.rows + [row]
        && Wf(r.store.rows)
        && GetInstanceById(r.store, f.id) == Some(row)
        && GetInstanceById(r.store, src.id) == Some(src)
        && r.store.dirs == s.dirs[f.id := CloneWorkspace(src, from, steps).value
             [".env" := EnvFileOf(CloneConfig(src, port, f.apiKey), f.key, f.secret)]]
  {
    if Bindable(name) && CloneWorkspace(src, from, steps).Ok? {
      var row := CloneRow(src, Bind(name), sub, f, port);
      if Fits(s.rows, row) {
        WfAppend(s.rows, row);
        FindUnique(s.rows + [row], row);
        FindUnique(s.rows + [row], src);
      }
    }
  }

  /** A clone that returns a row copied an existing source, whose row is
      unchanged, and used the port the allocator chose. */
  lemma CloneSuccess(s: Store, sourceId: string, name: Val, subdomain: Val, f: Fresh, env: Env, steps: CloneSteps)
    requires Wf(s.rows) && FreshId(s, f.id)
    ensures var r := Clone(s, sourceId, name, subdomain, f, env, steps);
      r.result.Ok? ==>
        && Find(s.rows, sourceId).Some?
        && CloneRejects(s, name, subdomain).None?
        && var src := Find(s.rows, sourceId).value;
        && var port := FindAvailablePort(s.rows, env.startingPort);
        && r == CloneAt(s, src, SourceDir(s, sourceId), name, Bind(subdomain), f, port, steps)
        && r.result.value.port == SqlInt(port)
        && FromCell(r.result.value.subdomain) == subdomain
        && r.store.rows == s.rows + [r.result.value]
        && GetInstanceById(r.store, sourceId) == Some(src)
  {
    var found := Find(s.rows, sourceId);
    if found.Some? && CloneRejects(s, name, subdomain).None? {
      var port := FindAvailablePort(s.rows, env.startingPort);
      CloneAtSuccess(s, found.value, SourceDir(s, sourceId), name, Bind(subdomain), f, port, steps);
    }
  }

  /** A clone's directory: uploads and extensions always, `package.json`
      exactly when the source has one, and `data.db` exactly when the source is
      a sqlite instance with a database file; copied entries are the source's. */
  lemma CloneFiles(src: Instance, from: Workspace, steps: CloneSteps)
    ensures var r := CloneWorkspace(src, from, steps);
      r.Ok? ==>
        var ws := r.value;
        && "uploads" in ws && "extensions" in ws
        && ("package.json" in ws <==> "package.json" in from)
        && ("data.db" in ws <==> src.databaseType == SqlText("sqlite") && "data.db" in from)
        && (forall n :: n in ws && n in from ==> ws[n] == from[n])
  {
  }

  /** A clone's `.env` file points its public URL at `http://localhost:<port>`
      and uses local storage, whatever the source had. */
  lemma CloneEnvFile(src: Instance, port: int, apiKey: string, key: string, secret: string)
    ensures var ls := ReadEnv(Contents(EnvFileOf(CloneConfig(src, port, apiKey), key, secret)));
      && Setting("PUBLIC_URL", "\"http://localhost:" + IntToString(port) + "\"") in ls
      && Setting("STORAGE_LOCATIONS", "\"local\"") in ls
      && Setting("PORT", IntToString(port)) in ls
  {
    var config := CloneConfig(src, port, apiKey);
    GetAbsent(config, "publicUrl");
    GetAbsent(config, "storageAdapter");
    EnvFileLocalDefaults(config, key, secret, port);
  }

  /** A configuration without public URL or storage adapter yields a file with
      `http://localhost:<port>` and local storage. */
  lemma EnvFileLocalDefaults(config: Body, key: string, secret: string, port: int)
    requires Get(config, "port") == Num(port) && Get(config, "publicUrl") == Undefined
    requires Get(config, "storageAdapter") == Undefined
    ensures var ls := ReadEnv(GenerateEnvFile(config, key, secret));
      && Setting("PUBLIC_URL", "\"http://localhost:" + IntToString(port) + "\"") in ls
      && Setting("STORAGE_LOCATIONS", "\"local\"") in ls
      && Setting("PORT", IntToString(port)) in ls
  {
    EnvFilePublicUrl(config, key, secret);
    EnvFileStorageLocal(config, key, secret);
    EnvFilePort(config, key, secret);
  }

  /** A clone's notifications are a prefix of its plan, which rises from 5 to
      95; a clone that returns a row has sent the whole plan. */
  lemma CloneAtProgress(s: Store, src: Instance, from: Workspace, name: Val, sub: Cell, f: Fresh, port: int, steps: CloneSteps)
    ensures var r := CloneAt(s, src, from, name, sub, f, port, steps);
      var plan := ClonePlan("node_modules" in from);
      && Monotone(r.events)
      && |r.events| <= |plan| && r.events == plan[..|r.events|]
      && (r.result.Ok? <==> r.events == plan)
  {
    var plan := ClonePlan("node_modules" in from);
    var r := CloneAt(s, src, from, name, sub, f, port, steps);
    ClonePlanMonotone("node_modules" in from);
    CloneAtSent(s, src, from, name, sub, f, port, steps);
    if r.result.Ok? {
      SentPrefix(plan, r.events, true, |plan|);
    } else {
      SentPrefix(plan, r.events, false, |r.events|);
    }
  }

  /** Where a clone after the checks can stop: at the failed copy, after the
      row is refused, or at the end. */
  lemma CloneAtSent(s: Store, src: Instance, from: Workspace, name: Val, sub: Cell, f: Fresh, port: int, steps: CloneSteps)
    ensures var r := CloneAt(s, src, from, name, sub, f, port, steps);
      var plan := ClonePlan("node_modules" in from);
      || (r.result.Err? && r.events == plan[..CopyFailureSent(from, steps)] && CopyFailureSent(from, steps) < |plan|)
      || (r.result.Err? && r.events == plan[..|plan| - 1])
      || (r.result.Ok? && r.events == plan)
  {
  }

  lemma CloneProgress(s: Store, sourceId: string, name: Val, subdomain: Val, f: Fresh, env: Env, steps: CloneSteps)
    ensures var r := Clone(s, sourceId, name, subdomain, f, env, steps);
      && Monotone(r.events)
      && (r.result.Ok? ==> r.events == ClonePlan("node_modules" in SourceDir(s, sourceId)))
  {
    ClonePlanMonotone(false);
    MonotonePrefix(ClonePlan(false), 1);
    var found := Find(s.rows, sourceId);
    if found.Some? && CloneRejects(s, name, subdomain).None? {
      CloneAtProgress(s, found.value, SourceDir(s, sourceId), name, Bind(subdomain), f,
                      FindAvailablePort(s.rows, env.startingPort), steps);
    }
  }
}
