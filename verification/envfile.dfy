/** The `.env` renderer (`generateEnvFile`): a pure function of the
    configuration object and the two random tokens it would otherwise draw
    itself. The file is described as a list of lines, each either fixed text
    (rules, headings, blank lines) or a `NAME=value` setting; a reader that
    splits the text on line breaks and each line at its first `=` recovers that
    list exactly, and the rendering rules are stated over the recovered list. */
module EnvFile {
  import opened Text
  import opened Values

  datatype EnvLine = Plain(text: string) | Setting(name: string, value: string)

  function RenderLine(l: EnvLine): string {
    match l
    case Plain(t) => t
    case Setting(n, v) => n + "=" + v
  }

  /** A line read back: the text before its first `=` names a setting. */
  function ParseLine(s: string): EnvLine {
    var k := IndexOfChar(s, '=');
    if k == |s| then Plain(s) else Setting(s[..k], s[k + 1..])
  }

  /** A line the reader can tell apart: fixed text holds no `=`, a setting's
      name holds no `=`, and nothing spans two lines. */
  predicate Readable(l: EnvLine) {
    match l
    case Plain(t) => Lacks(t, '=') && NoNewline(t)
    case Setting(n, v) => Lacks(n, '=') && NoNewline(n) && NoNewline(v)
  }

  lemma ParseRenderLine(l: EnvLine)
    requires Readable(l)
    ensures ParseLine(RenderLine(l)) == l
    ensures NoNewline(RenderLine(l))
  {
    match l
    case Plain(t) =>
      IndexOfCharMissing(t, '=');
    case Setting(n, v) =>
      var s := n + "=" + v;
      IndexOfCharAfter(n, '=', v);
      assert s[..|n|] == n && s[|n| + 1..] == v;
  }

  function Render(ls: seq<EnvLine>): (r: seq<string>)
    ensures |r| == |ls|
    ensures forall i :: 0 <= i < |ls| ==> r[i] == RenderLine(ls[i])
  {
    seq(|ls|, i requires 0 <= i < |ls| => RenderLine(ls[i]))
  }

  function Parse(lines: seq<string>): (r: seq<EnvLine>)
    ensures |r| == |lines|
    ensures forall i :: 0 <= i < |lines| ==> r[i] == ParseLine(lines[i])
  {
    seq(|lines|, i requires 0 <= i < |lines| => ParseLine(lines[i]))
  }

  /** Ten `#`. */
  const Hashes: string := "##########"

  /** A line of one hundred `#`. */
  const Rule: string := Hashes + Hashes + Hashes + Hashes + Hashes + Hashes + Hashes + Hashes + Hashes + Hashes

  /** `NAME="value"`. */
  function Quoted(name: string, v: Val): EnvLine {
    Setting(name, "\"" + JsString(v) + "\"")
  }

  /** A section: rule, heading, blank line, body, blank line. */
  function Section(heading: string, body: seq<EnvLine>): seq<EnvLine> {
    [Plain(Rule), Plain("## " + heading), Plain("")] + body + [Plain("")]
  }

  /** The `dbConfig` block; an unrecognised database type leaves it empty, which
      still occupies one (blank) line of the template. */
  function DatabaseBlock(config: Body): seq<EnvLine> {
    var t := Get(config, "databaseType");
    if t == Str("sqlite") then
      [Setting("DB_CLIENT", "\"sqlite3\""), Setting("DB_FILENAME", "\"./data.db\"")]
    else if t == Str("postgres") then [Setting("DB_CLIENT", "\"pg\"")] + RemoteLines(config)
    else if t == Str("mysql") then [Setting("DB_CLIENT", "\"mysql\"")] + RemoteLines(config)
    else [Plain("")]
  }

  /** The connection lines shared by postgres and mysql. */
  function RemoteLines(config: Body): seq<EnvLine> {
    [ Quoted("DB_HOST", Get(config, "databaseHost")),
      Quoted("DB_PORT", Get(config, "databasePort")),
      Quoted("DB_DATABASE", Get(config, "databaseName")),
      Quoted("DB_USER", Get(config, "databaseUser")),
      Quoted("DB_PASSWORD", Get(config, "databasePassword"))]
  }

  /** The s3 storage lines; the endpoint line is blank unless an endpoint is given. */
  function S3Block(config: Body): seq<EnvLine> {
    S3Head + S3Keys(config) + [EndpointLine(config)]
  }

  const S3Head: seq<EnvLine> :=
    [Setting("STORAGE_LOCATIONS", "\"s3\""), Setting("STORAGE_S3_DRIVER", "\"s3\"")]

  function S3Keys(config: Body): seq<EnvLine> {
    [ Quoted("STORAGE_S3_KEY", Get(config, "s3Key")),
      Quoted("STORAGE_S3_SECRET", Get(config, "s3Secret")),
      Quoted("STORAGE_S3_BUCKET", Get(config, "s3Bucket")),
      Quoted("STORAGE_S3_REGION", Get(config, "s3Region"))]
  }

  function EndpointLine(config: Body): EnvLine {
    var endpoint := Get(config, "s3Endpoint");
    if Truthy(endpoint) then Quoted("STORAGE_S3_ENDPOINT", endpoint) else Plain("")
  }

  /** The local storage lines. */
  const LocalBlock: seq<EnvLine> :=
    [ Setting("STORAGE_LOCATIONS", "\"local\""),
      Setting("STORAGE_LOCAL_DRIVER", "\"local\""),
      Setting("STORAGE_LOCAL_ROOT", "\"./uploads\"")]

  /** The `storageConfig` block. */
  function StorageBlock(config: Body): seq<EnvLine> {
    if Get(config, "storageAdapter") == Str("s3") then S3Block(config) else LocalBlock
  }

  /** `config.publicUrl || \`http://localhost:${port}\``. */
  function PublicUrl(config: Body): string {
    var url := Get(config, "publicUrl");
    if Truthy(url) then JsString(url) else "http://localhost:" + JsString(Get(config, "port"))
  }

  function GeneralBody(key: string, secret: string): seq<EnvLine> {
    [Setting("KEY", "\"" + key + "\""), Setting("SECRET", "\"" + secret + "\"")]
  }

  function SecurityBody(config: Body): seq<EnvLine> {
    [Quoted("ADMIN_EMAIL", Get(config, "adminEmail")), Quoted("ADMIN_PASSWORD", Get(config, "adminPassword"))]
  }

  function ApiBody(config: Body): seq<EnvLine> {
    [Setting("PUBLIC_URL", "\"" + PublicUrl(config) + "\""), Quoted("API_KEY", Get(config, "apiKey"))]
  }

  function ServerBody(config: Body): seq<EnvLine> {
    [Setting("PORT", JsString(Get(config, "port")))]
  }

  const Uploads: seq<EnvLine> :=
    [Plain(Rule), Plain("## File Uploads"), Plain(""), Setting("MAX_PAYLOAD_SIZE", "\"100mb\""), Plain("")]

  /** The six sections in template order, followed by the uploads section. */
  function Assemble(general: seq<EnvLine>, database: seq<EnvLine>, security: seq<EnvLine>,
                    api: seq<EnvLine>, server: seq<EnvLine>, storage: seq<EnvLine>): seq<EnvLine> {
    Section("General", general)
    + Section("Database", database)
    + Section("Security", security)
    + Section("API", api)
    + Section("Server", server)
    + Section("Storage", storage)
    + Uploads
  }

  /** The template's lines, in order; `key` and `secret` are the two random tokens. */
  function EnvLines(config: Body, key: string, secret: string): seq<EnvLine> {
    Assemble(GeneralBody(key, secret), DatabaseBlock(config), SecurityBody(config),
             ApiBody(config), ServerBody(config), StorageBlock(config))
  }

  /** `generateEnvFile(config)` with the random `KEY` and `SECRET` as inputs. */
  function GenerateEnvFile(config: Body, key: string, secret: string): string {
    JoinLines(Render(EnvLines(config, key, secret)))
  }

  /** The reader applied to a file's text. */
  function ReadEnv(text: string): seq<EnvLine> {
    Parse(SplitLines(text))
  }

  predicate AllReadable(ls: seq<EnvLine>) {
    forall i :: 0 <= i < |ls| ==> Readable(ls[i])
  }

  lemma AllReadableAppend(a: seq<EnvLine>, b: seq<EnvLine>)
    requires AllReadable(a) && AllReadable(b)
    ensures AllReadable(a + b)
  {
    assert forall i :: |a| <= i < |a + b| ==> (a + b)[i] == b[i - |a|];
  }

  lemma RuleReadable()
    ensures Readable(Plain(Rule))
  {
    var h := Hashes;
    LacksAppend(h, h, '=');
    LacksAppend(h + h, h, '=');
    LacksAppend(h + h + h, h, '=');
    LacksAppend(h + h + h + h, h, '=');
    LacksAppend(h + h + h + h + h, h, '=');
    LacksAppend(h + h + h + h + h + h, h, '=');
    LacksAppend(h + h + h + h + h + h + h, h, '=');
    LacksAppend(h + h + h + h + h + h + h + h, h, '=');
    LacksAppend(h + h + h + h + h + h + h + h + h, h, '=');
    LacksAppend(h, h, '\n');
    LacksAppend(h + h, h, '\n');
    LacksAppend(h + h + h, h, '\n');
    LacksAppend(h + h + h + h, h, '\n');
    LacksAppend(h + h + h + h + h, h, '\n');
    LacksAppend(h + h + h + h + h + h, h, '\n');
    LacksAppend(h + h + h + h + h + h + h, h, '\n');
    LacksAppend(h + h + h + h + h + h + h + h, h, '\n');
    LacksAppend(h + h + h + h + h + h + h + h + h, h, '\n');
  }

  lemma SectionReadable(heading: string, body: seq<EnvLine>)
    requires Lacks(heading, '=') && NoNewline(heading) && AllReadable(body)
    ensures AllReadable(Section(heading, body))
  {
    RuleReadable();
    var h := "## " + heading;
    LacksAppend("## ", heading, '=');
    LacksAppend("## ", heading, '\n');
    AllReadableAppend([Plain(Rule), Plain(h), Plain("")], body);
    AllReadableAppend([Plain(Rule), Plain(h), Plain("")] + body, [Plain("")]);
  }

  lemma AssembleReadable(general: seq<EnvLine>, database: seq<EnvLine>, security: seq<EnvLine>,
                         api: seq<EnvLine>, server: seq<EnvLine>, storage: seq<EnvLine>)
    requires AllReadable(general) && AllReadable(database) && AllReadable(security)
    requires AllReadable(api) && AllReadable(server) && AllReadable(storage)
    ensures AllReadable(Assemble(general, database, security, api, server, storage))
  {
    var g := Section("General", general);
    var d := Section("Database", database);
    var sc := Section("Security", security);
    var a := Section("API", api);
    var sv := Section("Server", server);
    var st := Section("Storage", storage);
    FirstSectionsReadable(general, database, security);
    LastSectionsReadable(api, server, storage);
    UploadsReadable();
    AllReadableAppend(g, d);
    AllReadableAppend(g + d, sc);
    AllReadableAppend(g + d + sc, a);
    AllReadableAppend(g + d + sc + a, sv);
    AllReadableAppend(g + d + sc + a + sv, st);
    AllReadableAppend(g + d + sc + a + sv + st, Uploads);
  }

  lemma FirstSectionsReadable(general: seq<EnvLine>, database: seq<EnvLine>, security: seq<EnvLine>)
    requires AllReadable(general) && AllReadable(database) && AllReadable(security)
    ensures AllReadable(Section("General", general)) && AllReadable(Section("Database", database))
    ensures AllReadable(Section("Security", security))
  {
    SectionReadable("General", general);
    SectionReadable("Database", database);
    SectionReadable("Security", security);
  }

  lemma LastSectionsReadable(api: seq<EnvLine>, server: seq<EnvLine>, storage: seq<EnvLine>)
    requires AllReadable(api) && AllReadable(server) && AllReadable(storage)
    ensures AllReadable(Section("API", api)) && AllReadable(Section("Server", server))
    ensures AllReadable(Section("Storage", storage))
  {
    SectionReadable("API", api);
    SectionReadable("Server", server);
    SectionReadable("Storage", storage);
  }

  lemma UploadsReadable()
    ensures AllReadable(Uploads)
  {
    RuleReadable();
    assert Readable(Uploads[1]) && Readable(Uploads[3]);
  }

  /** A setting name the reader can split off: no `=` and no line break. */
  predicate EnvName(name: string) {
    Lacks(name, '=') && NoNewline(name)
  }

  lemma DatabaseNames()
    ensures EnvName("DB_HOST") && EnvName("DB_PORT") && EnvName("DB_USER")
  {
  }

  lemma DatabaseMoreNames()
    ensures EnvName("DB_DATABASE") && EnvName("DB_PASSWORD")
  {
  }

  lemma S3HeadNames()
    ensures EnvName("STORAGE_LOCATIONS") && EnvName("STORAGE_S3_DRIVER")
  {
  }

  lemma S3KeyNames()
    ensures EnvName("STORAGE_S3_KEY") && EnvName("STORAGE_S3_SECRET")
  {
  }

  lemma S3PlaceNames()
    ensures EnvName("STORAGE_S3_BUCKET") && EnvName("STORAGE_S3_REGION")
  {
  }

  lemma S3EndpointName()
    ensures EnvName("STORAGE_S3_ENDPOINT")
  {
  }

  lemma GeneralNames()
    ensures EnvName("KEY") && EnvName("SECRET") && EnvName("API_KEY")
  {
  }

  lemma SecurityNames()
    ensures EnvName("ADMIN_EMAIL") && EnvName("ADMIN_PASSWORD") && EnvName("PUBLIC_URL")
  {
  }

  lemma QuoteReadable(name: string, t: string)
    requires EnvName(name) && NoNewline(t)
    ensures Readable(Setting(name, "\"" + t + "\""))
  {
    LacksAppend("\"", t, '\n');
    LacksAppend("\"" + t, "\"", '\n');
  }

  lemma QuotedReadable(name: string, config: Body, k: string)
    requires SingleLine(config) && EnvName(name)
    ensures Readable(Quoted(name, Get(config, k)))
  {
    SingleLineGet(config, k);
    QuoteReadable(name, JsString(Get(config, k)));
  }

  lemma DatabaseBlockReadable(config: Body)
    requires SingleLine(config)
    ensures AllReadable(DatabaseBlock(config))
  {
    var t := Get(config, "databaseType");
    if t == Str("sqlite") {
      SqliteReadable();
    } else if t == Str("postgres") || t == Str("mysql") {
      var client := if t == Str("postgres") then "\"pg\"" else "\"mysql\"";
      RemoteReadable(config);
      assert Readable(Setting("DB_CLIENT", client));
      PrependReadable(Setting("DB_CLIENT", client), RemoteLines(config));
    } else {
      assert Readable(Plain(""));
    }
  }

  lemma SqliteReadable()
    ensures AllReadable([Setting("DB_CLIENT", "\"sqlite3\""), Setting("DB_FILENAME", "\"./data.db\"")])
  {
    assert Readable(Setting("DB_CLIENT", "\"sqlite3\""));
    assert Readable(Setting("DB_FILENAME", "\"./data.db\""));
  }

  lemma RemoteReadable(config: Body)
    requires SingleLine(config)
    ensures AllReadable(RemoteLines(config))
  {
    DatabaseNames();
    DatabaseMoreNames();
    QuotedReadable("DB_HOST", config, "databaseHost");
    QuotedReadable("DB_PORT", config, "databasePort");
    QuotedReadable("DB_DATABASE", config, "databaseName");
    QuotedReadable("DB_USER", config, "databaseUser");
    QuotedReadable("DB_PASSWORD", config, "databasePassword");
  }

  lemma PrependReadable(l: EnvLine, ls: seq<EnvLine>)
    requires Readable(l) && AllReadable(ls)
    ensures AllReadable([l] + ls)
  {
    assert forall i :: 1 <= i < |[l] + ls| ==> ([l] + ls)[i] == ls[i - 1];
  }

  lemma S3BlockReadable(config: Body)
    requires SingleLine(config)
    ensures AllReadable(S3Block(config))
  {
    S3HeadReadable();
    S3KeysReadable(config);
    S3EndpointName();
    QuotedReadable("STORAGE_S3_ENDPOINT", config, "s3Endpoint");
    assert Readable(Plain(""));
    OneReadable(EndpointLine(config));
    AllReadableAppend(S3Head, S3Keys(config));
    AllReadableAppend(S3Head + S3Keys(config), [EndpointLine(config)]);
  }

  lemma S3HeadReadable()
    ensures AllReadable(S3Head)
  {
    S3HeadNames();
    LineReadable("STORAGE_LOCATIONS", "\"s3\"");
    LineReadable("STORAGE_S3_DRIVER", "\"s3\"");
  }

  lemma S3KeysReadable(config: Body)
    requires SingleLine(config)
    ensures AllReadable(S3Keys(config))
  {
    S3KeyNames();
    S3PlaceNames();
    QuotedReadable("STORAGE_S3_KEY", config, "s3Key");
    QuotedReadable("STORAGE_S3_SECRET", config, "s3Secret");
    QuotedReadable("STORAGE_S3_BUCKET", config, "s3Bucket");
    QuotedReadable("STORAGE_S3_REGION", config, "s3Region");
  }

  lemma LineReadable(name: string, value: string)
    requires EnvName(name) && NoNewline(value)
    ensures Readable(Setting(name, value))
  {
  }

  lemma OneReadable(l: EnvLine)
    requires Readable(l)
    ensures AllReadable([l])
  {
  }

  lemma LocalBlockReadable()
    ensures AllReadable(LocalBlock)
  {
    LocalLinesReadable();
    assert LocalBlock == [LocalBlock[0], LocalBlock[1], LocalBlock[2]];
    ThreeReadable(LocalBlock[0], LocalBlock[1], LocalBlock[2]);
  }

  lemma LocalLinesReadable()
    ensures Readable(LocalBlock[0]) && Readable(LocalBlock[1]) && Readable(LocalBlock[2])
  {
    LocationsLocalReadable();
    LocalDriverReadable();
    LocalRootReadable();
  }

  lemma LocationsLocalReadable()
    ensures Readable(Setting("STORAGE_LOCATIONS", "\"local\""))
  {
    LineReadable("STORAGE_LOCATIONS", "\"local\"");
  }

  lemma LocalDriverReadable()
    ensures Readable(Setting("STORAGE_LOCAL_DRIVER", "\"local\""))
  {
    LineReadable("STORAGE_LOCAL_DRIVER", "\"local\"");
  }

  lemma LocalRootReadable()
    ensures Readable(Setting("STORAGE_LOCAL_ROOT", "\"./uploads\""))
  {
    LineReadable("STORAGE_LOCAL_ROOT", "\"./uploads\"");
  }

  lemma ThreeReadable(a: EnvLine, b: EnvLine, c: EnvLine)
    requires Readable(a) && Readable(b) && Readable(c)
    ensures AllReadable([a, b, c])
  {
  }

  lemma StorageBlockReadable(config: Body)
    requires SingleLine(config)
    ensures AllReadable(StorageBlock(config))
  {
    S3BlockReadable(config);
    LocalBlockReadable();
  }

  lemma ApiBodyReadable(config: Body)
    requires SingleLine(config)
    ensures AllReadable(ApiBody(config))
  {
    SingleLineGet(config, "publicUrl");
    SingleLineGet(config, "port");
    LacksAppend("http://localhost:", JsString(Get(config, "port")), '\n');
    GeneralNames();
    SecurityNames();
    QuoteReadable("PUBLIC_URL", PublicUrl(config));
    QuotedReadable("API_KEY", config, "apiKey");
  }

  /** Every line the template writes is readable when no value spans lines. */
  lemma EnvLinesReadable(config: Body, key: string, secret: string)
    requires SingleLine(config) && NoNewline(key) && NoNewline(secret)
    ensures AllReadable(EnvLines(config, key, secret))
  {
    GeneralNames();
    SecurityNames();
    QuoteReadable("KEY", key);
    QuoteReadable("SECRET", secret);
    DatabaseBlockReadable(config);
    QuotedReadable("ADMIN_EMAIL", config, "adminEmail");
    QuotedReadable("ADMIN_PASSWORD", config, "adminPassword");
    ApiBodyReadable(config);
    SingleLineGet(config, "port");
    StorageBlockReadable(config);
    AssembleReadable(GeneralBody(key, secret), DatabaseBlock(config), SecurityBody(config),
                     ApiBody(config), ServerBody(config), StorageBlock(config));
  }

  /** Reading the rendered file gives back exactly the template's lines. */
  lemma ReadGeneratedEnvFile(config: Body, key: string, secret: string)
    requires SingleLine(config) && NoNewline(key) && NoNewline(secret)
    ensures ReadEnv(GenerateEnvFile(config, key, secret)) == EnvLines(config, key, secret)
  {
    var ls := EnvLines(config, key, secret);
    EnvLinesReadable(config, key, secret);
    forall i | 0 <= i < |ls| ensures NoNewline(Render(ls)[i]) && ParseLine(Render(ls)[i]) == ls[i] {
      ParseRenderLine(ls[i]);
    }
    SplitJoinLines(Render(ls));
  }

  /** The one setting of the uploads section. */
  const MaxPayload: EnvLine := Setting("MAX_PAYLOAD_SIZE", "\"100mb\"")

  lemma SettingInSection(heading: string, body: seq<EnvLine>, l: EnvLine)
    requires l.Setting?
    ensures l in Section(heading, body) <==> l in body
  {
    assert Section(heading, body) == [Plain(Rule), Plain("## " + heading), Plain("")] + body + [Plain("")];
  }

  /** The settings of the assembled file are the settings of its section bodies. */
  lemma SettingInAssemble(general: seq<EnvLine>, database: seq<EnvLine>, security: seq<EnvLine>,
                          api: seq<EnvLine>, server: seq<EnvLine>, storage: seq<EnvLine>, l: EnvLine)
    requires l.Setting?
    ensures l in Assemble(general, database, security, api, server, storage) <==>
            || l in general || l in database || l in security
            || l in api || l in server || l in storage || l == MaxPayload
  {
    SettingInSection("General", general, l);
    SettingInSection("Database", database, l);
    SettingInSection("Security", security, l);
    SettingInSection("API", api, l);
    SettingInSection("Server", server, l);
    SettingInSection("Storage", storage, l);
  }

  /** The names the general, security, API, server and uploads sections set. */
  const FixedNames: set<string> :=
    {"KEY", "SECRET", "ADMIN_EMAIL", "ADMIN_PASSWORD", "PUBLIC_URL", "API_KEY", "PORT", "MAX_PAYLOAD_SIZE"}

  /** A setting whose name no fixed section uses comes from the database or the storage block. */
  lemma SettingOutsideFixed(config: Body, key: string, secret: string, l: EnvLine)
    requires l.Setting? && l.name !in FixedNames
    ensures l in EnvLines(config, key, secret) <==> l in DatabaseBlock(config) || l in StorageBlock(config)
  {
    SettingInAssemble(GeneralBody(key, secret), DatabaseBlock(config), SecurityBody(config),
                      ApiBody(config), ServerBody(config), StorageBlock(config), l);
  }

  /** Some line of the file sets `name`. */
  ghost predicate Sets(ls: seq<EnvLine>, name: string) {
    exists l :: l in ls && l.Setting? && l.name == name
  }

  /** `ls` holds exactly the database and storage settings of `d` and `st`
      among the names no fixed section uses. */
  ghost predicate SplitsInto(ls: seq<EnvLine>, d: seq<EnvLine>, st: seq<EnvLine>) {
    forall l: EnvLine :: l.Setting? && l.name !in FixedNames ==> (l in ls <==> l in d || l in st)
  }

  lemma EnvLinesSplit(config: Body, key: string, secret: string)
    ensures SplitsInto(EnvLines(config, key, secret), DatabaseBlock(config), StorageBlock(config))
  {
    forall l: EnvLine | l.Setting? && l.name !in FixedNames
      ensures l in EnvLines(config, key, secret) <==> l in DatabaseBlock(config) || l in StorageBlock(config)
    {
      SettingOutsideFixed(config, key, secret, l);
    }
  }

  /** A readable line of a rendered list is read back from the text, whatever
      the other lines hold: a line break elsewhere only adds lines around it. */
  lemma ReadsBackLines(ls: seq<EnvLine>, text: string, l: EnvLine)
    requires text == JoinLines(Render(ls)) && l in ls && Readable(l)
    ensures l in ReadEnv(text)
  {
    var i :| 0 <= i < |ls| && ls[i] == l;
    ParseRenderLine(l);
    JoinLinesMember(Render(ls), i);
    var lines := SplitLines(text);
    var j :| 0 <= j < |lines| && lines[j] == RenderLine(l);
    assert ReadEnv(text)[j] == l;
  }

  /** Every readable line of the template is read back from the file. */
  lemma ReadsBack(config: Body, key: string, secret: string, l: EnvLine)
    requires l in EnvLines(config, key, secret) && Readable(l)
    ensures l in ReadEnv(GenerateEnvFile(config, key, secret))
  {
    ReadsBackLines(EnvLines(config, key, secret), GenerateEnvFile(config, key, secret), l);
  }

  /** The server section: the file sets `PORT` to the configured port, unquoted,
      whatever the other values hold. */
  lemma EnvFilePort(config: Body, key: string, secret: string)
    requires NoNewline(JsString(Get(config, "port")))
    ensures Setting("PORT", JsString(Get(config, "port"))) in ReadEnv(GenerateEnvFile(config, key, secret))
  {
    PortInEnvLines(config, key, secret);
    ReadsBack(config, key, secret, Setting("PORT", JsString(Get(config, "port"))));
  }

  lemma PortInEnvLines(config: Body, key: string, secret: string)
    requires NoNewline(JsString(Get(config, "port")))
    ensures Setting("PORT", JsString(Get(config, "port"))) in EnvLines(config, key, secret)
    ensures Readable(Setting("PORT", JsString(Get(config, "port"))))
  {
    LineReadable("PORT", JsString(Get(config, "port")));
    SettingInAssemble(GeneralBody(key, secret), DatabaseBlock(config), SecurityBody(config),
                      ApiBody(config), ServerBody(config), StorageBlock(config),
                      Setting("PORT", JsString(Get(config, "port"))));
  }

  /** `PUBLIC_URL` is the configured public URL when it is truthy, and
      `http://localhost:<port>` otherwise. */
  predicate PublicUrlFacts(ls: seq<EnvLine>, config: Body) {
    var url := Get(config, "publicUrl");
    && (Truthy(url) ==> Setting("PUBLIC_URL", "\"" + JsString(url) + "\"") in ls)
    && (!Truthy(url) ==>
          Setting("PUBLIC_URL", "\"http://localhost:" + JsString(Get(config, "port")) + "\"") in ls)
  }

  lemma ApiBodyPublicUrl(config: Body)
    ensures PublicUrlFacts(ApiBody(config), config)
  {
    LocalUrlQuoted(JsString(Get(config, "port")));
  }

  lemma LocalUrlQuoted(port: string)
    ensures "\"" + ("http://localhost:" + port) + "\"" == "\"http://localhost:" + port + "\""
  {
    assert "\"" + "http://localhost:" == "\"http://localhost:";
  }

  /** The API section's lines are all in the file. */
  lemma ApiInAssemble(general: seq<EnvLine>, database: seq<EnvLine>, security: seq<EnvLine>,
                      api: seq<EnvLine>, server: seq<EnvLine>, storage: seq<EnvLine>)
    ensures forall l :: l in api ==> l in Assemble(general, database, security, api, server, storage)
  {
    forall l | l in api ensures l in Section("API", api) {
      assert Section("API", api) == [Plain(Rule), Plain("## " + "API"), Plain("")] + api + [Plain("")];
    }
  }

  lemma PublicUrlFactsGrow(a: seq<EnvLine>, ls: seq<EnvLine>, config: Body)
    requires PublicUrlFacts(a, config)
    requires forall l :: l in a ==> l in ls
    ensures PublicUrlFacts(ls, config)
  {
  }

  lemma EnvLinesPublicUrl(config: Body, key: string, secret: string)
    ensures PublicUrlFacts(EnvLines(config, key, secret), config)
  {
    ApiBodyPublicUrl(config);
    ApiInAssemble(GeneralBody(key, secret), DatabaseBlock(config), SecurityBody(config),
                  ApiBody(config), ServerBody(config), StorageBlock(config));
    PublicUrlFactsGrow(ApiBody(config), EnvLines(config, key, secret), config);
  }

  /** The file's `PUBLIC_URL` setting, read back whatever the other values hold. */
  lemma EnvFilePublicUrl(config: Body, key: string, secret: string)
    requires NoNewline(JsString(Get(config, "publicUrl"))) && NoNewline(JsString(Get(config, "port")))
    ensures PublicUrlFacts(ReadEnv(GenerateEnvFile(config, key, secret)), config)
  {
    EnvLinesPublicUrl(config, key, secret);
    PublicUrlReadBack(EnvLines(config, key, secret), GenerateEnvFile(config, key, secret), config);
  }

  lemma PublicUrlReadBack(ls: seq<EnvLine>, text: string, config: Body)
    requires text == JoinLines(Render(ls)) && PublicUrlFacts(ls, config)
    requires NoNewline(JsString(Get(config, "publicUrl"))) && NoNewline(JsString(Get(config, "port")))
    ensures PublicUrlFacts(ReadEnv(text), config)
  {
    var url := JsString(Get(config, "publicUrl"));
    var port := JsString(Get(config, "port"));
    if Truthy(Get(config, "publicUrl")) {
      QuotedReadsBack(ls, text, url);
    } else {
      LacksAppend("http://localhost:", port, '\n');
      LocalUrlQuoted(port);
      QuotedReadsBack(ls, text, "http://localhost:" + port);
    }
  }

  /** A `PUBLIC_URL` line with a single-line value is read back. */
  lemma QuotedReadsBack(ls: seq<EnvLine>, text: string, v: string)
    requires text == JoinLines(Render(ls)) && NoNewline(v)
    requires Setting("PUBLIC_URL", "\"" + v + "\"") in ls
    ensures Setting("PUBLIC_URL", "\"" + v + "\"") in ReadEnv(text)
  {
    QuotedSingle(v);
    LineReadable("PUBLIC_URL", "\"" + v + "\"");
    ReadsBackLines(ls, text, Setting("PUBLIC_URL", "\"" + v + "\""));
  }

  lemma QuotedSingle(v: string)
    requires NoNewline(v)
    ensures NoNewline("\"" + v + "\"")
  {
    LacksAppend("\"", v, '\n');
    LacksAppend("\"" + v, "\"", '\n');
  }

  /** Every name the database block can set. */
  const DbSettingNames: set<string> :=
    {"DB_CLIENT", "DB_FILENAME", "DB_HOST", "DB_PORT", "DB_DATABASE", "DB_USER", "DB_PASSWORD"}

  /** The storage block sets no database name. */
  lemma StorageSetsNoDatabase(config: Body, name: string)
    requires name in DbSettingNames
    ensures !Sets(StorageBlock(config), name)
  {
  }

  /** The database settings: sqlite uses the fixed `./data.db`; postgres and
      mysql write host, port, name, user and password; any other type writes no
      database setting at all. */
  ghost predicate DatabaseFacts(ls: seq<EnvLine>, config: Body) {
    var t := Get(config, "databaseType");
    && (Setting("DB_CLIENT", "\"sqlite3\"") in ls <==> t == Str("sqlite"))
    && (Setting("DB_FILENAME", "\"./data.db\"") in ls <==> t == Str("sqlite"))
    && (Setting("DB_CLIENT", "\"pg\"") in ls <==> t == Str("postgres"))
    && (Setting("DB_CLIENT", "\"mysql\"") in ls <==> t == Str("mysql"))
    && (Sets(ls, "DB_HOST") <==> t == Str("postgres") || t == Str("mysql"))
    && (t == Str("postgres") || t == Str("mysql") ==>
          && Quoted("DB_HOST", Get(config, "databaseHost")) in ls
          && Quoted("DB_PORT", Get(config, "databasePort")) in ls
          && Quoted("DB_DATABASE", Get(config, "databaseName")) in ls
          && Quoted("DB_USER", Get(config, "databaseUser")) in ls
          && Quoted("DB_PASSWORD", Get(config, "databasePassword")) in ls)
    && (t != Str("sqlite") && t != Str("postgres") && t != Str("mysql") ==>
          forall name :: name in DbSettingNames ==> !Sets(ls, name))
  }

  /** The database block on its own, case by case. */
  lemma DatabaseBlockSettings(config: Body)
    ensures DatabaseFacts(DatabaseBlock(config), config)
  {
    var b := DatabaseBlock(config);
    var t := Get(config, "databaseType");
    if t == Str("postgres") || t == Str("mysql") {
      assert b[1] == Quoted("DB_HOST", Get(config, "databaseHost"));
    }
  }

  /** Database facts carry over to a file whose other blocks set no database name. */
  lemma DatabaseFactsSplit(ls: seq<EnvLine>, d: seq<EnvLine>, st: seq<EnvLine>, config: Body)
    requires SplitsInto(ls, d, st) && DatabaseFacts(d, config)
    requires forall name :: name in DbSettingNames ==> !Sets(st, name)
    ensures DatabaseFacts(ls, config)
  {
    DatabaseNamesNotFixed();
    forall name | name in DbSettingNames
      ensures Sets(ls, name) <==> Sets(d, name)
    {
      SetsSplit(ls, d, st, name);
    }
  }

  lemma DatabaseNamesNotFixed()
    ensures forall name :: name in DbSettingNames ==> name !in FixedNames
  {
  }

  /** Whether a name other than the fixed ones is set is decided by the two blocks. */
  lemma SetsSplit(ls: seq<EnvLine>, d: seq<EnvLine>, st: seq<EnvLine>, name: string)
    requires SplitsInto(ls, d, st) && name !in FixedNames
    ensures Sets(ls, name) <==> Sets(d, name) || Sets(st, name)
  {
    if Sets(ls, name) {
      var l :| l in ls && l.Setting? && l.name == name;
      assert l in d || l in st;
    }
    if Sets(d, name) {
      var l :| l in d && l.Setting? && l.name == name;
      assert l in ls;
    }
    if Sets(st, name) {
      var l :| l in st && l.Setting? && l.name == name;
      assert l in ls;
    }
  }

  lemma EnvLinesDatabase(config: Body, key: string, secret: string)
    ensures DatabaseFacts(EnvLines(config, key, secret), config)
  {
    DatabaseBlockSettings(config);
    EnvLinesSplit(config, key, secret);
    forall name | name in DbSettingNames
      ensures !Sets(StorageBlock(config), name)
    {
      StorageSetsNoDatabase(config, name);
    }
    DatabaseFactsSplit(EnvLines(config, key, secret), DatabaseBlock(config), StorageBlock(config), config);
  }

  lemma EnvFileDatabase(config: Body, key: string, secret: string)
    requires SingleLine(config) && NoNewline(key) && NoNewline(secret)
    ensures DatabaseFacts(ReadEnv(GenerateEnvFile(config, key, secret)), config)
  {
    ReadGeneratedEnvFile(config, key, secret);
    EnvLinesDatabase(config, key, secret);
  }

  /** Storage is s3 exactly when `storageAdapter === 's3'`, with the endpoint
      line only when an endpoint is given; otherwise it is local. */
  ghost predicate StorageFacts(ls: seq<EnvLine>, config: Body) {
    var s3 := Get(config, "storageAdapter") == Str("s3");
    var endpoint := Get(config, "s3Endpoint");
    && (Setting("STORAGE_LOCATIONS", "\"s3\"") in ls <==> s3)
    && (Setting("STORAGE_LOCATIONS", "\"local\"") in ls <==> !s3)
    && (Sets(ls, "STORAGE_S3_ENDPOINT") <==> s3 && Truthy(endpoint))
    && (s3 && Truthy(endpoint) ==> Quoted("STORAGE_S3_ENDPOINT", endpoint) in ls)
    && (!s3 ==> Setting("STORAGE_LOCAL_ROOT", "\"./uploads\"") in ls && !Sets(ls, "STORAGE_S3_KEY"))
  }

  /** The storage block on its own, case by case. */
  lemma StorageBlockSettings(config: Body)
    ensures StorageFacts(StorageBlock(config), config)
  {
    var b := StorageBlock(config);
    if Get(config, "storageAdapter") == Str("s3") && Truthy(Get(config, "s3Endpoint")) {
      assert b[6] == Quoted("STORAGE_S3_ENDPOINT", Get(config, "s3Endpoint"));
    }
  }

  /** The database block sets no storage name. */
  lemma DatabaseSetsNoStorage(config: Body, name: string)
    requires name in {"STORAGE_LOCATIONS", "STORAGE_S3_ENDPOINT", "STORAGE_LOCAL_ROOT", "STORAGE_S3_KEY"}
    ensures !Sets(DatabaseBlock(config), name)
  {
  }

  /** Storage facts carry over to a file whose other blocks set no storage name. */
  lemma StorageFactsSplit(ls: seq<EnvLine>, d: seq<EnvLine>, st: seq<EnvLine>, config: Body)
    requires SplitsInto(ls, d, st) && StorageFacts(st, config)
    requires !Sets(d, "STORAGE_LOCATIONS") && !Sets(d, "STORAGE_S3_ENDPOINT")
    requires !Sets(d, "STORAGE_LOCAL_ROOT") && !Sets(d, "STORAGE_S3_KEY")
    ensures StorageFacts(ls, config)
  {
    StorageNamesNotFixed();
    SetsSplit(ls, d, st, "STORAGE_LOCATIONS");
    SetsSplit(ls, d, st, "STORAGE_S3_ENDPOINT");
    SetsSplit(ls, d, st, "STORAGE_LOCAL_ROOT");
    SetsSplit(ls, d, st, "STORAGE_S3_KEY");
  }

  lemma StorageNamesNotFixed()
    ensures "STORAGE_LOCATIONS" !in FixedNames && "STORAGE_S3_ENDPOINT" !in FixedNames
    ensures "STORAGE_LOCAL_ROOT" !in FixedNames && "STORAGE_S3_KEY" !in FixedNames
  {
  }

  lemma EnvLinesStorage(config: Body, key: string, secret: string)
    ensures StorageFacts(EnvLines(config, key, secret), config)
  {
    StorageBlockSettings(config);
    EnvLinesSplit(config, key, secret);
    DatabaseSetsNoStorage(config, "STORAGE_LOCATIONS");
    DatabaseSetsNoStorage(config, "STORAGE_S3_ENDPOINT");
    DatabaseSetsNoStorage(config, "STORAGE_LOCAL_ROOT");
    DatabaseSetsNoStorage(config, "STORAGE_S3_KEY");
    StorageFactsSplit(EnvLines(config, key, secret), DatabaseBlock(config), StorageBlock(config), config);
  }

  lemma EnvFileStorage(config: Body, key: string, secret: string)
    requires SingleLine(config) && NoNewline(key) && NoNewline(secret)
    ensures StorageFacts(ReadEnv(GenerateEnvFile(config, key, secret)), config)
  {
    ReadGeneratedEnvFile(config, key, secret);
    EnvLinesStorage(config, key, secret);
  }

  /** Without the s3 adapter the file reads back local storage, whatever the
      other values hold. */
  lemma EnvFileStorageLocal(config: Body, key: string, secret: string)
    requires Get(config, "storageAdapter") != Str("s3")
    ensures Setting("STORAGE_LOCATIONS", "\"local\"") in ReadEnv(GenerateEnvFile(config, key, secret))
  {
    LocalInEnvLines(config, key, secret);
    LocationsLocalReadable();
    ReadsBack(config, key, secret, Setting("STORAGE_LOCATIONS", "\"local\""));
  }

  lemma LocalInEnvLines(config: Body, key: string, secret: string)
    requires Get(config, "storageAdapter") != Str("s3")
    ensures Setting("STORAGE_LOCATIONS", "\"local\"") in EnvLines(config, key, secret)
  {
    EnvLinesStorage(config, key, secret);
  }
}
