/** The reverse-proxy configuration (app/lib/caddyService.js): the Caddyfile is
    rewritten as a whole from the instance listing, newest first, with one site
    per instance on `<subdomain>.localhost:<http port>` and one more per custom
    domain, each proxying to the instance's port; and the outcome of a reload
    is classified from the error message. The file's contents are stated over
    the sites a reader recovers from its text. */
module Caddy {
  import opened Wrappers
  import opened Text
  import opened Values
  import opened Errors
  import opened Schema

  /** `process.env.X || fallback`: an unset or empty setting takes the fallback. */
  function Setting(env: Option<string>, fallback: string): (r: string)
    ensures env.Some? && env.value != "" ==> r == env.value
    ensures env.None? || env.value == "" ==> r == fallback
  {
    if env.Some? && env.value != "" then env.value else fallback
  }

  /** The listening ports, from `CADDY_HTTP_PORT` and `CADDY_HTTPS_PORT`. */
  datatype Ports = Ports(http: string, https: string)

  function ProxyPorts(httpEnv: Option<string>, httpsEnv: Option<string>): (p: Ports)
    ensures httpEnv.None? ==> p.http == "8080"
    ensures httpsEnv.None? ==> p.https == "8443"
    ensures p.http != "" && p.https != ""
    ensures httpEnv.Some? && httpEnv.value != "" ==> p.http == httpEnv.value
    ensures httpsEnv.Some? && httpsEnv.value != "" ==> p.https == httpsEnv.value
  {
    Ports(Setting(httpEnv, "8080"), Setting(httpsEnv, "8443"))
  }

  /** The lines of the file's head: two comment lines (`at` is the generation
      timestamp), then the global block. */
  function HeaderLines(ports: Ports, at: string): seq<string> {
    ["# DirectusCloud - Auto-generated Caddyfile", "# Generated at: " + at, "",
     "{", "  http_port " + ports.http, "  https_port " + ports.https, "  auto_https off", "}", ""]
  }

  const ProxyPrefix: string := "  reverse_proxy localhost:"

  /** The lines of one site block, which opens with a blank line: a comment
      naming the instance, the address and the proxy target. */
  function BlockLines(title: string, address: string, upstream: string): seq<string> {
    ["", "# Instance: " + title, address + " {", ProxyPrefix + upstream, "}"]
  }

  /** The head of the file, each line ended by a line break. */
  function Header(ports: Ports, at: string): string {
    Unlines(HeaderLines(ports, at))
  }

  function Block(title: string, address: string, upstream: string): string {
    Unlines(BlockLines(title, address, upstream))
  }

  /** The blocks of one instance: its local subdomain, then its custom domain
      when that is truthy. */
  function InstanceBlocks(row: Instance, ports: Ports): string {
    var name := CellString(row.name);
    var port := CellString(row.port);
    Block(name + " (Local)", CellString(row.subdomain) + ".localhost:" + ports.http, port)
      + if CellTruthy(row.customDomain) then Block(name + " (Custom Domain)", CellString(row.customDomain), port) else ""
  }

  function AllBlocks(rows: seq<Instance>, ports: Ports): string
    decreases |rows|
  {
    if |rows| == 0 then "" else InstanceBlocks(rows[0], ports) + AllBlocks(rows[1..], ports)
  }

  /** `generateCaddyfile()`: the file's text, from the listing of all instances. */
  function Caddyfile(rows: seq<Instance>, ports: Ports, at: string): string {
    Header(ports, at) + AllBlocks(NewestFirst(rows), ports)
  }

  // ---------------------------------------------------------------------------
  // Reading the file back

  /** A site: the address Caddy serves and the local port it proxies to. */
  datatype Route = Route(address: string, upstream: string)

  predicate OpensSite(line: string) {
    |line| >= 2 && line[|line| - 2..] == " {"
  }

  /** The sites of a file, from its lines: an address line ending in ` {`, a
      proxy line, and a closing brace. */
  function ReadSites(lines: seq<string>): seq<Route>
    decreases |lines|
  {
    if |lines| < 3 then []
    else if OpensSite(lines[0]) && IsPrefix(ProxyPrefix, lines[1]) && lines[2] == "}" then
      [Route(lines[0][..|lines[0]| - 2], lines[1][|ProxyPrefix|..])] + ReadSites(lines[3..])
    else ReadSites(lines[1..])
  }

  function ReadCaddyfile(text: string): seq<Route> {
    ReadSites(SplitLines(text))
  }

  /** The sites an instance should have: its local subdomain, and its custom
      domain when that is truthy, both to its port. */
  function LocalRoute(row: Instance, ports: Ports): Route {
    Route(CellString(row.subdomain) + ".localhost:" + ports.http, CellString(row.port))
  }

  function CustomRoute(row: Instance): Route {
    Route(CellString(row.customDomain), CellString(row.port))
  }

  function InstanceRoutes(row: Instance, ports: Ports): seq<Route> {
    [LocalRoute(row, ports)] + if CellTruthy(row.customDomain) then [CustomRoute(row)] else []
  }

  function Routes(rows: seq<Instance>, ports: Ports): seq<Route>
    decreases |rows|
  {
    if |rows| == 0 then [] else InstanceRoutes(rows[0], ports) + Routes(rows[1..], ports)
  }

  /** No text the file shows from a row spans two lines. */
  predicate SingleLineRow(row: Instance) {
    && NoNewline(CellString(row.name)) && NoNewline(CellString(row.subdomain))
    && NoNewline(CellString(row.port)) && NoNewline(CellString(row.customDomain))
  }

  // ---------------------------------------------------------------------------
  // Properties

  /** The text of a line: the header lines and every block line are single
      lines when what they show is. */
  lemma BlockSingleLine(title: string, address: string, upstream: string)
    requires NoNewline(title) && NoNewline(address) && NoNewline(upstream)
    ensures forall i :: 0 <= i < 5 ==> NoNewline(BlockLines(title, address, upstream)[i])
  {
    var ls := BlockLines(title, address, upstream);
    assert ls[1] == "# Instance: " + title;
    assert ls[2] == address + " {";
    assert ls[3] == ProxyPrefix + upstream;
  }

  /** A block reads back as its one site. */
  lemma ReadBlock(title: string, address: string, upstream: string, rest: seq<string>)
    requires |title| >= 1 && title[|title| - 1] == ')'
    ensures ReadSites(BlockLines(title, address, upstream) + rest) == [Route(address, upstream)] + ReadSites(rest)
  {
    var ls := BlockLines(title, address, upstream) + rest;
    var c := "# Instance: " + title;
    assert c[|c| - 1] == ')';
    assert !OpensSite(ls[0]);
    assert !OpensSite(ls[1]);
    assert ReadSites(ls) == ReadSites(ls[1..]);
    assert ReadSites(ls[1..]) == ReadSites(ls[2..]);
    var a := address + " {";
    assert a[|a| - 2..] == " {" && a[..|a| - 2] == address;
    var p := ProxyPrefix + upstream;
    assert p[..|ProxyPrefix|] == ProxyPrefix && p[|ProxyPrefix|..] == upstream;
    assert ls[2..][0] == a && ls[2..][1] == p && ls[2..][2] == "}";
    assert ls[2..][3..] == rest;
  }

  /** A line that does not open a site is passed over. */
  lemma SkipLine(x: string, rest: seq<string>)
    requires !OpensSite(x) || |rest| < 2 || !IsPrefix(ProxyPrefix, rest[0]) || rest[1] != "}"
    ensures ReadSites([x] + rest) == ReadSites(rest)
  {
    assert ([x] + rest)[1..] == rest;
  }

  /** A line that differs from the proxy prefix at `k` is not a proxy line. */
  lemma NotProxyLine(line: string, k: nat)
    requires k < |ProxyPrefix| && k < |line| && line[k] != ProxyPrefix[k]
    ensures !IsPrefix(ProxyPrefix, line)
  {
  }

  /** Lines none of which is a proxy line, followed by a line that is not one
      either, hold no site. */
  lemma {:induction false} SkipLines(pre: seq<string>, rest: seq<string>)
    requires forall i :: 0 <= i < |pre| ==> !IsPrefix(ProxyPrefix, pre[i])
    requires |rest| >= 1 && !IsPrefix(ProxyPrefix, rest[0])
    ensures ReadSites(pre + rest) == ReadSites(rest)
    decreases |pre|
  {
    if |pre| > 0 {
      assert pre + rest == [pre[0]] + (pre[1..] + rest);
      SkipLines(pre[1..], rest);
      if |pre| > 1 {
        assert (pre[1..] + rest)[0] == pre[1];
      }
      SkipLine(pre[0], pre[1..] + rest);
    } else {
      assert pre + rest == rest;
    }
  }

  /** No header line is a proxy line. */
  lemma HeaderNotProxy(ports: Ports, at: string)
    ensures forall i :: 0 <= i < |HeaderLines(ports, at)| ==> !IsPrefix(ProxyPrefix, HeaderLines(ports, at)[i])
  {
    var hl := HeaderLines(ports, at);
    NotProxyLine(hl[0], 0);
    NotProxyLine(hl[1], 0);
    NotProxyLine(hl[4], 2);
    NotProxyLine(hl[5], 2);
    NotProxyLine(hl[6], 2);
  }

  /** The header holds no site. */
  lemma ReadHeader(ports: Ports, at: string, rest: seq<string>)
    requires |rest| >= 1 && rest[0] == ""
    ensures ReadSites(HeaderLines(ports, at) + rest) == ReadSites(rest)
  {
    HeaderNotProxy(ports, at);
    SkipLines(HeaderLines(ports, at), rest);
  }

  function InstanceLines(row: Instance, ports: Ports): seq<string> {
    var name := CellString(row.name);
    var port := CellString(row.port);
    BlockLines(name + " (Local)", CellString(row.subdomain) + ".localhost:" + ports.http, port)
      + if CellTruthy(row.customDomain) then BlockLines(name + " (Custom Domain)", CellString(row.customDomain), port) else []
  }

  function AllLines(rows: seq<Instance>, ports: Ports): seq<string>
    decreases |rows|
  {
    if |rows| == 0 then [] else InstanceLines(rows[0], ports) + AllLines(rows[1..], ports)
  }

  lemma InstanceText(row: Instance, ports: Ports)
    ensures InstanceBlocks(row, ports) == Unlines(InstanceLines(row, ports))
  {
    var name := CellString(row.name);
    var port := CellString(row.port);
    var local := BlockLines(name + " (Local)", CellString(row.subdomain) + ".localhost:" + ports.http, port);
    if CellTruthy(row.customDomain) {
      var custom := BlockLines(name + " (Custom Domain)", CellString(row.customDomain), port);
      UnlinesAppend(local, custom);
    } else {
      assert InstanceLines(row, ports) == local;
    }
  }

  lemma {:induction false} AllText(rows: seq<Instance>, ports: Ports)
    ensures AllBlocks(rows, ports) == Unlines(AllLines(rows, ports))
    decreases |rows|
  {
    if |rows| > 0 {
      InstanceText(rows[0], ports);
      AllText(rows[1..], ports);
      UnlinesAppend(InstanceLines(rows[0], ports), AllLines(rows[1..], ports));
    }
  }

  lemma InstanceLinesSingle(row: Instance, ports: Ports)
    requires SingleLineRow(row) && NoNewline(ports.http)
    ensures forall i :: 0 <= i < |InstanceLines(row, ports)| ==> NoNewline(InstanceLines(row, ports)[i])
  {
    var name := CellString(row.name);
    var port := CellString(row.port);
    var local := BlockLines(name + " (Local)", CellString(row.subdomain) + ".localhost:" + ports.http, port);
    LabelsSingle(name);
    LocalAddressSingle(CellString(row.subdomain), ports.http);
    BlockSingleLine(name + " (Local)", CellString(row.subdomain) + ".localhost:" + ports.http, port);
    if CellTruthy(row.customDomain) {
      var custom := BlockLines(name + " (Custom Domain)", CellString(row.customDomain), port);
      BlockSingleLine(name + " (Custom Domain)", CellString(row.customDomain), port);
      LinesSingleAppend(local, custom);
    } else {
      assert InstanceLines(row, ports) == local;
    }
  }

  lemma LabelsSingle(name: string)
    requires NoNewline(name)
    ensures NoNewline(name + " (Local)") && NoNewline(name + " (Custom Domain)")
  {
    LacksAppend(name, " (Local)", '\n');
    LacksAppend(name, " (Custom Domain)", '\n');
  }

  lemma LocalAddressSingle(sub: string, http: string)
    requires NoNewline(sub) && NoNewline(http)
    ensures NoNewline(sub + ".localhost:" + http)
  {
    LacksAppend(sub, ".localhost:", '\n');
    LacksAppend(sub + ".localhost:", http, '\n');
  }

  lemma {:induction false} AllLinesSingle(rows: seq<Instance>, ports: Ports)
    requires forall o :: o in rows ==> SingleLineRow(o)
    requires NoNewline(ports.http)
    ensures forall i :: 0 <= i < |AllLines(rows, ports)| ==> NoNewline(AllLines(rows, ports)[i])
    decreases |rows|
  {
    if |rows| > 0 {
      InstanceLinesSingle(rows[0], ports);
      AllLinesSingle(rows[1..], ports);
    }
  }

  lemma {:induction false} ReadAll(rows: seq<Instance>, ports: Ports)
    ensures ReadSites(AllLines(rows, ports) + [""]) == Routes(rows, ports)
    ensures |AllLines(rows, ports)| == 0 || AllLines(rows, ports)[0] == ""
    decreases |rows|
  {
    if |rows| > 0 {
      var rest := AllLines(rows[1..], ports) + [""];
      ReadAll(rows[1..], ports);
      AppendAssoc(InstanceLines(rows[0], ports), AllLines(rows[1..], ports), [""]);
      ReadInstance(rows[0], ports, rest);
    }
  }

  /** An instance's blocks read back as its routes, ahead of whatever follows. */
  lemma ReadInstance(row: Instance, ports: Ports, rest: seq<string>)
    ensures ReadSites(InstanceLines(row, ports) + rest) == InstanceRoutes(row, ports) + ReadSites(rest)
    ensures |InstanceLines(row, ports)| > 0 && InstanceLines(row, ports)[0] == ""
  {
    var name := CellString(row.name);
    var port := CellString(row.port);
    var l1 := name + " (Local)";
    var l2 := name + " (Custom Domain)";
    assert l1[|l1| - 1] == ')' && l2[|l2| - 1] == ')';
    var local := BlockLines(l1, CellString(row.subdomain) + ".localhost:" + ports.http, port);
    if CellTruthy(row.customDomain) {
      var custom := BlockLines(l2, CellString(row.customDomain), port);
      AppendAssoc(local, custom, rest);
      ReadBlock(l1, CellString(row.subdomain) + ".localhost:" + ports.http, port, custom + rest);
      ReadBlock(l2, CellString(row.customDomain), port, rest);
    } else {
      assert InstanceLines(row, ports) == local;
      ReadBlock(l1, CellString(row.subdomain) + ".localhost:" + ports.http, port, rest);
    }
  }

  /** The header lines are single lines when the timestamp and ports are. */
  lemma HeaderSingle(ports: Ports, at: string)
    requires NoNewline(ports.http) && NoNewline(ports.https) && NoNewline(at)
    ensures forall i :: 0 <= i < |HeaderLines(ports, at)| ==> NoNewline(HeaderLines(ports, at)[i])
  {
    LacksAppend("# Generated at: ", at, '\n');
    LacksAppend("  http_port ", ports.http, '\n');
    LacksAppend("  https_port ", ports.https, '\n');
  }

  /** The file's lines: the header, the blocks of the listing, and the empty
      remainder after the final line break. */
  lemma CaddyfileLines(rows: seq<Instance>, ports: Ports, at: string)
    requires forall o :: o in rows ==> SingleLineRow(o)
    requires NoNewline(ports.http) && NoNewline(ports.https) && NoNewline(at)
    ensures SplitLines(Caddyfile(rows, ports, at))
      == HeaderLines(ports, at) + AllLines(NewestFirst(rows), ports) + [""]
  {
    var listing := NewestFirst(rows);
    forall o | o in listing ensures SingleLineRow(o) {
      ListingMembers(rows, o);
    }
    var hl := HeaderLines(ports, at);
    var al := AllLines(listing, ports);
    AllText(listing, ports);
    UnlinesAppend(hl, al);
    UnlinesJoin(hl + al);
    HeaderSingle(ports, at);
    AllLinesSingle(listing, ports);
    var ls := hl + al + [""];
    forall i | 0 <= i < |ls| ensures NoNewline(ls[i]) {
      if i < |hl| {
        assert ls[i] == hl[i];
      } else if i < |hl| + |al| {
        assert ls[i] == al[i - |hl|];
      }
    }
    SplitJoinLines(ls);
  }

  /** Reading the generated file back yields exactly the sites of the listing,
      in its order (newest first): each instance's local subdomain, followed by
      its custom domain when it has one, both to the instance's port. Nothing
      else is served, so a deleted instance has no site. */
  lemma CaddyfileSites(rows: seq<Instance>, ports: Ports, at: string)
    requires forall o :: o in rows ==> SingleLineRow(o)
    requires NoNewline(ports.http) && NoNewline(ports.https) && NoNewline(at)
    ensures ReadCaddyfile(Caddyfile(rows, ports, at)) == Routes(NewestFirst(rows), ports)
  {
    var listing := NewestFirst(rows);
    var hl := HeaderLines(ports, at);
    var al := AllLines(listing, ports);
    CaddyfileLines(rows, ports, at);
    ReadAll(listing, ports);
    assert hl + al + [""] == hl + (al + [""]);
    ReadHeader(ports, at, al + [""]);
  }

  /** The sites of a listing are the local site of every instance, and the
      custom-domain site of exactly those with a truthy custom domain. */
  lemma {:induction false} RoutesOfRows(rows: seq<Instance>, ports: Ports)
    ensures forall o :: o in rows ==> LocalRoute(o, ports) in Routes(rows, ports)
    ensures forall o :: o in rows && CellTruthy(o.customDomain) ==> CustomRoute(o) in Routes(rows, ports)
    ensures forall r :: r in Routes(rows, ports) ==>
      exists o :: o in rows && (r == LocalRoute(o, ports) || (CellTruthy(o.customDomain) && r == CustomRoute(o)))
    decreases |rows|
  {
    if |rows| > 0 {
      RoutesOfRows(rows[1..], ports);
      var head := InstanceRoutes(rows[0], ports);
      var tail := Routes(rows[1..], ports);
      assert Routes(rows, ports) == head + tail;
      forall r | r in Routes(rows, ports)
        ensures exists o :: o in rows && (r == LocalRoute(o, ports) || (CellTruthy(o.customDomain) && r == CustomRoute(o)))
      {
        if r in head {
          assert rows[0] in rows;
        } else {
          assert r in tail;
          var o :| o in rows[1..] && (r == LocalRoute(o, ports) || (CellTruthy(o.customDomain) && r == CustomRoute(o)));
          assert o in rows;
        }
      }
    }
  }

  /** Each instance of a table has one local site and at most one more: the
      file has one site per instance plus one per truthy custom domain. */
  function CustomCount(rows: seq<Instance>): nat
    decreases |rows|
  {
    if |rows| == 0 then 0 else (if CellTruthy(rows[0].customDomain) then 1 else 0) + CustomCount(rows[1..])
  }

  lemma {:induction false} RoutesCount(rows: seq<Instance>, ports: Ports)
    ensures |Routes(rows, ports)| == |rows| + CustomCount(rows)
    decreases |rows|
  {
    if |rows| > 0 {
      RoutesCount(rows[1..], ports);
    }
  }

  /** The global block comes first: `http_port`, `https_port` and `auto_https
      off` are lines 5 to 7 of the file. */
  lemma CaddyfileHeader(rows: seq<Instance>, ports: Ports, at: string)
    requires NoNewline(ports.http) && NoNewline(ports.https) && NoNewline(at)
    ensures var ls := SplitLines(Caddyfile(rows, ports, at));
      |ls| > 8 && ls[3] == "{" && ls[4] == "  http_port " + ports.http
      && ls[5] == "  https_port " + ports.https && ls[6] == "  auto_https off" && ls[7] == "}"
  {
    var hl := HeaderLines(ports, at);
    var blocks := AllBlocks(NewestFirst(rows), ports);
    HeaderSingle(ports, at);
    SplitUnlines(hl, blocks);
    HeaderAt(SplitLines(Caddyfile(rows, ports, at)), ports, at, SplitLines(blocks));
  }

  lemma HeaderAt(ls: seq<string>, ports: Ports, at: string, tail: seq<string>)
    requires ls == HeaderLines(ports, at) + tail
    ensures |ls| > 8 && ls[3] == "{" && ls[4] == "  http_port " + ports.http
      && ls[5] == "  https_port " + ports.https && ls[6] == "  auto_https off" && ls[7] == "}"
  {
    var hl := HeaderLines(ports, at);
    assert ls[3] == hl[3] && ls[4] == hl[4] && ls[5] == hl[5] && ls[6] == hl[6] && ls[7] == hl[7];
  }

  // ---------------------------------------------------------------------------
  // Reload

  /** What `reloadCaddy` returns when it does not throw; only the
      not-installed reply carries install instructions. */
  datatype ReloadReply = ReloadReply(success: bool, message: string, installInstructions: Option<string>)

  const InstallHint: string := "Visit https://caddyserver.com/docs/install for installation instructions"

  /** The reply when Caddy is missing. */
  const NotInstalled: ReloadReply := ReloadReply(false, "Caddy not installed", Some(InstallHint))

  /** `reloadCaddy()`: `which caddy`, then `caddy reload --config <path>`, each an
      external step. A failure whose message mentions `which caddy` means Caddy
      is missing and is answered, not thrown; any other failure is thrown with
      a prefix. */
  function ReloadCaddy(path: string, which: Outcome, reload: Outcome): Result<ReloadReply, Error> {
    var failure :=
      if which.Fail? then Some(CommandFailed("which caddy", which.message))
      else if reload.Fail? then Some(CommandFailed("caddy reload --config " + path, reload.message))
      else None;
    match failure
    case None => Ok(ReloadReply(true, "Caddy reloaded successfully", None))
    case Some(m) =>
      if Contains(m, "which caddy") then Ok(NotInstalled)
      else Err(Wrapped("Failed to reload Caddy: ", ToolFailed(m)))
  }

  /** The reload reports success exactly when both steps pass; Caddy missing is
      always the not-installed reply, which is the only unsuccessful reply and
      the only one with install instructions; the call throws exactly when the
      reload step fails with a message that does not mention `which caddy`, and
      then with the prefixed `exec` message. */
  lemma ReloadOutcomes(path: string, which: Outcome, reload: Outcome)
    ensures var r := ReloadCaddy(path, which, reload);
      && (r.Ok? && r.value.success <==> which.Pass? && reload.Pass?)
      && (which.Fail? ==> r == Ok(NotInstalled))
      && (r.Ok? && !r.value.success ==> r.value == NotInstalled)
      && (r.Ok? ==> (r.value.installInstructions.Some? <==> !r.value.success))
      && (r.Err? <==>
            which.Pass? && reload.Fail? && !Contains(CommandFailed("caddy reload --config " + path, reload.message), "which caddy"))
      && (r.Err? ==>
            reload.Fail? && r.error == Wrapped("Failed to reload Caddy: ", ToolFailed(CommandFailed("caddy reload --config " + path, reload.message))))
  {
    if which.Fail? {
      ContainsAt(CommandFailed("which caddy", which.message), "which caddy", 16);
    }
  }
}
