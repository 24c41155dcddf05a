/**
 * The generator of the application's own `ssh_config` file: one `Host` block per
 * saved host that is not deleted, in the order of the host list.
 */
module SshConfig {
  import opened Wrappers
  import opened Strings
  import opened Models

  /** The options the generator writes inside a block. */
  datatype Keyword = HostName | User | Port | IdentityFile | IdentitiesOnly | ProxyJump | ServerAliveInterval

  /** The start of an option's line: two spaces, the option's name and a space. */
  function SettingPrefix(k: Keyword): string {
    match k
    case HostName => "  HostName "
    case User => "  User "
    case Port => "  Port "
    case IdentityFile => "  IdentityFile "
    case IdentitiesOnly => "  IdentitiesOnly "
    case ProxyJump => "  ProxyJump "
    case ServerAliveInterval => "  ServerAliveInterval "
  }

  /** One line of the generated file: a `Host` line, an indented `Keyword value` line, or an empty line. */
  datatype ConfigLine = HostHeader(alias: string) | Setting(keyword: Keyword, value: string) | BlankLine

  function RenderLine(l: ConfigLine): string {
    match l
    case HostHeader(a) => "Host " + a
    case Setting(k, v) => SettingPrefix(k) + v
    case BlankLine => ""
  }

  /** The text of a sequence of lines, each followed by `\n`. */
  function Render(ls: seq<ConfigLine>): string {
    if ls == [] then [] else RenderLine(ls[0]) + "\n" + Render(ls[1..])
  }

  lemma {:induction false} RenderAppend(a: seq<ConfigLine>, b: seq<ConfigLine>)
    ensures Render(a + b) == Render(a) + Render(b)
  {
    if a == [] {
      assert a + b == b;
    } else {
      assert (a + b)[1..] == a[1..] + b;
      RenderAppend(a[1..], b);
    }
  }

  lemma RenderSnoc(ls: seq<ConfigLine>, l: ConfigLine)
    ensures Render(ls + [l]) == Render(ls) + (RenderLine(l) + "\n")
  {
    RenderAppend(ls, [l]);
  }

  lemma AppendLine(prefix: string, ls: seq<ConfigLine>, l: ConfigLine)
    ensures prefix + Render(ls) + (RenderLine(l) + "\n") == prefix + Render(ls + [l])
  {
    RenderSnoc(ls, l);
  }

  /** The alias written on the `Host` line: the hostname when the alias is blank. */
  function BlockAlias(h: Host): string {
    if IsBlank(h.alias) then h.hostname else h.alias
  }

  /** One `Keyword value` line when there is a value, none otherwise. */
  function OptionalLine(k: Keyword, v: Option<string>): seq<ConfigLine> {
    if v.Some? then [Setting(k, v.value)] else []
  }

  /** The text of `OptionalLine(k, v)`. */
  function OptionalText(k: Keyword, v: Option<string>): string {
    if v.Some? then RenderLine(Setting(k, v.value)) + "\n" else []
  }

  lemma AppendOptional(prefix: string, ls: seq<ConfigLine>, k: Keyword, v: Option<string>)
    ensures prefix + Render(ls) + OptionalText(k, v) == prefix + Render(ls + OptionalLine(k, v))
  {
    if v.Some? {
      AppendLine(prefix, ls, Setting(k, v.value));
    } else {
      assert ls + OptionalLine(k, v) == ls;
    }
  }

  /** The two lines the generator writes as fixed text. */
  lemma FixedLines()
    ensures "  IdentitiesOnly yes\n" == OptionalText(IdentitiesOnly, Some("yes"))
    ensures "  ServerAliveInterval 30\n" == RenderLine(Setting(ServerAliveInterval, "30")) + "\n"
    ensures "\n" == RenderLine(BlankLine) + "\n"
  {
  }

  /** The text of each option line, as the generator spells it. */
  lemma SettingTexts(v: string)
    ensures "  HostName " + v + "\n" == RenderLine(Setting(HostName, v)) + "\n"
    ensures "  User " + v + "\n" == RenderLine(Setting(User, v)) + "\n"
    ensures "  Port " + v + "\n" == RenderLine(Setting(Port, v)) + "\n"
    ensures "  IdentityFile " + v + "\n" == RenderLine(Setting(IdentityFile, v)) + "\n"
    ensures "  ProxyJump " + v + "\n" == RenderLine(Setting(ProxyJump, v)) + "\n"
  {
  }

  /** The string as an optional value: none when it is empty. */
  function NonEmpty(s: string): Option<string> {
    if s != [] then Some(s) else None
  }

  /**
   * The lines of a block from its parts: `Host`, `HostName`, the optional `User`, `Port`,
   * `IdentityFile` (with `IdentitiesOnly yes`) and `ProxyJump` lines, `ServerAliveInterval 30`
   * and an empty line.
   */
  function BlockLinesOf(alias: string, hostname: string, user: Option<string>, port: Option<string>,
                        identityFile: Option<string>, proxyJump: Option<string>): seq<ConfigLine>
  {
    [HostHeader(alias), Setting(HostName, hostname)]
    + OptionalLine(User, user)
    + OptionalLine(Port, port)
    + OptionalLine(IdentityFile, identityFile)
    + OptionalLine(IdentitiesOnly, if identityFile.Some? then Some("yes") else None)
    + OptionalLine(ProxyJump, proxyJump)
    + [Setting(ServerAliveInterval, "30")]
    + [BlankLine]
  }

  /** The port as it is written on a `Port` line: none for the default port 22. */
  function PortValue(port: U16): Option<string> {
    if port != DefaultPort then Some(NatToString(port)) else None
  }

  /** The block of one host, line by line. */
  function BlockLines(h: Host): seq<ConfigLine> {
    BlockLinesOf(BlockAlias(h), h.hostname, NonEmpty(h.user), PortValue(h.port), h.identityFile, h.proxyJump)
  }

  lemma BlockLinesParts(h: Host)
    ensures var identitiesOnly := if h.identityFile.Some? then Some("yes") else None;
      BlockLines(h)
      == [HostHeader(if IsBlank(h.alias) then h.hostname else h.alias), Setting(HostName, h.hostname)]
       + OptionalLine(User, NonEmpty(h.user))
       + OptionalLine(Port, PortValue(h.port))
       + OptionalLine(IdentityFile, h.identityFile)
       + OptionalLine(IdentitiesOnly, identitiesOnly)
       + OptionalLine(ProxyJump, h.proxyJump)
       + [Setting(ServerAliveInterval, "30")]
       + [BlankLine]
  {
  }

  /** The text of one host's block. */
  function HostBlock(h: Host): string {
    Render(BlockLines(h))
  }

  /** The value of a line when it sets the given keyword. */
  function LineValues(l: ConfigLine, keyword: Keyword): seq<string> {
    if l.Setting? && l.keyword == keyword then [l.value] else []
  }

  /** The values of the settings with the given keyword, in order. */
  function Values(ls: seq<ConfigLine>, keyword: Keyword): seq<string> {
    if ls == [] then [] else LineValues(ls[0], keyword) + Values(ls[1..], keyword)
  }

  lemma {:induction false} ValuesAppend(a: seq<ConfigLine>, b: seq<ConfigLine>, keyword: Keyword)
    ensures Values(a + b, keyword) == Values(a, keyword) + Values(b, keyword)
  {
    if a != [] {
      var x := LineValues(a[0], keyword);
      assert (a + b)[0] == a[0] && (a + b)[1..] == a[1..] + b;
      assert Values(a + b, keyword) == x + Values(a[1..] + b, keyword);
      ValuesAppend(a[1..], b, keyword);
      assert Values(a, keyword) == x + Values(a[1..], keyword);
    } else {
      assert a + b == b;
    }
  }

  lemma ValuesOne(l: ConfigLine, keyword: Keyword)
    ensures Values([l], keyword) == if l.Setting? && l.keyword == keyword then [l.value] else []
  {
    assert [l][1..] == [];
  }

  lemma ValuesOptional(k: Keyword, v: Option<string>, keyword: Keyword)
    ensures Values(OptionalLine(k, v), keyword) == if keyword == k && v.Some? then [v.value] else []
  {
    if v.Some? {
      ValuesOne(Setting(k, v.value), keyword);
    }
  }

  /** The values a block gives one keyword: each optional part gives its value under its own keyword. */
  lemma ValuesOfBlockLines(alias: string, hostname: string, user: Option<string>, port: Option<string>,
                           identityFile: Option<string>, proxyJump: Option<string>, k: Keyword)
    ensures Values(BlockLinesOf(alias, hostname, user, port, identityFile, proxyJump), k)
      == (if k == HostName then [hostname] else [])
       + (if k == User && user.Some? then [user.value] else [])
       + (if k == Port && port.Some? then [port.value] else [])
       + (if k == IdentityFile && identityFile.Some? then [identityFile.value] else [])
       + (if k == IdentitiesOnly && identityFile.Some? then ["yes"] else [])
       + (if k == ProxyJump && proxyJump.Some? then [proxyJump.value] else [])
       + (if k == ServerAliveInterval then ["30"] else [])
  {
    var only := if identityFile.Some? then Some("yes") else None;
    var p0 := [HostHeader(alias), Setting(HostName, hostname)];
    var p1, p2, p3, p4, p5 := OptionalLine(User, user), OptionalLine(Port, port),
      OptionalLine(IdentityFile, identityFile), OptionalLine(IdentitiesOnly, only), OptionalLine(ProxyJump, proxyJump);
    var p6, p7 := [Setting(ServerAliveInterval, "30")], [BlankLine];
    var v0 := if k == HostName then [hostname] else [];
    var v1 := if k == User && user.Some? then [user.value] else [];
    var v2 := if k == Port && port.Some? then [port.value] else [];
    var v3 := if k == IdentityFile && identityFile.Some? then [identityFile.value] else [];
    var v4 := if k == IdentitiesOnly && identityFile.Some? then ["yes"] else [];
    var v5 := if k == ProxyJump && proxyJump.Some? then [proxyJump.value] else [];
    var v6 := if k == ServerAliveInterval then ["30"] else [];
    assert Values(p0, k) == v0 by {
      assert Values(p0[1..][1..], k) == [];
    }
    assert Values(p1, k) == v1 by { ValuesOptional(User, user, k); }
    assert Values(p2, k) == v2 by { ValuesOptional(Port, port, k); }
    assert Values(p3, k) == v3 by { ValuesOptional(IdentityFile, identityFile, k); }
    assert Values(p4, k) == v4 by { ValuesOptional(IdentitiesOnly, only, k); }
    assert Values(p5, k) == v5 by { ValuesOptional(ProxyJump, proxyJump, k); }
    assert Values(p6, k) == v6 by { ValuesOne(Setting(ServerAliveInterval, "30"), k); }
    assert Values(p7, k) == [] by { ValuesOne(BlankLine, k); }
    assert BlockLinesOf(alias, hostname, user, port, identityFile, proxyJump) == p0 + p1 + p2 + p3 + p4 + p5 + p6 + p7;
    ValuesOfPieces(p0, p1, p2, p3, p4, p5, p6, p7, k);
    SamePieces(Values(p0, k), Values(p1, k), Values(p2, k), Values(p3, k), Values(p4, k), Values(p5, k),
      Values(p6, k), Values(p7, k), v0, v1, v2, v3, v4, v5, v6);
  }

  /** Pieces equal one by one, the last of them empty, give the same concatenation. */
  lemma SamePieces<T>(a0: seq<T>, a1: seq<T>, a2: seq<T>, a3: seq<T>, a4: seq<T>, a5: seq<T>, a6: seq<T>, a7: seq<T>,
                      b0: seq<T>, b1: seq<T>, b2: seq<T>, b3: seq<T>, b4: seq<T>, b5: seq<T>, b6: seq<T>)
    requires a0 == b0 && a1 == b1 && a2 == b2 && a3 == b3 && a4 == b4 && a5 == b5 && a6 == b6 && a7 == []
    ensures a0 + a1 + a2 + a3 + a4 + a5 + a6 + a7 == b0 + b1 + b2 + b3 + b4 + b5 + b6
  {
    assert a0 + a1 + a2 + a3 + a4 + a5 + a6 + a7 == (a0 + a1 + a2 + a3 + a4 + a5 + a6) + [];
  }

  /** The values of lines put together piece by piece are those of the pieces, in order. */
  lemma ValuesOfPieces(p0: seq<ConfigLine>, p1: seq<ConfigLine>, p2: seq<ConfigLine>, p3: seq<ConfigLine>,
                       p4: seq<ConfigLine>, p5: seq<ConfigLine>, p6: seq<ConfigLine>, p7: seq<ConfigLine>,
                       k: Keyword)
    ensures Values(p0 + p1 + p2 + p3 + p4 + p5 + p6 + p7, k)
      == Values(p0, k) + Values(p1, k) + Values(p2, k) + Values(p3, k)
       + Values(p4, k) + Values(p5, k) + Values(p6, k) + Values(p7, k)
  {
    ValuesAppend(p0, p1, k);
    ValuesAppend(p0 + p1, p2, k);
    ValuesAppend(p0 + p1 + p2, p3, k);
    ValuesAppend(p0 + p1 + p2 + p3, p4, k);
    ValuesAppend(p0 + p1 + p2 + p3 + p4, p5, k);
    ValuesAppend(p0 + p1 + p2 + p3 + p4 + p5, p6, k);
    ValuesAppend(p0 + p1 + p2 + p3 + p4 + p5 + p6, p7, k);
  }

  /** No `Host` line among the lines. */
  predicate NoHeaders(ls: seq<ConfigLine>) {
    forall i :: 0 <= i < |ls| ==> !ls[i].HostHeader?
  }

  /**
   * The shape of a block: a `Host` line first and no other, `HostName` second,
   * `ServerAliveInterval 30` and the empty line last.
   */
  lemma BlockLinesShape(alias: string, hostname: string, user: Option<string>, port: Option<string>,
                        identityFile: Option<string>, proxyJump: Option<string>)
    ensures var r := BlockLinesOf(alias, hostname, user, port, identityFile, proxyJump);
      && |r| >= 4
      && r[0] == HostHeader(alias)
      && r[1] == Setting(HostName, hostname)
      && r[|r| - 2..] == [Setting(ServerAliveInterval, "30"), BlankLine]
      && NoHeaders(r[1..])
  {
    var r := BlockLinesOf(alias, hostname, user, port, identityFile, proxyJump);
    var only := if identityFile.Some? then Some("yes") else None;
    var u, p, i, o, j := OptionalLine(User, user), OptionalLine(Port, port), OptionalLine(IdentityFile, identityFile),
      OptionalLine(IdentitiesOnly, only), OptionalLine(ProxyJump, proxyJump);
    var head := [HostHeader(alias), Setting(HostName, hostname)];
    GroupMiddle(head, u, p, i, o, j);
    MiddleNoHeaders(u, p, i, o, j);
    FramedShape(HostHeader(alias), Setting(HostName, hostname), u + p + i + o + j);
  }

  /** The optional lines hold no `Host` line. */
  lemma MiddleNoHeaders(u: seq<ConfigLine>, p: seq<ConfigLine>, i: seq<ConfigLine>, o: seq<ConfigLine>,
                        j: seq<ConfigLine>)
    requires |u| <= 1 && |p| <= 1 && |i| <= 1 && |o| <= 1 && |j| <= 1
    requires NoHeaders(u) && NoHeaders(p) && NoHeaders(i) && NoHeaders(o) && NoHeaders(j)
    ensures NoHeaders(u + p + i + o + j)
  {
  }

  /** A header, a setting, lines without headers, then the closing two lines. */
  lemma FramedShape(h: ConfigLine, n: ConfigLine, middle: seq<ConfigLine>)
    requires !n.HostHeader? && NoHeaders(middle)
    ensures var r := [h, n] + middle + [Setting(ServerAliveInterval, "30")] + [BlankLine];
      && |r| >= 4 && r[0] == h && r[1] == n
      && r[|r| - 2..] == [Setting(ServerAliveInterval, "30"), BlankLine]
      && NoHeaders(r[1..])
  {
    var tail := [Setting(ServerAliveInterval, "30"), BlankLine];
    var rest := middle + tail;
    var r := [h, n] + middle + [tail[0]] + [tail[1]];
    assert r == [h, n] + rest;
    assert r[1..] == [n] + rest;
    forall k | 0 <= k < |rest|
      ensures !rest[k].HostHeader?
    {
      if k < |middle| {
        assert rest[k] == middle[k];
      } else {
        assert rest[k] == tail[k - |middle|];
      }
    }
    forall k | 0 <= k < |r[1..]|
      ensures !r[1..][k].HostHeader?
    {
      if k > 0 {
        assert r[1..][k] == rest[k - 1];
      }
    }
  }

  /** Five pieces appended after a head, regrouped as one middle part. */
  lemma GroupMiddle<T>(head: seq<T>, a: seq<T>, b: seq<T>, c: seq<T>, d: seq<T>, e: seq<T>)
    ensures head + a + b + c + d + e == head + (a + b + c + d + e)
  {
  }

  /**
   * What a block says: it has a `User` line exactly when the user is non-empty, a `Port`
   * line (the port in decimal) exactly when the port is not 22, `IdentityFile` with
   * `IdentitiesOnly yes` and `ProxyJump` exactly when those are set, and one `HostName`.
   */
  lemma BlockLinesSettings(h: Host)
    ensures var r := BlockLines(h);
      && r[0] == HostHeader(BlockAlias(h))
      && NoHeaders(r[1..])
      && Values(r, HostName) == [h.hostname]
      && Values(r, User) == (if h.user != [] then [h.user] else [])
      && Values(r, Port) == (if h.port != DefaultPort then [NatToString(h.port)] else [])
      && Values(r, IdentityFile) == (if h.identityFile.Some? then [h.identityFile.value] else [])
      && Values(r, IdentitiesOnly) == (if h.identityFile.Some? then ["yes"] else [])
      && Values(r, ProxyJump) == (if h.proxyJump.Some? then [h.proxyJump.value] else [])
      && Values(r, ServerAliveInterval) == ["30"]
  {
    var alias, user, port := BlockAlias(h), NonEmpty(h.user), PortValue(h.port);
    BlockLinesShape(alias, h.hostname, user, port, h.identityFile, h.proxyJump);
    ValuesOfBlockLines(alias, h.hostname, user, port, h.identityFile, h.proxyJump, HostName);
    ValuesOfBlockLines(alias, h.hostname, user, port, h.identityFile, h.proxyJump, User);
    ValuesOfBlockLines(alias, h.hostname, user, port, h.identityFile, h.proxyJump, Port);
    ValuesOfBlockLines(alias, h.hostname, user, port, h.identityFile, h.proxyJump, IdentityFile);
    ValuesOfBlockLines(alias, h.hostname, user, port, h.identityFile, h.proxyJump, IdentitiesOnly);
    ValuesOfBlockLines(alias, h.hostname, user, port, h.identityFile, h.proxyJump, ProxyJump);
    ValuesOfBlockLines(alias, h.hostname, user, port, h.identityFile, h.proxyJump, ServerAliveInterval);
  }

  /** The texts `block(h)` of the hosts `h` that are not deleted, one after the other. */
  function LiveBlocks(hosts: seq<Host>, block: Host -> string): string {
    if hosts == [] then []
    else
      var last := hosts[|hosts| - 1];
      LiveBlocks(hosts[..|hosts| - 1], block) + (if last.deleted then [] else block(last))
  }

  /** The text `generate_ssh_config` writes for the hosts: the blocks of the hosts that are not deleted. */
  function ConfigText(hosts: seq<Host>): string {
    LiveBlocks(hosts, HostBlock)
  }

  lemma ConfigTextStep(hosts: seq<Host>, i: nat)
    requires i < |hosts|
    ensures ConfigText(hosts[..i + 1]) == ConfigText(hosts[..i]) + (if hosts[i].deleted then [] else HostBlock(hosts[i]))
  {
    assert hosts[..i + 1][..i] == hosts[..i];
  }

  /** Writing the text of a line after the text of some lines gives the text of the longer list. */
  lemma ExtendLine(config: string, start: string, ls: seq<ConfigLine>, l: ConfigLine, text: string)
    requires config == start + Render(ls)
    requires text == RenderLine(l) + "\n"
    ensures config + text == start + Render(ls + [l])
  {
    AppendLine(start, ls, l);
  }

  /** The same for an optional line that is there. */
  lemma ExtendOptional(config: string, start: string, ls: seq<ConfigLine>, k: Keyword, v: Option<string>, text: string)
    requires config == start + Render(ls)
    requires v.Some? && text == RenderLine(Setting(k, v.value)) + "\n"
    ensures config + text == start + Render(ls + OptionalLine(k, v))
  {
    AppendLine(start, ls, Setting(k, v.value));
  }

  /** An optional line that is not there adds no text. */
  lemma ExtendAbsent(config: string, start: string, ls: seq<ConfigLine>, k: Keyword, v: Option<string>)
    requires config == start + Render(ls)
    requires v.None?
    ensures config == start + Render(ls + OptionalLine(k, v))
  {
    assert ls + OptionalLine(k, v) == ls;
  }

  /** The body of the generator's loop for a host that is not deleted: its block written after `config`. */
  method WriteHostBlock(config: string, host: Host) returns (out: string)
    ensures out == config + HostBlock(host)
  {
    out := config;
    ghost var start := out;
    var alias := if IsBlank(host.alias) then host.hostname else host.alias;
    ghost var lines: seq<ConfigLine> := [];
    assert out == start + Render(lines);
    ExtendLine(out, start, lines, HostHeader(alias), "Host " + alias + "\n");
    out := out + ("Host " + alias + "\n");
    lines := lines + [HostHeader(alias)];
    SettingTexts(host.hostname);
    ExtendLine(out, start, lines, Setting(HostName, host.hostname), "  HostName " + host.hostname + "\n");
    out := out + ("  HostName " + host.hostname + "\n");
    lines := lines + [Setting(HostName, host.hostname)];
    assert lines == [HostHeader(alias), Setting(HostName, host.hostname)];
    if host.user != [] {
      SettingTexts(host.user);
      ExtendOptional(out, start, lines, User, NonEmpty(host.user), "  User " + host.user + "\n");
      out := out + ("  User " + host.user + "\n");
    } else {
      ExtendAbsent(out, start, lines, User, NonEmpty(host.user));
    }
    lines := lines + OptionalLine(User, NonEmpty(host.user));
    if host.port != DefaultPort {
      SettingTexts(NatToString(host.port));
      ExtendOptional(out, start, lines, Port, PortValue(host.port), "  Port " + NatToString(host.port) + "\n");
      out := out + ("  Port " + NatToString(host.port) + "\n");
    } else {
      ExtendAbsent(out, start, lines, Port, PortValue(host.port));
    }
    lines := lines + OptionalLine(Port, PortValue(host.port));
    ghost var identitiesOnly: Option<string> := if host.identityFile.Some? then Some("yes") else None;
    ghost var withIdentity := lines + OptionalLine(IdentityFile, host.identityFile);
    if host.identityFile.Some? {
      var identityFile := host.identityFile.value;
      SettingTexts(identityFile);
      ExtendOptional(out, start, lines, IdentityFile, host.identityFile, "  IdentityFile " + identityFile + "\n");
      out := out + ("  IdentityFile " + identityFile + "\n");
      FixedLines();
      ExtendOptional(out, start, withIdentity, IdentitiesOnly, identitiesOnly, "  IdentitiesOnly yes\n");
      out := out + "  IdentitiesOnly yes\n";
    } else {
      ExtendAbsent(out, start, lines, IdentityFile, host.identityFile);
      ExtendAbsent(out, start, withIdentity, IdentitiesOnly, identitiesOnly);
    }
    lines := withIdentity + OptionalLine(IdentitiesOnly, identitiesOnly);
    if host.proxyJump.Some? {
      SettingTexts(host.proxyJump.value);
      ExtendOptional(out, start, lines, ProxyJump, host.proxyJump, "  ProxyJump " + host.proxyJump.value + "\n");
      out := out + ("  ProxyJump " + host.proxyJump.value + "\n");
    } else {
      ExtendAbsent(out, start, lines, ProxyJump, host.proxyJump);
    }
    lines := lines + OptionalLine(ProxyJump, host.proxyJump);
    FixedLines();
    ExtendLine(out, start, lines, Setting(ServerAliveInterval, "30"), "  ServerAliveInterval 30\n");
    out := out + "  ServerAliveInterval 30\n";
    lines := lines + [Setting(ServerAliveInterval, "30")];
    ExtendLine(out, start, lines, BlankLine, "\n");
    out := out + "\n";
    lines := lines + [BlankLine];
    BlockLinesParts(host);
  }

  /** `generate_ssh_config` without the final write of the file. */
  method GenerateSshConfig(hosts: seq<Host>) returns (config: string)
    ensures config == ConfigText(hosts)
  {
    config := [];
    for i := 0 to |hosts|
      invariant config == ConfigText(hosts[..i])
    {
      var host := hosts[i];
      ConfigTextStep(hosts, i);
      if host.deleted {
        continue;
      }
      config := WriteHostBlock(config, host);
    }
    assert hosts[..|hosts|] == hosts;
  }

  /** The hosts that are not deleted, in their order. */
  function LiveHosts(hosts: seq<Host>): (r: seq<Host>)
    ensures forall i :: 0 <= i < |r| ==> !r[i].deleted
    ensures |r| <= |hosts|
  {
    if hosts == [] then []
    else
      var last := hosts[|hosts| - 1];
      LiveHosts(hosts[..|hosts| - 1]) + (if last.deleted then [] else [last])
  }

  /** Every host that is not deleted is kept, as many times as it occurs, and no deleted one. */
  lemma {:induction false} LiveHostsCount(hosts: seq<Host>, h: Host)
    ensures multiset(LiveHosts(hosts))[h] == if h.deleted then 0 else multiset(hosts)[h]
  {
    if hosts != [] {
      var init, last := hosts[..|hosts| - 1], hosts[|hosts| - 1];
      assert hosts == init + [last];
      LiveHostsCount(init, h);
    }
  }

  /** The kept hosts stay in their order: those of a list split in two are those of each part. */
  lemma {:induction false} LiveHostsAppend(a: seq<Host>, b: seq<Host>)
    ensures LiveHosts(a + b) == LiveHosts(a) + LiveHosts(b)
  {
    if b == [] {
      assert a + b == a;
    } else {
      var init := b[..|b| - 1];
      assert (a + b)[..|a + b| - 1] == a + init;
      LiveHostsAppend(a, init);
    }
  }

  /** A single host is kept exactly when it is not deleted. */
  lemma LiveHostsOne(h: Host)
    ensures LiveHosts([h]) == if h.deleted then [] else [h]
  {
    assert [h][..0] == [];
  }

  /** The texts `block(h)` of all the given hosts, one after the other. */
  function Blocks(hosts: seq<Host>, block: Host -> string): string {
    if hosts == [] then [] else block(hosts[0]) + Blocks(hosts[1..], block)
  }

  lemma {:induction false} BlocksAppend(a: seq<Host>, b: seq<Host>, block: Host -> string)
    ensures Blocks(a + b, block) == Blocks(a, block) + Blocks(b, block)
  {
    if a != [] {
      assert (a + b)[1..] == a[1..] + b;
      BlocksAppend(a[1..], b, block);
    } else {
      assert a + b == b;
    }
  }

  lemma {:induction false} LiveBlocksOfLiveHosts(hosts: seq<Host>, block: Host -> string)
    ensures LiveBlocks(hosts, block) == Blocks(LiveHosts(hosts), block)
  {
    if hosts != [] {
      var init, last := hosts[..|hosts| - 1], hosts[|hosts| - 1];
      LiveBlocksOfLiveHosts(init, block);
      BlocksAppend(LiveHosts(init), if last.deleted then [] else [last], block);
    }
  }

  lemma {:induction false} LiveBlocksAppend(a: seq<Host>, b: seq<Host>, block: Host -> string)
    ensures LiveBlocks(a + b, block) == LiveBlocks(a, block) + LiveBlocks(b, block)
    decreases |b|
  {
    if b == [] {
      assert a + b == a;
    } else {
      var b' := b[..|b| - 1];
      assert (a + b)[..|a + b| - 1] == a + b';
      assert (a + b)[|a + b| - 1] == b[|b| - 1];
      LiveBlocksAppend(a, b', block);
    }
  }

  lemma {:induction false} LiveBlocksEmptyIff(hosts: seq<Host>, block: Host -> string)
    requires forall h :: block(h) != []
    ensures LiveBlocks(hosts, block) == [] <==> forall i :: 0 <= i < |hosts| ==> hosts[i].deleted
  {
    if hosts != [] {
      var init := hosts[..|hosts| - 1];
      LiveBlocksEmptyIff(init, block);
      assert forall i :: 0 <= i < |init| ==> init[i] == hosts[i];
    }
  }

  /** Every block has text: at least its `Host` line. */
  lemma HostBlockNonEmpty(h: Host)
    ensures HostBlock(h) != []
  {
    BlockLinesShape(BlockAlias(h), h.hostname, NonEmpty(h.user), PortValue(h.port), h.identityFile, h.proxyJump);
  }

  /** The file is the blocks of the non-deleted hosts, in input order; deleted hosts add nothing. */
  lemma ConfigTextIsBlocksOfLiveHosts(hosts: seq<Host>)
    ensures ConfigText(hosts) == Blocks(LiveHosts(hosts), HostBlock)
  {
    LiveBlocksOfLiveHosts(hosts, HostBlock);
  }

  /** Generating for a concatenation of host lists concatenates the two texts. */
  lemma ConfigTextAppend(a: seq<Host>, b: seq<Host>)
    ensures ConfigText(a + b) == ConfigText(a) + ConfigText(b)
  {
    LiveBlocksAppend(a, b, HostBlock);
  }

  /** The file is empty exactly when every host is deleted (in particular for no hosts). */
  lemma ConfigTextEmptyIff(hosts: seq<Host>)
    ensures ConfigText(hosts) == [] <==> forall i :: 0 <= i < |hosts| ==> hosts[i].deleted
  {
    forall h: Host ensures HostBlock(h) != [] {
      HostBlockNonEmpty(h);
    }
    LiveBlocksEmptyIff(hosts, HostBlock);
  }
}
