/**
 * The agent binary's entry point: flag defaults, the choice between
 * installing and running, and the installer, which guards on the token and
 * the effective uid, copies itself, renders the systemd unit from a fixed
 * template by three ReplaceAll passes, and enables the service.
 */
module Agent {
  import opened Wrappers
  import Text
  import Config

  // ---------------------------------------------------------------------
  // The unit template and its rendering

  /** A placeholder: a name in double braces. */
  function Slot(name: string): string
  {
    "{{" + name + "}}"
  }

  const TokenSlot := Slot("TOKEN")
  const ServerSlot := Slot("SERVER")
  const HostSlot := Slot("HOSTNAME")

  /** The variables the unit sets for the service. */
  const UnitTokenVar := "AGENT_TOKEN"
  const UnitServerVar := "SERVER_ADDR"
  const UnitHostVar := "AGENT_HOSTNAME"

  /** The lines of the unit template, the placeholders left out. */
  const UnitSection := "[Unit]\n"
  const DescriptionLine := "Description=PingVe Agent\n"
  const AfterLine := "After=network.target\n"
  const BlankLine := "\n"
  const ServiceSection := "[Service]\n"
  const ExecStartLine := "ExecStart=/usr/local/bin/pingve-agent\n"
  const RestartLine := "Restart=always\n"
  const UserLine := "User=root\n"
  const TokenEnv := "Environment=" + UnitTokenVar + "="
  const ServerEnv := "Environment=" + UnitServerVar + "="
  const HostEnv := "Environment=" + UnitHostVar + "="
  const InstallSection := "[Install]\n"
  const WantedByLine := "WantedBy=multi-user.target\n"

  /** The template text before, between and after the three placeholders. */
  const Head := UnitSection + DescriptionLine + AfterLine + BlankLine + ServiceSection
    + ExecStartLine + RestartLine + UserLine + TokenEnv
  const TokenToServer := "\n" + ServerEnv
  const ServerToHost := "\n" + HostEnv
  const Tail := "\n" + BlankLine + InstallSection + WantedByLine

  /** Text put together from fixed parts h, x, y, t and places a, b, c. */
  function Join(h: string, a: string, x: string, b: string, y: string, c: string, t: string): string
  {
    h + (a + (x + (b + (y + (c + t)))))
  }

  /** The unit text with a, b and c in the token, server and host places. */
  function Layout(a: string, b: string, c: string): string
  {
    Join(Head, a, TokenToServer, b, ServerToHost, c, Tail)
  }

  /** The unit template: the fixed text with the three placeholders. */
  const ServiceTemplate := Layout(TokenSlot, ServerSlot, HostSlot)

  /** The three substitutions, in the installer's order. */
  function Render(token: string, server: string, host: string): (r: string)
    ensures forall c :: c in r ==> c in ServiceTemplate || c in token || c in server || c in host
  {
    var content := Text.ReplaceAll(ServiceTemplate, TokenSlot, token);
    var content' := Text.ReplaceAll(content, ServerSlot, server);
    Text.ReplaceAllChars(ServiceTemplate, TokenSlot, token);
    Text.ReplaceAllChars(content, ServerSlot, server);
    Text.ReplaceAllChars(content', HostSlot, host);
    Text.ReplaceAll(content', HostSlot, host)
  }

  /** A pattern that starts with a brace and holds no newline and no equals
      sign, like each placeholder. */
  predicate SlotLike(pat: string)
  {
    |pat| > 0 && pat[0] == '{' && '\n' !in pat && '=' !in pat
  }

  /** Fixed parts without braces, each joined to a place at an equals sign
      or a newline. */
  predicate Frame(h: string, x: string, y: string, t: string)
  {
    && '{' !in h && '{' !in x && '{' !in y && '{' !in t
    && |h| > 0 && h[|h| - 1] == '='
    && |x| > 0 && x[0] == '\n' && x[|x| - 1] == '='
    && |y| > 0 && y[0] == '\n' && y[|y| - 1] == '='
    && |t| > 0 && t[0] == '\n'
  }

  lemma NotInJoin(a: string, b: string, c: char)
    requires c !in a && c !in b
    ensures c !in a + b
  {
  }

  lemma HeadLinesBraceFree()
    ensures '{' !in UnitSection && '{' !in DescriptionLine && '{' !in AfterLine && '{' !in BlankLine
  {
  }

  lemma ServiceLinesBraceFree()
    ensures '{' !in ServiceSection && '{' !in RestartLine && '{' !in UserLine && '{' !in TokenEnv
  {
  }

  lemma ExecStartBraceFree()
    ensures '{' !in ExecStartLine
  {
  }

  lemma TailLinesBraceFree()
    ensures '{' !in ServerEnv && '{' !in HostEnv && '{' !in InstallSection && '{' !in WantedByLine
  {
  }

  /** The template's fixed text has no brace and meets each place at an
      equals sign or a newline. */
  lemma TemplateFrame()
    ensures Frame(Head, TokenToServer, ServerToHost, Tail)
  {
    HeadLinesBraceFree();
    ServiceLinesBraceFree();
    ExecStartBraceFree();
    TailLinesBraceFree();
    var s := UnitSection;
    NotInJoin(s, DescriptionLine, '{');
    s := s + DescriptionLine;
    NotInJoin(s, AfterLine, '{');
    s := s + AfterLine;
    NotInJoin(s, BlankLine, '{');
    s := s + BlankLine;
    NotInJoin(s, ServiceSection, '{');
    s := s + ServiceSection;
    NotInJoin(s, ExecStartLine, '{');
    s := s + ExecStartLine;
    NotInJoin(s, RestartLine, '{');
    s := s + RestartLine;
    NotInJoin(s, UserLine, '{');
    s := s + UserLine;
    NotInJoin(s, TokenEnv, '{');
    NotInJoin("\n", ServerEnv, '{');
    NotInJoin("\n", HostEnv, '{');
    NotInJoin("\n", BlankLine, '{');
    NotInJoin("\n" + BlankLine, InstallSection, '{');
    NotInJoin("\n" + BlankLine + InstallSection, WantedByLine, '{');
  }

  /** One pass leaves the fixed text alone and acts on each place on its
      own: no occurrence can begin in the fixed text or straddle a join. */
  lemma {:induction false} PassJoin(h: string, a: string, x: string, b: string, y: string, c: string, t: string,
                                     pat: string, rep: string)
    requires Frame(h, x, y, t) && SlotLike(pat)
    ensures Text.ReplaceAll(Join(h, a, x, b, y, c, t), pat, rep)
      == Join(h, Text.ReplaceAll(a, pat, rep), x, Text.ReplaceAll(b, pat, rep), y, Text.ReplaceAll(c, pat, rep), t)
  {
    Text.ReplaceAllConcat(c, t, pat, rep);
    Text.ReplaceAllIdentity(t, pat, rep);
    Text.ReplaceAllConcat(y, c + t, pat, rep);
    Text.ReplaceAllIdentity(y, pat, rep);
    Text.ReplaceAllConcat(b, y + (c + t), pat, rep);
    Text.ReplaceAllConcat(x, b + (y + (c + t)), pat, rep);
    Text.ReplaceAllIdentity(x, pat, rep);
    Text.ReplaceAllConcat(a, x + (b + (y + (c + t))), pat, rep);
    Text.ReplaceAllConcat(h, a + (x + (b + (y + (c + t)))), pat, rep);
    Text.ReplaceAllIdentity(h, pat, rep);
  }

  /** The placeholders are slot-like. */
  lemma SlotsLike()
    ensures SlotLike(TokenSlot) && SlotLike(ServerSlot) && SlotLike(HostSlot)
  {
  }

  /** A placeholder is replaced by the pass for it. */
  lemma SlotReplaced(pat: string, rep: string)
    requires |pat| > 0
    ensures Text.ReplaceAll(pat, pat, rep) == rep
  {
  }

  /** A placeholder survives the pass for another one whose name starts
      with a different letter. */
  lemma SlotKept(kept: string, other: string, rep: string)
    requires |kept| > 0 && |other| > 0 && kept[0] != other[0] && '{' !in kept + "}}"
    ensures Text.ReplaceAll(Slot(kept), Slot(other), rep) == Slot(kept)
  {
    var s, pat := Slot(kept), Slot(other);
    assert s[2] == kept[0] && pat[2] == other[0];
    assert !(pat <= s);
    assert !(pat <= s[1..]) by { assert s[1..][1] == kept[0] && kept[0] != '{'; }
    assert s[2..] == kept + "}}";
    Text.ReplaceAllIdentity(s[2..], pat, rep);
    assert s[1..][1..] == s[2..];
    assert s == [s[0]] + ([s[1]] + s[2..]);
  }

  /** Each placeholder survives the passes for the others. */
  lemma SlotsKept(rep: string)
    ensures Text.ReplaceAll(ServerSlot, TokenSlot, rep) == ServerSlot
    ensures Text.ReplaceAll(HostSlot, TokenSlot, rep) == HostSlot
    ensures Text.ReplaceAll(HostSlot, ServerSlot, rep) == HostSlot
    ensures Text.ReplaceAll(TokenSlot, ServerSlot, rep) == TokenSlot
    ensures Text.ReplaceAll(TokenSlot, HostSlot, rep) == TokenSlot
    ensures Text.ReplaceAll(ServerSlot, HostSlot, rep) == ServerSlot
  {
    SlotKept("SERVER", "TOKEN", rep);
    SlotKept("HOSTNAME", "TOKEN", rep);
    SlotKept("HOSTNAME", "SERVER", rep);
    SlotKept("TOKEN", "SERVER", rep);
    SlotKept("TOKEN", "HOSTNAME", rep);
    SlotKept("SERVER", "HOSTNAME", rep);
  }

  /** Rendering: the token place receives the token with the server and
      host placeholders in it substituted by the later passes, the server
      place the server with the host placeholder substituted, and the host
      place the host verbatim; the template text is preserved. */
  lemma {:induction false} RenderLayout(token: string, server: string, host: string)
    ensures Render(token, server, host) == Layout(
      Text.ReplaceAll(Text.ReplaceAll(token, ServerSlot, server), HostSlot, host),
      Text.ReplaceAll(server, HostSlot, host),
      host)
  {
    TemplateFrame();
    SlotsLike();
    SlotsKept(token);
    SlotsKept(server);
    PassJoin(Head, TokenSlot, TokenToServer, ServerSlot, ServerToHost, HostSlot, Tail, TokenSlot, token);
    SlotReplaced(TokenSlot, token);
    PassJoin(Head, token, TokenToServer, ServerSlot, ServerToHost, HostSlot, Tail, ServerSlot, server);
    SlotReplaced(ServerSlot, server);
    var t' := Text.ReplaceAll(token, ServerSlot, server);
    PassJoin(Head, t', TokenToServer, server, ServerToHost, HostSlot, Tail, HostSlot, host);
    SlotReplaced(HostSlot, host);
  }

  /** Text holding none of the three placeholders. */
  ghost predicate PlaceholderFree(s: string)
  {
    !Text.Occurs(s, TokenSlot) && !Text.Occurs(s, ServerSlot) && !Text.Occurs(s, HostSlot)
  }

  /** A pattern occurs in no joined text whose parts do not hold it. */
  lemma {:induction false} JoinAvoids(h: string, a: string, x: string, b: string, y: string, c: string, t: string,
                                      pat: string)
    requires Frame(h, x, y, t) && SlotLike(pat)
    requires !Text.Occurs(a, pat) && !Text.Occurs(b, pat) && !Text.Occurs(c, pat)
    ensures !Text.Occurs(Join(h, a, x, b, y, c, t), pat)
  {
    Text.NotOccursWithoutFirst(t, pat);
    Text.NotOccursConcat(c, t, pat);
    Text.NotOccursWithoutFirst(y, pat);
    Text.NotOccursConcat(y, c + t, pat);
    Text.NotOccursConcat(b, y + (c + t), pat);
    Text.NotOccursWithoutFirst(x, pat);
    Text.NotOccursConcat(x, b + (y + (c + t)), pat);
    Text.NotOccursConcat(a, x + (b + (y + (c + t))), pat);
    Text.NotOccursWithoutFirst(h, pat);
    Text.NotOccursConcat(h, a + (x + (b + (y + (c + t)))), pat);
  }

  /** With placeholder-free values the unit holds exactly those values in
      their places, and no placeholder is left in it. */
  lemma RenderPlain(token: string, server: string, host: string)
    requires PlaceholderFree(token) && PlaceholderFree(server) && PlaceholderFree(host)
    ensures Render(token, server, host) == Layout(token, server, host)
    ensures PlaceholderFree(Render(token, server, host))
  {
    RenderLayout(token, server, host);
    Text.ReplaceAllNoOccurrence(token, ServerSlot, server);
    Text.ReplaceAllNoOccurrence(token, HostSlot, host);
    Text.ReplaceAllNoOccurrence(server, HostSlot, host);
    TemplateFrame();
    SlotsLike();
    JoinAvoids(Head, token, TokenToServer, server, ServerToHost, host, Tail, TokenSlot);
    JoinAvoids(Head, token, TokenToServer, server, ServerToHost, host, Tail, ServerSlot);
    JoinAvoids(Head, token, TokenToServer, server, ServerToHost, host, Tail, HostSlot);
  }

  /** A joined text holds each of its places. */
  lemma JoinHoldsServerPlace(h: string, a: string, x: string, b: string, y: string, c: string, t: string)
    ensures Text.Occurs(Join(h, a, x, b, y, c, t), b)
  {
    var s := Join(h, a, x, b, y, c, t);
    var at := |h| + |a| + |x|;
    assert s[at..][..|b|] == b;
  }

  /** The order of the passes shows: a token that is the server placeholder
      comes out as the server. */
  lemma RenderTokenTakesServer(server: string, host: string)
    requires PlaceholderFree(server)
    ensures Render(ServerSlot, server, host) == Layout(server, server, host)
  {
    RenderLayout(ServerSlot, server, host);
    SlotReplaced(ServerSlot, server);
    Text.ReplaceAllNoOccurrence(server, HostSlot, host);
  }

  /** The order of the passes shows: a server that is the token placeholder
      survives into the unit, because the token pass has already run. */
  lemma RenderServerKeepsTokenSlot(token: string, host: string)
    requires PlaceholderFree(token)
    ensures Render(token, TokenSlot, host) == Layout(token, TokenSlot, host)
    ensures Text.Occurs(Render(token, TokenSlot, host), TokenSlot)
  {
    RenderLayout(token, TokenSlot, host);
    Text.ReplaceAllNoOccurrence(token, ServerSlot, TokenSlot);
    Text.ReplaceAllNoOccurrence(token, HostSlot, host);
    SlotsKept(host);
    JoinHoldsServerPlace(Head, token, TokenToServer, TokenSlot, ServerToHost, host, Tail);
  }

  // ---------------------------------------------------------------------
  // The installer

  const BinPath := "/usr/local/bin/pingve-agent"
  const ServicePath := "/etc/systemd/system/pingve-agent.service"

  /** What the installer's environment answers: the effective uid, whether
      the own executable is found and read, whether each write and systemctl
      call succeeds, and the OS hostname. */
  datatype InstallEnv = InstallEnv(
    euid: int,
    selfPathOk: bool,
    readSelfOk: bool,
    copyOk: bool,
    osHostname: string,
    unitWriteOk: bool,
    reloadOk: bool,
    enableOk: bool)

  /** A side effect the installer attempts. */
  datatype Effect =
    | StopService
    | WriteBinary(path: string)
    | WriteUnit(path: string, content: string)
    | DaemonReload
    | EnableNow

  datatype InstallError =
    | MissingToken
    | NotRoot
    | SelfNotFound
    | ReadSelfFailed
    | CopyFailed
    | UnitWriteFailed
    | ReloadFailed
    | EnableFailed

  /** How the installer ended: None on success, else the fatal error. */
  type InstallOutcome = Option<InstallError>

  /** The host written into the unit: the -host value, else the OS name. */
  function UnitHost(hostArg: string, osHostname: string): string
  {
    if hostArg != "" then hostArg else osHostname
  }

  /** Every effect of a successful install, in order. */
  function InstallPlan(token: string, server: string, hostArg: string, osHostname: string): seq<Effect>
  {
    [StopService, WriteBinary(BinPath),
     WriteUnit(ServicePath, Render(token, server, UnitHost(hostArg, osHostname))),
     DaemonReload, EnableNow]
  }

  /** The token and root checks both pass. */
  predicate PastGuards(token: string, env: InstallEnv)
  {
    token != "" && env.euid == 0
  }

  /** runInstall. The effects are always a prefix of the plan: the guards
      stop the installer before anything is written, and each later
      failure stops it right after the step that failed. */
  method RunInstall(token: string, server: string, hostArg: string, env: InstallEnv)
    returns (outcome: InstallOutcome, effects: seq<Effect>)
    ensures effects <= InstallPlan(token, server, hostArg, env.osHostname)
    ensures token == "" ==> outcome == Some(MissingToken) && effects == []
    ensures token != "" && env.euid != 0 ==> outcome == Some(NotRoot) && effects == []
    ensures PastGuards(token, env) && !env.selfPathOk ==> outcome == Some(SelfNotFound) && effects == []
    ensures PastGuards(token, env) && env.selfPathOk && !env.readSelfOk ==>
      outcome == Some(ReadSelfFailed) && effects == InstallPlan(token, server, hostArg, env.osHostname)[..1]
    ensures PastGuards(token, env) && env.selfPathOk && env.readSelfOk && !env.copyOk ==>
      outcome == Some(CopyFailed) && effects == InstallPlan(token, server, hostArg, env.osHostname)[..2]
    ensures PastGuards(token, env) && env.selfPathOk && env.readSelfOk && env.copyOk && !env.unitWriteOk ==>
      outcome == Some(UnitWriteFailed) && effects == InstallPlan(token, server, hostArg, env.osHostname)[..3]
    ensures (PastGuards(token, env) && env.selfPathOk && env.readSelfOk && env.copyOk && env.unitWriteOk
             && !env.reloadOk) ==>
      outcome == Some(ReloadFailed) && effects == InstallPlan(token, server, hostArg, env.osHostname)[..4]
    ensures (PastGuards(token, env) && env.selfPathOk && env.readSelfOk && env.copyOk && env.unitWriteOk
             && env.reloadOk && !env.enableOk) ==>
      outcome == Some(EnableFailed) && effects == InstallPlan(token, server, hostArg, env.osHostname)
    ensures outcome.None? <==>
      PastGuards(token, env) && env.selfPathOk && env.readSelfOk && env.copyOk
      && env.unitWriteOk && env.reloadOk && env.enableOk
    ensures outcome.None? ==> effects == InstallPlan(token, server, hostArg, env.osHostname)
  {
    effects := [];
    if token == "" {
      return Some(MissingToken), effects;
    }
    if env.euid != 0 {
      return Some(NotRoot), effects;
    }
    if !env.selfPathOk {
      return Some(SelfNotFound), effects;
    }
    effects := effects + [StopService];
    if !env.readSelfOk {
      return Some(ReadSelfFailed), effects;
    }
    effects := effects + [WriteBinary(BinPath)];
    if !env.copyOk {
      return Some(CopyFailed), effects;
    }
    var finalHost := hostArg;
    if finalHost == "" {
      finalHost := env.osHostname;
    }
    var content := Text.ReplaceAll(ServiceTemplate, TokenSlot, token);
    content := Text.ReplaceAll(content, ServerSlot, server);
    content := Text.ReplaceAll(content, HostSlot, finalHost);
    effects := effects + [WriteUnit(ServicePath, content)];
    if !env.unitWriteOk {
      return Some(UnitWriteFailed), effects;
    }
    effects := effects + [DaemonReload];
    if !env.reloadOk {
      return Some(ReloadFailed), effects;
    }
    effects := effects + [EnableNow];
    if !env.enableOk {
      return Some(EnableFailed), effects;
    }
    outcome := None;
  }

  /** The installed unit carries the -host value when one is given, else
      the OS hostname, whatever that value holds. */
  lemma UnitCarriesHost(token: string, server: string, hostArg: string, osHostname: string)
    requires PlaceholderFree(token) && PlaceholderFree(server)
    ensures InstallPlan(token, server, hostArg, osHostname)[2].content
      == Layout(token, server, if hostArg != "" then hostArg else osHostname)
  {
    var host := UnitHost(hostArg, osHostname);
    RenderLayout(token, server, host);
    Text.ReplaceAllNoOccurrence(token, ServerSlot, server);
    Text.ReplaceAllNoOccurrence(token, HostSlot, host);
    Text.ReplaceAllNoOccurrence(server, HostSlot, host);
  }

  // ---------------------------------------------------------------------
  // Flags and the entry point

  const DefaultServer := "localhost:50051"

  /** The flags given on the command line; parse errors are not modelled. */
  datatype FlagArgs = FlagArgs(
    install: Option<bool>, token: Option<string>, server: Option<string>, host: Option<string>)

  datatype Flags = Flags(install: bool, token: string, server: string, host: string)

  function OrElse<T>(o: Option<T>, default: T): T
  {
    if o.Some? then o.value else default
  }

  /** The flag values after parsing, defaults filled in. */
  function ParseFlags(args: FlagArgs): (f: Flags)
    ensures f.install <==> args.install == Some(true)
    ensures args.server.None? ==> f.server == DefaultServer
    ensures args.server.Some? ==> f.server == args.server.value
    ensures args.token.None? ==> f.token == ""
    ensures args.token.Some? ==> f.token == args.token.value
    ensures args.host.None? ==> f.host == ""
    ensures args.host.Some? ==> f.host == args.host.value
  {
    Flags(OrElse(args.install, false), OrElse(args.token, ""), OrElse(args.server, DefaultServer), OrElse(args.host, ""))
  }

  /** What main goes on to do. */
  datatype Mode =
    | Install(token: string, server: string, host: string)
    | RunWorker(cfg: Config.Config)

  /** main: with -install it runs the installer with the flag values and
      never starts the worker; otherwise it starts the worker with the
      configuration read from the environment, ignoring the install flags. */
  function ChooseMode(args: FlagArgs, env: map<string, string>): (m: Mode)
    ensures m.Install? <==> args.install == Some(true)
    ensures m.Install? ==> m == Install(OrElse(args.token, ""), OrElse(args.server, DefaultServer), OrElse(args.host, ""))
    ensures m.RunWorker? ==> m.cfg == Config.LoadConfig(env)
  {
    var f := ParseFlags(args);
    if f.install then Install(f.token, f.server, f.host) else RunWorker(Config.LoadConfig(env))
  }

  /** A value systemd reads back verbatim from an Environment= line: no
      whitespace or quote (which split or quote assignments), no backslash
      (an escape), no '%' (a specifier) and no control character such as a
      newline (which ends the directive). */
  predicate UnitSafe(v: string)
  {
    forall i :: 0 <= i < |v| ==> v[i] > ' ' && v[i] !in "\"'\\%" && v[i] != '\U{7F}'
  }

  /** The environment systemd gives the service of a unit rendered from
      these values, when each is read back verbatim: each variable holds
      what RenderLayout puts in its place. */
  function UnitEnvironment(token: string, server: string, host: string): map<string, string>
    requires UnitSafe(token) && UnitSafe(server) && UnitSafe(host)
  {
    map[UnitTokenVar := Text.ReplaceAll(Text.ReplaceAll(token, ServerSlot, server), HostSlot, host),
        UnitServerVar := Text.ReplaceAll(server, HostSlot, host),
        UnitHostVar := host]
  }

  /** The unit sets AGENT_TOKEN, SERVER_ADDR and AGENT_HOSTNAME, but the
      agent reads PINGVE_TOKEN, PINGVE_SERVER and PINGVE_SECURE: started by
      the unit, the agent gets an empty token and address for any values
      systemd reads back verbatim. */
  lemma UnitEnvironmentNotRead(token: string, server: string, host: string)
    requires UnitSafe(token) && UnitSafe(server) && UnitSafe(host)
    ensures Config.LoadConfig(UnitEnvironment(token, server, host)) == Config.Config("", "", false)
  {
  }
}
