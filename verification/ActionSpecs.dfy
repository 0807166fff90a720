/** The last stage of an accepted proposal: scope checks, argv rendering and the runner's own checks. */
module ActionSpecs {
  import opened Wrappers
  import opened JsonValues
  import opened Recommendation
  import opened ActionNames
  import opened Registry
  import opened Numerals
  import opened CommandReader

  datatype Ip = V4(n: nat) | V6(n: nat)

  /** Reading and writing address literals.  Only zone-free texts are given to `parse` here. */
  datatype AddressLibrary = AddressLibrary(parse: string -> Option<Ip>, write: Ip -> string)

  const TWO_16: nat := 0x1_0000
  const TWO_32: nat := 0x1_0000_0000
  const TWO_112: nat := 0x1_0000_0000_0000_0000_0000_0000_0000

  predicate IsAddressChar(c: char) {
    '0' <= c <= '9' || 'a' <= c <= 'f' || c == '.' || c == ':'
  }

  /** What is relied on: values are in range, an address is written in digits, points and colons, and with a
      colon exactly in version 6. */
  ghost predicate GoodLibrary(lib: AddressLibrary) {
    && (forall text :: lib.parse(text).Some? ==>
          match lib.parse(text).value
          case V4(n) => n < TWO_32
          case V6(n) => n < TWO_16 * TWO_112)
    && (forall ip :: lib.write(ip) != "" && (forall c <- lib.write(ip) :: IsAddressChar(c)))
    && (forall ip :: ':' in lib.write(ip) <==> ip.V6?)
  }

  predicate Between(n: int, low: int, high: int) {
    low <= n < high
  }

  /** 10.0.0.0/8, 172.16.0.0/12 and 192.168.0.0/16 (section 3 of RFC 1918). */
  predicate InRfc1918(n: nat) {
    || Between(n, 0x0A00_0000, 0x0B00_0000)
    || Between(n, 0xAC10_0000, 0xAC20_0000)
    || Between(n, 0xC0A8_0000, 0xC0A9_0000)
  }

  /** fc00::/7 (section 3.1 of RFC 4193). */
  predicate InUniqueLocal(n: nat) {
    Between(n, 0xFC00 * TWO_112, 0xFE00 * TWO_112)
  }

  predicate IsLinkLocal(ip: Ip) {
    match ip
    case V4(n) => Between(n, 0xA9FE_0000, 0xA9FF_0000)
    case V6(n) => Between(n, 0xFE80 * TWO_112, 0xFEC0 * TWO_112)
  }

  predicate IsMulticast(ip: Ip) {
    match ip
    case V4(n) => Between(n, 0xE000_0000, 0xF000_0000)
    case V6(n) => Between(n, 0xFF00 * TWO_112, 0x1_0000 * TWO_112)
  }

  predicate IsUnspecified(ip: Ip) {
    ip.n == 0
  }

  /** The session's test: a private range, and none of the special uses. */
  function ValidatePrivateTarget(lib: AddressLibrary, text: string): Option<string> {
    var ip := lib.parse(text);
    if ip.None? then None
    else
      var inRange := match ip.value
        case V4(n) => InRfc1918(n)
        case V6(n) => InUniqueLocal(n);
      if !inRange || IsLinkLocal(ip.value) || IsMulticast(ip.value) || IsUnspecified(ip.value) then None
      else Some(lib.write(ip.value))
  }

  /** The renderer's test: no zone, and a private range of the address's own family. */
  function PrivateAddress(lib: AddressLibrary, text: string): Option<Ip> {
    if '%' in text then None
    else
      match lib.parse(text)
      case None => None
      case Some(V4(n)) => if InRfc1918(n) then Some(V4(n)) else None
      case Some(V6(n)) => if InUniqueLocal(n) then Some(V6(n)) else None
  }

  /** The two tests accept the same zone-free texts. */
  lemma AddressTestsAgree(lib: AddressLibrary, text: string)
    requires '%' !in text
    ensures ValidatePrivateTarget(lib, text).Some? <==> PrivateAddress(lib, text).Some?
    ensures PrivateAddress(lib, text).Some? ==>
      ValidatePrivateTarget(lib, text) == Some(lib.write(PrivateAddress(lib, text).value))
  {
  }

  /** The number of a version 4 address in dotted form. */
  function Dotted(a: nat, b: nat, c: nat, d: nat): nat {
    0x100_0000 * a + 0x1_0000 * b + 0x100 * c + d
  }

  /** Both numbers have the same network part, where the host part counts up to `hosts`. */
  predicate InNetwork(n: nat, network: nat, hosts: nat)
    requires hosts > 0
  {
    n / hosts == network / hosts
  }

  predicate IsPrivateIp(ip: Ip) {
    match ip
    case V4(n) =>
      || InNetwork(n, Dotted(10, 0, 0, 0), 0x100_0000)
      || InNetwork(n, Dotted(172, 16, 0, 0), 0x10_0000)
      || InNetwork(n, Dotted(192, 168, 0, 0), 0x1_0000)
    case V6(n) => n / (0x200 * TWO_112) == 0x7E
  }

  /** The texts that name a private address are exactly those whose number is in 10.0.0.0/8, 172.16.0.0/12,
      192.168.0.0/16, or begins with the seven bits of fc00::/7; the other special uses exclude no more. */
  lemma PrivateTargetsAre(lib: AddressLibrary, text: string)
    requires GoodLibrary(lib)
    ensures ValidatePrivateTarget(lib, text).Some? <==> lib.parse(text).Some? && IsPrivateIp(lib.parse(text).value)
  {
  }

  // ---------------------------------------------------------------- rendering

  lemma DecimalIsPrintable(n: nat)
    ensures Decimal(n) != "" && '\0' !in Decimal(n)
  {
  }

  predicate IsIdChar(c: char) {
    'A' <= c <= 'Z' || 'a' <= c <= 'z' || '0' <= c <= '9' || c == '_' || c == '.' || c == ':' || c == '-'
  }

  predicate IsTargetId(s: string) {
    && 1 <= |s| <= 128 && IsIdChar(s[0]) && s[0] != '_' && s[0] != '.' && s[0] != ':' && s[0] != '-'
    && forall c <- s :: IsIdChar(c)
  }

  datatype FixedActionSpec = FixedActionSpec(
    name: string, targetId: string, address: string, port: nat, argv: seq<string>, timeout: nat)

  function Endpoint(ip: Ip, text: string): string {
    if ip.V6? then "[" + text + "]" else text
  }

  function Timeout(arguments: map<string, Json>): Option<nat> {
    var value := if "timeout_seconds" in arguments then arguments["timeout_seconds"] else Int(5);
    if IntBetween(value, 1, 10) then Some(value.n) else None
  }

  function TcpArgv(timeout: nat, address: string, port: nat): seq<string> {
    ["timeout", "--signal=KILL", Decimal(timeout) + "s", "nc", "-vz", "-w", Decimal(timeout), address, Decimal(port)]
  }

  function HttpArgv(endpoint: string, port: nat): seq<string> {
    ["timeout", "--signal=KILL", "10s", "curl", "--head", "--silent", "--show-error", "--max-time", "8",
     "--connect-timeout", "5", "--proto", "=http", "--", "http://" + endpoint + ":" + Decimal(port) + "/"]
  }

  function TlsArgv(endpoint: string, port: nat): seq<string> {
    ["timeout", "--signal=KILL", "10s", "openssl", "s_client", "-brief", "-connect", endpoint + ":" + Decimal(port)]
  }

  /** Renders one fixed action, or None when any part is out of scope. */
  function RenderFixedAction(lib: AddressLibrary, name: string, arguments: map<string, Json>,
                             targetId: string, address: string): Option<FixedActionSpec> {
    if !IsRegistered(name) then None
    else if !({"target_id", "port"} <= arguments.Keys) then None
    else if !(arguments.Keys
              <= {"target_id", "port"} + (if name == TCP_CONNECTION then {"timeout_seconds"} else {})) then None
    else if !IsTargetId(targetId) || arguments["target_id"] != Str(targetId) then None
    else
      var ip := PrivateAddress(lib, address);
      if ip.None? || !IntBetween(arguments["port"], 1, 65535) then None
      else
        var text := lib.write(ip.value);
        var port := arguments["port"].n;
        if name == TCP_CONNECTION then
          match Timeout(arguments)
          case None => None
          case Some(t) => Some(FixedActionSpec(name, targetId, text, port, TcpArgv(t, text, port), t + 5))
        else if name == HTTP_HEADERS then
          Some(FixedActionSpec(name, targetId, text, port, HttpArgv(Endpoint(ip.value, text), port), 15))
        else
          Some(FixedActionSpec(name, targetId, text, port, TlsArgv(Endpoint(ip.value, text), port), 15))
  }

  // ---------------------------------------------------------------- the runner

  const MAX_ACTION_TIMEOUT_SECONDS: nat := 60

  predicate ValidArguments(argv: seq<string>) {
    argv != [] && forall i | 0 <= i < |argv| :: argv[i] != "" && '\0' !in argv[i]
  }

  predicate RunnerAccepts(argv: seq<string>, timeout: nat) {
    ValidArguments(argv) && 0 < timeout <= MAX_ACTION_TIMEOUT_SECONDS
  }

  /** The runner takes any argv of non-empty texts without NUL, for one to sixty seconds. */
  lemma RunnerTakes(argv: seq<string>, timeout: nat)
    ensures RunnerAccepts(argv, timeout) <==>
      argv != [] && (forall i | 0 <= i < |argv| :: |argv[i]| > 0 && '\0' !in argv[i]) && 1 <= timeout < 61
  {
  }

  lemma JoinPrintable(a: string, b: string)
    requires '\0' !in a && '\0' !in b && a != ""
    ensures a + b != "" && '\0' !in a + b
  {
  }

  lemma EndpointPrintable(ip: Ip, text: string)
    requires text != "" && '\0' !in text
    ensures Endpoint(ip, text) != "" && '\0' !in Endpoint(ip, text)
  {
  }

  lemma TcpArgvRuns(timeout: nat, address: string, port: nat)
    requires address != "" && '\0' !in address
    ensures ValidArguments(TcpArgv(timeout, address, port))
  {
    DecimalIsPrintable(timeout);
    DecimalIsPrintable(port);
    JoinPrintable(Decimal(timeout), "s");
  }

  lemma HttpArgvRuns(endpoint: string, port: nat)
    requires endpoint != "" && '\0' !in endpoint
    ensures ValidArguments(HttpArgv(endpoint, port))
  {
    DecimalIsPrintable(port);
    JoinPrintable("http://", endpoint);
    JoinPrintable("http://" + endpoint, ":");
    JoinPrintable("http://" + endpoint + ":", Decimal(port));
    JoinPrintable("http://" + endpoint + ":" + Decimal(port), "/");
  }

  lemma TlsArgvRuns(endpoint: string, port: nat)
    requires endpoint != "" && '\0' !in endpoint
    ensures ValidArguments(TlsArgv(endpoint, port))
  {
    DecimalIsPrintable(port);
    JoinPrintable(endpoint, ":");
    JoinPrintable(endpoint + ":", Decimal(port));
  }

  // ---------------------------------------------------------------- what is rendered at all

  predicate IsAlphanumeric(c: char) {
    'A' <= c <= 'Z' || 'a' <= c <= 'z' || '0' <= c <= '9'
  }

  /** Everything the renderer asks for, said at once. */
  predicate IsRenderable(lib: AddressLibrary, name: string, arguments: map<string, Json>, targetId: string,
                         address: string) {
    && (name == "check_tcp_connection" || name == "inspect_http_headers" || name == "inspect_tls_certificate")
    && (arguments.Keys == {"target_id", "port"}
        || (name == "check_tcp_connection" && arguments.Keys == {"target_id", "port", "timeout_seconds"}))
    && arguments["target_id"] == Str(targetId)
    && 1 <= |targetId| <= 128 && IsAlphanumeric(targetId[0])
    && (forall c <- targetId :: IsAlphanumeric(c) || c == '_' || c == '.' || c == ':' || c == '-')
    && arguments["port"].Int? && 1 <= arguments["port"].n < 65536
    && ("timeout_seconds" in arguments ==>
          arguments["timeout_seconds"].Int? && 1 <= arguments["timeout_seconds"].n <= 10)
    && '%' !in address && lib.parse(address).Some? && IsPrivateIp(lib.parse(address).value)
  }

  /** The renderer takes exactly the registered actions with their own keys, values in range, a target id of
      the fixed alphabet that is the authorized one, and a private address without a zone. */
  lemma RendersExactly(lib: AddressLibrary, name: string, arguments: map<string, Json>, targetId: string,
                       address: string)
    requires GoodLibrary(lib)
    ensures RenderFixedAction(lib, name, arguments, targetId, address).Some?
      <==> IsRenderable(lib, name, arguments, targetId, address)
  {
    PrivateTargetsAre(lib, address);
    if '%' !in address {
      AddressTestsAgree(lib, address);
    }
    TargetIdsAre(targetId);
  }

  lemma TargetIdsAre(s: string)
    ensures IsTargetId(s) <==>
      1 <= |s| <= 128 && IsAlphanumeric(s[0])
      && forall c <- s :: IsAlphanumeric(c) || c == '_' || c == '.' || c == ':' || c == '-'
  {
  }

  // ---------------------------------------------------------------- what the command says

  lemma WrittenHostReads(lib: AddressLibrary, ip: Ip)
    requires GoodLibrary(lib)
    ensures ReadHost(Endpoint(ip, lib.write(ip))) == Some(lib.write(ip))
  {
    var text := lib.write(ip);
    var host := Endpoint(ip, text);
    if ip.V6? {
      assert host[1..|host| - 1] == text;
    } else {
      assert text[0] in text;
    }
  }

  lemma TcpCommandReads(timeout: nat, address: string, port: nat)
    ensures ReadCommand(TcpArgv(timeout, address, port))
      == Some(Command("check_tcp_connection", address, port, timeout))
  {
    ReadsSeconds(timeout);
    ReadsDecimal(timeout);
    ReadsDecimal(port);
    var argv := TcpArgv(timeout, address, port);
    assert argv[..2] == ["timeout", "--signal=KILL"] && argv[4..6] == ["-vz", "-w"];
  }

  lemma TenSeconds()
    ensures ReadSeconds("10s") == Some(10)
  {
    assert Decimal(1) == "1" && Decimal(10) == Decimal(1) + [Digit(0)];
    assert Decimal(10) + "s" == "10s";
    ReadsSeconds(10);
  }

  lemma HttpCommandReads(lib: AddressLibrary, ip: Ip, port: nat)
    requires GoodLibrary(lib)
    ensures ReadCommand(HttpArgv(Endpoint(ip, lib.write(ip)), port))
      == Some(Command("inspect_http_headers", lib.write(ip), port, 10))
  {
    TenSeconds();
    WrittenHostReads(lib, ip);
    ReadsUrl(Endpoint(ip, lib.write(ip)), lib.write(ip), port);
    var argv := HttpArgv(Endpoint(ip, lib.write(ip)), port);
    assert argv[..2] == ["timeout", "--signal=KILL"];
    assert argv[4..14] == ["--head", "--silent", "--show-error", "--max-time", "8", "--connect-timeout", "5",
                           "--proto", "=http", "--"];
  }

  lemma TlsCommandReads(lib: AddressLibrary, ip: Ip, port: nat)
    requires GoodLibrary(lib)
    ensures ReadCommand(TlsArgv(Endpoint(ip, lib.write(ip)), port))
      == Some(Command("inspect_tls_certificate", lib.write(ip), port, 10))
  {
    TenSeconds();
    WrittenHostReads(lib, ip);
    ReadsEndpoint(Endpoint(ip, lib.write(ip)), lib.write(ip), port);
    var argv := TlsArgv(Endpoint(ip, lib.write(ip)), port);
    assert argv[..2] == ["timeout", "--signal=KILL"] && argv[4..7] == ["s_client", "-brief", "-connect"];
  }

  /** The time limit inside the guest: what was asked for, five seconds if nothing was, and ten where there is
      nothing to ask. */
  predicate IsGuestLimit(name: string, arguments: map<string, Json>, limit: nat) {
    if name != "check_tcp_connection" then limit == 10
    else if "timeout_seconds" in arguments then arguments["timeout_seconds"] == Int(limit) && 1 <= limit <= 10
    else limit == 5
  }

  /** The command that is rendered, read back, runs the named action on the authorized address and port, and
      the process outlives its own time limit. */
  lemma RenderedCommandReads(lib: AddressLibrary, name: string, arguments: map<string, Json>, targetId: string,
                             address: string)
    requires GoodLibrary(lib) && RenderFixedAction(lib, name, arguments, targetId, address).Some?
    ensures var spec := RenderFixedAction(lib, name, arguments, targetId, address).value;
      var command := ReadCommand(spec.argv);
      && command.Some? && command.value.name == name == spec.name
      && command.value.address == spec.address && Some(spec.address) == ValidatePrivateTarget(lib, address)
      && command.value.port == spec.port && Int(spec.port) == arguments["port"] && 1 <= spec.port <= 65535
      && IsGuestLimit(name, arguments, command.value.limit) && spec.timeout == command.value.limit + 5
  {
    AddressTestsAgree(lib, address);
    var ip := PrivateAddress(lib, address).value;
    var port := arguments["port"].n;
    if name == TCP_CONNECTION {
      TcpCommandReads(Timeout(arguments).value, lib.write(ip), port);
    } else if name == HTTP_HEADERS {
      HttpCommandReads(lib, ip, port);
    } else {
      TlsCommandReads(lib, ip, port);
    }
  }

  /** A rendered action is one the runner takes, within its time limit, and its command goes to the
      authorized address and port. */
  lemma RenderedActionRuns(lib: AddressLibrary, name: string, arguments: map<string, Json>, targetId: string,
                           address: string)
    requires GoodLibrary(lib) && RenderFixedAction(lib, name, arguments, targetId, address).Some?
    ensures var spec := RenderFixedAction(lib, name, arguments, targetId, address).value;
      && RunnerAccepts(spec.argv, spec.timeout) && spec.timeout <= 60
      && (exists limit: nat :: ReadCommand(spec.argv) == Some(Command(name, spec.address, spec.port, limit))
            && IsGuestLimit(name, arguments, limit) && limit < spec.timeout)
      && Some(spec.address) == ValidatePrivateTarget(lib, address)
      && Str(spec.targetId) == arguments["target_id"] && Int(spec.port) == arguments["port"]
  {
    RenderedCommandReads(lib, name, arguments, targetId, address);
    AddressTestsAgree(lib, address);
    var ip := PrivateAddress(lib, address).value;
    var text := lib.write(ip);
    var port := arguments["port"].n;
    EndpointPrintable(ip, text);
    if name == TCP_CONNECTION {
      TcpArgvRuns(Timeout(arguments).value, text, port);
    } else if name == HTTP_HEADERS {
      HttpArgvRuns(Endpoint(ip, text), port);
    } else {
      TlsArgvRuns(Endpoint(ip, text), port);
    }
  }

  /** Every proposal accepted at the provider boundary renders, for any well-formed target id and any
      zone-free address the session accepted, and the runner takes what is rendered. */
  lemma AcceptedProposalRenders(lib: AddressLibrary, step: ProposedStep, context: RecommendationContext,
                                address: string)
    requires GoodLibrary(lib) && ValidContext(context) && context.allowedActions == RECOMMENDATION_ACTIONS
    requires ValidateProviderRecommendation(step, context).Some?
    requires IsTargetId(context.targetId)
    requires '%' !in address && ValidatePrivateTarget(lib, address).Some?
    ensures var proposal := ValidateProviderRecommendation(step, context).value;
      var spec := RenderFixedAction(lib, proposal.actionName, proposal.arguments, context.targetId, address);
      && spec.Some?
      && RunnerAccepts(spec.value.argv, spec.value.timeout)
      && var command := ReadCommand(spec.value.argv);
      && command.Some? && command.value.name == step.actionName.value
      && Some(command.value.address) == ValidatePrivateTarget(lib, address)
      && exists f :: f in context.findings && f.id in step.findingIds && f.port == command.value.port
  {
    var proposal := ValidateProviderRecommendation(step, context).value;
    AddressTestsAgree(lib, address);
    RenderedActionRuns(lib, proposal.actionName, proposal.arguments, context.targetId, address);
    RenderedCommandReads(lib, proposal.actionName, proposal.arguments, context.targetId, address);
    ProposalPortIsCited(step, context);
  }

  lemma ProposalPortIsCited(step: ProposedStep, context: RecommendationContext)
    requires context.allowedActions == RECOMMENDATION_ACTIONS && ValidateProviderRecommendation(step, context).Some?
    ensures var proposal := ValidateProviderRecommendation(step, context).value;
      && "port" in proposal.arguments && proposal.arguments["port"].Int?
      && exists f :: f in context.findings && f.id in step.findingIds && f.port == proposal.arguments["port"].n
  {
    LookupRegistered(step.actionName.value);
    var constraints := LookupAction(RECOMMENDATION_ACTIONS, step.actionName.value).value.constraints;
    LookupRegisteredArgument(constraints, "port");
    var supporting := Supporting(context.findings, step.findingIds);
    assert ValidArgument(step.arguments["port"], PORT_ARGUMENT, context, supporting);
    var id :| id in supporting && supporting[id].port == step.arguments["port"].n;
    SupportingIs(context.findings, step.findingIds);
    assert supporting[id] in context.findings;
  }
}
