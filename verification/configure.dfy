/** One configuration run (src/configure/mod.rs:105-300): validate the input,
    normalise the authentication flags, resolve an OAuth2 address, decide where
    candidates come from, expand them, try IMAP then SMTP candidates in order,
    and finish with mailbox setup, persistence and key generation, reporting
    progress at fixed checkpoints.

    Everything the run asks of the outside world is an input (`Env`): the
    OAuth2 address lookup, address parsing and URL encoding, the provider
    database, the discovery fetches, the IMAP and SMTP connection attempts, and
    whether each store or mailbox operation succeeds. */
module Configuration {
  import opened Wrappers
  import opened Text
  import opened Seqs
  import opened Provider
  import opened ServerParamsList
  import opened Autoconfig
  import opened Progress

  /** Authentication bits of `server_flags`. */
  const AuthOAuth2: bv32 := 0x2
  const AuthNormal: bv32 := 0x4
  const AuthFlags: bv32 := 0x6

  /** Login settings for one protocol. */
  datatype ServerLoginParam = ServerLoginParam(
    server: string,
    user: string,
    password: string,
    port: U16,
    security: Socket)

  datatype LoginParam = LoginParam(
    addr: string,
    imapParam: ServerLoginParam,
    smtpParam: ServerLoginParam,
    serverFlags: bv32)

  datatype ConfigureError =
    | EmptyAddress       // "Please enter an email address."
    | EmptyPassword      // "Please enter a password."
    | BadAddress         // "Bad email-address"
    | ImapFailed         // "IMAP autoconfig did not succeed"
    | SmtpFailed         // "SMTP autoconfig did not succeed"
    | FolderSetupFailed
    | InboxSelectFailed  // "could not read INBOX status"
    | StoreFailed        // a write to the configuration store failed
    | SecretKeyFailed

  /** Whether each fallible store or mailbox operation succeeds. */
  datatype Io = Io(
    persistAddr: bool,
    configureFolders: bool,
    selectInbox: bool,
    saveParams: bool,
    setConfigured: bool,
    ensureSecretKey: bool,
    clearNotify: bool,
    setNotify: bool)

  /** The outside world as seen by one run. The connect predicates are for
      this run's address and OAuth2 mode, which stay fixed during the trials. */
  datatype Env = Env(
    oauth2Addr: Option<string>,
    parseDomain: string -> Option<string>,
    urlEncode: string -> string,
    providerInfo: string -> Option<ProviderInfo>,
    fetch: AutoconfigSource -> Option<seq<ServerParams>>,
    imapConnect: ServerLoginParam -> bool,
    smtpConnect: ServerLoginParam -> bool,
    io: Io)

  /** What a run did: its result, the progress values it emitted, whether it
      consulted autoconfiguration, how many online sources it fetched, the
      expanded candidate list, and how many IMAP and SMTP attempts it made. */
  datatype Run = Run(
    result: Result<LoginParam, ConfigureError>,
    progress: seq<int>,
    consulted: bool,
    onlineAttempts: nat,
    candidates: seq<ServerParams>,
    imapAttempts: nat,
    smtpAttempts: nat)

  // ---------------------------------------------------------------------------
  // Input validation and authentication flags

  /** An address and an IMAP password are required; a missing SMTP password
      defaults to the IMAP one. */
  function Validate(p: LoginParam): (r: Result<LoginParam, ConfigureError>)
    ensures p.addr == "" ==> r == Failure(EmptyAddress)
    ensures p.addr != "" && p.imapParam.password == "" ==> r == Failure(EmptyPassword)
    ensures p.addr != "" && p.imapParam.password != "" ==> r.Success?
    ensures r.Success? ==> r.value.smtpParam.password != ""
    ensures r.Success? && p.smtpParam.password != "" ==> r.value == p
    ensures r.Success? && p.smtpParam.password == "" ==>
      r.value == p.(smtpParam := p.smtpParam.(password := p.imapParam.password))
  {
    if p.addr == "" then Failure(EmptyAddress)
    else if p.imapParam.password == "" then Failure(EmptyPassword)
    else if p.smtpParam.password == "" then
      Success(p.(smtpParam := p.smtpParam.(password := p.imapParam.password)))
    else Success(p)
  }

  datatype Auth = Auth(flags: bv32, oauth2: bool)

  /** Exactly one of the two authentication bits is set afterwards: OAuth2 if
      it alone was set before, otherwise normal. Other bits are kept. */
  function NormalizeAuth(flags: bv32): (r: Auth)
    ensures r.flags & AuthFlags == AuthOAuth2 || r.flags & AuthFlags == AuthNormal
    ensures r.oauth2 <==> flags & AuthFlags == AuthOAuth2
    ensures r.oauth2 <==> r.flags & AuthFlags == AuthOAuth2
    ensures r.flags & !AuthFlags == flags & !AuthFlags
  {
    var oauth2 := flags & AuthFlags == AuthOAuth2;
    Auth((flags & !AuthFlags) | (if oauth2 then AuthOAuth2 else AuthNormal), oauth2)
  }

  /** Normalising normalised flags changes nothing. */
  lemma NormalizeAuthIdempotent(flags: bv32)
    ensures NormalizeAuth(NormalizeAuth(flags).flags) == NormalizeAuth(flags)
  {
  }

  // ---------------------------------------------------------------------------
  // Candidate list

  /** The user entered no server, port, security or user name for either protocol. */
  predicate NoAdvanced(p: LoginParam)
  {
    && p.imapParam.server == "" && p.imapParam.port == 0
    && p.imapParam.security == Automatic && p.imapParam.user == ""
    && p.smtpParam.server == "" && p.smtpParam.port == 0
    && p.smtpParam.security == Automatic && p.smtpParam.user == ""
  }

  function FromLogin(protocol: Protocol, s: ServerLoginParam): ServerParams
  {
    ServerParams(protocol, s.server, s.port, s.security, s.user)
  }

  /** The descriptors taken from the user's own fields. */
  function UserServers(p: LoginParam): seq<ServerParams>
  {
    [FromLogin(IMAP, p.imapParam), FromLogin(SMTP, p.smtpParam)]
  }

  function UsernamesFor(addr: string): ServerParams -> seq<ServerParams>
  {
    (s: ServerParams) => ExpandUsernames(s, addr)
  }

  function HostnamesFor(domain: string): ServerParams -> seq<ServerParams>
  {
    (s: ServerParams) => ExpandHostnames(s, domain)
  }

  function HasProtocol(protocol: Protocol): ServerParams -> bool
  {
    (s: ServerParams) => s.protocol == protocol
  }

  /** The candidates of one protocol, in list order. */
  function OfProtocol(xs: seq<ServerParams>, protocol: Protocol): seq<ServerParams>
  {
    Filter(xs, HasProtocol(protocol))
  }

  /** The expansion pipeline: usernames, then hostnames, then ports, each a flat-map. */
  function ExpandServers(servers: seq<ServerParams>, addr: string, domain: string): seq<ServerParams>
  {
    FlatMap(FlatMap(FlatMap(servers, UsernamesFor(addr)), HostnamesFor(domain)), ExpandPorts)
  }

  /** Hostnames of one descriptor, each with its port/socket variants. */
  function HostsThenPorts(domain: string): ServerParams -> seq<ServerParams>
  {
    (u: ServerParams) => FlatMap(ExpandHostnames(u, domain), ExpandPorts)
  }

  lemma HostsThenPortsApply(domain: string, u: ServerParams)
    ensures HostsThenPorts(domain)(u) == FlatMap(ExpandHostnames(u, domain), ExpandPorts)
  {
  }

  /** All candidates derived from one descriptor, username varying slowest. */
  function ExpandOne(p: ServerParams, addr: string, domain: string): seq<ServerParams>
  {
    FlatMap(ExpandUsernames(p, addr), HostsThenPorts(domain))
  }

  function ExpandOneFor(addr: string, domain: string): ServerParams -> seq<ServerParams>
  {
    (p: ServerParams) => ExpandOne(p, addr, domain)
  }

  /** The three chained flat-maps expand each descriptor completely before the
      next one, and within a descriptor vary ports fastest and usernames slowest. */
  lemma ExpandServersPerDescriptor(servers: seq<ServerParams>, addr: string, domain: string)
    ensures ExpandServers(servers, addr, domain) == FlatMap(servers, ExpandOneFor(addr, domain))
  {
    FlatMapFlatMap(FlatMap(servers, UsernamesFor(addr)), HostnamesFor(domain), ExpandPorts, HostsThenPorts(domain));
    FlatMapFlatMap(servers, UsernamesFor(addr), HostsThenPorts(domain), ExpandOneFor(addr, domain));
  }

  /** The number of port/socket candidates depends only on port and socket. */
  lemma ExpandPortsCount(a: ServerParams, b: ServerParams)
    requires a.port == b.port && a.socket == b.socket
    ensures |ExpandPorts(a)| == |ExpandPorts(b)|
  {
  }

  /** The number of hostname candidates depends only on the hostname. */
  lemma ExpandHostnamesCount(a: ServerParams, b: ServerParams, domain: string)
    requires a.hostname == b.hostname
    ensures |ExpandHostnames(a, domain)| == |ExpandHostnames(b, domain)|
  {
  }

  /** A descriptor with `p`'s hostname, port and socket has as many
      hostname-then-port candidates as `p`. */
  lemma HostsThenPortsCount(p: ServerParams, u: ServerParams, domain: string)
    requires u.hostname == p.hostname && u.port == p.port && u.socket == p.socket
    ensures |HostsThenPorts(domain)(u)| == |ExpandPorts(p)| * |ExpandHostnames(p, domain)|
  {
    HostsThenPortsApply(domain, u);
    forall h | h in ExpandHostnames(u, domain)
      ensures |ExpandPorts(h)| == |ExpandPorts(p)|
    {
      ExpandPortsCount(h, p);
    }
    FlatMapConstLength(ExpandHostnames(u, domain), ExpandPorts, |ExpandPorts(p)|);
    ExpandHostnamesCount(u, p, domain);
  }

  /** One descriptor gives the product of the three steps' counts: each step's
      count depends only on fields the other steps keep. Hence between 1 and
      2 * 3 * 2 candidates. */
  lemma ExpandOneLength(p: ServerParams, addr: string, domain: string)
    ensures |ExpandOne(p, addr, domain)|
         == |ExpandUsernames(p, addr)| * |ExpandHostnames(p, domain)| * |ExpandPorts(p)|
    ensures 1 <= |ExpandOne(p, addr, domain)| <= 12
  {
    var k := |ExpandPorts(p)| * |ExpandHostnames(p, domain)|;
    forall u | u in ExpandUsernames(p, addr)
      ensures |HostsThenPorts(domain)(u)| == k
    {
      HostsThenPortsCount(p, u, domain);
    }
    FlatMapConstLength(ExpandUsernames(p, addr), HostsThenPorts(domain), k);
    ProductBounds(|ExpandUsernames(p, addr)|, |ExpandHostnames(p, domain)|, |ExpandPorts(p)|);
  }

  /** Arithmetic for the count above: the product in either order, and its range. */
  lemma ProductBounds(a: nat, b: nat, c: nat)
    requires 1 <= a <= 2 && 1 <= b <= 3 && 1 <= c <= 2
    ensures c * b * a == a * b * c && 1 <= a * b * c <= 12
  {
    assert 1 <= b * c <= 6;
  }

  /** The hostname and port steps keep protocol and username, fill in port
      and socket, and fill in a hostname when the domain is not empty. */
  lemma HostsThenPortsSpecified(u: ServerParams, domain: string, c: ServerParams)
    requires c in FlatMap(ExpandHostnames(u, domain), ExpandPorts)
    ensures PortsKnown(c) && c.protocol == u.protocol && c.username == u.username
    ensures u.hostname != "" ==> c.hostname == u.hostname
    ensures u.hostname == "" && domain != "" ==> c.hostname != ""
  {
    FlatMapMember(ExpandHostnames(u, domain), ExpandPorts, c);
    var h :| h in ExpandHostnames(u, domain) && c in ExpandPorts(h);
  }

  /** The username step keeps everything but the username, which is the
      descriptor's own or else the address or its local part. */
  lemma UsernameChoice(p: ServerParams, addr: string, u: ServerParams)
    requires u in ExpandUsernames(p, addr)
    ensures u.protocol == p.protocol && u.hostname == p.hostname
    ensures p.username != "" ==> u.username == p.username
    ensures p.username == "" ==> u.username == addr || u.username == Before(addr, '@')
  {
    var r := ExpandUsernames(p, addr);
    assert u == r[0] || u == r[1];
  }

  /** Every candidate has a known port and socket, keeps the descriptor's
      protocol, has a hostname when the descriptor or the domain supplies one,
      and uses the descriptor's username or else the address or its local part. */
  lemma ExpandOneSpecified(p: ServerParams, addr: string, domain: string, c: ServerParams)
    requires c in ExpandOne(p, addr, domain)
    ensures PortsKnown(c) && c.protocol == p.protocol
    ensures p.hostname != "" ==> c.hostname == p.hostname
    ensures p.hostname == "" && domain != "" ==> c.hostname != ""
    ensures p.username != "" ==> c.username == p.username
    ensures p.username == "" ==> c.username == addr || c.username == Before(addr, '@')
  {
    var u := ExpandOneSource(p, addr, domain, c);
    UsernameChoice(p, addr, u);
    HostsThenPortsSpecified(u, domain, c);
  }

  /** The username descriptor a candidate was expanded from. */
  lemma ExpandOneSource(p: ServerParams, addr: string, domain: string, c: ServerParams) returns (u: ServerParams)
    requires c in ExpandOne(p, addr, domain)
    ensures u in ExpandUsernames(p, addr) && c in FlatMap(ExpandHostnames(u, domain), ExpandPorts)
  {
    FlatMapMember(ExpandUsernames(p, addr), HostsThenPorts(domain), c);
    u :| u in ExpandUsernames(p, addr) && c in HostsThenPorts(domain)(u);
    HostsThenPortsApply(domain, u);
  }

  /** A descriptor with no port and no socket gets STARTTLS then SSL on the
      well-known ports. */
  lemma BlankPortsOrder(protocol: Protocol, host: string, user: string)
    ensures ExpandPorts(ServerParams(protocol, host, 0, Automatic, user)) ==
      [ ServerParams(protocol, host, StartTlsPort(protocol), STARTTLS, user),
        ServerParams(protocol, host, TlsPort(protocol), SSL, user) ]
  {
  }

  /** The six candidates a blank descriptor gets for one username: the
      domain, the protocol host and the mail host, each with STARTTLS then
      SSL on the well-known ports. */
  function BlankCandidates(protocol: Protocol, user: string, domain: string): seq<ServerParams>
  {
    var h1 := HostPrefix(protocol) + domain;
    var h2 := "mail." + domain;
    var start := StartTlsPort(protocol);
    var tls := TlsPort(protocol);
    [ ServerParams(protocol, domain, start, STARTTLS, user), ServerParams(protocol, domain, tls, SSL, user),
      ServerParams(protocol, h1, start, STARTTLS, user), ServerParams(protocol, h1, tls, SSL, user),
      ServerParams(protocol, h2, start, STARTTLS, user), ServerParams(protocol, h2, tls, SSL, user) ]
  }

  /** For one username, with hostname, port and socket unknown, the hostname
      and port steps give exactly the six blank candidates. */
  lemma BlankHostsOrder(protocol: Protocol, user: string, domain: string)
    ensures HostsThenPorts(domain)(ServerParams(protocol, "", 0, Automatic, user))
         == BlankCandidates(protocol, user, domain)
  {
    var u := ServerParams(protocol, "", 0, Automatic, user);
    var h1 := HostPrefix(protocol) + domain;
    var h2 := "mail." + domain;
    var a := ServerParams(protocol, domain, 0, Automatic, user);
    var b := ServerParams(protocol, h1, 0, Automatic, user);
    var c := ServerParams(protocol, h2, 0, Automatic, user);
    assert ExpandHostnames(u, domain) == [a, b, c];
    HostsThenPortsApply(domain, u);
    FlatMapThree(a, b, c, ExpandPorts);
    assert HostsThenPorts(domain)(u) == ExpandPorts(a) + ExpandPorts(b) + ExpandPorts(c);
    BlankPortsOrder(protocol, domain, user);
    BlankPortsOrder(protocol, h1, user);
    BlankPortsOrder(protocol, h2, user);
    var start, tls := StartTlsPort(protocol), TlsPort(protocol);
    ConcatPairs(ServerParams(protocol, domain, start, STARTTLS, user), ServerParams(protocol, domain, tls, SSL, user),
      ServerParams(protocol, h1, start, STARTTLS, user), ServerParams(protocol, h1, tls, SSL, user),
      ServerParams(protocol, h2, start, STARTTLS, user), ServerParams(protocol, h2, tls, SSL, user));
  }

  /** A blank descriptor and an address with an '@' give twelve candidates:
      the six blank candidates for the full address, then the six for the
      local part. */
  lemma BlankDescriptorOrder(protocol: Protocol, addr: string, domain: string)
    requires '@' in addr
    ensures ExpandOne(ServerParams(protocol, "", 0, Automatic, ""), addr, domain)
         == BlankCandidates(protocol, addr, domain) + BlankCandidates(protocol, Before(addr, '@'), domain)
  {
    var p := ServerParams(protocol, "", 0, Automatic, "");
    var u0 := ServerParams(protocol, "", 0, Automatic, addr);
    var u1 := ServerParams(protocol, "", 0, Automatic, Before(addr, '@'));
    assert ExpandUsernames(p, addr) == [u0, u1];
    FlatMapTwo(u0, u1, HostsThenPorts(domain));
    BlankHostsOrder(protocol, addr, domain);
    BlankHostsOrder(protocol, Before(addr, '@'), domain);
  }

  /** Without an '@' in the address only the six candidates for the full
      address remain. */
  lemma BlankDescriptorNoAt(protocol: Protocol, addr: string, domain: string)
    requires '@' !in addr
    ensures ExpandOne(ServerParams(protocol, "", 0, Automatic, ""), addr, domain)
         == BlankCandidates(protocol, addr, domain)
  {
    var p := ServerParams(protocol, "", 0, Automatic, "");
    var u0 := ServerParams(protocol, "", 0, Automatic, addr);
    assert ExpandUsernames(p, addr) == [u0];
    FlatMapOne(u0, HostsThenPorts(domain));
    BlankHostsOrder(protocol, addr, domain);
  }

  /** Expansion keeps protocols, so trying "the IMAP candidates" means trying
      the expansions of the IMAP descriptors. */
  lemma ExpandServersOfProtocol(servers: seq<ServerParams>, addr: string, domain: string, protocol: Protocol)
    ensures OfProtocol(ExpandServers(servers, addr, domain), protocol)
         == ExpandServers(OfProtocol(servers, protocol), addr, domain)
  {
    var keep := HasProtocol(protocol);
    var xs1 := FlatMap(servers, UsernamesFor(addr));
    var xs2 := FlatMap(xs1, HostnamesFor(domain));
    FilterFlatMap(servers, UsernamesFor(addr), keep);
    FilterFlatMap(xs1, HostnamesFor(domain), keep);
    FilterFlatMap(xs2, ExpandPorts, keep);
  }

  // ---------------------------------------------------------------------------
  // Discovery

  datatype Discovery = Discovery(
    servers: Option<seq<ServerParams>>,
    consulted: bool,
    onlineAttempts: nat,
    progress: seq<int>)

  /** Autoconfiguration is consulted only without advanced settings; the
      offline provider record wins over the online cascade. */
  function Discover(p: LoginParam, domain: string, env: Env): (r: Discovery)
    ensures r.consulted <==> NoAdvanced(p)
    ensures r.onlineAttempts <= 5 && r.progress == CascadeSteps(r.onlineAttempts)
    ensures !NoAdvanced(p) ==> r.servers.None? && r.onlineAttempts == 0
    ensures NoAdvanced(p) && GetOfflineAutoconfig(p.addr, env.providerInfo(p.addr)).Some? ==>
      r.servers == GetOfflineAutoconfig(p.addr, env.providerInfo(p.addr)) && r.onlineAttempts == 0
    ensures NoAdvanced(p) && GetOfflineAutoconfig(p.addr, env.providerInfo(p.addr)).None? ==>
      var c := GetAutoconfig(domain, env.urlEncode(p.addr), env.fetch);
      r.servers == c.found && r.onlineAttempts == c.attempts && r.onlineAttempts >= 1
  {
    if NoAdvanced(p) then
      match GetOfflineAutoconfig(p.addr, env.providerInfo(p.addr))
      case Some(servers) => Discovery(Some(servers), true, 0, [])
      case None =>
        var c := GetAutoconfig(domain, env.urlEncode(p.addr), env.fetch);
        Discovery(c.found, true, c.attempts, c.progress)
    else
      Discovery(None, false, 0, [])
  }

  // ---------------------------------------------------------------------------
  // Trials

  /** The login settings with one candidate's host, port, socket and user
      written in; the password is kept. */
  function WithCandidate(base: ServerLoginParam, c: ServerParams): ServerLoginParam
  {
    base.(user := c.username, server := c.hostname, port := c.port, security := c.socket)
  }

  datatype Trial = Trial(winner: Option<ServerLoginParam>, attempts: nat)

  /** Try candidates in order and keep the first that connects. */
  function TryCandidates(base: ServerLoginParam, cands: seq<ServerParams>,
                         connect: ServerLoginParam -> bool): (r: Trial)
    ensures r.attempts <= |cands|
    ensures r.winner.Some? ==>
      && 1 <= r.attempts
      && r.winner.value == WithCandidate(base, cands[r.attempts - 1])
      && connect(r.winner.value)
      && forall i :: 0 <= i < r.attempts - 1 ==> !connect(WithCandidate(base, cands[i]))
    ensures r.winner.None? <==> forall i :: 0 <= i < |cands| ==> !connect(WithCandidate(base, cands[i]))
    ensures r.winner.None? ==> r.attempts == |cands|
  {
    var k := FirstIndex(cands, c => connect(WithCandidate(base, c)));
    if k < |cands| then Trial(Some(WithCandidate(base, cands[k])), k + 1)
    else Trial(None, |cands|)
  }

  // ---------------------------------------------------------------------------
  // The run

  /** How far after checkpoint 600 a run got, read off its outcome: the number
      of `Trailer` checkpoints it reported. */
  function TrialStage(result: Result<LoginParam, ConfigureError>): nat
  {
    match result
    case Success(_) => 5
    case Failure(e) =>
      match e
      case SmtpFailed => 1
      case FolderSetupFailed => 2
      case InboxSelectFailed => 2
      case StoreFailed => 3
      case SecretKeyFailed => 4
      case _ => 0
  }

  datatype Finished = Finished(result: Result<LoginParam, ConfigureError>, progress: seq<int>)

  /** Mailbox setup, persistence and key generation, stopping at the first
      step that fails. */
  function Finish(p: LoginParam, progress: seq<int>, io: Io): (r: Finished)
    ensures r.result.Success? <==>
      io.configureFolders && io.selectInbox && io.saveParams && io.setConfigured && io.ensureSecretKey
    ensures r.result.Success? ==> r.result.value == p
    ensures r.result.Failure? ==> r.result.error in {FolderSetupFailed, InboxSelectFailed, StoreFailed, SecretKeyFailed}
    ensures 2 <= TrialStage(r.result) && r.progress == progress + Trailer[2..TrialStage(r.result)]
  {
    if !io.configureFolders then Finished(Failure(FolderSetupFailed), progress)
    else if !io.selectInbox then Finished(Failure(InboxSelectFailed), progress)
    else if !io.saveParams || !io.setConfigured then Finished(Failure(StoreFailed), progress + [910])
    else if !io.ensureSecretKey then Finished(Failure(SecretKeyFailed), progress + [910, 920])
    else Finished(Success(p), progress + [910, 920, 940])
  }

  /** After the IMAP login succeeded with `imapParam` in place of `p`'s IMAP
      settings: SMTP trials, then the finishing steps. */
  function TrialOutgoing(p: LoginParam, imapParam: ServerLoginParam, candidates: seq<ServerParams>,
                         progress: seq<int>, env: Env, imapAttempts: nat): (r: Run)
    ensures r.candidates == candidates && !r.consulted && r.onlineAttempts == 0 && r.imapAttempts == imapAttempts
    ensures r.result.Success? ==>
      && r.result.value.addr == p.addr && r.result.value.serverFlags == p.serverFlags
      && r.result.value.imapParam == imapParam && env.smtpConnect(r.result.value.smtpParam)
    ensures r.result.Success? ==>
      var outgoing := OfProtocol(candidates, SMTP);
      && 1 <= r.smtpAttempts <= |outgoing|
      && r.result.value.smtpParam == WithCandidate(p.smtpParam, outgoing[r.smtpAttempts - 1])
      && forall i :: 0 <= i < r.smtpAttempts - 1 ==> !env.smtpConnect(WithCandidate(p.smtpParam, outgoing[i]))
    ensures r.result == Failure(SmtpFailed) <==>
      forall i :: 0 <= i < |OfProtocol(candidates, SMTP)| ==>
        !env.smtpConnect(WithCandidate(p.smtpParam, OfProtocol(candidates, SMTP)[i]))
    ensures r.result == Failure(SmtpFailed) ==> r.smtpAttempts == |OfProtocol(candidates, SMTP)|
    ensures r.result.Failure? ==>
      r.result.error in {SmtpFailed, FolderSetupFailed, InboxSelectFailed, StoreFailed, SecretKeyFailed}
    ensures 1 <= TrialStage(r.result) && r.progress == progress + Trailer[..TrialStage(r.result)]
  {
    var outgoing := TryCandidates(p.smtpParam, OfProtocol(candidates, SMTP), env.smtpConnect);
    match outgoing.winner
    case None => Run(Failure(SmtpFailed), progress + [750], false, 0, candidates, imapAttempts, outgoing.attempts)
    case Some(smtpParam) =>
      var done := Finish(p.(imapParam := imapParam, smtpParam := smtpParam), progress + [750, 900], env.io);
      assert Trailer[..TrialStage(done.result)] == [750, 900] + Trailer[2..TrialStage(done.result)];
      Run(done.result, done.progress, false, 0, candidates, imapAttempts, outgoing.attempts)
  }

  /** IMAP trials, then SMTP trials, then the finishing steps. */
  function TrialServers(p: LoginParam, candidates: seq<ServerParams>, progress: seq<int>, env: Env): (r: Run)
    ensures r.candidates == candidates && !r.consulted && r.onlineAttempts == 0
    ensures r.imapAttempts == TryCandidates(p.imapParam, OfProtocol(candidates, IMAP), env.imapConnect).attempts
    ensures r.result == Failure(ImapFailed) <==>
      forall i :: 0 <= i < |OfProtocol(candidates, IMAP)| ==>
        !env.imapConnect(WithCandidate(p.imapParam, OfProtocol(candidates, IMAP)[i]))
    ensures r.result == Failure(ImapFailed) ==> r.smtpAttempts == 0
    ensures r.result != Failure(ImapFailed) ==>
      (r.result == Failure(SmtpFailed) <==>
         forall i :: 0 <= i < |OfProtocol(candidates, SMTP)| ==>
           !env.smtpConnect(WithCandidate(p.smtpParam, OfProtocol(candidates, SMTP)[i])))
    ensures r.result == Failure(SmtpFailed) ==> r.smtpAttempts == |OfProtocol(candidates, SMTP)|
    ensures r.result.Success? ==>
      && r.result.value.addr == p.addr && r.result.value.serverFlags == p.serverFlags
      && env.imapConnect(r.result.value.imapParam) && env.smtpConnect(r.result.value.smtpParam)
    ensures r.result.Success? ==>
      var incoming := OfProtocol(candidates, IMAP);
      && 1 <= r.imapAttempts <= |incoming|
      && r.result.value.imapParam == WithCandidate(p.imapParam, incoming[r.imapAttempts - 1])
      && forall i :: 0 <= i < r.imapAttempts - 1 ==> !env.imapConnect(WithCandidate(p.imapParam, incoming[i]))
    ensures r.result.Success? ==>
      var outgoing := OfProtocol(candidates, SMTP);
      && 1 <= r.smtpAttempts <= |outgoing|
      && r.result.value.smtpParam == WithCandidate(p.smtpParam, outgoing[r.smtpAttempts - 1])
      && forall i :: 0 <= i < r.smtpAttempts - 1 ==> !env.smtpConnect(WithCandidate(p.smtpParam, outgoing[i]))
    ensures r.result.Failure? ==>
      r.result.error in {ImapFailed, SmtpFailed, FolderSetupFailed, InboxSelectFailed, StoreFailed, SecretKeyFailed}
    ensures r.progress == progress + Trailer[..TrialStage(r.result)]
  {
    var incoming := TryCandidates(p.imapParam, OfProtocol(candidates, IMAP), env.imapConnect);
    match incoming.winner
    case None => Run(Failure(ImapFailed), progress, false, 0, candidates, incoming.attempts, 0)
    case Some(imapParam) => TrialOutgoing(p, imapParam, candidates, progress, env, incoming.attempts)
  }

  function Abort(e: ConfigureError, progress: seq<int>): Run
  {
    Run(Failure(e), progress, false, 0, [], 0, 0)
  }

  /** The user asked for OAuth2: of the two authentication bits, only the OAuth2 one is set. */
  predicate OAuth2Requested(p: LoginParam)
  {
    p.serverFlags & AuthFlags == AuthOAuth2
  }

  /** Both protocols' server, port, security and user fields agree. */
  predicate SameServerFields(a: LoginParam, b: LoginParam)
  {
    && FromLogin(IMAP, a.imapParam) == FromLogin(IMAP, b.imapParam)
    && FromLogin(SMTP, a.smtpParam) == FromLogin(SMTP, b.smtpParam)
  }

  datatype Prepared = Prepared(result: Result<LoginParam, ConfigureError>, progress: seq<int>)

  /** The first part of `configure`: validation, authentication flags and the
      OAuth2 address, reporting 1, then 10 and 20 in OAuth2 mode. */
  function Prepare(p: LoginParam, env: Env): (r: Prepared)
    ensures p.addr == "" ==> r == Prepared(Failure(EmptyAddress), [1])
    ensures p.addr != "" && p.imapParam.password == "" ==> r == Prepared(Failure(EmptyPassword), [1])
    ensures r.result.Success? <==>
      p.addr != "" && p.imapParam.password != ""
      && !(OAuth2Requested(p) && env.oauth2Addr.Some? && !env.io.persistAddr)
    ensures r.result.Failure? && p.addr != "" && p.imapParam.password != "" ==>
      r == Prepared(Failure(StoreFailed), [1, 10])
    ensures r.result.Success? ==> r.progress == (if OAuth2Requested(p) then [1, 10, 20] else [1])
    ensures r.result.Success? ==>
      var q := r.result.value;
      && q.addr == (if OAuth2Requested(p) && env.oauth2Addr.Some? then env.oauth2Addr.value else p.addr)
      && q.serverFlags == NormalizeAuth(p.serverFlags).flags
      && SameServerFields(q, p)
      && q.imapParam.password == p.imapParam.password
      && q.smtpParam.password == (if p.smtpParam.password == "" then p.imapParam.password else p.smtpParam.password)
  {
    match Validate(p)
    case Failure(e) => Prepared(Failure(e), [1])
    case Success(valid) => PrepareAuth(valid, env)
  }

  /** The authentication part of `Prepare` for validated input `v`. */
  function PrepareAuth(v: LoginParam, env: Env): (r: Prepared)
    ensures r.result.Success? <==> !(OAuth2Requested(v) && env.oauth2Addr.Some? && !env.io.persistAddr)
    ensures r.result.Failure? ==> r == Prepared(Failure(StoreFailed), [1, 10])
    ensures r.result.Success? ==> r.progress == (if OAuth2Requested(v) then [1, 10, 20] else [1])
    ensures r.result.Success? ==>
      r.result.value == v.(serverFlags := NormalizeAuth(v.serverFlags).flags,
                           addr := if OAuth2Requested(v) && env.oauth2Addr.Some? then env.oauth2Addr.value else v.addr)
  {
    var auth := NormalizeAuth(v.serverFlags);
    var q := v.(serverFlags := auth.flags);
    if !auth.oauth2 then Prepared(Success(q), [1])
    else
      match env.oauth2Addr
      case None => Prepared(Success(q), [1, 10, 20])
      case Some(addr) =>
        if env.io.persistAddr then Prepared(Success(q.(addr := addr)), [1, 10, 20])
        else Prepared(Failure(StoreFailed), [1, 10])
  }

  /** Parse the address, find and expand candidates, then try them. */
  function Locate(p: LoginParam, progress: seq<int>, env: Env): (r: Run)
    ensures env.parseDomain(p.addr).None? ==> r == Abort(BadAddress, progress)
    ensures r.consulted <==> env.parseDomain(p.addr).Some? && NoAdvanced(p)
    ensures r.onlineAttempts <= 5 && (r.onlineAttempts > 0 ==> r.consulted)
    ensures env.parseDomain(p.addr).Some? ==>
      r.progress == LocatedProgress(progress, r.onlineAttempts, TrialStage(r.result))
    ensures r.result.Success? ==>
      && r.result.value.addr == p.addr
      && env.imapConnect(r.result.value.imapParam) && env.smtpConnect(r.result.value.smtpParam)
    ensures r.result == Failure(ImapFailed) ==> r.smtpAttempts == 0
    ensures r.result == Failure(SmtpFailed) ==> r.smtpAttempts == |OfProtocol(r.candidates, SMTP)|
    ensures env.parseDomain(p.addr).Some? && r.result != Failure(ImapFailed) ==>
      (r.result == Failure(SmtpFailed) <==>
         forall i :: 0 <= i < |OfProtocol(r.candidates, SMTP)| ==>
           !env.smtpConnect(WithCandidate(p.smtpParam, OfProtocol(r.candidates, SMTP)[i])))
  {
    match env.parseDomain(p.addr)
    case None => Abort(BadAddress, progress)
    case Some(domain) =>
      var disc := Discover(p, domain, env);
      var candidates := ExpandServers(disc.servers.GetOr(UserServers(p)), p.addr, domain);
      var r := TrialServers(p, candidates, progress + [200] + disc.progress + [500, 600], env);
      r.(consulted := disc.consulted, onlineAttempts := disc.onlineAttempts)
  }

  /** `configure`: preparation, then candidate discovery and trials. A
      successful run holds parameters both servers accepted; at most five
      online sources are asked, and only when none of the user's own server
      fields is set. */
  function Configure(p: LoginParam, env: Env): (r: Run)
    ensures r.onlineAttempts <= 5 && (r.onlineAttempts > 0 ==> r.consulted)
    ensures r.consulted ==> Prepare(p, env).result.Success? && NoAdvanced(Prepare(p, env).result.value)
    ensures r.result.Success? ==>
      && Prepare(p, env).result.Success?
      && env.imapConnect(r.result.value.imapParam) && env.smtpConnect(r.result.value.smtpParam)
    ensures r.result == Failure(ImapFailed) ==> r.smtpAttempts == 0
    ensures r.result == Failure(SmtpFailed) ==> r.smtpAttempts == |OfProtocol(r.candidates, SMTP)|
  {
    var prep := Prepare(p, env);
    match prep.result
    case Failure(e) => Abort(e, prep.progress)
    case Success(q) => Locate(q, prep.progress, env)
  }

  /** `inner_configure`: run, clear the wrong-password notice, then report
      1000 on success or 0 on failure. A failing store write ends the run
      with an error and without a final report. */
  function InnerConfigure(p: LoginParam, env: Env): (r: Run)
    ensures r.result.Success? <==>
      Configure(p, env).result.Success? && env.io.clearNotify && env.io.setNotify
    ensures r.result.Success? ==>
      r.result == Configure(p, env).result && r.progress == Configure(p, env).progress + [1000]
    ensures r.result.Failure? && Configure(p, env).result.Failure? ==>
      r.result.error == (if env.io.clearNotify then Configure(p, env).result.error else StoreFailed)
  {
    var run := Configure(p, env);
    if !env.io.clearNotify then run.(result := Failure(StoreFailed))
    else
      match run.result
      case Success(_) =>
        if env.io.setNotify then run.(progress := run.progress + [1000])
        else run.(result := Failure(StoreFailed))
      case Failure(_) => run.(progress := run.progress + [0])
  }
}
