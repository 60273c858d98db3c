/** Candidate server descriptors and the three expansion steps that turn one
    partially known descriptor into fully specified candidates
    (src/configure/server_params.rs). */
module ServerParamsList {
  import opened Text
  import opened Provider

  /** A connection candidate: empty hostname, port 0, socket `Automatic` and
      empty username each mean "unknown". */
  datatype ServerParams = ServerParams(
    protocol: Protocol,
    hostname: string,
    port: U16,
    socket: Socket,
    username: string)

  /** Well-known port for implicit TLS. */
  function TlsPort(protocol: Protocol): U16
  {
    match protocol
    case IMAP => 993
    case SMTP => 465
  }

  /** Well-known port for STARTTLS or plain connections. */
  function StartTlsPort(protocol: Protocol): U16
  {
    match protocol
    case IMAP => 143
    case SMTP => 587
  }

  /** Host-name prefix conventionally used for a protocol. */
  function HostPrefix(protocol: Protocol): string
  {
    match protocol
    case IMAP => "imap."
    case SMTP => "smtp."
  }

  /** Port and socket are known: the descriptor is ready to be tried. */
  predicate PortsKnown(p: ServerParams)
  {
    p.port != 0 && p.socket != Automatic
  }

  /** Known username: keep the descriptor; unknown: the full address, then
      the local part if the address has an '@'. */
  function ExpandUsernames(p: ServerParams, addr: string): (r: seq<ServerParams>)
    ensures 1 <= |r| <= 2
    ensures p.username != "" ==> r == [p]
    ensures p.username == "" ==> r[0] == p.(username := addr)
    ensures |r| == 2 <==> p.username == "" && '@' in addr
    ensures |r| == 2 ==> r[1] == p.(username := Before(addr, '@')) && '@' !in r[1].username
    ensures forall q :: q in r ==>
      q.protocol == p.protocol && q.hostname == p.hostname && q.port == p.port && q.socket == p.socket
  {
    if p.username == "" then
      var first := p.(username := addr);
      match IndexOf(addr, '@')
      case None => [first]
      case Some(at) => [first, p.(username := addr[..at])]
    else
      [p]
  }

  /** Known hostname: keep the descriptor; unknown: the bare domain, the
      protocol-prefixed domain, then "mail." + domain. */
  function ExpandHostnames(p: ServerParams, domain: string): (r: seq<ServerParams>)
    ensures 1 <= |r| <= 3
    ensures p.hostname != "" ==> r == [p]
    ensures p.hostname == "" ==>
      |r| == 3 && r[0].hostname == domain && r[1].hostname == HostPrefix(p.protocol) + domain
      && r[2].hostname == "mail." + domain
    ensures forall q :: q in r ==>
      q.protocol == p.protocol && q.port == p.port && q.socket == p.socket && q.username == p.username
  {
    if p.hostname == "" then
      [ p.(hostname := domain),
        p.(hostname := HostPrefix(p.protocol) + domain),
        p.(hostname := "mail." + domain) ]
    else
      [p]
  }

  /** Port and socket: infer the port from a known socket; with neither known
      try STARTTLS then SSL on the well-known ports; with only the port known
      try SSL then STARTTLS on it. */
  function ExpandPorts(p: ServerParams): (r: seq<ServerParams>)
    ensures 1 <= |r| <= 2
    ensures forall q :: q in r ==> PortsKnown(q)
    ensures forall q :: q in r ==> q.protocol == p.protocol && q.hostname == p.hostname && q.username == p.username
    ensures p.port == 0 && p.socket == SSL ==> r == [p.(port := TlsPort(p.protocol))]
    ensures p.port == 0 && (p.socket == STARTTLS || p.socket == Plain) ==>
      r == [p.(port := StartTlsPort(p.protocol))]
    ensures p.port == 0 && p.socket == Automatic ==>
      r == [p.(socket := STARTTLS, port := StartTlsPort(p.protocol)),
            p.(socket := SSL, port := TlsPort(p.protocol))]
    ensures p.port != 0 && p.socket == Automatic ==>
      r == [p.(socket := SSL), p.(socket := STARTTLS)]
    ensures p.port != 0 && p.socket != Automatic ==> r == [p]
  {
    var port :=
      if p.port != 0 then p.port
      else match p.socket
        case SSL => TlsPort(p.protocol)
        case STARTTLS => StartTlsPort(p.protocol)
        case Plain => StartTlsPort(p.protocol)
        case Automatic => 0;
    var q := p.(port := port);
    if q.port == 0 then
      [ q.(socket := STARTTLS, port := StartTlsPort(q.protocol)),
        q.(socket := SSL, port := TlsPort(q.protocol)) ]
    else if q.socket == Automatic then
      [q.(socket := SSL), q.(socket := STARTTLS)]
    else
      [q]
  }

  /** A descriptor with a known username is left alone, so expanding the
      expansion of an address with a non-empty local part changes nothing more. */
  lemma ExpandUsernamesSettles(p: ServerParams, addr: string)
    requires addr != "" && addr[0] != '@'
    ensures forall q :: q in ExpandUsernames(p, addr) ==> q.username != "" && ExpandUsernames(q, addr) == [q]
  {
    var local := Before(addr, '@');
    assert |local| > 0;
  }

  lemma ExpandHostnamesSettles(p: ServerParams, domain: string)
    requires domain != ""
    ensures forall q :: q in ExpandHostnames(p, domain) ==> q.hostname != "" && ExpandHostnames(q, domain) == [q]
  {
  }

  /** Every port/socket candidate is fully specified, hence a fixed point. */
  lemma ExpandPortsSettles(p: ServerParams)
    ensures forall q :: q in ExpandPorts(p) ==> ExpandPorts(q) == [q]
  {
  }
}
