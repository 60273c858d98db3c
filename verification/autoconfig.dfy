/** Where candidate descriptors come from when the user entered no advanced
    settings: the offline provider record, else a fixed cascade of five online
    discovery sources (src/configure/mod.rs:302-433). Fetching and parsing a
    source is an input function `fetch`; `None` stands for any fetch or parse
    error. */
module Autoconfig {
  import opened Wrappers
  import opened Text
  import opened Provider
  import opened ServerParamsList
  import opened Progress

  /** The XML dialect a source is parsed with. */
  datatype AutoconfigProvider = Mozilla | Outlook

  datatype AutoconfigSource = AutoconfigSource(provider: AutoconfigProvider, url: string)

  /** Outcome of the online cascade: the first successful result, how many
      sources were fetched, and the progress values emitted on the way. */
  datatype Cascade = Cascade(found: Option<seq<ServerParams>>, attempts: nat, progress: seq<int>)

  /** A discovery URL `https://<host>/<path><query>`. */
  function Url(host: string, path: string, query: string): string
  {
    "https://" + host + "/" + path + query
  }

  lemma UrlShape(host: string, path: string, query: string)
    ensures StartsWith(Url(host, path, query), "https://" + host + "/")
    ensures EndsWith(Url(host, path, query), query)
  {
    var a := "https://" + host + "/";
    assert Url(host, path, query) == a + (path + query);
    AppendAffixes(a, path + query);
    AppendAffixes(a + path, query);
  }

  lemma UrlQuery(host: string, path: string, query: string)
    requires '?' !in path
    ensures '?' in Url(host, path, query) <==> '?' in host || '?' in query
  {
  }

  /** The five discovery sources, in priority order, for the domain and the
      URL-encoded address. */
  function AllSources(domain: string, addr: string): (r: seq<AutoconfigSource>)
    ensures |r| == 5
    ensures r[0].provider == Mozilla && r[1].provider == Mozilla && r[2].provider == Outlook
      && r[3].provider == Outlook && r[4].provider == Mozilla
  {
    var query := "?emailaddress=" + addr;
    [ AutoconfigSource(Mozilla, Url("autoconfig." + domain, "mail/config-v1.1.xml", query)),
      AutoconfigSource(Mozilla, Url(domain, ".well-known/autoconfig/mail/config-v1.1.xml", query)),
      AutoconfigSource(Outlook, Url(domain, "autodiscover/autodiscover.xml", "")),
      AutoconfigSource(Outlook, Url("autodiscover." + domain, "autodiscover/autodiscover.xml", "")),
      AutoconfigSource(Mozilla, Url("autoconfig.thunderbird.net", "v1.1/", domain)) ]
  }

  /** Which host each source asks, and that the first two end with the
      address as `emailaddress=` query. */
  lemma AllSourcesShape(domain: string, addr: string)
    ensures var r := AllSources(domain, addr);
      && StartsWith(r[0].url, "https://" + ("autoconfig." + domain) + "/")
      && StartsWith(r[1].url, "https://" + domain + "/")
      && StartsWith(r[2].url, "https://" + domain + "/")
      && StartsWith(r[3].url, "https://" + ("autodiscover." + domain) + "/")
      && StartsWith(r[4].url, "https://" + "autoconfig.thunderbird.net" + "/") && EndsWith(r[4].url, domain)
      && EndsWith(r[0].url, "?emailaddress=" + addr) && EndsWith(r[1].url, "?emailaddress=" + addr)
  {
    var query := "?emailaddress=" + addr;
    UrlShape("autoconfig." + domain, "mail/config-v1.1.xml", query);
    UrlShape(domain, ".well-known/autoconfig/mail/config-v1.1.xml", query);
    UrlShape(domain, "autodiscover/autodiscover.xml", "");
    UrlShape("autodiscover." + domain, "autodiscover/autodiscover.xml", "");
    UrlShape("autoconfig.thunderbird.net", "v1.1/", domain);
  }

  /** Only the first two sources send the address: the others carry no query
      string unless the domain itself contains a '?'. */
  lemma AllSourcesQueries(domain: string, addr: string)
    ensures forall i :: 2 <= i < 5 ==> ('?' in AllSources(domain, addr)[i].url <==> '?' in domain)
  {
    assert '?' !in "autodiscover/autodiscover.xml";
    assert '?' !in "autoconfig.thunderbird.net";
    assert '?' !in "v1.1/";
    UrlQuery(domain, "autodiscover/autodiscover.xml", "");
    UrlQuery("autodiscover." + domain, "autodiscover/autodiscover.xml", "");
    UrlQuery("autoconfig.thunderbird.net", "v1.1/", domain);
  }

  /** Fetch the sources in order, emitting `progress`, `progress + 10`, ...
      after each fetch, and stop at the first one that succeeds. */
  function TrySources(sources: seq<AutoconfigSource>, fetch: AutoconfigSource -> Option<seq<ServerParams>>,
                      progress: int): (r: Cascade)
    ensures r.attempts <= |sources|
    ensures |sources| > 0 ==> r.attempts >= 1
    ensures |r.progress| == r.attempts
    ensures forall i :: 0 <= i < r.attempts ==> r.progress[i] == progress + 10 * i
    ensures forall i :: 0 <= i < r.attempts - 1 ==> fetch(sources[i]).None?
    ensures r.found.Some? ==> r.attempts >= 1 && fetch(sources[r.attempts - 1]) == r.found
    ensures r.found.None? <==> forall i :: 0 <= i < |sources| ==> fetch(sources[i]).None?
    ensures r.found.None? ==> r.attempts == |sources|
    decreases |sources|
  {
    if |sources| == 0 then Cascade(None, 0, [])
    else
      var res := fetch(sources[0]);
      if res.Some? then Cascade(res, 1, [progress])
      else
        var rest := TrySources(sources[1..], fetch, progress + 10);
        Cascade(rest.found, rest.attempts + 1, [progress] + rest.progress)
  }

  /** `get_autoconfig`: the online cascade over the five sources. */
  function GetAutoconfig(domain: string, addr: string, fetch: AutoconfigSource -> Option<seq<ServerParams>>): (r: Cascade)
    ensures 1 <= r.attempts <= 5
    ensures |r.progress| == r.attempts
    ensures r.progress == CascadeSteps(r.attempts)
    ensures forall i :: 0 <= i < r.attempts - 1 ==> fetch(AllSources(domain, addr)[i]).None?
    ensures r.found.Some? ==> fetch(AllSources(domain, addr)[r.attempts - 1]) == r.found
    ensures r.found.None? <==> forall i :: 0 <= i < 5 ==> fetch(AllSources(domain, addr)[i]).None?
    ensures r.found.None? ==> r.attempts == 5
  {
    TrySources(AllSources(domain, addr), fetch, 300)
  }

  /** The login name a provider's username pattern gives for an address. */
  function LoginName(pattern: UsernamePattern, addr: string): (r: string)
    ensures pattern == Email ==> r == addr
    ensures pattern == EmailLocalPart ==> StartsWith(addr, r) && '@' !in r
    ensures pattern == EmailLocalPart ==> (r == addr <==> '@' !in addr)
    ensures pattern == EmailLocalPart && r != addr ==> addr[|r|] == '@'
  {
    match pattern
    case Email => addr
    case EmailLocalPart =>
      match IndexOf(addr, '@')
      case Some(at) => addr[..at]
      case None => addr
  }

  function FromProviderServer(s: Server, addr: string): ServerParams
  {
    ServerParams(s.protocol, s.hostname, s.port, s.socket, LoginName(s.usernamePattern, addr))
  }

  /** `get_offline_autoconfig`: the provider record's servers as candidates,
      unless there is no record, it is marked broken, or it lists no server. */
  function GetOfflineAutoconfig(addr: string, provider: Option<ProviderInfo>): (r: Option<seq<ServerParams>>)
    ensures r.None? <==> provider.None? || provider.value.status == Broken || |provider.value.server| == 0
    ensures r.Some? ==> |r.value| == |provider.value.server|
    ensures r.Some? ==> forall i :: 0 <= i < |r.value| ==>
      var s := provider.value.server[i];
      && r.value[i].protocol == s.protocol && r.value[i].hostname == s.hostname
      && r.value[i].port == s.port && r.value[i].socket == s.socket
      && r.value[i].username == LoginName(s.usernamePattern, addr)
  {
    match provider
    case None => None
    case Some(info) =>
      match info.status
      case Broken => None
      case _ =>
        if |info.server| == 0 then None
        else Some(seq(|info.server|, i requires 0 <= i < |info.server| => FromProviderServer(info.server[i], addr)))
  }

  /** The provider database is not part of this model, so the record for
      nauta.cu is assumed, not looked up: given a usable record that lists an
      IMAP then an SMTP server, whatever their ports, sockets and username
      patterns, the offline lookup yields exactly those two candidates in that
      order. */
  lemma OfflineNautaCu(status: Status, incoming: Server, outgoing: Server)
    requires status != Broken
    requires incoming.protocol == IMAP && incoming.hostname == "imap.nauta.cu"
    requires outgoing.protocol == SMTP && outgoing.hostname == "smtp.nauta.cu"
    ensures var r := GetOfflineAutoconfig("someone123@nauta.cu", Some(ProviderInfo(status, [incoming, outgoing])));
      && r.Some? && |r.value| == 2
      && r.value[0].protocol == IMAP && r.value[0].hostname == "imap.nauta.cu"
      && r.value[1].protocol == SMTP && r.value[1].hostname == "smtp.nauta.cu"
  {
  }
}
