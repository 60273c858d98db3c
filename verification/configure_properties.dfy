/** Properties of whole configuration runs (src/configure/mod.rs:71-300):
    what is checked before anything else, when autoconfiguration is consulted
    and which source wins, how the progress reports are ordered, and what the
    final notice handling adds. */
module ConfigureProperties {
  import opened Wrappers
  import opened Seqs
  import opened Provider
  import opened ServerParamsList
  import opened Autoconfig
  import opened Progress
  import opened Configuration

  /** An empty address or IMAP password ends the run after the first report,
      before any lookup or connection. */
  lemma ValidationComesFirst(p: LoginParam, env: Env)
    requires p.addr == "" || p.imapParam.password == ""
    ensures var r := Configure(p, env);
      && r.result == Failure(if p.addr == "" then EmptyAddress else EmptyPassword)
      && r.progress == [1] && !r.consulted && r.onlineAttempts == 0
      && r.candidates == [] && r.imapAttempts == 0 && r.smtpAttempts == 0
  {
  }

  /** Autoconfiguration (offline or online) is consulted exactly when the
      input is valid, the address parses, and no advanced field is set. */
  lemma ConsultedIffNoAdvanced(p: LoginParam, env: Env)
    ensures var r := Configure(p, env);
      var prep := Prepare(p, env);
      && (r.consulted <==>
            prep.result.Success? && env.parseDomain(prep.result.value.addr).Some? && NoAdvanced(p))
      && (r.onlineAttempts > 0 ==> r.consulted)
      && r.onlineAttempts <= 5
  {
    var prep := Prepare(p, env);
    if prep.result.Success? {
      var q := prep.result.value;
      assert NoAdvanced(q) <==> NoAdvanced(p) by {
        assert FromLogin(IMAP, q.imapParam) == FromLogin(IMAP, p.imapParam);
        assert FromLogin(SMTP, q.smtpParam) == FromLogin(SMTP, p.smtpParam);
      }
    }
  }

  /** A usable provider record wins: nothing is fetched online and the
      candidates are the expansion of the record's servers. */
  lemma OfflinePreferred(p: LoginParam, env: Env, q: LoginParam, domain: string, servers: seq<ServerParams>)
    requires Prepare(p, env).result == Success(q)
    requires env.parseDomain(q.addr) == Some(domain)
    requires NoAdvanced(q)
    requires GetOfflineAutoconfig(q.addr, env.providerInfo(q.addr)) == Some(servers)
    ensures var r := Configure(p, env);
      r.consulted && r.onlineAttempts == 0 && r.candidates == ExpandServers(servers, q.addr, domain)
  {
  }

  /** Without a usable provider record the online cascade runs; its first
      answer, or else the user's own fields, supplies the descriptors. */
  lemma OnlineCascadeUsed(p: LoginParam, env: Env, q: LoginParam, domain: string)
    requires Prepare(p, env).result == Success(q)
    requires env.parseDomain(q.addr) == Some(domain)
    requires NoAdvanced(q)
    requires GetOfflineAutoconfig(q.addr, env.providerInfo(q.addr)).None?
    ensures var r := Configure(p, env);
      var c := GetAutoconfig(domain, env.urlEncode(q.addr), env.fetch);
      && r.consulted && r.onlineAttempts == c.attempts && 1 <= r.onlineAttempts
      && r.candidates == ExpandServers(c.found.GetOr(UserServers(q)), q.addr, domain)
  {
  }

  /** With any advanced field set, nothing is looked up and the candidates
      are the expansion of the user's IMAP and SMTP fields as entered. */
  lemma AdvancedFieldsUsed(p: LoginParam, env: Env, q: LoginParam, domain: string)
    requires Prepare(p, env).result == Success(q)
    requires env.parseDomain(q.addr) == Some(domain)
    requires !NoAdvanced(p)
    ensures var r := Configure(p, env);
      && !r.consulted && r.onlineAttempts == 0
      && r.candidates == ExpandServers(UserServers(p), q.addr, domain)
  {
    assert UserServers(q) == UserServers(p);
    assert NoAdvanced(q) == NoAdvanced(p);
  }

  /** The fallback descriptors hold exactly one IMAP and one SMTP entry. */
  lemma UserServersPerProtocol(p: LoginParam)
    ensures OfProtocol(UserServers(p), IMAP) == [FromLogin(IMAP, p.imapParam)]
    ensures OfProtocol(UserServers(p), SMTP) == [FromLogin(SMTP, p.smtpParam)]
  {
    var xs := UserServers(p);
    assert xs[1..][1..] == [];
    assert HasProtocol(IMAP)(xs[0]) && !HasProtocol(IMAP)(xs[1]);
    assert !HasProtocol(SMTP)(xs[0]) && HasProtocol(SMTP)(xs[1]);
    assert Filter(xs[1..], HasProtocol(IMAP)) == [];
    assert Filter(xs[1..], HasProtocol(SMTP)) == [xs[1]];
  }

  /** Reports start at 1, strictly increase, are all checkpoints, and a
      successful run's last report is 940. */
  lemma ConfigureProgress(p: LoginParam, env: Env)
    ensures var r := Configure(p, env);
      && |r.progress| >= 1 && r.progress[0] == 1
      && Ascending(r.progress) && AllIn(r.progress, Checkpoints)
      && (r.result.Success? ==> r.progress[|r.progress| - 1] == 940)
  {
    var prep := Prepare(p, env);
    if prep.result.Success? {
      LocateProgress(prep.result.value, prep.progress, env);
    }
  }

  /** The reports of a run that passed preparation, stated over the facts
      `Locate` promises about its result. */
  lemma LocateProgress(q: LoginParam, prefix: seq<int>, env: Env)
    requires prefix == [1] || prefix == [1, 10, 20]
    ensures var r := Locate(q, prefix, env);
      && |r.progress| >= 1 && r.progress[0] == 1
      && Ascending(r.progress) && AllIn(r.progress, Checkpoints)
      && (r.result.Success? ==> r.progress[|r.progress| - 1] == 940)
  {
    RunProgress(prefix, Locate(q, prefix, env), env.parseDomain(q.addr).Some?);
  }

  lemma RunProgress(prefix: seq<int>, r: Run, parsed: bool)
    requires prefix == [1] || prefix == [1, 10, 20]
    requires !parsed ==> r.progress == prefix && r.result.Failure?
    requires parsed ==> r.onlineAttempts <= 5 && r.progress == LocatedProgress(prefix, r.onlineAttempts, TrialStage(r.result))
    ensures && |r.progress| >= 1 && r.progress[0] == 1
      && Ascending(r.progress) && AllIn(r.progress, Checkpoints)
      && (r.result.Success? ==> r.progress[|r.progress| - 1] == 940)
  {
    if parsed {
      LocatedProgressAscending(prefix, r.onlineAttempts, TrialStage(r.result));
    } else {
      assert Ascending(prefix) && AllIn(prefix, Checkpoints);
    }
  }

  /** When no IMAP login can succeed the run fails and no SMTP login is tried. */
  lemma NoImapLoginFails(p: LoginParam, env: Env)
    requires forall s :: !env.imapConnect(s)
    ensures var r := Configure(p, env);
      r.result.Failure? && r.smtpAttempts == 0
  {
    var prep := Prepare(p, env);
    if prep.result.Success? {
      var q := prep.result.value;
      if env.parseDomain(q.addr).Some? {
        var r := Locate(q, prep.progress, env);
        assert r.result == Failure(ImapFailed);
      }
    }
  }

  /** If no SMTP server accepts the login, configuration fails: either at an
      earlier step, without an SMTP attempt, or with `SmtpFailed` after every
      SMTP candidate was tried. The steps after SMTP are never reached. */
  lemma NoSmtpLoginFails(p: LoginParam, env: Env)
    requires forall s :: !env.smtpConnect(s)
    ensures var r := Configure(p, env);
      && r.result.Failure?
      && r.result.error !in {FolderSetupFailed, InboxSelectFailed, SecretKeyFailed}
      && r.smtpAttempts == (if r.result == Failure(SmtpFailed) then |OfProtocol(r.candidates, SMTP)| else 0)
  {
    var prep := Prepare(p, env);
    if prep.result.Success? {
      var q := prep.result.value;
      if env.parseDomain(q.addr).Some? {
        var r := Locate(q, prep.progress, env);
        assert r.result != Failure(ImapFailed) ==> r.result == Failure(SmtpFailed);
      }
    }
  }

  /** An online source that answers with an empty server list still ends the
      cascade: the run then has no candidate at all and fails the IMAP step
      without a single attempt. */
  lemma EmptyOnlineAnswer(p: LoginParam, env: Env, q: LoginParam, domain: string)
    requires Prepare(p, env).result == Success(q)
    requires env.parseDomain(q.addr) == Some(domain)
    requires NoAdvanced(q)
    requires GetOfflineAutoconfig(q.addr, env.providerInfo(q.addr)).None?
    requires env.fetch(AllSources(domain, env.urlEncode(q.addr))[0]) == Some([])
    ensures var r := Configure(p, env);
      && r.onlineAttempts == 1 && r.candidates == []
      && r.result == Failure(ImapFailed) && r.imapAttempts == 0 && r.smtpAttempts == 0
      && r.progress == Prepare(p, env).progress + [200, 300, 500, 600]
  {
    var c := GetAutoconfig(domain, env.urlEncode(q.addr), env.fetch);
    assert c.attempts == 1 && c.found == Some([]);
    assert ExpandServers([], q.addr, domain) == [];
    var r := Configure(p, env);
    assert r.result == Failure(ImapFailed) by {
      assert OfProtocol([], IMAP) == [];
    }
  }

  /** `inner_configure` adds 1000 after a success and 0 after a failure,
      unless clearing or setting the notice fails, in which case the run ends
      with a store error and no final report. */
  lemma InnerConfigureOutcome(p: LoginParam, env: Env)
    ensures var run := Configure(p, env);
      var r := InnerConfigure(p, env);
      && (r.result.Success? <==> run.result.Success? && env.io.clearNotify && env.io.setNotify)
      && (r.result.Success? ==> r.result == run.result && r.progress == run.progress + [1000])
      && (run.result.Failure? && env.io.clearNotify ==> r.result == run.result && r.progress == run.progress + [0])
      && (!env.io.clearNotify ==> r.result == Failure(StoreFailed) && r.progress == run.progress)
      && (env.io.clearNotify && run.result.Success? && !env.io.setNotify ==>
            r.result == Failure(StoreFailed) && r.progress == run.progress)
      && r.candidates == run.candidates && r.consulted == run.consulted
  {
  }

  /** Every report is in 0..1000; a successful run reports strictly
      increasing values ending with 1000, and a failed run whose notice could
      be cleared ends with 0. */
  lemma InnerConfigureProgress(p: LoginParam, env: Env)
    ensures var r := InnerConfigure(p, env);
      && |r.progress| >= 1 && r.progress[0] == 1
      && (forall i :: 0 <= i < |r.progress| ==> 0 <= r.progress[i] <= 1000)
      && (r.result.Success? ==> Ascending(r.progress) && r.progress[|r.progress| - 1] == 1000)
      && (Configure(p, env).result.Failure? && env.io.clearNotify ==> r.progress[|r.progress| - 1] == 0)
  {
    ConfigureProgress(p, env);
    InnerConfigureOutcome(p, env);
    NoticeProgress(Configure(p, env), InnerConfigure(p, env), env.io.clearNotify);
  }

  /** The final report, stated over the facts `InnerConfigureOutcome` gives. */
  lemma NoticeProgress(run: Run, r: Run, cleared: bool)
    requires |run.progress| >= 1 && run.progress[0] == 1
    requires Ascending(run.progress) && AllIn(run.progress, Checkpoints)
    requires r.result.Success? ==> run.result.Success? && r.progress == run.progress + [1000]
    requires run.result.Failure? && cleared ==> r.progress == run.progress + [0]
    requires r.result.Failure? && !(run.result.Failure? && cleared) ==> r.progress == run.progress
    ensures && |r.progress| >= 1 && r.progress[0] == 1
      && (forall i :: 0 <= i < |r.progress| ==> 0 <= r.progress[i] <= 1000)
      && (r.result.Success? ==> Ascending(r.progress) && r.progress[|r.progress| - 1] == 1000)
      && (run.result.Failure? && cleared ==> r.progress[|r.progress| - 1] == 0)
  {
    CheckpointsInRange(run.progress);
    assert r.progress == run.progress || r.progress == run.progress + [0] || r.progress == run.progress + [1000];
    if r.result.Success? {
      AscendingAppend(run.progress, [1000]);
    }
  }
}
