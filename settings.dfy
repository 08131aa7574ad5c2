/**
 * The operator's configuration record and the normalisation block that
 * autoconfig-v1.1.php, autodiscover-v10.0.php, mobileconfig.php and
 * index.php each carry a copy of: port defaults, the SSL mapping, the NTLM
 * flag and the server id fallback chain.
 */
module Settings {
  import opened Wrappers
  import opened Strings

  /** `$config` as read from the operator's file; None is a key that is not
      set (or set to null). A missing file leaves every key unset. */
  datatype Config = Config(
    imapHost: Option<string>, imapPort: Option<string>, imapSsl: Option<string>, imapNtlm: Option<string>,
    smtpHost: Option<string>, smtpPort: Option<string>, smtpSsl: Option<string>, smtpNtlm: Option<string>,
    serverId: Option<string>, serverName: Option<string>, serverNameShort: Option<string>,
    webmail: Option<string>,
    appleIdentifier: Option<string>, appleUuid: Option<string>, appleMailUuid: Option<string>)

  /** What the web server and the host say about themselves:
      `$_SERVER['SERVER_NAME']` and `gethostname()` (None for false). */
  datatype ServerEnv = ServerEnv(serverName: Option<string>, hostname: Option<string>)

  /** One normalised mail server: `$imapHost`, `$imapPort`, `$imapSSL`,
      `$imapNTLM` (or the `$smtp…` four). */
  datatype Endpoint = Endpoint(host: string, port: int, ssl: string, ntlm: bool)

  const IMAP_DEFAULT_PORT: int := 143
  const SMTP_DEFAULT_PORT: int := 25

  /** A port setting: the default when unset or "", its `(int)` cast otherwise. */
  function Port(setting: Option<string>, default: int): int {
    if setting.Some? && setting.value != "" then IntCast(setting.value) else default
  }

  /** The SSL setting upper-cased when it is SSL or STARTTLS in any case,
      "" otherwise. */
  function Ssl(setting: Option<string>): (ssl: string)
    ensures ssl == "" || ssl == "SSL" || ssl == "STARTTLS"
  {
    var v := Upper(setting.GetOr(""));
    if v == "SSL" || v == "STARTTLS" then v else ""
  }

  /** The NTLM flag: the lower-cased setting is yes, true, on or 1. */
  predicate Ntlm(setting: Option<string>) {
    Lower(setting.GetOr("")) in ["yes", "true", "on", "1"]
  }

  function Normalize(host: Option<string>, port: Option<string>, ssl: Option<string>, ntlm: Option<string>,
                     defaultPort: int): Endpoint
  {
    Endpoint(host.GetOr(""), Port(port, defaultPort), Ssl(ssl), Ntlm(ntlm))
  }

  function Imap(cfg: Config): Endpoint {
    Normalize(cfg.imapHost, cfg.imapPort, cfg.imapSsl, cfg.imapNtlm, IMAP_DEFAULT_PORT)
  }

  function Smtp(cfg: Config): Endpoint {
    Normalize(cfg.smtpHost, cfg.smtpPort, cfg.smtpSsl, cfg.smtpNtlm, SMTP_DEFAULT_PORT)
  }

  // ---------------------------------------------------------------------
  // Properties of the normalisation.

  /** An unset or empty port takes the protocol's default; any PHP integer
      written as text gives that integer back. */
  lemma PortSetting(n: int, default: int)
    ensures Port(None, default) == default && Port(Some(""), default) == default
    ensures Port(Some(IntToDecimal(n)), default) == n
  {
    IntCastOfDecimal(n);
  }

  lemma DefaultPorts(cfg: Config)
    ensures (cfg.imapPort == None || cfg.imapPort == Some("")) ==> Imap(cfg).port == 143
    ensures (cfg.smtpPort == None || cfg.smtpPort == Some("")) ==> Smtp(cfg).port == 25
  {
  }

  /** The SSL setting is matched case-insensitively: it gives "SSL" exactly
      when it spells ssl, "STARTTLS" exactly when it spells starttls. */
  lemma SslCaseInsensitive(s: string)
    ensures Ssl(Some(s)) == "SSL" <==> EqualsIgnoreCase(s, "ssl")
    ensures Ssl(Some(s)) == "STARTTLS" <==> EqualsIgnoreCase(s, "starttls")
    ensures Ssl(None) == ""
  {
    UpperMatches(s, "SSL");
    UpperMatches(s, "STARTTLS");
    assert EqualsIgnoreCase(s, "ssl") <==> EqualsIgnoreCase(s, "SSL");
    assert EqualsIgnoreCase(s, "starttls") <==> EqualsIgnoreCase(s, "STARTTLS");
  }

  /** Normalising an already normalised SSL value changes nothing. */
  lemma SslIdempotent(setting: Option<string>)
    ensures Ssl(Some(Ssl(setting))) == Ssl(setting)
  {
    var v := Upper(setting.GetOr(""));
    UpperIdempotent(setting.GetOr(""));
    assert Upper("") == "";
  }

  /** The NTLM flag is set exactly by yes, true, on or 1 in any case. */
  lemma NtlmCaseInsensitive(setting: Option<string>)
    ensures Ntlm(setting) <==>
      setting.Some? &&
      (EqualsIgnoreCase(setting.value, "yes") || EqualsIgnoreCase(setting.value, "true") ||
       EqualsIgnoreCase(setting.value, "on") || EqualsIgnoreCase(setting.value, "1"))
  {
    var s := setting.GetOr("");
    LowerMatches(s, "yes");
    LowerMatches(s, "true");
    LowerMatches(s, "on");
    LowerMatches(s, "1");
    assert Lower("") == "";
  }

  // ---------------------------------------------------------------------
  // The server id.

  /** The SERVER_NAME constant: the request's server name unless it is
      empty, else the host name unless it is falsy, else null. */
  function ServerNameConstant(env: ServerEnv): (name: Option<string>)
    ensures name.Some? ==> name.value != "" && name.value != "0"
  {
    if !IsEmpty(env.serverName) then env.serverName
    else if !IsEmpty(env.hostname) then env.hostname
    else None
  }

  /** PHP's `a ?? b ?? … ?? last`. */
  function Coalesce(xs: seq<Option<string>>, last: string): string {
    if xs == [] then last
    else if xs[0].Some? then xs[0].value
    else Coalesce(xs[1..], last)
  }

  /** `$config['server_id'] ?? SERVER_NAME ?? $imapHost ?? $smtpHost ?? 'mailconfig'` */
  function ServerId(cfg: Config, serverName: Option<string>): string {
    Coalesce([cfg.serverId, serverName, Some(Imap(cfg).host), Some(Smtp(cfg).host)], "mailconfig")
  }

  /** `$imapHost` is always a string, so the chain stops there: the SMTP host
      and 'mailconfig' are never reached. */
  lemma ServerIdOrder(cfg: Config, serverName: Option<string>)
    ensures cfg.serverId.Some? ==> ServerId(cfg, serverName) == cfg.serverId.value
    ensures cfg.serverId.None? && serverName.Some? ==> ServerId(cfg, serverName) == serverName.value
    ensures cfg.serverId.None? && serverName.None? ==> ServerId(cfg, serverName) == cfg.imapHost.GetOr("")
  {
    var ys := [Some(Imap(cfg).host), Some(Smtp(cfg).host)];
    var xs := [cfg.serverId, serverName] + ys;
    assert xs == [cfg.serverId, serverName, Some(Imap(cfg).host), Some(Smtp(cfg).host)];
    assert ServerId(cfg, serverName) == Coalesce(xs, "mailconfig");
    if cfg.serverId.None? {
      assert xs[1..] == [serverName] + ys;
      assert Coalesce(xs, "mailconfig") == Coalesce([serverName] + ys, "mailconfig");
      if serverName.None? {
        assert ([serverName] + ys)[1..] == ys;
        assert Coalesce(xs, "mailconfig") == Coalesce(ys, "mailconfig");
        assert Coalesce(ys, "mailconfig") == Imap(cfg).host;
      } else {
        assert Coalesce([serverName] + ys, "mailconfig") == serverName.value;
      }
    }
  }

  /** Nothing about the SMTP server influences the server id. */
  lemma ServerIdIgnoresSmtp(cfg: Config, serverName: Option<string>, host: Option<string>)
    ensures ServerId(cfg.(smtpHost := host), serverName) == ServerId(cfg, serverName)
  {
    ServerIdOrder(cfg, serverName);
    ServerIdOrder(cfg.(smtpHost := host), serverName);
  }

  /** With SERVER_NAME defined as above, the server id is empty only when
      the operator configured an empty id, or when no server name is known
      and the IMAP host is empty. */
  lemma ServerIdEmpty(cfg: Config, env: ServerEnv)
    ensures ServerId(cfg, ServerNameConstant(env)) == "" <==>
      cfg.serverId == Some("") ||
      (cfg.serverId.None? && ServerNameConstant(env).None? && cfg.imapHost.GetOr("") == "")
  {
    ServerIdOrder(cfg, ServerNameConstant(env));
  }
}
