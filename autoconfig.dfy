/**
 * autoconfig-v1.1.php: the Mozilla ISPDB `<clientConfig version="1.1">`
 * document, answered to `GET ?emailaddress=…`.
 */
module Autoconfig {
  import opened Wrappers
  import opened Http
  import opened Strings
  import opened Email
  import opened Markup
  import opened Settings

  /** `$mail` and `$domain`. */
  datatype Requester = Requester(mail: string, domain: string)

  /** The address gate: a non-empty parameter that passes validation gives
      the sanitised address and the domain of the RAW parameter; anything
      else gives two empty strings. */
  function RequestAddress(emailaddress: Option<string>, valid: string -> bool): Requester {
    if !IsEmpty(emailaddress) && valid(emailaddress.value) then
      Requester(Sanitize(emailaddress.value), DomainOf(emailaddress.value))
    else
      Requester("", "")
  }

  const PLACEHOLDER := "%EMAILADDRESS%"

  /** `<incomingServer type="imap">` or `<outgoingServer type="smtp">`. */
  function ServerBlock(tag: string, kind: string, ep: Endpoint, mail: string): Node {
    Element(tag, [("type", kind)], [
      Leaf("hostname", Escape(ep.host, NoQuotes)),
      Leaf("port", IntToDecimal(ep.port)),
      Leaf("socketType", ep.ssl),
      Leaf("authentication", if ep.ntlm then "NTLM" else "password-cleartext"),
      Leaf("username", if mail != "" then Escape(mail, NoQuotes) else PLACEHOLDER)])
  }

  /** The children of `<emailProvider>`, in template order: the leaves
      naming the domain and the provider, then the server blocks. */
  function ProviderChildren(cfg: Config, who: Requester): seq<Node> {
    ProviderLeaves(cfg, who) + ServerBlocksOf(cfg, who)
  }

  function ProviderLeaves(cfg: Config, who: Requester): seq<Node> {
    var serverName := cfg.serverName.GetOr("");
    var serverNameShort := cfg.serverNameShort.GetOr("");
    Opt(who.domain != "", Leaf("domain", Escape(who.domain, NoQuotes)))
    + Opt(serverName != "", Leaf("displayName", Escape(serverName, NoQuotes)))
    + Opt(serverNameShort != "", Leaf("displayNameShort", Escape(serverNameShort, NoQuotes)))
  }

  function ServerBlocksOf(cfg: Config, who: Requester): seq<Node> {
    Opt(Imap(cfg).host != "", ServerBlock("incomingServer", "imap", Imap(cfg), who.mail))
    + Opt(Smtp(cfg).host != "", ServerBlock("outgoingServer", "smtp", Smtp(cfg), who.mail))
  }

  /** The whole endpoint. */
  function Render(cfg: Config, env: ServerEnv, emailaddress: Option<string>, valid: string -> bool)
    : (r: Response<Node>)
    ensures r.status == OK
    ensures r.document.Element? && r.document.name == "clientConfig"
  {
    var who := RequestAddress(emailaddress, valid);
    var id := ServerId(cfg, ServerNameConstant(env));
    Response(OK, Element("clientConfig", [("version", "1.1")], [
      Element("emailProvider", [("id", Escape(id, DoubleQuotes))], ProviderChildren(cfg, who))]))
  }

  /** The `<emailProvider>` element of a rendered document. */
  function Provider(doc: Node): Node {
    if doc.Element? && |doc.children| == 1 && doc.children[0].Element? then doc.children[0]
    else Element("", [], [])
  }

  // ---------------------------------------------------------------------
  // Properties.

  /** Among the leaves, each name is found only in its own block. */
  lemma LeavesNamed(cfg: Config, who: Requester, name: string)
    ensures
      var serverName := cfg.serverName.GetOr("");
      var serverNameShort := cfg.serverNameShort.GetOr("");
      Named(ProviderLeaves(cfg, who), name) ==
        if name == "domain" then Opt(who.domain != "", Leaf("domain", Escape(who.domain, NoQuotes)))
        else if name == "displayName" then Opt(serverName != "", Leaf("displayName", Escape(serverName, NoQuotes)))
        else if name == "displayNameShort" then
          Opt(serverNameShort != "", Leaf("displayNameShort", Escape(serverNameShort, NoQuotes)))
        else []
  {
    var serverName := cfg.serverName.GetOr("");
    var serverNameShort := cfg.serverNameShort.GetOr("");
    NamedOpts3(who.domain != "", Leaf("domain", Escape(who.domain, NoQuotes)),
               serverName != "", Leaf("displayName", Escape(serverName, NoQuotes)),
               serverNameShort != "", Leaf("displayNameShort", Escape(serverNameShort, NoQuotes)), name);
  }

  /** Among the server blocks, each name is found only in its own block. */
  lemma ServersNamed(cfg: Config, who: Requester, name: string)
    ensures Named(ServerBlocksOf(cfg, who), name) ==
      if name == "incomingServer" then
        Opt(Imap(cfg).host != "", ServerBlock("incomingServer", "imap", Imap(cfg), who.mail))
      else if name == "outgoingServer" then
        Opt(Smtp(cfg).host != "", ServerBlock("outgoingServer", "smtp", Smtp(cfg), who.mail))
      else []
  {
    NamedOpts2(Imap(cfg).host != "", ServerBlock("incomingServer", "imap", Imap(cfg), who.mail),
               Smtp(cfg).host != "", ServerBlock("outgoingServer", "smtp", Smtp(cfg), who.mail), name);
  }

  lemma ProviderNamed(cfg: Config, who: Requester, name: string)
    ensures Named(ProviderChildren(cfg, who), name) ==
      Named(ProviderLeaves(cfg, who), name) + Named(ServerBlocksOf(cfg, who), name)
  {
    NamedConcat(ProviderLeaves(cfg, who), ServerBlocksOf(cfg, who), name);
  }

  /** `<domain>` is printed exactly when the parameter is non-empty, valid
      and has text after its last '@'; it holds that text, which has no '@'. */
  lemma DomainElement(cfg: Config, env: ServerEnv, emailaddress: Option<string>, valid: string -> bool)
    ensures
      var kids := Provider(Render(cfg, env, emailaddress, valid).document).children;
      Named(kids, "domain") ==
        if !IsEmpty(emailaddress) && valid(emailaddress.value) && DomainOf(emailaddress.value) != ""
        then [Leaf("domain", Escape(DomainOf(emailaddress.value), NoQuotes))]
        else []
    ensures !IsEmpty(emailaddress) && valid(emailaddress.value) ==> '@' !in DomainOf(emailaddress.value)
  {
    var who := RequestAddress(emailaddress, valid);
    ProviderOfRender(cfg, env, emailaddress, valid);
    ProviderDomain(cfg, who);
  }

  /** `<emailProvider id>` carries the server id, escaped so that it stays
      inside the attribute and reads back as the id. */
  lemma ProviderId(cfg: Config, env: ServerEnv, emailaddress: Option<string>, valid: string -> bool)
    ensures
      var p := Provider(Render(cfg, env, emailaddress, valid).document);
      && p.name == "emailProvider" && |p.attrs| == 1 && p.attrs[0].0 == "id"
      && '"' !in p.attrs[0].1
      && Unescape(p.attrs[0].1) == ServerId(cfg, ServerNameConstant(env))
  {
    UnescapeEscape(ServerId(cfg, ServerNameConstant(env)), DoubleQuotes);
  }

  lemma ProviderOfRender(cfg: Config, env: ServerEnv, emailaddress: Option<string>, valid: string -> bool)
    ensures Provider(Render(cfg, env, emailaddress, valid).document).children ==
      ProviderChildren(cfg, RequestAddress(emailaddress, valid))
  {
  }

  lemma ProviderDomain(cfg: Config, who: Requester)
    ensures Named(ProviderChildren(cfg, who), "domain") ==
      if who.domain != "" then [Leaf("domain", Escape(who.domain, NoQuotes))] else []
  {
    ProviderNamed(cfg, who, "domain");
    LeavesNamed(cfg, who, "domain");
    ServersNamed(cfg, who, "domain");
  }

  /** `<incomingServer>` is printed exactly when the IMAP host is non-empty
      and `<outgoingServer>` exactly when the SMTP host is; each at most once. */
  lemma ServerBlocks(cfg: Config, env: ServerEnv, emailaddress: Option<string>, valid: string -> bool)
    ensures
      var kids := Provider(Render(cfg, env, emailaddress, valid).document).children;
      var who := RequestAddress(emailaddress, valid);
      && Named(kids, "incomingServer") ==
           (if cfg.imapHost.GetOr("") != "" then [ServerBlock("incomingServer", "imap", Imap(cfg), who.mail)] else [])
      && Named(kids, "outgoingServer") ==
           (if cfg.smtpHost.GetOr("") != "" then [ServerBlock("outgoingServer", "smtp", Smtp(cfg), who.mail)] else [])
  {
    var who := RequestAddress(emailaddress, valid);
    assert Provider(Render(cfg, env, emailaddress, valid).document).children == ProviderChildren(cfg, who);
    ServerBlockOf(cfg, who, "incomingServer");
    ServerBlockOf(cfg, who, "outgoingServer");
  }

  lemma ServerBlockOf(cfg: Config, who: Requester, name: string)
    requires name == "incomingServer" || name == "outgoingServer"
    ensures Named(ProviderChildren(cfg, who), name) ==
      if name == "incomingServer" then
        (if cfg.imapHost.GetOr("") != "" then [ServerBlock("incomingServer", "imap", Imap(cfg), who.mail)] else [])
      else
        (if cfg.smtpHost.GetOr("") != "" then [ServerBlock("outgoingServer", "smtp", Smtp(cfg), who.mail)] else [])
  {
    ProviderNamed(cfg, who, name);
    LeavesNamed(cfg, who, name);
    ServersNamed(cfg, who, name);
  }

  /** Inside a server block: `<socketType>` is the normalised SSL value as
      it is (empty without encryption), `<authentication>` is NTLM exactly
      when the flag is set, `<username>` the escaped address or the
      placeholder. */
  lemma ServerBlockFields(tag: string, kind: string, ep: Endpoint, mail: string)
    ensures var b := ServerBlock(tag, kind, ep, mail);
      && Field(b, "hostname") == Escape(ep.host, NoQuotes)
      && IntCast(Field(b, "port")) == ep.port
      && Field(b, "socketType") == ep.ssl
      && (Field(b, "authentication") == "NTLM" <==> ep.ntlm)
      && (!ep.ntlm ==> Field(b, "authentication") == "password-cleartext")
      && (mail == "" ==> Field(b, "username") == PLACEHOLDER)
      && (mail != "" ==> Unescape(Field(b, "username")) == mail)
  {
    var b := ServerBlock(tag, kind, ep, mail);
    var username := if mail != "" then Escape(mail, NoQuotes) else PLACEHOLDER;
    FieldAt(b, 0, "hostname", Escape(ep.host, NoQuotes));
    FieldAt(b, 1, "port", IntToDecimal(ep.port));
    FieldAt(b, 2, "socketType", ep.ssl);
    FieldAt(b, 3, "authentication", if ep.ntlm then "NTLM" else "password-cleartext");
    FieldAt(b, 4, "username", username);
    IntCastOfDecimal(ep.port);
    UnescapeEscape(mail, NoQuotes);
  }

  /** The login name: the placeholder without a valid address, the
      sanitised address when one is given. */
  lemma Username(emailaddress: Option<string>, valid: string -> bool)
    ensures IsEmpty(emailaddress) || !valid(emailaddress.value) ==>
      RequestAddress(emailaddress, valid).mail == ""
    ensures !IsEmpty(emailaddress) && valid(emailaddress.value) && '@' in emailaddress.value ==>
      RequestAddress(emailaddress, valid).mail == Sanitize(emailaddress.value) != ""
  {
    if !IsEmpty(emailaddress) {
      SanitizeKeepsAt(emailaddress.value);
    }
  }

  /** The hosts decide nothing but the two server blocks: a configuration
      that differs only in its hosts prints the same other elements, and the
      same provider id once a server id or server name is known. */
  lemma HostsOnlyGateServers(cfg: Config, env: ServerEnv, emailaddress: Option<string>, valid: string -> bool,
                             imapHost: Option<string>, smtpHost: Option<string>, name: string)
    requires name != "incomingServer" && name != "outgoingServer"
    ensures
      var cfg' := cfg.(imapHost := imapHost, smtpHost := smtpHost);
      var p := Provider(Render(cfg, env, emailaddress, valid).document);
      var p' := Provider(Render(cfg', env, emailaddress, valid).document);
      && Named(p'.children, name) == Named(p.children, name)
      && (cfg.serverId.Some? || ServerNameConstant(env).Some? ==> p'.attrs == p.attrs)
  {
    var cfg' := cfg.(imapHost := imapHost, smtpHost := smtpHost);
    var who := RequestAddress(emailaddress, valid);
    OtherChildren(cfg, cfg', who, name);
    ServerIdOrder(cfg, ServerNameConstant(env));
    ServerIdOrder(cfg', ServerNameConstant(env));
  }

  lemma OtherChildren(cfg: Config, cfg': Config, who: Requester, name: string)
    requires cfg' == cfg.(imapHost := cfg'.imapHost, smtpHost := cfg'.smtpHost)
    requires name != "incomingServer" && name != "outgoingServer"
    ensures Named(ProviderChildren(cfg', who), name) == Named(ProviderChildren(cfg, who), name)
  {
    ProviderNamed(cfg, who, name);
    LeavesNamed(cfg, who, name);
    ServersNamed(cfg, who, name);
    ProviderNamed(cfg', who, name);
    LeavesNamed(cfg', who, name);
    ServersNamed(cfg', who, name);
  }
}
