/**
 * index.php: the human-readable HTML page listing the webmail link, the
 * IMAP and SMTP settings and the form that downloads the Apple profile.
 *
 * Two renderings are modelled. `PageAsWritten` follows the file as it
 * stands: the `SERVER_NAME` constant it reads is never defined in it, and
 * its SMTP table prints the IMAP encryption setting. `Render` is the page
 * with both corrected, the one the other endpoints' behaviour calls for.
 */
module InfoPage {
  import opened Wrappers
  import opened Http
  import opened Strings
  import opened Markup
  import opened Settings

  const TITLE := "E-Mail Client Configuration"
  const WEBMAIL := "Webmail"
  const IMAP_TITLE := "Incoming Server (IMAP)"
  const SMTP_TITLE := "Outgoing Server (SMTP)"
  const PROFILE_TITLE := "Apple Configuration Profile"

  /** The Encryption cell: "Yes (SSL)", "Yes (STARTTLS)" or "No". */
  function EncryptionLabel(ssl: string): string {
    if ssl != "" then "Yes (" + ssl + ")" else "No"
  }

  /** The Authentication cell. */
  function AuthLabel(ntlm: bool): string {
    if ntlm then "NTLM / SPA" else "Plain / Cleartext"
  }

  /** The three values the normalised SSL setting takes get three distinct
      labels, so the cell tells the reader which one is in force. */
  lemma EncryptionLabels(ssl: string)
    requires ssl == "" || ssl == "SSL" || ssl == "STARTTLS"
    ensures EncryptionLabel(ssl) == "No" <==> ssl == ""
    ensures EncryptionLabel(ssl) == "Yes (SSL)" <==> ssl == "SSL"
    ensures EncryptionLabel(ssl) == "Yes (STARTTLS)" <==> ssl == "STARTTLS"
  {
    assert "Yes (" + "SSL" + ")" == "Yes (SSL)";
    assert "Yes (" + "STARTTLS" + ")" == "Yes (STARTTLS)";
  }

  /** `<tr><td>label</td><td>value</td></tr>` */
  function Row(heading: string, value: seq<Node>): Node {
    Element("tr", [], [Leaf("td", heading), Element("td", [], value)])
  }

  /** The rows of a server table. `encryption` is the SSL value the
      Encryption cell is printed from. */
  function ServerRows(protocol: string, ep: Endpoint, encryption: string): seq<Node> {
    [Row("Protocol", [Text(protocol)]),
     Row("Server address", [Leaf("code", Escape(ep.host, NoQuotes))]),
     Row("Server port", [Leaf("code", IntToDecimal(ep.port))]),
     Row("Encryption", [Text(EncryptionLabel(encryption))]),
     Row("Authentication", [Text(AuthLabel(ep.ntlm))]),
     Row("Login name", [Text("Your full email address")])]
  }

  /** `<div class="container"><h2>title</h2><div class="content">…` */
  function Section(title: string, content: seq<Node>): Node {
    Element("div", [("class", "container")], [Leaf("h2", title), Element("div", [("class", "content")], content)])
  }

  function ServerSection(title: string, protocol: string, ep: Endpoint, encryption: string): Node {
    Section(title, [Element("div", [("class", "table-wrapper")], [
      Element("table", [], [
        Element("thead", [], [Element("tr", [], [Element("th", [], []), Leaf("th", "Value")])]),
        Element("tbody", [], ServerRows(protocol, ep, encryption))])])])
  }

  function WebmailSection(webmail: string): Node {
    Section(WEBMAIL, [
      Leaf("p", "You can find the webmailer at the following URL:"),
      Element("p", [("class", "align-center")], [
        Element("a", [("href", Escape(webmail, BothQuotes))], [Text(Escape(webmail, NoQuotes))])])])
  }

  const PROFILE_SECTION: Node :=
    Section(PROFILE_TITLE, [
      Leaf("p", "Enter your full email address and click the download button to setup your Apple mobile device."),
      Element("form", [("method", "GET"), ("action", "email.mobileconfig")], [
        Element("input", [("type", "email"), ("name", "email"), ("value", ""), ("minlength", "3"),
                          ("required", "required"), ("placeholder", "Email address")], []),
        Element("input", [("type", "submit"), ("value", "Download")], [])])])

  /** The sections of `<div id="main">`, in page order. */
  function MainSections(cfg: Config, smtpEncryption: string): seq<Node> {
    var webmail := cfg.webmail.GetOr("");
    Opt(webmail != "", WebmailSection(webmail))
    + Opt(Imap(cfg).host != "", ServerSection(IMAP_TITLE, "IMAP", Imap(cfg), Imap(cfg).ssl))
    + Opt(Smtp(cfg).host != "", ServerSection(SMTP_TITLE, "SMTP", Smtp(cfg), smtpEncryption))
    + [PROFILE_SECTION]
  }

  /** `<html>`, given the server id and the SSL value of the SMTP table's
      Encryption cell. The style sheet is left out. */
  function Page(cfg: Config, serverId: string, smtpEncryption: string): Node {
    var serverName := cfg.serverName.GetOr("");
    Layout(if serverId != "" then [("data-server-id", Escape(serverId, DoubleQuotes))] else [],
      [Leaf("h1", TITLE)] + Opt(serverName != "", Leaf("p", Escape(serverName, NoQuotes))),
      MainSections(cfg, smtpEncryption))
  }

  /** The frame of the page: the body's attributes, the header's content
      and the sections of the main part. */
  function Layout(bodyAttrs: seq<(string, string)>, header: seq<Node>, sections: seq<Node>): Node {
    Element("html", [("lang", "en")], [
      Element("head", [], [Leaf("title", TITLE)]),
      Element("body", bodyAttrs, [
        Element("div", [("id", "header")], [Element("div", [("class", "container")], header)]),
        Element("div", [("id", "main")], sections)])])
  }

  /** The page as the file stands. Reading the undefined `SERVER_NAME`
      constant is an uncaught Error in PHP 8; it happens exactly when no
      server id is configured (the `??` chain stops before it otherwise), and
      then no page is produced: None. */
  function PageAsWritten(cfg: Config): (r: Option<Response<Node>>)
    ensures r.None? <==> cfg.serverId.None?
  {
    if cfg.serverId.Some? then Some(Response(OK, Page(cfg, cfg.serverId.value, Imap(cfg).ssl)))
    else None
  }

  /** The corrected page: the server id falls back on the server name as
      the other endpoints define it, and the SMTP table shows the SMTP
      setting. Always 200. */
  function Render(cfg: Config, env: ServerEnv): (r: Response<Node>)
    ensures r.status == OK
  {
    Response(OK, Page(cfg, ServerId(cfg, ServerNameConstant(env)), Smtp(cfg).ssl))
  }

  // ---------------------------------------------------------------------
  // Reading the page.

  function BodyOf(page: Node): Node {
    if page.Element? && |page.children| == 2 && page.children[1].Element? then page.children[1]
    else Element("", [], [])
  }

  function MainOf(page: Node): seq<Node> {
    var body := BodyOf(page);
    if |body.children| == 2 && body.children[1].Element? then body.children[1].children else []
  }

  /** The heading of a section. */
  function TitleOf(n: Node): string {
    if n.Element? then Field(n, "h2") else ""
  }

  /** The headings of the sections, in page order. */
  function Titles(sections: seq<Node>): (r: seq<string>)
    ensures |r| == |sections|
  {
    if sections == [] then [] else [TitleOf(sections[0])] + Titles(sections[1..])
  }

  lemma {:induction false} TitlesConcat(a: seq<Node>, b: seq<Node>)
    ensures Titles(a + b) == Titles(a) + Titles(b)
  {
    if a != [] {
      assert (a + b)[0] == a[0];
      assert (a + b)[1..] == a[1..] + b;
      TitlesConcat(a[1..], b);
    } else {
      assert a + b == b;
    }
  }

  lemma SectionTitle(title: string, content: seq<Node>)
    ensures TitleOf(Section(title, content)) == title
  {
    FieldAt(Section(title, content), 0, "h2", title);
  }

  /** The first section with the given heading. */
  function SectionTitled(sections: seq<Node>, title: string): Option<Node> {
    if sections == [] then None
    else if TitleOf(sections[0]) == title then Some(sections[0])
    else SectionTitled(sections[1..], title)
  }

  lemma {:induction false} SectionTitledConcat(a: seq<Node>, b: seq<Node>, title: string)
    ensures SectionTitled(a + b, title) ==
      if SectionTitled(a, title).Some? then SectionTitled(a, title) else SectionTitled(b, title)
  {
    if a != [] {
      assert (a + b)[0] == a[0];
      assert (a + b)[1..] == a[1..] + b;
      SectionTitledConcat(a[1..], b, title);
    } else {
      assert a + b == b;
    }
  }

  /** The value cell of the first row with the given label. */
  function Cell(rows: seq<Node>, heading: string): Option<seq<Node>> {
    if rows == [] then None
    else if rows[0].Element? && |rows[0].children| == 2 && rows[0].children[0] == Leaf("td", heading)
            && rows[0].children[1].Element?
    then Some(rows[0].children[1].children)
    else Cell(rows[1..], heading)
  }

  /** The rows of a server section's table. */
  function TableRows(section: Node): seq<Node> {
    if section.Element? && |section.children| == 2 && section.children[1].Element?
       && |section.children[1].children| == 1 && section.children[1].children[0].Element?
       && |section.children[1].children[0].children| == 1 && section.children[1].children[0].children[0].Element?
       && |section.children[1].children[0].children[0].children| == 2
       && section.children[1].children[0].children[0].children[1].Element?
    then section.children[1].children[0].children[0].children[1].children
    else []
  }

  // ---------------------------------------------------------------------
  // Properties.

  /** The body carries `data-server-id` exactly when the server id is not
      empty; the attribute value holds no double quote and reads back as the
      id. */
  lemma BodyServerId(cfg: Config, env: ServerEnv)
    ensures
      var id := ServerId(cfg, ServerNameConstant(env));
      var attrs := BodyOf(Render(cfg, env).document).attrs;
      && (id != "" ==> |attrs| == 1 && attrs[0].0 == "data-server-id"
                       && '"' !in attrs[0].1 && Unescape(attrs[0].1) == id)
      && (id == "" ==> attrs == [])
  {
    UnescapeEscape(ServerId(cfg, ServerNameConstant(env)), DoubleQuotes);
  }

  lemma TitlesOpt(b: bool, n: Node)
    ensures Titles(Opt(b, n)) == if b then [TitleOf(n)] else []
  {
    if b {
      assert Opt(b, n) == [n];
    } else {
      assert Opt(b, n) == [];
    }
  }

  lemma ServerSectionTitle(title: string, protocol: string, ep: Endpoint, encryption: string)
    ensures TitleOf(ServerSection(title, protocol, ep, encryption)) == title
  {
    var n := ServerSection(title, protocol, ep, encryption);
    SectionTitle(title, n.children[1].children);
  }

  lemma WebmailTitle(webmail: string)
    ensures TitleOf(WebmailSection(webmail)) == WEBMAIL
  {
    SectionTitle(WEBMAIL, WebmailSection(webmail).children[1].children);
  }

  lemma ProfileTitle()
    ensures TitleOf(PROFILE_SECTION) == PROFILE_TITLE
  {
    SectionTitle(PROFILE_TITLE, PROFILE_SECTION.children[1].children);
  }

  /** Where the page as written is produced at all, the corrected page
      carries the same server id. */
  lemma ServerIdAgrees(cfg: Config, env: ServerEnv)
    requires cfg.serverId.Some?
    ensures BodyOf(PageAsWritten(cfg).value.document).attrs == BodyOf(Render(cfg, env).document).attrs
  {
    ServerIdOrder(cfg, ServerNameConstant(env));
  }

  /** The page lists the webmail section exactly when a webmail URL is set,
      the IMAP table exactly when an IMAP host is, the SMTP table exactly
      when an SMTP host is, in that order, and always ends with the profile
      form. */
  lemma SectionTitles(cfg: Config, smtpEncryption: string)
    ensures Titles(MainSections(cfg, smtpEncryption)) ==
      (if cfg.webmail.GetOr("") != "" then [WEBMAIL] else [])
      + (if cfg.imapHost.GetOr("") != "" then [IMAP_TITLE] else [])
      + (if cfg.smtpHost.GetOr("") != "" then [SMTP_TITLE] else [])
      + [PROFILE_TITLE]
  {
    var webmail := cfg.webmail.GetOr("");
    var w := Opt(webmail != "", WebmailSection(webmail));
    var i := Opt(Imap(cfg).host != "", ServerSection(IMAP_TITLE, "IMAP", Imap(cfg), Imap(cfg).ssl));
    var s := Opt(Smtp(cfg).host != "", ServerSection(SMTP_TITLE, "SMTP", Smtp(cfg), smtpEncryption));
    assert MainSections(cfg, smtpEncryption) == w + i + s + [PROFILE_SECTION];
    TitlesConcat(w + i + s, [PROFILE_SECTION]);
    TitlesConcat(w + i, s);
    TitlesConcat(w, i);
    TitlesOpt(webmail != "", WebmailSection(webmail));
    TitlesOpt(Imap(cfg).host != "", ServerSection(IMAP_TITLE, "IMAP", Imap(cfg), Imap(cfg).ssl));
    TitlesOpt(Smtp(cfg).host != "", ServerSection(SMTP_TITLE, "SMTP", Smtp(cfg), smtpEncryption));
    WebmailTitle(webmail);
    ServerSectionTitle(IMAP_TITLE, "IMAP", Imap(cfg), Imap(cfg).ssl);
    ServerSectionTitle(SMTP_TITLE, "SMTP", Smtp(cfg), smtpEncryption);
    ProfileTitle();
    assert Titles([PROFILE_SECTION]) == [PROFILE_TITLE];
  }

  /** The IMAP section, when printed, is the IMAP table, whose Encryption
      cell is printed from the IMAP SSL mode. */
  lemma ImapSection(cfg: Config, smtpEncryption: string)
    requires cfg.imapHost.GetOr("") != ""
    ensures SectionTitled(MainSections(cfg, smtpEncryption), IMAP_TITLE) ==
      Some(ServerSection(IMAP_TITLE, "IMAP", Imap(cfg), Imap(cfg).ssl))
  {
    var webmail := cfg.webmail.GetOr("");
    WebmailTitle(webmail);
    ServerSectionTitle(IMAP_TITLE, "IMAP", Imap(cfg), Imap(cfg).ssl);
    SectionSecond(webmail != "", WebmailSection(webmail),
                  ServerSection(IMAP_TITLE, "IMAP", Imap(cfg), Imap(cfg).ssl),
                  Opt(Smtp(cfg).host != "", ServerSection(SMTP_TITLE, "SMTP", Smtp(cfg), smtpEncryption)),
                  [PROFILE_SECTION], IMAP_TITLE);
  }

  /** A section after one optional section with another title is found. */
  lemma SectionSecond(p: bool, a: Node, n: Node, rest: seq<Node>, last: seq<Node>, title: string)
    requires TitleOf(a) != title && TitleOf(n) == title
    ensures SectionTitled(Opt(p, a) + Opt(true, n) + rest + last, title) == Some(n)
  {
    assert Opt(true, n) == [n];
    assert Opt(p, a) + Opt(true, n) + rest + last == Opt(p, a) + [n] + (rest + last);
    SectionFirst(Opt(p, a), n, rest + last, title);
  }

  /** The SMTP section, when printed, is the SMTP table. */
  lemma SmtpSection(cfg: Config, smtpEncryption: string)
    requires cfg.smtpHost.GetOr("") != ""
    ensures SectionTitled(MainSections(cfg, smtpEncryption), SMTP_TITLE) ==
      Some(ServerSection(SMTP_TITLE, "SMTP", Smtp(cfg), smtpEncryption))
  {
    var webmail := cfg.webmail.GetOr("");
    WebmailTitle(webmail);
    ServerSectionTitle(IMAP_TITLE, "IMAP", Imap(cfg), Imap(cfg).ssl);
    ServerSectionTitle(SMTP_TITLE, "SMTP", Smtp(cfg), smtpEncryption);
    SectionThird(webmail != "", WebmailSection(webmail),
                 Imap(cfg).host != "", ServerSection(IMAP_TITLE, "IMAP", Imap(cfg), Imap(cfg).ssl),
                 ServerSection(SMTP_TITLE, "SMTP", Smtp(cfg), smtpEncryption), [PROFILE_SECTION], SMTP_TITLE);
  }

  /** A section after two optional ones with other titles is found. */
  lemma SectionThird(p: bool, a: Node, q: bool, b: Node, n: Node, after: seq<Node>, title: string)
    requires TitleOf(a) != title && TitleOf(b) != title && TitleOf(n) == title
    ensures SectionTitled(Opt(p, a) + Opt(q, b) + Opt(true, n) + after, title) == Some(n)
  {
    assert Opt(true, n) == [n];
    SectionFirst(Opt(p, a) + Opt(q, b), n, after, title);
  }

  /** The first section with the title is found. */
  lemma {:induction false} SectionFirst(before: seq<Node>, n: Node, after: seq<Node>, title: string)
    requires forall x | x in before :: TitleOf(x) != title
    requires TitleOf(n) == title
    ensures SectionTitled(before + [n] + after, title) == Some(n)
  {
    if before == [] {
      assert (before + [n] + after)[0] == n;
    } else {
      assert (before + [n] + after)[0] == before[0];
      assert (before + [n] + after)[1..] == before[1..] + [n] + after;
      SectionFirst(before[1..], n, after, title);
    }
  }

  /** The row at `k` answers for its heading when no earlier row has it. */
  lemma {:induction false} CellAt(rows: seq<Node>, k: int, heading: string, value: seq<Node>)
    requires 0 <= k < |rows| && rows[k] == Row(heading, value)
    requires forall j :: 0 <= j < k ==> rows[j].Element? && |rows[j].children| == 2 && rows[j].children[0] != Leaf("td", heading)
    ensures Cell(rows, heading) == Some(value)
  {
    if k > 0 {
      CellAt(rows[1..], k - 1, heading, value);
    }
  }

  /** A server table's cells: the protocol, the escaped host, the port in
      decimal, the label of the SSL value it is given, and the
      authentication label. */
  lemma ServerCells(title: string, protocol: string, ep: Endpoint, encryption: string)
    ensures
      var rows := TableRows(ServerSection(title, protocol, ep, encryption));
      && Cell(rows, "Protocol") == Some([Text(protocol)])
      && Cell(rows, "Server address") == Some([Leaf("code", Escape(ep.host, NoQuotes))])
      && Cell(rows, "Server port") == Some([Leaf("code", IntToDecimal(ep.port))])
      && Cell(rows, "Encryption") == Some([Text(EncryptionLabel(encryption))])
      && Cell(rows, "Authentication") == Some([Text(AuthLabel(ep.ntlm))])
  {
    assert TableRows(ServerSection(title, protocol, ep, encryption)) == ServerRows(protocol, ep, encryption);
    LeadingCells(protocol, ep, encryption);
    TrailingCells(protocol, ep, encryption);
  }

  lemma LeadingCells(protocol: string, ep: Endpoint, encryption: string)
    ensures
      var rows := ServerRows(protocol, ep, encryption);
      && Cell(rows, "Protocol") == Some([Text(protocol)])
      && Cell(rows, "Server address") == Some([Leaf("code", Escape(ep.host, NoQuotes))])
      && Cell(rows, "Server port") == Some([Leaf("code", IntToDecimal(ep.port))])
  {
    var rows := ServerRows(protocol, ep, encryption);
    CellAt(rows, 0, "Protocol", [Text(protocol)]);
    CellAt(rows, 1, "Server address", [Leaf("code", Escape(ep.host, NoQuotes))]);
    CellAt(rows, 2, "Server port", [Leaf("code", IntToDecimal(ep.port))]);
  }

  lemma TrailingCells(protocol: string, ep: Endpoint, encryption: string)
    ensures
      var rows := ServerRows(protocol, ep, encryption);
      && Cell(rows, "Encryption") == Some([Text(EncryptionLabel(encryption))])
      && Cell(rows, "Authentication") == Some([Text(AuthLabel(ep.ntlm))])
  {
    var rows := ServerRows(protocol, ep, encryption);
    CellAt(rows, 3, "Encryption", [Text(EncryptionLabel(encryption))]);
    CellAt(rows, 4, "Authentication", [Text(AuthLabel(ep.ntlm))]);
  }

  lemma MainOfPage(cfg: Config, serverId: string, smtpEncryption: string)
    ensures MainOf(Page(cfg, serverId, smtpEncryption)) == MainSections(cfg, smtpEncryption)
  {
    var serverName := cfg.serverName.GetOr("");
    LayoutParts(if serverId != "" then [("data-server-id", Escape(serverId, DoubleQuotes))] else [],
      [Leaf("h1", TITLE)] + Opt(serverName != "", Leaf("p", Escape(serverName, NoQuotes))),
      MainSections(cfg, smtpEncryption));
  }

  /** The body's attributes and the main sections are read back from the frame. */
  lemma LayoutParts(bodyAttrs: seq<(string, string)>, header: seq<Node>, sections: seq<Node>)
    ensures BodyOf(Layout(bodyAttrs, header, sections)).attrs == bodyAttrs
    ensures MainOf(Layout(bodyAttrs, header, sections)) == sections
  {
  }

  /** The corrected page's SMTP table shows the SMTP encryption setting. */
  lemma SmtpEncryptionCell(cfg: Config, env: ServerEnv)
    requires cfg.smtpHost.GetOr("") != ""
    ensures
      var section := SectionTitled(MainOf(Render(cfg, env).document), SMTP_TITLE);
      section.Some? && Cell(TableRows(section.value), "Encryption") == Some([Text(EncryptionLabel(Smtp(cfg).ssl))])
  {
    MainOfPage(cfg, ServerId(cfg, ServerNameConstant(env)), Smtp(cfg).ssl);
    SmtpSection(cfg, Smtp(cfg).ssl);
    ServerCells(SMTP_TITLE, "SMTP", Smtp(cfg), Smtp(cfg).ssl);
  }

  /** The IMAP table shows the IMAP endpoint: its address, port, SSL mode
      and authentication. */
  lemma ImapCells(cfg: Config, env: ServerEnv)
    requires cfg.imapHost.GetOr("") != ""
    ensures
      var section := SectionTitled(MainOf(Render(cfg, env).document), IMAP_TITLE);
      && section.Some?
      && var rows := TableRows(section.value);
      && Cell(rows, "Server address") == Some([Leaf("code", Escape(Imap(cfg).host, NoQuotes))])
      && Cell(rows, "Server port") == Some([Leaf("code", IntToDecimal(Imap(cfg).port))])
      && Cell(rows, "Encryption") == Some([Text(EncryptionLabel(Imap(cfg).ssl))])
      && Cell(rows, "Authentication") == Some([Text(AuthLabel(Imap(cfg).ntlm))])
  {
    MainOfPage(cfg, ServerId(cfg, ServerNameConstant(env)), Smtp(cfg).ssl);
    ImapSection(cfg, Smtp(cfg).ssl);
    ServerCells(IMAP_TITLE, "IMAP", Imap(cfg), Imap(cfg).ssl);
  }

  /** As written, the SMTP table's Encryption cell shows the IMAP setting. */
  lemma SmtpEncryptionCellAsWritten(cfg: Config)
    requires cfg.serverId.Some? && cfg.smtpHost.GetOr("") != ""
    ensures
      var page := PageAsWritten(cfg).value.document;
      var section := SectionTitled(MainOf(page), SMTP_TITLE);
      section.Some? && Cell(TableRows(section.value), "Encryption") == Some([Text(EncryptionLabel(Imap(cfg).ssl))])
  {
    MainOfPage(cfg, cfg.serverId.value, Imap(cfg).ssl);
    SmtpSection(cfg, Imap(cfg).ssl);
    ServerCells(SMTP_TITLE, "SMTP", Smtp(cfg), Imap(cfg).ssl);
  }

  /** As written, the SMTP encryption setting has no effect on the page. */
  lemma SmtpSslIgnoredAsWritten(cfg: Config, smtpSsl: Option<string>)
    ensures PageAsWritten(cfg.(smtpSsl := smtpSsl)) == PageAsWritten(cfg)
  {
  }

  /** Any configuration with SMTP on SSL and no IMAP encryption setting
      shows the discrepancy: the page as written says "No" in the SMTP
      table, the corrected page "Yes (SSL)". */
  lemma SmtpEncryptionCounterexample(cfg: Config, env: ServerEnv)
    requires cfg.serverId.Some? && cfg.smtpHost.GetOr("") != ""
    requires cfg.imapSsl == None && cfg.smtpSsl == Some("ssl")
    ensures SectionTitled(MainOf(PageAsWritten(cfg).value.document), SMTP_TITLE).Some?
    ensures SectionTitled(MainOf(Render(cfg, env).document), SMTP_TITLE).Some?
    ensures Cell(TableRows(SectionTitled(MainOf(PageAsWritten(cfg).value.document), SMTP_TITLE).value), "Encryption")
              == Some([Text("No")])
    ensures Cell(TableRows(SectionTitled(MainOf(Render(cfg, env).document), SMTP_TITLE).value), "Encryption")
              == Some([Text("Yes (SSL)")])
  {
    SslCaseInsensitive("ssl");
    assert Imap(cfg).ssl == "" && Smtp(cfg).ssl == "SSL";
    SmtpEncryptionCellAsWritten(cfg);
    SmtpEncryptionCell(cfg, env);
    EncryptionLabels("SSL");
  }

  /** The Webmail section of the corrected page is printed exactly when a
      webmail URL is configured, and then links to that URL. */
  lemma WebmailRendered(cfg: Config, env: ServerEnv)
    ensures
      var section := SectionTitled(MainOf(Render(cfg, env).document), WEBMAIL);
      && (cfg.webmail.GetOr("") != "" ==> section == Some(WebmailSection(cfg.webmail.value)))
      && (cfg.webmail.GetOr("") == "" ==> section == None)
  {
    var webmail := cfg.webmail.GetOr("");
    var smtpEncryption := Smtp(cfg).ssl;
    MainOfPage(cfg, ServerId(cfg, ServerNameConstant(env)), smtpEncryption);
    var incoming := ServerSection(IMAP_TITLE, "IMAP", Imap(cfg), Imap(cfg).ssl);
    var outgoing := ServerSection(SMTP_TITLE, "SMTP", Smtp(cfg), smtpEncryption);
    ServerSectionTitle(IMAP_TITLE, "IMAP", Imap(cfg), Imap(cfg).ssl);
    ServerSectionTitle(SMTP_TITLE, "SMTP", Smtp(cfg), smtpEncryption);
    ProfileTitle();
    WebmailTitle(webmail);
    SectionOptFirst(webmail != "", WebmailSection(webmail), Imap(cfg).host != "", incoming,
                    Smtp(cfg).host != "", outgoing, PROFILE_SECTION, WEBMAIL);
  }

  /** The first of four sections, printed when `p` holds, is found under its
      title when none of the others has that title. */
  lemma SectionOptFirst(p: bool, a: Node, q: bool, b: Node, r: bool, c: Node, d: Node, title: string)
    requires TitleOf(a) == title && TitleOf(b) != title && TitleOf(c) != title && TitleOf(d) != title
    ensures SectionTitled(Opt(p, a) + Opt(q, b) + Opt(r, c) + [d], title) == if p then Some(a) else None
  {
    OptTitled(p, a, title);
    OptTitled(q, b, title);
    OptTitled(r, c, title);
    OptTitled(true, d, title);
    assert Opt(true, d) == [d];
    SectionTitledConcat(Opt(p, a), Opt(q, b), title);
    SectionTitledConcat(Opt(p, a) + Opt(q, b), Opt(r, c), title);
    SectionTitledConcat(Opt(p, a) + Opt(q, b) + Opt(r, c), [d], title);
  }

  /** An optional section is found exactly when it is printed and has the title. */
  lemma OptTitled(p: bool, a: Node, title: string)
    ensures SectionTitled(Opt(p, a), title) == if p && TitleOf(a) == title then Some(a) else None
  {
  }

  /** The webmail link: its target is the URL escaped with both quotes, so
      it cannot leave the attribute, and it reads back as the URL. */
  lemma WebmailLink(webmail: string)
    ensures
      var a := WebmailSection(webmail).children[1].children[1].children[0];
      && a.attrs[0].0 == "href"
      && '"' !in a.attrs[0].1 && '\'' !in a.attrs[0].1
      && Unescape(a.attrs[0].1) == webmail
      && a.children == [Text(Escape(webmail, NoQuotes))]
  {
    UnescapeEscape(webmail, BothQuotes);
  }
}
