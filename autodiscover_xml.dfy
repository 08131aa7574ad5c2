/**
 * autodiscover-v10.0.php: the Outlook "POX" Autodiscover endpoint of
 * [MS-OXDSCLI] version 10.0. The address is cut out of the request body with
 * the pattern `#<EMailAddress>(.*?)</EMailAddress>#`, and the answer is an
 * `<Autodiscover>` document holding either an error block or the account's
 * IMAP and SMTP settings.
 */
module AutodiscoverXml {
  import opened Wrappers
  import opened Http
  import opened Strings
  import opened Email
  import opened Markup
  import opened Settings
  import opened Crc32

  // ---------------------------------------------------------------------
  // The pattern: leftmost match, lazy `(.*?)`, and `.` does not match a
  // line feed.

  const OPEN := "<EMailAddress>"
  const CLOSE := "</EMailAddress>"

  /** The first close tag at or after `j` reachable without crossing a line
      feed. */
  function CloseAfter(s: string, j: nat): (k: Option<nat>)
    requires j <= |s|
    ensures k.Some? ==> j <= k.value <= |s| && CLOSE <= s[k.value..] && '\n' !in s[j..k.value]
    ensures k.Some? ==> forall m :: j <= m < k.value ==> !(CLOSE <= s[m..])
    ensures k.None? ==> forall m :: j <= m <= |s| && '\n' !in s[j..m] ==> !(CLOSE <= s[m..])
    decreases |s| - j
  {
    if CLOSE <= s[j..] then Some(j)
    else if j == |s| || s[j] == '\n' then None
    else
      var k := CloseAfter(s, j + 1);
      assert forall m :: j + 1 <= m <= |s| ==> s[j..m] == [s[j]] + s[j + 1..m];
      k
  }

  /** The pattern matches at `i`. */
  predicate MatchAt(s: string, i: nat)
    requires i <= |s|
  {
    OPEN <= s[i..] && CloseAfter(s, i + |OPEN|).Some?
  }

  /** The leftmost position at or after `i` where the pattern matches. */
  function FindFrom(s: string, i: nat): (r: Option<nat>)
    requires i <= |s|
    ensures r.Some? ==> i <= r.value <= |s| && MatchAt(s, r.value)
    ensures r.Some? ==> forall m :: i <= m < r.value ==> !MatchAt(s, m)
    ensures r.None? ==> forall m :: i <= m <= |s| ==> !MatchAt(s, m)
    decreases |s| - i
  {
    if MatchAt(s, i) then Some(i)
    else if i == |s| then None
    else FindFrom(s, i + 1)
  }

  /** `$matches[1]`: the text between the tags of the leftmost match, None
      when the pattern does not match. */
  function Extract(body: string): (c: Option<string>)
    ensures c.Some? ==> '\n' !in c.value
  {
    var r := FindFrom(body, 0);
    if r.Some? then
      var start := r.value + |OPEN|;
      Some(body[start..CloseAfter(body, start).value])
    else None
  }

  /** What was captured stands between an open and a close tag in the body,
      and contains no close tag: the capture ends at the first one. */
  lemma ExtractSound(body: string)
    requires Extract(body).Some?
    ensures FindFrom(body, 0).Some?
    ensures
      var c := Extract(body).value;
      var i := FindFrom(body, 0).value;
      && i + |OPEN + c + CLOSE| <= |body|
      && body[i..i + |OPEN + c + CLOSE|] == OPEN + c + CLOSE
      && (forall m :: i + |OPEN| <= m < i + |OPEN| + |c| ==> !(CLOSE <= body[m..]))
  {
    var i := FindFrom(body, 0).value;
    var k := CloseAfter(body, i + |OPEN|).value;
    Capture(body, i, k, Extract(body).value);
  }

  /** The text between an open tag at `i` and the first close tag after it
      at `k`. */
  lemma Capture(body: string, i: nat, k: nat, c: string)
    requires i + |OPEN| <= k <= |body| && OPEN <= body[i..] && CLOSE <= body[k..]
    requires forall m :: i + |OPEN| <= m < k ==> !(CLOSE <= body[m..])
    requires c == body[i + |OPEN|..k]
    ensures
      && i + |OPEN + c + CLOSE| <= |body|
      && body[i..i + |OPEN + c + CLOSE|] == OPEN + c + CLOSE
      && (forall m :: i + |OPEN| <= m < i + |OPEN| + |c| ==> !(CLOSE <= body[m..]))
  {
    TagsAround(body, i, k);
  }

  /** An open tag at `i` and a close tag at `k` enclose the text between. */
  lemma TagsAround(body: string, i: nat, k: nat)
    requires i + |OPEN| <= k <= |body| && OPEN <= body[i..] && CLOSE <= body[k..]
    ensures body[i..k + |CLOSE|] == OPEN + body[i + |OPEN|..k] + CLOSE
  {
    var start := i + |OPEN|;
    assert body[i..start] == OPEN;
    assert body[k..k + |CLOSE|] == CLOSE;
    assert body[i..k + |CLOSE|] == body[i..start] + body[start..k] + body[k..k + |CLOSE|];
  }

  /** Nothing is captured only when no open tag is followed, on the same
      line, by a close tag. */
  lemma ExtractNone(body: string)
    requires Extract(body).None?
    ensures forall i, k ::
      0 <= i && i + |OPEN| <= k <= |body| && OPEN <= body[i..] && '\n' !in body[i + |OPEN|..k] ==>
      !(CLOSE <= body[k..])
  {
    forall i, k | 0 <= i && i + |OPEN| <= k <= |body| && OPEN <= body[i..] && '\n' !in body[i + |OPEN|..k]
      ensures !(CLOSE <= body[k..])
    {
      assert !MatchAt(body, i);
      assert CloseAfter(body, i + |OPEN|).None?;
    }
  }

  /** Skipping text that can start neither a close tag nor a new line. */
  lemma {:induction false} CloseAfterSkip(s: string, j: nat, k: nat)
    requires j <= k <= |s|
    requires forall m :: j <= m < k ==> s[m] != '<' && s[m] != '\n'
    ensures CloseAfter(s, j) == CloseAfter(s, k)
    decreases k - j
  {
    if j < k {
      assert s[j..][0] == s[j];
      CloseAfterSkip(s, j + 1, k);
    }
  }

  lemma {:induction false} FindSkip(s: string, i: nat, k: nat)
    requires i <= k <= |s|
    requires forall m :: i <= m < k ==> !(OPEN <= s[m..])
    ensures FindFrom(s, i) == FindFrom(s, k)
    decreases k - i
  {
    if i < k {
      FindSkip(s, i + 1, k);
    }
  }

  /** A client request that wraps an address in the tags, with no open tag
      before and neither a '<' nor a line feed in the address, has exactly
      that address captured. */
  lemma ExtractEnvelope(before: string, address: string, after: string)
    requires '<' !in address && '\n' !in address
    requires forall m :: 0 <= m < |before| ==> !(OPEN <= (before + OPEN + address + CLOSE + after)[m..])
    ensures Extract(before + OPEN + address + CLOSE + after) == Some(address)
  {
    var s := before + OPEN + address + CLOSE + after;
    var start := |before| + |OPEN|;
    var k := start + |address|;
    EnvelopeParts(before, address, after);
    ExtractAt(s, |before|, k);
  }

  lemma EnvelopeParts(before: string, address: string, after: string)
    ensures
      var s := before + OPEN + address + CLOSE + after;
      var start := |before| + |OPEN|;
      && s[|before|..] == OPEN + address + CLOSE + after
      && s[start + |address|..] == CLOSE + after
      && s[start..start + |address|] == address
  {
  }

  /** An open tag at `i`, nothing before it that opens one, then text
      without '<' or a line feed up to a close tag at `k`: the text is what
      is captured. */
  lemma ExtractAt(s: string, i: nat, k: nat)
    requires i + |OPEN| <= k <= |s| && OPEN <= s[i..] && CLOSE <= s[k..]
    requires '<' !in s[i + |OPEN|..k] && '\n' !in s[i + |OPEN|..k]
    requires forall m :: 0 <= m < i ==> !(OPEN <= s[m..])
    ensures Extract(s) == Some(s[i + |OPEN|..k])
  {
    forall m | i + |OPEN| <= m < k
      ensures s[m] != '<' && s[m] != '\n'
    {
      assert s[m] == s[i + |OPEN|..k][m - (i + |OPEN|)];
    }
    CloseAfterSkip(s, i + |OPEN|, k);
    assert CloseAfter(s, k) == Some(k);
    assert MatchAt(s, i);
    FindSkip(s, 0, i);
  }

  // ---------------------------------------------------------------------
  // The request.

  /** What the request says: no address (no match, or an empty or "0"
      capture), an address the validator refuses, or a valid one together
      with its sanitised form. */
  datatype Outcome = NoAddress | Invalid | Valid(mail: string)

  /** The gate of the request: 400 is answered exactly for `Invalid`. */
  function Classify(body: string, valid: string -> bool): (o: Outcome)
    ensures o == NoAddress <==> IsEmpty(Extract(body))
    ensures o == Invalid <==> !IsEmpty(Extract(body)) && !valid(Extract(body).value)
  {
    var m := Extract(body);
    if IsEmpty(m) then NoAddress
    else if !valid(m.value) then Invalid
    else Valid(Sanitize(m.value))
  }

  /** `$mail`: the sanitised address, "" without a valid one. */
  function Mail(o: Outcome): string {
    if o.Valid? then o.mail else ""
  }

  /** A valid address always keeps its '@', so a LoginName is then printed. */
  lemma ValidMail(body: string, valid: string -> bool)
    requires Classify(body, valid).Valid?
    ensures Mail(Classify(body, valid)) == Sanitize(Extract(body).value)
    ensures '@' in Extract(body).value ==> Mail(Classify(body, valid)) != ""
  {
    SanitizeKeepsAt(Extract(body).value);
  }

  // ---------------------------------------------------------------------
  // The document.

  const RESPONSE_SCHEMA := "http://schemas.microsoft.com/exchange/autodiscover/responseschema/2006"
  const OUTLOOK_SCHEMA := "http://schemas.microsoft.com/exchange/autodiscover/outlook/responseschema/2006a"
  const INVALID_REQUEST := "Invalid request"
  const ERROR_CODE := "600"

  /** `<Encryption>TLS</Encryption>`, `<SSL>on</SSL>` or `<SSL>off</SSL>`. */
  function EncryptionNode(ssl: string): Node {
    if ssl == "STARTTLS" then Leaf("Encryption", "TLS")
    else if ssl == "SSL" then Leaf("SSL", "on")
    else Leaf("SSL", "off")
  }

  /** One `<Protocol>` block. */
  function ProtocolBlock(kind: string, ep: Endpoint, mail: string): Node {
    Element("Protocol", [], [
      Leaf("Type", kind),
      Leaf("Server", Escape(ep.host, NoQuotes)),
      Leaf("Port", IntToDecimal(ep.port)),
      EncryptionNode(ep.ssl),
      Leaf("AuthRequired", "on")]
      + Opt(mail != "", Leaf("LoginName", Escape(mail, NoQuotes)))
      + [Leaf("SPA", if ep.ntlm then "on" else "off")])
  }

  /** `<Error Time=… Id=…>`: the time of day is the caller's clock reading,
      the id the checksum of the server id. */
  function ErrorNode(time: string, serverId: string, error: string): Node {
    Element("Error", [("Time", time), ("Id", ErrorId(serverId))], [
      Leaf("ErrorCode", ERROR_CODE),
      Leaf("Message", Escape(error, NoQuotes)),
      Element("DebugData", [], [])])
  }

  function AccountNode(cfg: Config, mail: string): Node {
    Element("Account", [], [Leaf("AccountType", "email"), Leaf("Action", "settings")]
      + Opt(Imap(cfg).host != "", ProtocolBlock("IMAP", Imap(cfg), mail))
      + Opt(Smtp(cfg).host != "", ProtocolBlock("SMTP", Smtp(cfg), mail)))
  }

  /** The children of `<Response>`. */
  function ResponseChildren(cfg: Config, env: ServerEnv, o: Outcome, time: string): seq<Node> {
    if o == Invalid then
      [ErrorNode(time, ServerId(cfg, ServerNameConstant(env)), INVALID_REQUEST)]
    else
      var serverName := cfg.serverName.GetOr("");
      Opt(serverName != "", Element("User", [], [Leaf("DisplayName", Escape(serverName, NoQuotes))]))
      + [AccountNode(cfg, Mail(o))]
  }

  /** The whole endpoint: 400 exactly for an address the validator refuses,
      200 otherwise. */
  function Render(cfg: Config, env: ServerEnv, body: string, valid: string -> bool, time: string)
    : (r: Response<Node>)
    ensures r.status == BAD_REQUEST <==> Classify(body, valid) == Invalid
    ensures r.status == OK <==> Classify(body, valid) != Invalid
  {
    var o := Classify(body, valid);
    Response(if o == Invalid then BAD_REQUEST else OK,
      Element("Autodiscover", [("xmlns", RESPONSE_SCHEMA)], [
        Element("Response", [("xmlns", OUTLOOK_SCHEMA)], ResponseChildren(cfg, env, o, time))]))
  }

  /** The `<Response>` element of a rendered document. */
  function ResponseOf(doc: Node): seq<Node> {
    if doc.Element? && |doc.children| == 1 && doc.children[0].Element? then doc.children[0].children
    else []
  }

  // ---------------------------------------------------------------------
  // Properties.

  /** The error block: code 600, the error text as its message, and as
      `Id` the decimal of the server id's checksum (see `ErrorId`). */
  lemma ErrorFields(time: string, id: string, error: string)
    ensures
      var n := ErrorNode(time, id, error);
      && Field(n, "ErrorCode") == "600"
      && Unescape(Field(n, "Message")) == error
      && n.attrs == [("Time", time), ("Id", ErrorId(id))]
  {
    var n := ErrorNode(time, id, error);
    FieldAt(n, 0, "ErrorCode", ERROR_CODE);
    FieldAt(n, 1, "Message", Escape(error, NoQuotes));
    UnescapeEscape(error, NoQuotes);
  }

  /** A refused address gives exactly one `<Error>` and no account. */
  lemma ErrorBlock(cfg: Config, env: ServerEnv, time: string)
    ensures
      var kids := ResponseChildren(cfg, env, Invalid, time);
      && Named(kids, "Account") == []
      && Named(kids, "User") == []
      && Named(kids, "Error") == [ErrorNode(time, ServerId(cfg, ServerNameConstant(env)), INVALID_REQUEST)]
  {
    var e := ErrorNode(time, ServerId(cfg, ServerNameConstant(env)), INVALID_REQUEST);
    assert ResponseChildren(cfg, env, Invalid, time) == [e];
    OnlyError([e]);
  }

  lemma OnlyError(kids: seq<Node>)
    requires |kids| == 1 && kids[0].Element? && kids[0].name == "Error"
    ensures Named(kids, "Account") == [] && Named(kids, "User") == [] && Named(kids, "Error") == kids
  {
    NamedOnly(kids, 0, "Error");
    NamedNone(kids, "Account");
    NamedNone(kids, "User");
  }

  /** Otherwise there is no error, exactly one `<Account>`, and a `<User>`
      exactly when a server name is configured, whose `<DisplayName>` is
      that name. */
  lemma AccountBlock(cfg: Config, env: ServerEnv, o: Outcome, time: string)
    requires o != Invalid
    ensures
      var kids := ResponseChildren(cfg, env, o, time);
      && Named(kids, "Error") == []
      && Named(kids, "Account") == [AccountNode(cfg, Mail(o))]
      && |Named(kids, "User")| == (if cfg.serverName.GetOr("") != "" then 1 else 0)
      && (cfg.serverName.GetOr("") != "" ==>
            Named(kids, "User") == [Element("User", [], [Leaf("DisplayName", Escape(cfg.serverName.value, NoQuotes))])])
  {
    var kids := ResponseChildren(cfg, env, o, time);
    NamedOnly(kids, |kids| - 1, "Account");
    NamedNone(kids, "Error");
    if cfg.serverName.GetOr("") != "" {
      NamedOnly(kids, 0, "User");
    } else {
      NamedNone(kids, "User");
    }
  }

  /** The rendered `<Response>` holds the error block exactly for a refused
      address and the account block otherwise. */
  lemma ErrorOrAccount(cfg: Config, env: ServerEnv, body: string, valid: string -> bool, time: string)
    ensures
      var o := Classify(body, valid);
      var kids := ResponseOf(Render(cfg, env, body, valid, time).document);
      && kids == ResponseChildren(cfg, env, o, time)
      && (|Named(kids, "Error")| == 1 <==> o == Invalid)
      && (|Named(kids, "Account")| == 1 <==> o != Invalid)
  {
    var o := Classify(body, valid);
    ResponseOfRender(cfg, env, body, valid, time);
    if o == Invalid {
      ErrorBlock(cfg, env, time);
    } else {
      AccountBlock(cfg, env, o, time);
    }
  }

  lemma ResponseOfRender(cfg: Config, env: ServerEnv, body: string, valid: string -> bool, time: string)
    ensures ResponseOf(Render(cfg, env, body, valid, time).document) == ResponseChildren(cfg, env, Classify(body, valid), time)
  {
  }

  /** The account holds an IMAP block exactly when an IMAP host is set and an
      SMTP block exactly when an SMTP host is, IMAP first. */
  lemma Protocols(cfg: Config, mail: string)
    ensures Named(AccountNode(cfg, mail).children, "Protocol") ==
      (if cfg.imapHost.GetOr("") != "" then [ProtocolBlock("IMAP", Imap(cfg), mail)] else [])
      + (if cfg.smtpHost.GetOr("") != "" then [ProtocolBlock("SMTP", Smtp(cfg), mail)] else [])
  {
    var head: seq<Node> := [Leaf("AccountType", "email"), Leaf("Action", "settings")];
    var a := ProtocolBlock("IMAP", Imap(cfg), mail);
    var b := ProtocolBlock("SMTP", Smtp(cfg), mail);
    assert AccountNode(cfg, mail).children == head + Opt(Imap(cfg).host != "", a) + Opt(Smtp(cfg).host != "", b);
    NamedAfter(head, Imap(cfg).host != "", a, Smtp(cfg).host != "", b, "Protocol");
  }

  lemma NamedAfter(head: seq<Node>, x: bool, a: Node, y: bool, b: Node, name: string)
    requires forall j :: 0 <= j < |head| ==> !(head[j].Element? && head[j].name == name)
    requires a.Element? && a.name == name && b.Element? && b.name == name
    ensures Named(head + Opt(x, a) + Opt(y, b), name) == (if x then [a] else []) + (if y then [b] else [])
  {
    NamedConcat(head + Opt(x, a), Opt(y, b), name);
    NamedConcat(head, Opt(x, a), name);
    NamedNone(head, name);
    NamedOpt(x, a, name);
    NamedOpt(y, b, name);
  }

  /** The encryption element: STARTTLS is written `<Encryption>TLS`, SSL
      `<SSL>on`, anything else `<SSL>off`; exactly one of the two elements is
      present. */
  lemma Encryption(kind: string, ep: Endpoint, mail: string)
    requires ep.ssl == "" || ep.ssl == "SSL" || ep.ssl == "STARTTLS"
    ensures
      var p := ProtocolBlock(kind, ep, mail);
      && (ep.ssl == "STARTTLS" <==> Named(p.children, "Encryption") == [Leaf("Encryption", "TLS")])
      && (ep.ssl != "STARTTLS" ==> Named(p.children, "Encryption") == [])
      && (ep.ssl == "STARTTLS" <==> Named(p.children, "SSL") == [])
      && (ep.ssl == "SSL" <==> Named(p.children, "SSL") == [Leaf("SSL", "on")])
      && (ep.ssl == "" <==> Named(p.children, "SSL") == [Leaf("SSL", "off")])
  {
    EncryptionOnly(kind, ep, mail, "Encryption");
    EncryptionOnly(kind, ep, mail, "SSL");
  }

  /** Of the children of a protocol block, only the encryption element is
      called `Encryption` or `SSL`. */
  lemma EncryptionOnly(kind: string, ep: Endpoint, mail: string, name: string)
    requires name == "Encryption" || name == "SSL"
    ensures Named(ProtocolBlock(kind, ep, mail).children, name) ==
      if EncryptionNode(ep.ssl).name == name then [EncryptionNode(ep.ssl)] else []
  {
    var enc := EncryptionNode(ep.ssl);
    var front := [Leaf("Type", kind), Leaf("Server", Escape(ep.host, NoQuotes)), Leaf("Port", IntToDecimal(ep.port))];
    var back := [Leaf("AuthRequired", "on")] + Opt(mail != "", Leaf("LoginName", Escape(mail, NoQuotes)))
      + [Leaf("SPA", if ep.ntlm then "on" else "off")];
    assert ProtocolBlock(kind, ep, mail).children == front + [enc] + back;
    assert forall j :: 0 <= j < |back| ==> back[j].name in {"AuthRequired", "LoginName", "SPA"};
    NamedAround(front, enc, back, name);
  }

  /** The only child with the name, if any, is the one between. */
  lemma NamedAround(front: seq<Node>, n: Node, back: seq<Node>, name: string)
    requires forall j :: 0 <= j < |front| ==> !(front[j].Element? && front[j].name == name)
    requires forall j :: 0 <= j < |back| ==> !(back[j].Element? && back[j].name == name)
    ensures Named(front + [n] + back, name) == if n.Element? && n.name == name then [n] else []
  {
    NamedConcat(front + [n], back, name);
    NamedConcat(front, [n], name);
    NamedNone(front, name);
    NamedNone(back, name);
  }

  /** Inside a protocol block: the type, the server, the port as the
      decimal of the normalised port, and authentication always required. */
  lemma ProtocolFields(kind: string, ep: Endpoint, mail: string)
    ensures
      var p := ProtocolBlock(kind, ep, mail);
      && Field(p, "Type") == kind
      && Unescape(Field(p, "Server")) == ep.host
      && IntCast(Field(p, "Port")) == ep.port
      && Field(p, "AuthRequired") == "on"
  {
    var p := ProtocolBlock(kind, ep, mail);
    FieldAt(p, 0, "Type", kind);
    FieldAt(p, 1, "Server", Escape(ep.host, NoQuotes));
    FieldAt(p, 2, "Port", IntToDecimal(ep.port));
    FieldAt(p, 4, "AuthRequired", "on");
    UnescapeEscape(ep.host, NoQuotes);
    IntCastOfDecimal(ep.port);
  }

  /** The login name is printed exactly when there is an address, and SPA is
      on exactly with NTLM. */
  lemma LoginAndSpa(kind: string, ep: Endpoint, mail: string)
    ensures
      var p := ProtocolBlock(kind, ep, mail);
      && (mail != "" <==> |Named(p.children, "LoginName")| == 1)
      && (mail != "" ==> Unescape(Field(p, "LoginName")) == mail)
      && (Field(p, "SPA") == "on" <==> ep.ntlm)
      && (!ep.ntlm ==> Field(p, "SPA") == "off")
  {
    var p := ProtocolBlock(kind, ep, mail);
    if mail != "" {
      FieldAt(p, 6, "SPA", if ep.ntlm then "on" else "off");
      NamedOnly(p.children, 5, "LoginName");
      FieldAt(p, 5, "LoginName", Escape(mail, NoQuotes));
      UnescapeEscape(mail, NoQuotes);
    } else {
      FieldAt(p, 5, "SPA", if ep.ntlm then "on" else "off");
      NamedNone(p.children, "LoginName");
    }
  }
}
