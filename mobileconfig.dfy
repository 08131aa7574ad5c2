/**
 * mobileconfig.php: the Apple configuration profile (a property list)
 * answered to `GET ?email=…`, holding one `com.apple.mail.managed` payload.
 * Without a valid address the endpoint answers 400 with an empty body.
 */
module Mobileconfig {
  import opened Wrappers
  import opened Http
  import opened Strings
  import opened Email
  import opened Markup
  import opened Settings
  import opened Uuid
  import opened Plist

  /** The attachment: its file name and the property list. */
  datatype Profile = Profile(filename: string, plist: Value)

  /** `$mail` and `$domain`, which here is taken from the sanitised address. */
  datatype Account = Account(mail: string, domain: string)

  /** The address gate: None stands for the 400 answer. */
  function RequestAccount(email: Option<string>, valid: string -> bool): (a: Option<Account>)
    ensures a.Some? <==> !IsEmpty(email) && valid(email.value)
    ensures a.Some? ==> a.value.mail == Sanitize(email.value) && '@' !in a.value.domain
  {
    if !IsEmpty(email) && valid(email.value) then
      var mail := Sanitize(email.value);
      Some(Account(mail, DomainOf(mail)))
    else None
  }

  /** `implode('.', array_reverse(explode('.', $domain)))`: the domain's
      labels in reverse order. */
  function ReverseLabels(domain: string): (r: string)
    ensures Split(r, '.') == Reverse(Split(domain, '.'))
  {
    var parts := Split(domain, '.');
    assert forall k :: 0 <= k < |Reverse(parts)| ==> '.' !in Reverse(parts)[k];
    SplitJoin(Reverse(parts), '.');
    Join(Reverse(parts), '.')
  }

  lemma ReverseReverse<T>(xs: seq<T>)
    ensures Reverse(Reverse(xs)) == xs
  {
  }

  /** Reversing the labels twice gives back the domain, for every string
      (empty labels included). */
  lemma ReverseLabelsTwice(domain: string)
    ensures ReverseLabels(ReverseLabels(domain)) == domain
  {
    var parts := Split(domain, '.');
    ReverseReverse(parts);
    JoinSplit(domain, '.');
  }

  /** `$appleIdentifier`: the configured identifier, else the reversed domain. */
  function AppleIdentifier(cfg: Config, domain: string): string {
    cfg.appleIdentifier.GetOr(ReverseLabels(domain))
  }

  /** `$appleUUID` or `$appleMailUUID`: the configured value, else a fresh
      version-4 UUID made from sixteen random bytes. */
  function ProfileUuid(setting: Option<string>, random: seq<bv8>): (u: string)
    requires |random| == 16
    ensures setting.Some? ==> u == setting.value
    ensures setting.None? ==> IsVersion4(u)
  {
    FormatShape(random);
    setting.GetOr(Format(Stamp(random)))
  }

  /** Two generated UUIDs are equal only when the stamped bytes are: the
      text loses none of the 122 random bits. */
  lemma GeneratedUuidsDistinct(a: seq<bv8>, b: seq<bv8>)
    requires |a| == 16 && |b| == 16 && Stamp(a) != Stamp(b)
    ensures ProfileUuid(None, a) != ProfileUuid(None, b)
  {
    ParseGenerated(a);
    ParseGenerated(b);
  }

  function AuthMethod(ntlm: bool): string {
    if ntlm then "EmailAuthNTLM" else "EmailAuthPassword"
  }

  /** `$entries` when `present`, nothing otherwise. */
  function When(present: bool, entries: seq<(string, Value)>): seq<(string, Value)> {
    if present then entries else []
  }

  function IncomingEntries(ep: Endpoint, mail: string): seq<(string, Value)> {
    [("IncomingMailServerHostName", PString(Escape(ep.host, NoQuotes))),
     ("IncomingMailServerPortNumber", PInteger(ep.port)),
     ("IncomingMailServerUseSSL", PBool(ep.ssl != "")),
     ("IncomingMailServerUsername", PString(Escape(mail, NoQuotes))),
     ("IncomingMailServerAuthentication", PString(AuthMethod(ep.ntlm)))]
  }

  function OutgoingEntries(ep: Endpoint, mail: string): seq<(string, Value)> {
    [("OutgoingMailServerHostName", PString(Escape(ep.host, NoQuotes))),
     ("OutgoingMailServerPortNumber", PInteger(ep.port)),
     ("OutgoingMailServerUseSSL", PBool(ep.ssl != "")),
     ("OutgoingMailServerUsername", PString(Escape(mail, NoQuotes))),
     ("OutgoingMailServerAuthentication", PString(AuthMethod(ep.ntlm))),
     ("OutgoingPasswordSameAsIncomingPassword", PBool(true))]
  }

  function AccountEntries(mail: string): seq<(string, Value)> {
    [("EmailAccountDescription", PString(Escape(mail, NoQuotes))),
     ("EmailAccountName", PString(Escape(mail, NoQuotes))),
     ("EmailAccountType", PString("EmailTypeIMAP")),
     ("EmailAddress", PString(Escape(mail, NoQuotes)))]
  }

  const SMIME_ENTRIES: seq<(string, Value)> := [
    ("SMIMEEnabled", PBool(false)),
    ("SMIMEEnablePerMessageSwitch", PBool(false)),
    ("SMIMEEnableEncryptionPerMessageSwitch", PBool(false)),
    ("disableMailRecentsSyncing", PBool(false))]

  /** The mail payload's trailing entries. */
  function MailPayloadTail(mail: string, identifier: string, mailUuid: string): seq<(string, Value)> {
    [("PayloadDisplayName", PString(Escape(mail, NoQuotes))),
     ("PayloadIdentifier",
      PString(Escape(identifier, NoQuotes) + ".com.apple.mail.managed." + Escape(mailUuid, NoQuotes))),
     ("PayloadType", PString("com.apple.mail.managed")),
     ("PayloadUUID", PString(Escape(mailUuid, NoQuotes))),
     ("PayloadVersion", PReal("1"))]
  }

  /** The entries after the SMTP group. */
  function TrailingEntries(cfg: Config, mail: string, identifier: string, mailUuid: string): seq<(string, Value)> {
    var serverName := cfg.serverName.GetOr("");
    SMIME_ENTRIES
    + When(serverName != "", [("PayloadDescription", PString(Escape(serverName, NoQuotes)))])
    + MailPayloadTail(mail, identifier, mailUuid)
  }

  /** The entries after the account's own: the IMAP group when an IMAP
      host is set, the SMTP group when an SMTP host is set, then the rest. */
  function MailEntriesAfterAccount(cfg: Config, mail: string, identifier: string, mailUuid: string)
    : seq<(string, Value)>
  {
    When(Imap(cfg).host != "", IncomingEntries(Imap(cfg), mail))
    + When(Smtp(cfg).host != "", OutgoingEntries(Smtp(cfg), mail))
    + TrailingEntries(cfg, mail, identifier, mailUuid)
  }

  /** The entries of the `com.apple.mail.managed` payload. */
  function MailEntries(cfg: Config, mail: string, identifier: string, mailUuid: string): seq<(string, Value)> {
    AccountEntries(mail) + MailEntriesAfterAccount(cfg, mail, identifier, mailUuid)
  }

  /** The entries of the outer profile dictionary. */
  function ProfileEntries(cfg: Config, domain: string, identifier: string, uuid: string, payload: Value)
    : seq<(string, Value)>
  {
    var serverName := cfg.serverName.GetOr("");
    [("HasRemovalPasscode", PBool(false)), ("PayloadContent", PArray([payload]))]
    + When(serverName != "", [("PayloadDescription", PString(Escape(serverName, NoQuotes))),
                              ("PayloadDisplayName", PString(Escape(serverName, NoQuotes)))])
    + [("PayloadIdentifier", PString(Escape(identifier, NoQuotes))),
       ("PayloadOrganization", PString(Escape(domain, NoQuotes))),
       ("PayloadRemovalDisallowed", PBool(false)),
       ("PayloadType", PString("Configuration")),
       ("PayloadUUID", PString(Escape(uuid, NoQuotes))),
       ("PayloadVersion", PInteger(2))]
  }

  /** The whole endpoint. The two random buffers are what `random_bytes(16)`
      returns for the profile UUID and the mail payload UUID; each is used
      only when its UUID is not configured. */
  function Render(cfg: Config, email: Option<string>, valid: string -> bool,
                  randomProfile: seq<bv8>, randomMail: seq<bv8>)
    : (r: Response<Option<Profile>>)
    requires |randomProfile| == 16 && |randomMail| == 16
    ensures r.status == BAD_REQUEST <==> IsEmpty(email) || !valid(email.value)
    ensures r.status == OK <==> r.document.Some?
    ensures r.status == OK || r.status == BAD_REQUEST
  {
    var account := RequestAccount(email, valid);
    if account.None? then Response(BAD_REQUEST, None)
    else
      var mail, domain := account.value.mail, account.value.domain;
      var identifier := AppleIdentifier(cfg, domain);
      var uuid := ProfileUuid(cfg.appleUuid, randomProfile);
      var mailUuid := ProfileUuid(cfg.appleMailUuid, randomMail);
      var payload := PDict(MailEntries(cfg, mail, identifier, mailUuid));
      Response(OK, Some(Profile(domain + ".mobileconfig",
        PDict(ProfileEntries(cfg, domain, identifier, uuid, payload)))))
  }

  // ---------------------------------------------------------------------
  // Properties.

  /** A UUID text is printed as it is: it has nothing to escape. */
  lemma UuidUnescaped(u: string, q: Quotes)
    requires IsVersion4(u)
    ensures Escape(u, q) == u
  {
    assert forall i :: 0 <= i < |u| ==> u[i] == '-' || IsLowerHex(u[i]);
    EscapePlain(u, q);
  }

  /** For a valid address: the attachment is named after the domain of the
      sanitised address; that domain is the organisation; the identifier is
      the configured one or the domain's labels reversed; each UUID is the
      configured one or a generated version-4 UUID, printed as it is; the
      one payload is the mail payload for the sanitised address, that
      identifier and the mail UUID. */
  lemma ValidRequest(cfg: Config, email: Option<string>, valid: string -> bool,
                     randomProfile: seq<bv8>, randomMail: seq<bv8>)
    requires |randomProfile| == 16 && |randomMail| == 16
    requires !IsEmpty(email) && valid(email.value)
    ensures
      var r := Render(cfg, email, valid, randomProfile, randomMail);
      var domain := DomainOf(Sanitize(email.value));
      && r.status == OK && r.document.Some? && r.document.value.plist.PDict?
      && r.document.value.filename == domain + ".mobileconfig"
      && var entries := r.document.value.plist.entries;
      && Lookup(entries, "PayloadOrganization") == Some(PString(Escape(domain, NoQuotes)))
      && Lookup(entries, "PayloadIdentifier") == Some(PString(Escape(cfg.appleIdentifier.GetOr(ReverseLabels(domain)), NoQuotes)))
      && (cfg.appleUuid.None? ==>
            exists u :: IsVersion4(u) && Lookup(entries, "PayloadUUID") == Some(PString(u)))
      && (cfg.appleUuid.Some? ==>
            Lookup(entries, "PayloadUUID") == Some(PString(Escape(cfg.appleUuid.value, NoQuotes))))
      && var mailUuid := ProfileUuid(cfg.appleMailUuid, randomMail);
      && Lookup(entries, "PayloadContent") ==
           Some(PArray([PDict(MailEntries(cfg, Sanitize(email.value), AppleIdentifier(cfg, domain), mailUuid))]))
      && (cfg.appleMailUuid.Some? ==> mailUuid == cfg.appleMailUuid.value)
      && (cfg.appleMailUuid.None? ==> IsVersion4(mailUuid) && Escape(mailUuid, NoQuotes) == mailUuid)
  {
    var mail := Sanitize(email.value);
    var domain := DomainOf(mail);
    var identifier := AppleIdentifier(cfg, domain);
    var uuid := ProfileUuid(cfg.appleUuid, randomProfile);
    var mailUuid := ProfileUuid(cfg.appleMailUuid, randomMail);
    var payload := PDict(MailEntries(cfg, mail, identifier, mailUuid));
    ProfileDictionary(cfg, domain, identifier, uuid, payload);
    if cfg.appleUuid.None? {
      UuidUnescaped(uuid, NoQuotes);
    }
    if cfg.appleMailUuid.None? {
      UuidUnescaped(mailUuid, NoQuotes);
    }
  }

  lemma Regroup<T>(a: seq<T>, b: seq<T>, c: seq<T>, d: seq<T>)
    ensures a + (b + c + d) == a + b + c + d
  {
  }

  /** The mail entries group by group. */
  lemma MailEntriesParts(cfg: Config, mail: string, identifier: string, mailUuid: string)
    ensures MailEntries(cfg, mail, identifier, mailUuid) ==
      AccountEntries(mail)
      + When(Imap(cfg).host != "", IncomingEntries(Imap(cfg), mail))
      + When(Smtp(cfg).host != "", OutgoingEntries(Smtp(cfg), mail))
      + TrailingEntries(cfg, mail, identifier, mailUuid)
  {
    Regroup(AccountEntries(mail), When(Imap(cfg).host != "", IncomingEntries(Imap(cfg), mail)),
            When(Smtp(cfg).host != "", OutgoingEntries(Smtp(cfg), mail)), TrailingEntries(cfg, mail, identifier, mailUuid));
  }

  /** Which initials the fixed groups use. */
  lemma Initials(cfg: Config, mail: string, identifier: string, mailUuid: string)
    ensures NoKeyStartsWith(AccountEntries(mail), 'I') && NoKeyStartsWith(AccountEntries(mail), 'O')
    ensures NoKeyStartsWith(TrailingEntries(cfg, mail, identifier, mailUuid), 'I')
    ensures NoKeyStartsWith(TrailingEntries(cfg, mail, identifier, mailUuid), 'O')
    ensures NoKeyStartsWith(IncomingEntries(Imap(cfg), mail), 'O')
    ensures NoKeyStartsWith(OutgoingEntries(Smtp(cfg), mail), 'I')
  {
    TrailingInitials(cfg, mail, identifier, mailUuid);
  }

  lemma TrailingInitials(cfg: Config, mail: string, identifier: string, mailUuid: string)
    ensures NoKeyStartsWith(TrailingEntries(cfg, mail, identifier, mailUuid), 'I')
    ensures NoKeyStartsWith(TrailingEntries(cfg, mail, identifier, mailUuid), 'O')
  {
    var serverName := cfg.serverName.GetOr("");
    var d := When(serverName != "", [("PayloadDescription", PString(Escape(serverName, NoQuotes)))]);
    var t := MailPayloadTail(mail, identifier, mailUuid);
    NoKeyConcat(SMIME_ENTRIES, d, 'I');
    NoKeyConcat(SMIME_ENTRIES + d, t, 'I');
    NoKeyConcat(SMIME_ENTRIES, d, 'O');
    NoKeyConcat(SMIME_ENTRIES + d, t, 'O');
  }

  /** The IMAP group looked up in the mail payload: absent (no key with
      its initial at all) when the host is empty; otherwise the host, the
      port, SSL on exactly when the normalised setting is SSL or STARTTLS,
      the address as user name and the authentication method. */
  lemma IncomingServer(cfg: Config, mail: string, identifier: string, mailUuid: string)
    ensures
      var entries := MailEntries(cfg, mail, identifier, mailUuid);
      var ep := Imap(cfg);
      if ep.host == "" then
        forall key :: key != [] && key[0] == 'I' ==> Lookup(entries, key) == None
      else
        && Lookup(entries, "IncomingMailServerHostName") == Some(PString(Escape(ep.host, NoQuotes)))
        && Lookup(entries, "IncomingMailServerPortNumber") == Some(PInteger(ep.port))
        && Lookup(entries, "IncomingMailServerUseSSL") == Some(PBool(ep.ssl == "SSL" || ep.ssl == "STARTTLS"))
        && Lookup(entries, "IncomingMailServerUsername") == Some(PString(Escape(mail, NoQuotes)))
        && Lookup(entries, "IncomingMailServerAuthentication") ==
             Some(PString(if ep.ntlm then "EmailAuthNTLM" else "EmailAuthPassword"))
  {
    if Imap(cfg).host == "" {
      NoIncoming(cfg, mail, identifier, mailUuid);
      forall key | key != [] && key[0] == 'I' {
        LookupByInitial(MailEntries(cfg, mail, identifier, mailUuid), key);
      }
    } else {
      var rest := When(Smtp(cfg).host != "", OutgoingEntries(Smtp(cfg), mail))
        + TrailingEntries(cfg, mail, identifier, mailUuid);
      assert MailEntries(cfg, mail, identifier, mailUuid) == AccountEntries(mail) + IncomingEntries(Imap(cfg), mail) + rest;
      Initials(cfg, mail, identifier, mailUuid);
      IncomingGroup(Imap(cfg), mail, AccountEntries(mail), rest);
    }
  }

  lemma NoIncoming(cfg: Config, mail: string, identifier: string, mailUuid: string)
    requires Imap(cfg).host == ""
    ensures NoKeyStartsWith(MailEntries(cfg, mail, identifier, mailUuid), 'I')
  {
    MailEntriesParts(cfg, mail, identifier, mailUuid);
    Initials(cfg, mail, identifier, mailUuid);
    NoKeyConcat4(AccountEntries(mail), [], When(Smtp(cfg).host != "", OutgoingEntries(Smtp(cfg), mail)),
                 TrailingEntries(cfg, mail, identifier, mailUuid), 'I');
  }

  lemma IncomingGroup(ep: Endpoint, mail: string, before: seq<(string, Value)>, after: seq<(string, Value)>)
    requires NoKeyStartsWith(before, 'I')
    ensures
      var entries := before + IncomingEntries(ep, mail) + after;
      && Lookup(entries, "IncomingMailServerHostName") == Some(PString(Escape(ep.host, NoQuotes)))
      && Lookup(entries, "IncomingMailServerPortNumber") == Some(PInteger(ep.port))
      && Lookup(entries, "IncomingMailServerUseSSL") == Some(PBool(ep.ssl != ""))
      && Lookup(entries, "IncomingMailServerUsername") == Some(PString(Escape(mail, NoQuotes)))
      && Lookup(entries, "IncomingMailServerAuthentication") == Some(PString(AuthMethod(ep.ntlm)))
  {
    var g := IncomingEntries(ep, mail);
    LookupInGroup(before, g, after, 0);
    LookupInGroup(before, g, after, 1);
    LookupInGroup(before, g, after, 2);
    LookupInGroup(before, g, after, 3);
    LookupInGroup(before, g, after, 4);
  }

  /** The SMTP group, likewise: absent when the host is empty; otherwise
      the host, the port, SSL on exactly when the normalised setting is SSL
      or STARTTLS, the address as user name, the authentication method and
      the flag that the SMTP password is the IMAP one. */
  lemma OutgoingServer(cfg: Config, mail: string, identifier: string, mailUuid: string)
    ensures
      var entries := MailEntries(cfg, mail, identifier, mailUuid);
      var ep := Smtp(cfg);
      if ep.host == "" then
        forall key :: key != [] && key[0] == 'O' ==> Lookup(entries, key) == None
      else
        && Lookup(entries, "OutgoingMailServerHostName") == Some(PString(Escape(ep.host, NoQuotes)))
        && Lookup(entries, "OutgoingMailServerPortNumber") == Some(PInteger(ep.port))
        && Lookup(entries, "OutgoingMailServerUseSSL") == Some(PBool(ep.ssl == "SSL" || ep.ssl == "STARTTLS"))
        && Lookup(entries, "OutgoingMailServerUsername") == Some(PString(Escape(mail, NoQuotes)))
        && Lookup(entries, "OutgoingMailServerAuthentication") ==
             Some(PString(if ep.ntlm then "EmailAuthNTLM" else "EmailAuthPassword"))
        && Lookup(entries, "OutgoingPasswordSameAsIncomingPassword") == Some(PBool(true))
  {
    if Smtp(cfg).host == "" {
      NoOutgoing(cfg, mail, identifier, mailUuid);
      forall key | key != [] && key[0] == 'O' {
        LookupByInitial(MailEntries(cfg, mail, identifier, mailUuid), key);
      }
    } else {
      var before := AccountEntries(mail) + When(Imap(cfg).host != "", IncomingEntries(Imap(cfg), mail));
      MailEntriesParts(cfg, mail, identifier, mailUuid);
      Initials(cfg, mail, identifier, mailUuid);
      NoKeyConcat(AccountEntries(mail), When(Imap(cfg).host != "", IncomingEntries(Imap(cfg), mail)), 'O');
      assert MailEntries(cfg, mail, identifier, mailUuid) ==
        before + OutgoingEntries(Smtp(cfg), mail) + TrailingEntries(cfg, mail, identifier, mailUuid);
      OutgoingGroup(Smtp(cfg), mail, before, TrailingEntries(cfg, mail, identifier, mailUuid));
    }
  }

  lemma NoOutgoing(cfg: Config, mail: string, identifier: string, mailUuid: string)
    requires Smtp(cfg).host == ""
    ensures NoKeyStartsWith(MailEntries(cfg, mail, identifier, mailUuid), 'O')
  {
    MailEntriesParts(cfg, mail, identifier, mailUuid);
    Initials(cfg, mail, identifier, mailUuid);
    NoKeyConcat4(AccountEntries(mail), When(Imap(cfg).host != "", IncomingEntries(Imap(cfg), mail)), [],
                 TrailingEntries(cfg, mail, identifier, mailUuid), 'O');
  }

  lemma OutgoingGroup(ep: Endpoint, mail: string, before: seq<(string, Value)>, after: seq<(string, Value)>)
    requires NoKeyStartsWith(before, 'O')
    ensures
      var entries := before + OutgoingEntries(ep, mail) + after;
      && Lookup(entries, "OutgoingMailServerHostName") == Some(PString(Escape(ep.host, NoQuotes)))
      && Lookup(entries, "OutgoingMailServerPortNumber") == Some(PInteger(ep.port))
      && Lookup(entries, "OutgoingMailServerUseSSL") == Some(PBool(ep.ssl != ""))
      && Lookup(entries, "OutgoingMailServerUsername") == Some(PString(Escape(mail, NoQuotes)))
      && Lookup(entries, "OutgoingMailServerAuthentication") == Some(PString(AuthMethod(ep.ntlm)))
      && Lookup(entries, "OutgoingPasswordSameAsIncomingPassword") == Some(PBool(true))
  {
    var g := OutgoingEntries(ep, mail);
    LookupInGroup(before, g, after, 0);
    LookupInGroup(before, g, after, 1);
    LookupInGroup(before, g, after, 2);
    LookupInGroup(before, g, after, 3);
    LookupInGroup(before, g, after, 4);
    LookupInGroup(before, g, after, 5);
  }

  /** The mail payload names the account by the address, identifies itself
      as `<identifier>.com.apple.mail.managed.<payload UUID>` and is of type
      `com.apple.mail.managed`, version 1. */
  lemma MailPayload(cfg: Config, mail: string, identifier: string, mailUuid: string)
    ensures
      var entries := MailEntries(cfg, mail, identifier, mailUuid);
      && Lookup(entries, "EmailAccountDescription") == Some(PString(Escape(mail, NoQuotes)))
      && Lookup(entries, "EmailAccountName") == Some(PString(Escape(mail, NoQuotes)))
      && Lookup(entries, "EmailAddress") == Some(PString(Escape(mail, NoQuotes)))
      && Lookup(entries, "EmailAccountType") == Some(PString("EmailTypeIMAP"))
      && Lookup(entries, "PayloadDisplayName") == Some(PString(Escape(mail, NoQuotes)))
      && Lookup(entries, "PayloadIdentifier") ==
           Some(PString(Escape(identifier, NoQuotes) + ".com.apple.mail.managed." + Escape(mailUuid, NoQuotes)))
      && Lookup(entries, "PayloadUUID") == Some(PString(Escape(mailUuid, NoQuotes)))
      && Lookup(entries, "PayloadType") == Some(PString("com.apple.mail.managed"))
      && Lookup(entries, "PayloadVersion") == Some(PReal("1"))
  {
    AccountLookups(AccountEntries(mail), MailEntriesAfterAccount(cfg, mail, identifier, mailUuid),
                   PString(Escape(mail, NoQuotes)));
    MailPayloadTrailer(cfg, mail, identifier, mailUuid);
  }

  lemma AccountLookups(acc: seq<(string, Value)>, rest: seq<(string, Value)>, address: Value)
    requires acc == [("EmailAccountDescription", address), ("EmailAccountName", address),
                     ("EmailAccountType", PString("EmailTypeIMAP")), ("EmailAddress", address)]
    ensures Lookup(acc + rest, "EmailAccountDescription") == Some(address)
    ensures Lookup(acc + rest, "EmailAccountName") == Some(address)
    ensures Lookup(acc + rest, "EmailAddress") == Some(address)
    ensures Lookup(acc + rest, "EmailAccountType") == Some(PString("EmailTypeIMAP"))
  {
    LookupConcat(acc, rest, "EmailAccountDescription");
    LookupAt(acc, 0, "EmailAccountDescription");
    LookupConcat(acc, rest, "EmailAccountName");
    LookupAt(acc, 1, "EmailAccountName");
    LookupConcat(acc, rest, "EmailAddress");
    LookupAt(acc, 3, "EmailAddress");
    LookupConcat(acc, rest, "EmailAccountType");
    LookupAt(acc, 2, "EmailAccountType");
  }

  lemma MailPayloadTrailer(cfg: Config, mail: string, identifier: string, mailUuid: string)
    ensures
      var entries := MailEntries(cfg, mail, identifier, mailUuid);
      && Lookup(entries, "PayloadDisplayName") == Some(PString(Escape(mail, NoQuotes)))
      && Lookup(entries, "PayloadIdentifier") ==
           Some(PString(Escape(identifier, NoQuotes) + ".com.apple.mail.managed." + Escape(mailUuid, NoQuotes)))
      && Lookup(entries, "PayloadUUID") == Some(PString(Escape(mailUuid, NoQuotes)))
      && Lookup(entries, "PayloadType") == Some(PString("com.apple.mail.managed"))
      && Lookup(entries, "PayloadVersion") == Some(PReal("1"))
  {
    var before := AccountEntries(mail)
      + When(Imap(cfg).host != "", IncomingEntries(Imap(cfg), mail))
      + When(Smtp(cfg).host != "", OutgoingEntries(Smtp(cfg), mail))
      + SMIME_ENTRIES;
    var serverName := cfg.serverName.GetOr("");
    var d := When(serverName != "", [("PayloadDescription", PString(Escape(serverName, NoQuotes)))]);
    MailEntriesParts(cfg, mail, identifier, mailUuid);
    Regroup(AccountEntries(mail)
      + When(Imap(cfg).host != "", IncomingEntries(Imap(cfg), mail))
      + When(Smtp(cfg).host != "", OutgoingEntries(Smtp(cfg), mail)), SMIME_ENTRIES, d, MailPayloadTail(mail, identifier, mailUuid));
    NoPayloadKeys(cfg, mail);
    TailLookups(before, d, mail, identifier, mailUuid);
  }

  lemma NoPayloadKeys(cfg: Config, mail: string)
    ensures NoKeyStartsWith(AccountEntries(mail)
      + When(Imap(cfg).host != "", IncomingEntries(Imap(cfg), mail))
      + When(Smtp(cfg).host != "", OutgoingEntries(Smtp(cfg), mail))
      + SMIME_ENTRIES, 'P')
  {
    var a := AccountEntries(mail);
    var i := When(Imap(cfg).host != "", IncomingEntries(Imap(cfg), mail));
    var o := When(Smtp(cfg).host != "", OutgoingEntries(Smtp(cfg), mail));
    NoKeyConcat(a, i, 'P');
    NoKeyConcat(a + i, o, 'P');
    NoKeyConcat(a + i + o, SMIME_ENTRIES, 'P');
  }

  lemma TailLookups(before: seq<(string, Value)>, d: seq<(string, Value)>, mail: string, identifier: string, mailUuid: string)
    requires NoKeyStartsWith(before, 'P')
    requires forall k :: 0 <= k < |d| ==> d[k].0 == "PayloadDescription"
    ensures
      var entries := before + d + MailPayloadTail(mail, identifier, mailUuid);
      && Lookup(entries, "PayloadDisplayName") == Some(PString(Escape(mail, NoQuotes)))
      && Lookup(entries, "PayloadIdentifier") ==
           Some(PString(Escape(identifier, NoQuotes) + ".com.apple.mail.managed." + Escape(mailUuid, NoQuotes)))
      && Lookup(entries, "PayloadUUID") == Some(PString(Escape(mailUuid, NoQuotes)))
      && Lookup(entries, "PayloadType") == Some(PString("com.apple.mail.managed"))
      && Lookup(entries, "PayloadVersion") == Some(PReal("1"))
  {
    var t := MailPayloadTail(mail, identifier, mailUuid);
    assert before + d + t == before + (d + t) + [];
    assert forall k :: 0 <= k < |d| ==> (d + t)[k].0 == "PayloadDescription";
    assert forall k :: 0 <= k < |t| ==> (d + t)[|d| + k] == t[k];
    LookupInGroup(before, d + t, [], |d|);
    LookupInGroup(before, d + t, [], |d| + 1);
    LookupInGroup(before, d + t, [], |d| + 2);
    LookupInGroup(before, d + t, [], |d| + 3);
    LookupInGroup(before, d + t, [], |d| + 4);
  }

  /** The outer dictionary: one payload, the identifier, the domain as the
      organisation, the profile UUID, type Configuration and version 2;
      the description and display name exactly when a server name is set. */
  lemma ProfileDictionary(cfg: Config, domain: string, identifier: string, uuid: string, payload: Value)
    ensures
      var entries := ProfileEntries(cfg, domain, identifier, uuid, payload);
      && Lookup(entries, "PayloadContent") == Some(PArray([payload]))
      && Lookup(entries, "PayloadIdentifier") == Some(PString(Escape(identifier, NoQuotes)))
      && Lookup(entries, "PayloadOrganization") == Some(PString(Escape(domain, NoQuotes)))
      && Lookup(entries, "PayloadType") == Some(PString("Configuration"))
      && Lookup(entries, "PayloadUUID") == Some(PString(Escape(uuid, NoQuotes)))
      && Lookup(entries, "PayloadVersion") == Some(PInteger(2))
      && (Lookup(entries, "PayloadDisplayName").Some? <==> cfg.serverName.GetOr("") != "")
  {
    var serverName := cfg.serverName.GetOr("");
    var head: seq<(string, Value)> := [("HasRemovalPasscode", PBool(false)), ("PayloadContent", PArray([payload]))];
    var d := When(serverName != "", [("PayloadDescription", PString(Escape(serverName, NoQuotes))),
                                     ("PayloadDisplayName", PString(Escape(serverName, NoQuotes)))]);
    var t: seq<(string, Value)> := [("PayloadIdentifier", PString(Escape(identifier, NoQuotes))),
       ("PayloadOrganization", PString(Escape(domain, NoQuotes))),
       ("PayloadRemovalDisallowed", PBool(false)),
       ("PayloadType", PString("Configuration")),
       ("PayloadUUID", PString(Escape(uuid, NoQuotes))),
       ("PayloadVersion", PInteger(2))];
    assert ProfileEntries(cfg, domain, identifier, uuid, payload) == head + (d + t);
    ProfileHeadLookups(head, d + t, payload);
    ProfileTailLookups(head, d, t, PString(Escape(identifier, NoQuotes)), PString(Escape(domain, NoQuotes)), PString(Escape(uuid, NoQuotes)));
    ProfileDisplayName(head, d, t, serverName);
  }

  lemma ProfileHeadLookups(head: seq<(string, Value)>, rest: seq<(string, Value)>, payload: Value)
    requires head == [("HasRemovalPasscode", PBool(false)), ("PayloadContent", PArray([payload]))]
    ensures Lookup(head + rest, "PayloadContent") == Some(PArray([payload]))
  {
    LookupAt(head, 1, "PayloadContent");
    LookupConcat(head, rest, "PayloadContent");
  }

  lemma ProfileTailLookups(head: seq<(string, Value)>, d: seq<(string, Value)>, t: seq<(string, Value)>,
                           identifier: Value, organization: Value, uuid: Value)
    requires forall j :: 0 <= j < |head| ==> head[j].0 == "HasRemovalPasscode" || head[j].0 == "PayloadContent"
    requires forall j :: 0 <= j < |d| ==> d[j].0 == "PayloadDescription" || d[j].0 == "PayloadDisplayName"
    requires t == [("PayloadIdentifier", identifier), ("PayloadOrganization", organization),
                   ("PayloadRemovalDisallowed", PBool(false)), ("PayloadType", PString("Configuration")),
                   ("PayloadUUID", uuid), ("PayloadVersion", PInteger(2))]
    ensures Lookup(head + (d + t), "PayloadIdentifier") == Some(identifier)
    ensures Lookup(head + (d + t), "PayloadOrganization") == Some(organization)
    ensures Lookup(head + (d + t), "PayloadType") == Some(PString("Configuration"))
    ensures Lookup(head + (d + t), "PayloadUUID") == Some(uuid)
    ensures Lookup(head + (d + t), "PayloadVersion") == Some(PInteger(2))
  {
    ProfileTail(head, d, t, "PayloadIdentifier", 0);
    ProfileTail(head, d, t, "PayloadOrganization", 1);
    ProfileTail(head, d, t, "PayloadType", 3);
    ProfileTail(head, d, t, "PayloadUUID", 4);
    ProfileTail(head, d, t, "PayloadVersion", 5);
  }

  lemma ProfileDisplayName(head: seq<(string, Value)>, d: seq<(string, Value)>, t: seq<(string, Value)>, serverName: string)
    requires forall j :: 0 <= j < |head| ==> head[j].0 == "HasRemovalPasscode" || head[j].0 == "PayloadContent"
    requires d == When(serverName != "", [("PayloadDescription", PString(Escape(serverName, NoQuotes))),
                                          ("PayloadDisplayName", PString(Escape(serverName, NoQuotes)))])
    requires forall j :: 0 <= j < |t| ==> t[j].0 != "PayloadDisplayName"
    ensures Lookup(head + (d + t), "PayloadDisplayName").Some? <==> serverName != ""
  {
    LookupConcat(head, d + t, "PayloadDisplayName");
    LookupConcat(d, t, "PayloadDisplayName");
    LookupMissing(head, "PayloadDisplayName");
    LookupMissing(t, "PayloadDisplayName");
    if serverName != "" {
      LookupAt(d, 1, "PayloadDisplayName");
    } else {
      assert d == [];
    }
  }

  lemma ProfileTail(head: seq<(string, Value)>, d: seq<(string, Value)>, t: seq<(string, Value)>, key: string, k: int)
    requires 0 <= k < |t| && t[k].0 == key
    requires forall j :: 0 <= j < |head| ==> head[j].0 != key
    requires forall j :: 0 <= j < |d| ==> d[j].0 != key
    requires forall j :: 0 <= j < k ==> t[j].0 != key
    ensures Lookup(head + (d + t), key) == Some(t[k].1)
  {
    LookupMissing(head, key);
    LookupMissing(d, key);
    LookupAt(t, k, key);
    LookupConcat(d, t, key);
    LookupConcat(head, d + t, key);
  }
}
