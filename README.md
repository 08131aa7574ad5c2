# mailconfig — a Dafny model

mailconfig is a small PHP service that tells mail clients how to reach a mail
server. One operator configuration file holds the IMAP and SMTP hosts, ports,
SSL modes and authentication modes. Five endpoints publish that configuration,
each in the format one family of clients asks for:

- `autoconfig-v1.1.php`: the Thunderbird autoconfig XML (`<clientConfig>`).
  It always answers 200. The user name is the sanitised address when a
  non-empty address the validator accepts was sent, and the placeholder
  `%EMAILADDRESS%` otherwise.
- `autodiscover-v10.0.php`: the Outlook Autodiscover XML. It reads the address
  out of the POSTed request with a lazy pattern match. It answers 400 with an
  `<Error>` block when that address is refused. Otherwise it answers 200 with
  an `<Account>` holding one `<Protocol>` per configured server, preceded by a
  `<User>` when a server name is configured.
- `mobileconfig.php`: the Apple configuration profile (a plist). It answers
  400 without an address the validator accepts. It fills in version-4 UUIDs
  from random bytes when none are configured.
- `index.php`: the HTML information page, with one table per server and a
  download form for the Apple profile.
- `autodiscover-json.php`: the JSON Autodiscover v2 entry point. It points the
  client at the XML service.

The model is organised as follows:

- **Shared modules:**
  - `Wrappers` and `Http`: options and responses.
  - `Strings`: PHP case mapping, `empty()`, the `(int)` cast, `explode`/`implode`.
  - `Email`: `FILTER_SANITIZE_EMAIL`, and the domain after the last `@`.
  - `Markup`: element trees and the `e()` escaping helper.
  - `Settings`: the configuration normalisation and the server id chain that
    every endpoint repeats.
  - `Crc32`: the `%u`-printed `crc32()`.
  - `Uuid`: the in-place `uuidgen()`.
  - `Plist`: property-list values.
- **One module per endpoint:** `Autoconfig`, `AutodiscoverXml`,
  `Mobileconfig`, `InfoPage` and `AutodiscoverJson`.

Each endpoint is a function from the configuration, the request and the
server environment to a `Response` of a status and a document tree. The one
imperative piece is `uuidgen()`, which overwrites two bytes of a buffer in
place. It is the method `Uuid.Generate` on an `array<bv8>`, proved against
the function `Uuid.Stamp`.

## Model

All source paths are under `src/usr/src/mailconfig/`.

| member | source | states |
|---|---|---|
| Settings.PortSetting | src/usr/src/mailconfig/autoconfig-v1.1.php:40 | an unset or empty port setting gives the default port; any integer written in decimal is read back as that integer by the `(int)` cast |
| Settings.DefaultPorts | src/usr/src/mailconfig/autoconfig-v1.1.php:40-45 | IMAP defaults to 143 and SMTP to 25 when their port is unset or empty |
| Settings.Ssl | src/usr/src/mailconfig/autoconfig-v1.1.php:41 | the normalised SSL mode is always "", "SSL" or "STARTTLS" |
| Settings.SslCaseInsensitive | src/usr/src/mailconfig/autoconfig-v1.1.php:41 | the mode is "SSL" exactly when the setting equals "ssl" ignoring case, "STARTTLS" exactly when it equals "starttls" ignoring case, and "" when unset |
| Settings.SslIdempotent | src/usr/src/mailconfig/autoconfig-v1.1.php:41 | normalising an already normalised mode changes nothing |
| Settings.NtlmCaseInsensitive | src/usr/src/mailconfig/autoconfig-v1.1.php:42 | NTLM is on exactly when the setting is yes, true, on or 1 in any case |
| Settings.ServerNameConstant | src/usr/src/mailconfig/autoconfig-v1.1.php:22 | `SERVER_NAME` is null or a non-empty value other than "0" |
| Settings.ServerIdOrder | src/usr/src/mailconfig/autoconfig-v1.1.php:49 | the server id is the configured id if set, else `SERVER_NAME` if set, else the IMAP host (never the SMTP host or "mailconfig") |
| Settings.ServerIdIgnoresSmtp | src/usr/src/mailconfig/autoconfig-v1.1.php:49 | the SMTP host never influences the server id |
| Settings.ServerIdEmpty | src/usr/src/mailconfig/autoconfig-v1.1.php:49 | the server id is empty exactly when the configured id is "", or when neither id nor `SERVER_NAME` exists and the IMAP host is empty |
| Strings.LowerMatches | src/usr/src/mailconfig/autoconfig-v1.1.php:42 | comparing `strtolower(s)` to a lower-case literal is comparing without regard to ASCII case |
| Strings.UpperMatches | src/usr/src/mailconfig/autoconfig-v1.1.php:41 | comparing `strtoupper(s)` to an upper-case literal is comparing without regard to ASCII case |
| Strings.IntCastOfDecimal | src/usr/src/mailconfig/autoconfig-v1.1.php:40 | the `(int)` cast reads every decimal integer back as itself |
| Strings.JoinSplit | src/usr/src/mailconfig/mobileconfig.php:62 | `implode` undoes `explode` |
| Strings.SplitJoin | src/usr/src/mailconfig/mobileconfig.php:62 | `explode` undoes `implode` of pieces without the separator |
| Email.Sanitize | src/usr/src/mailconfig/autoconfig-v1.1.php:35 | the sanitised address is no longer than the input and holds only the characters the filter keeps |
| Email.SanitizeKeepsKept | src/usr/src/mailconfig/autoconfig-v1.1.php:35 | an address made only of kept characters is unchanged |
| Email.SanitizeIdempotent | src/usr/src/mailconfig/autoconfig-v1.1.php:35 | sanitising twice is sanitising once |
| Email.SanitizeKeepsAt | src/usr/src/mailconfig/autoconfig-v1.1.php:35 | the sanitised address has an `@` exactly when the input has one |
| Email.AfterLast | src/usr/src/mailconfig/autoconfig-v1.1.php:36 | the result is the suffix after the last occurrence of the character, or the whole text when it does not occur |
| Email.DomainOf | src/usr/src/mailconfig/autoconfig-v1.1.php:36 | the domain holds no `@`; the address is the local part, `@`, then the domain; no `@` gives "" |
| Email.DomainOfAddress | src/usr/src/mailconfig/mobileconfig.php:45 | the domain of `local@domain` is `domain` |
| Email.DomainOfSanitize | src/usr/src/mailconfig/mobileconfig.php:44-45 | the domain of the sanitised address is the sanitised domain |
| Markup.Escape | src/usr/src/mailconfig/autoconfig-v1.1.php:25-27 | escaped text holds no `<` or `>`; none of the quotes the flag covers; it is never shorter than the input |
| Markup.UnescapeEscape | src/usr/src/mailconfig/autoconfig-v1.1.php:25-27 | a markup reader recovers the original text from the escaped text |
| Markup.EscapeInjective | src/usr/src/mailconfig/index.php:17-19 | different texts are printed differently |
| Markup.EscapePlain | src/usr/src/mailconfig/autoconfig-v1.1.php:25-27 | text without special characters is printed as it is |
| Markup.EscapeConcat | src/usr/src/mailconfig/autoconfig-v1.1.php:25-27 | escaping a concatenation escapes each part |
| Crc32.ErrorId | src/usr/src/mailconfig/autodiscover-v10.0.php:68 | the `Id` attribute is a non-empty decimal below 2^32, without leading zeros, whose value is the CRC-32 of the UTF-8 server id |
| Crc32.CheckValue | src/usr/src/mailconfig/autodiscover-v10.0.php:68 | the checksum of "123456789" is 0xCBF43926, the standard check value |
| Crc32.UpdateConcat | src/usr/src/mailconfig/autodiscover-v10.0.php:68 | feeding two pieces in turn is feeding their concatenation |
| Crc32.Utf8Ascii | src/usr/src/mailconfig/autodiscover-v10.0.php:68 | an ASCII server id is checksummed one byte per character |
| Uuid.Generate | src/usr/src/mailconfig/mobileconfig.php:28-33 | the buffer becomes `Stamp` of its old contents; the string returned is their formatted hex and is a version-4 UUID |
| Uuid.StampBits | src/usr/src/mailconfig/mobileconfig.php:30-31 | byte 6 gets version nibble 4 and byte 8 variant bits 10; their other bits and all other bytes stay as they were |
| Uuid.FormatShape | src/usr/src/mailconfig/mobileconfig.php:32 | the result is 36 characters of lower-case hex with dashes at 8, 13, 18 and 23, a `4` at 14 and one of `89ab` at 19 |
| Uuid.FormatAt | src/usr/src/mailconfig/mobileconfig.php:32 | each character of the formatted UUID is a dash or the corresponding hex digit of the bytes |
| Uuid.ParseGenerated | src/usr/src/mailconfig/mobileconfig.php:28-33 | reading the printed UUID back gives exactly the stamped bytes |
| Autoconfig.Render | src/usr/src/mailconfig/autoconfig-v1.1.php:53-57 | the status is always 200 and the document a `<clientConfig>` |
| Autoconfig.DomainElement | src/usr/src/mailconfig/autoconfig-v1.1.php:33-37 | `<domain>` is printed exactly when a valid address with a non-empty domain was given; it holds the escaped domain, which has no `@` |
| Autoconfig.ServerBlocks | src/usr/src/mailconfig/autoconfig-v1.1.php:68-85 | `<incomingServer>` and `<outgoingServer>` appear once each exactly when their host is set, and are built from the normalised endpoint |
| Autoconfig.ServerBlockFields | src/usr/src/mailconfig/autoconfig-v1.1.php:69-83 | the hostname reads back as the host and the port as the port number; socketType is the SSL mode; authentication is NTLM exactly under NTLM; the username is the address, or `%EMAILADDRESS%` without one |
| Autoconfig.Username | src/usr/src/mailconfig/autoconfig-v1.1.php:33-37 | without a valid address no user name is known; with a valid address holding `@` it is the sanitised, non-empty address |
| Autoconfig.ProviderId | src/usr/src/mailconfig/autoconfig-v1.1.php:49-58 | `<emailProvider>` has the single attribute `id`, which holds no double quote and reads back as the server id |
| Autoconfig.HostsOnlyGateServers | src/usr/src/mailconfig/autoconfig-v1.1.php:68-85 | changing the hosts changes no other provider element, nor the provider id when a server id or `SERVER_NAME` is set |
| AutodiscoverXml.Extract | src/usr/src/mailconfig/autodiscover-v10.0.php:36 | a capture never spans a line break |
| AutodiscoverXml.ExtractSound | src/usr/src/mailconfig/autodiscover-v10.0.php:36 | the capture sits between the opening tag and the first closing tag after it in the body |
| AutodiscoverXml.ExtractNone | src/usr/src/mailconfig/autodiscover-v10.0.php:36 | with no capture, no opening tag is followed on its line by a closing tag |
| AutodiscoverXml.ExtractEnvelope | src/usr/src/mailconfig/autodiscover-v10.0.php:36 | an address without `<` or a line break, placed in the first `<EMailAddress>` element of a request, is captured exactly |
| AutodiscoverXml.Classify | src/usr/src/mailconfig/autodiscover-v10.0.php:38-47 | the request has no address exactly when the capture is missing, "" or "0"; it is invalid exactly when a capture exists and the validator refuses it |
| AutodiscoverXml.ValidMail | src/usr/src/mailconfig/autodiscover-v10.0.php:44 | a valid address is used sanitised and is non-empty when it has an `@` |
| AutodiscoverXml.Render | src/usr/src/mailconfig/autodiscover-v10.0.php:34-42 | the status is 400 exactly for an invalid address and 200 otherwise |
| AutodiscoverXml.ErrorOrAccount | src/usr/src/mailconfig/autodiscover-v10.0.php:67-125 | the response holds one `<Error>` exactly for an invalid address and one `<Account>` exactly otherwise |
| AutodiscoverXml.ErrorBlock | src/usr/src/mailconfig/autodiscover-v10.0.php:67-72 | an invalid request gets an `<Error>` (with the server id's checksum) and neither `<User>` nor `<Account>` |
| AutodiscoverXml.ErrorFields | src/usr/src/mailconfig/autodiscover-v10.0.php:68-71 | the error has code 600, the error text as message, and the time and checksum id as attributes |
| AutodiscoverXml.AccountBlock | src/usr/src/mailconfig/autodiscover-v10.0.php:74-81 | an accepted request gets no `<Error>`, one `<Account>`, and a `<User>` exactly when a server name is configured; that `<User>` holds only a `<DisplayName>` with the escaped server name |
| AutodiscoverXml.Protocols | src/usr/src/mailconfig/autodiscover-v10.0.php:82-123 | the account lists an IMAP protocol exactly when the IMAP host is set, then an SMTP protocol exactly when the SMTP host is set |
| AutodiscoverXml.Encryption | src/usr/src/mailconfig/autodiscover-v10.0.php:88-94 | STARTTLS gives `<Encryption>TLS</Encryption>` and no `<SSL>`; SSL gives `<SSL>on</SSL>`; none gives `<SSL>off</SSL>`; only STARTTLS gives an `<Encryption>` |
| AutodiscoverXml.ProtocolFields | src/usr/src/mailconfig/autodiscover-v10.0.php:84-96 | the protocol's type is the kind; the server reads back as the host; the port is the port; AuthRequired is on |
| AutodiscoverXml.LoginAndSpa | src/usr/src/mailconfig/autodiscover-v10.0.php:97-100 | `<LoginName>` appears exactly when an address is known and reads back as it; SPA is on exactly under NTLM |
| Mobileconfig.RequestAccount | src/usr/src/mailconfig/mobileconfig.php:41-48 | an account exists exactly for a non-empty address the validator accepts; its mail is the sanitised address and its domain has no `@` |
| Mobileconfig.Render | src/usr/src/mailconfig/mobileconfig.php:39-48 | the status is 400 exactly for a missing or refused address; a profile is produced exactly with 200 |
| Mobileconfig.ReverseLabels | src/usr/src/mailconfig/mobileconfig.php:62 | splitting the default identifier at dots gives the domain's labels in reverse order |
| Mobileconfig.ReverseLabelsTwice | src/usr/src/mailconfig/mobileconfig.php:62 | reversing the domain's labels twice gives the domain back |
| Mobileconfig.ProfileUuid | src/usr/src/mailconfig/mobileconfig.php:63-64 | a configured UUID is used as it is; an unconfigured one is a version-4 UUID |
| Mobileconfig.GeneratedUuidsDistinct | src/usr/src/mailconfig/mobileconfig.php:63-64 | different stamped random bytes give different UUIDs |
| Mobileconfig.UuidUnescaped | src/usr/src/mailconfig/mobileconfig.php:131 | a generated UUID is printed unchanged by the escaper |
| Mobileconfig.ValidRequest | src/usr/src/mailconfig/mobileconfig.php:41-67 | an accepted request gives 200 and the file `<domain>.mobileconfig`; the profile carries the domain as organisation, the configured or reversed-domain identifier, and the configured or a version-4 UUID; its one payload is the mail payload for the sanitised address, that identifier and the mail UUID, which is the configured one or a version-4 UUID printed as it is |
| Mobileconfig.MailPayload | src/usr/src/mailconfig/mobileconfig.php:78-133 | the mail payload names the address as account description, name, address and display name; its type is IMAP; its identifier, UUID, payload type and version are as printed |
| Mobileconfig.IncomingServer | src/usr/src/mailconfig/mobileconfig.php:86-97 | without an IMAP host no key starting with `I` is present; with one, host, port, SSL flag, user name and authentication method are as configured |
| Mobileconfig.OutgoingServer | src/usr/src/mailconfig/mobileconfig.php:98-111 | without an SMTP host no key starting with `O` is present; with one, host, port, SSL flag, user name, authentication method and the shared password flag are as configured |
| Mobileconfig.ProfileDictionary | src/usr/src/mailconfig/mobileconfig.php:72-153 | the outer dictionary holds the one mail payload, the identifier, the domain as organisation, type Configuration, the UUID and version 2; a display name exactly when a server name is set |
| InfoPage.Render | src/usr/src/mailconfig/index.php:40 | the page is always answered with 200; this is the corrected page, which takes the server id from a defined `SERVER_NAME` and prints the SMTP encryption cell from the SMTP SSL mode |
| InfoPage.PageAsWritten | src/usr/src/mailconfig/index.php:37 | no page is produced exactly when no server id is configured |
| InfoPage.BodyServerId | src/usr/src/mailconfig/index.php:51 | corrected, `data-server-id` is present exactly when the server id is not empty; it holds no double quote and reads back as the id |
| InfoPage.ServerIdAgrees | src/usr/src/mailconfig/index.php:37 | with a configured server id, the page as written and the corrected page carry the same body attributes |
| InfoPage.SectionTitles | src/usr/src/mailconfig/index.php:62-194 | the sections are Webmail (if a webmail URL is set), IMAP (if its host is set), SMTP (if its host is set) and the Apple profile, in that order |
| InfoPage.ImapSection | src/usr/src/mailconfig/index.php:72-126 | with an IMAP host, the IMAP section is the server table for the IMAP endpoint with its own SSL mode |
| InfoPage.ImapCells | src/usr/src/mailconfig/index.php:84-114 | on the corrected page, the IMAP table's address, port, encryption and authentication cells show the IMAP endpoint's values |
| InfoPage.SmtpSection | src/usr/src/mailconfig/index.php:128-182 | with an SMTP host, the SMTP section is the server table for the SMTP endpoint |
| InfoPage.ServerCells | src/usr/src/mailconfig/index.php:84-114 | the table's protocol, address, port, encryption and authentication cells show the endpoint's values |
| InfoPage.EncryptionLabels | src/usr/src/mailconfig/index.php:100-104 | the three SSL modes get three distinct labels: No, Yes (SSL), Yes (STARTTLS) |
| InfoPage.WebmailRendered | src/usr/src/mailconfig/index.php:62-70 | the Webmail section is on the page exactly when a webmail URL is configured, and is then the section linking to that URL |
| InfoPage.WebmailLink | src/usr/src/mailconfig/index.php:67 | the link's `href` holds neither quote and reads back as the webmail URL; its text is the escaped URL |
| InfoPage.SmtpEncryptionCellAsWritten | src/usr/src/mailconfig/index.php:156-160 | as written, the SMTP table's encryption cell shows the IMAP SSL mode |
| InfoPage.SmtpSslIgnoredAsWritten | src/usr/src/mailconfig/index.php:156-160 | as written, the SMTP SSL setting has no effect on the page |
| InfoPage.SmtpEncryptionCounterexample | src/usr/src/mailconfig/index.php:156-160 | with SMTP SSL set to "ssl" and IMAP SSL unset, the page as written shows "No" where the corrected page shows "Yes (SSL)" |
| InfoPage.SmtpEncryptionCell | src/usr/src/mailconfig/index.php:128-182 | corrected, the SMTP table's encryption cell shows the SMTP SSL mode |
| AutodiscoverJson.Respond | src/usr/src/mailconfig/autodiscover-json.php:25-42 | 200 exactly when the protocol equals "AutodiscoverV1" ignoring case, else 400; the success body is exactly the members Protocol and Url (the service URL), the error body exactly ErrorCode "InvalidProtocol" and ErrorMessage, in that order |
| AutodiscoverJson.ServiceUrlInjective | src/usr/src/mailconfig/autodiscover-json.php:31 | different hosts give different service URLs |
| AutodiscoverJson.ProtocolCaseInsensitive | src/usr/src/mailconfig/autodiscover-json.php:26 | protocols equal up to case get the same status, and the same answer when accepted |
| AutodiscoverJson.MissingProtocol | src/usr/src/mailconfig/autodiscover-json.php:26 | a missing protocol parameter is rejected |
| AutodiscoverJson.RenderAsWritten | src/usr/src/mailconfig/autodiscover-json.php:39 | as written, the error message always shows an empty protocol value |
| AutodiscoverJson.RejectedAlikeAsWritten | src/usr/src/mailconfig/autodiscover-json.php:35-40 | as written, any two rejected protocols get the same answer |
| AutodiscoverJson.Render | src/usr/src/mailconfig/autodiscover-json.php:35-40 | corrected, the error message shows the protocol value sent |
| AutodiscoverJson.RejectedApart | src/usr/src/mailconfig/autodiscover-json.php:35-40 | corrected, two different rejected protocols get different answers |

## Left out

- HTTP: the `SERVER_PROTOCOL` string and the `Content-Type` headers are not
  modelled. Of the other headers only the attachment file name of
  `mobileconfig.php` is modelled, as the profile's `filename`.
  - When a status line is sent twice, only the last one is modelled.
  - The `exit` after the 400 in `mobileconfig.php` is modelled as "no document".
- Inputs: `$_GET`, `$_SERVER`, `php://input`, `gethostname()` and the
  optional configuration file become parameters. The configuration is a
  record of optional strings. Non-string configuration values (integers,
  booleans, arrays) are not modelled.
- The clock: `date('H:i:s.u')` in the Autodiscover error is a caller-supplied string.
- Randomness: `random_bytes(16)` is a caller-supplied 16-byte buffer.
- Validation: `FILTER_VALIDATE_EMAIL` is a caller-supplied predicate. Its
  RFC grammar is not modelled.
- Output serialisation:
  - XML, HTML, plist and JSON documents are trees and key/value lists, not text.
  - Not modelled: white space and indentation, the XML prolog, the DOCTYPE,
    the `<meta>` tags, the inline style sheet and the plist's `version`
    attribute.
  - `json_encode` escaping is not modelled: JSON members hold their values
    before encoding.
- Escaping: `ENT_SUBSTITUTE` and invalid UTF-8 are not modelled.
  - Strings are sequences of characters.
  - The pattern match and `crc32` work on bytes in PHP; the model matches
    characters and checksums their UTF-8 encoding.
- Settings.Port: the `(int)` cast reads leading white space, a sign and
  digits. It does not model exponents ("1e3"), saturation at
  `PHP_INT_MAX`, or 64-bit wrap-around.
- The `$domain` computed in `autodiscover-v10.0.php` is never used by the
  output. The model does not compute it.
- The info page's table cells hold the page's fixed wording. Only the cells
  that depend on the configuration are stated.
- The `style` attributes of the download form's two inputs are not modelled,
  like the rest of the page's styling.

## Findings

| source | as written | input that shows it | evidently intended | confidence | as-written member | corrected member |
|---|---|---|---|---|---|---|
| src/usr/src/mailconfig/index.php:156-160 | the SMTP table's Encryption cell is printed from `$imapSSL` | `smtp_ssl` = "ssl", `imap_ssl` unset, `smtp_host` and `server_id` set: the SMTP table says "No" | print `$smtpSSL`, so the cell says "Yes (SSL)" | high, not executed | InfoPage.SmtpEncryptionCounterexample | InfoPage.SmtpEncryptionCell |
| src/usr/src/mailconfig/index.php:37 | `SERVER_NAME` is read but never defined in this file; PHP 8 throws an Error on an undefined constant, and `??` does not catch it | any configuration without `server_id` | define `SERVER_NAME` as the other endpoints do | medium, not executed | InfoPage.PageAsWritten | InfoPage.BodyServerId |
| src/usr/src/mailconfig/autodiscover-json.php:39 | the message interpolates `$protocol`, which is never assigned, so it reads as "" | `Protocol=foo` and `Protocol=bar` get the same message, naming the value "" | interpolate the protocol value sent | high, not executed | AutodiscoverJson.RejectedAlikeAsWritten | AutodiscoverJson.RejectedApart |
