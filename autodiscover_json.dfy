/**
 * autodiscover-json.php: the JSON Autodiscover entry point newer Outlook
 * clients ask first. It answers protocol "AutodiscoverV1" (in any case)
 * with the URL of the XML Autodiscover service, and any other protocol
 * with an error object.
 *
 * As written, the error message interpolates a variable the file never
 * assigns, so the message always shows an empty value (`RenderAsWritten`);
 * `Render` shows the protocol value the client sent.
 */
module AutodiscoverJson {
  import opened Wrappers
  import opened Http
  import opened Strings

  /** A JSON object whose members are all strings, in output order. */
  type Object = seq<(string, string)>

  const AUTODISCOVER_V1 := "autodiscoverv1"
  const URL_SCHEME := "https://"
  const URL_PATH := "/Autodiscover/Autodiscover.xml"
  const MESSAGE_PREFIX := "The given protocol value \""
  const MESSAGE_SUFFIX := "\" is invalid. Supported values are \"AutodiscoverV1\""

  /** The value of the first member called `key`. */
  function Member(obj: Object, key: string): Option<string> {
    if obj == [] then None
    else if obj[0].0 == key then Some(obj[0].1)
    else Member(obj[1..], key)
  }

  /** The XML Autodiscover service on the host the request was sent to. */
  function ServiceUrl(httpHost: string): (url: string)
    ensures |url| == |URL_SCHEME| + |httpHost| + |URL_PATH|
    ensures url[..|URL_SCHEME|] == URL_SCHEME
    ensures url[|url| - |URL_PATH|..] == URL_PATH
  {
    URL_SCHEME + httpHost + URL_PATH
  }

  /** The host can be read back from the URL. */
  lemma ServiceUrlHost(httpHost: string)
    ensures ServiceUrl(httpHost)[|URL_SCHEME|..|ServiceUrl(httpHost)| - |URL_PATH|] == httpHost
  {
  }

  lemma ServiceUrlInjective(a: string, b: string)
    requires ServiceUrl(a) == ServiceUrl(b)
    ensures a == b
  {
    ServiceUrlHost(a);
    ServiceUrlHost(b);
  }

  function ErrorMessage(value: string): string {
    MESSAGE_PREFIX + value + MESSAGE_SUFFIX
  }

  /** The value shown can be read back from the message. */
  lemma ErrorMessageValue(value: string)
    ensures
      var m := ErrorMessage(value);
      m[|MESSAGE_PREFIX|..|m| - |MESSAGE_SUFFIX|] == value
  {
  }

  /** Different protocol values give different messages. */
  lemma ErrorMessageInjective(a: string, b: string)
    requires ErrorMessage(a) == ErrorMessage(b)
    ensures a == b
  {
    ErrorMessageValue(a);
    ErrorMessageValue(b);
  }

  /** The body of either response, given the message of the error case. */
  function Respond(protocol: Option<string>, httpHost: string, message: string): (r: Response<Object>)
    ensures r.status == OK <==> EqualsIgnoreCase(protocol.GetOr(""), AUTODISCOVER_V1)
    ensures r.status == OK || r.status == BAD_REQUEST
    ensures r.status == OK ==>
      r.document == [("Protocol", "AutodiscoverV1"), ("Url", ServiceUrl(httpHost))]
    ensures r.status == OK ==>
      Member(r.document, "Protocol") == Some("AutodiscoverV1") && Member(r.document, "Url") == Some(ServiceUrl(httpHost))
    ensures r.status == BAD_REQUEST ==>
      r.document == [("ErrorCode", "InvalidProtocol"), ("ErrorMessage", message)]
    ensures r.status == BAD_REQUEST ==>
      Member(r.document, "ErrorCode") == Some("InvalidProtocol") && Member(r.document, "ErrorMessage") == Some(message)
  {
    LowerMatches(protocol.GetOr(""), AUTODISCOVER_V1);
    if Lower(protocol.GetOr("")) == AUTODISCOVER_V1 then
      Response(OK, [("Protocol", "AutodiscoverV1"), ("Url", ServiceUrl(httpHost))])
    else
      Response(BAD_REQUEST, [("ErrorCode", "InvalidProtocol"), ("ErrorMessage", message)])
  }

  /** As written: the interpolated variable is undefined and reads as an
      empty value. */
  function RenderAsWritten(protocol: Option<string>, httpHost: string): (r: Response<Object>)
    ensures r.status == BAD_REQUEST ==> Member(r.document, "ErrorMessage") == Some(ErrorMessage(""))
  {
    Respond(protocol, httpHost, ErrorMessage(""))
  }

  /** Corrected: the message names the protocol value the client sent. */
  function Render(protocol: Option<string>, httpHost: string): (r: Response<Object>)
    ensures r.status == BAD_REQUEST ==> Member(r.document, "ErrorMessage") == Some(ErrorMessage(protocol.GetOr("")))
  {
    Respond(protocol, httpHost, ErrorMessage(protocol.GetOr("")))
  }

  /** As written, two different rejected protocols give the same answer:
      the client is never told which value was wrong. */
  lemma RejectedAlikeAsWritten(p: string, q: string, httpHost: string)
    requires !EqualsIgnoreCase(p, AUTODISCOVER_V1) && !EqualsIgnoreCase(q, AUTODISCOVER_V1)
    ensures RenderAsWritten(Some(p), httpHost) == RenderAsWritten(Some(q), httpHost)
  {
    LowerMatches(p, AUTODISCOVER_V1);
    LowerMatches(q, AUTODISCOVER_V1);
  }

  /** Corrected, two different rejected protocols give different answers. */
  lemma RejectedApart(p: string, q: string, httpHost: string)
    requires !EqualsIgnoreCase(p, AUTODISCOVER_V1) && !EqualsIgnoreCase(q, AUTODISCOVER_V1)
    requires p != q
    ensures Render(Some(p), httpHost).status == BAD_REQUEST
    ensures Render(Some(p), httpHost) != Render(Some(q), httpHost)
  {
    if Render(Some(p), httpHost) == Render(Some(q), httpHost) {
      ErrorMessageInjective(p, q);
    }
  }

  /** The protocol is matched without regard to case, and the accepted
      answer does not depend on how it was spelled. */
  lemma ProtocolCaseInsensitive(p: string, q: string, httpHost: string)
    requires EqualsIgnoreCase(p, q)
    ensures Render(Some(p), httpHost).status == Render(Some(q), httpHost).status
    ensures Render(Some(p), httpHost).status == OK ==> Render(Some(p), httpHost) == Render(Some(q), httpHost)
  {
    LowerMatches(p, AUTODISCOVER_V1);
    LowerMatches(q, AUTODISCOVER_V1);
    if Lower(p) == AUTODISCOVER_V1 {
      assert Lower(q) == Lower(p) by {
        forall i | 0 <= i < |p| ensures Lower(q)[i] == Lower(p)[i] {
        }
      }
    }
    if Lower(q) == AUTODISCOVER_V1 {
      assert Lower(p) == Lower(q) by {
        forall i | 0 <= i < |p| ensures Lower(q)[i] == Lower(p)[i] {
        }
      }
    }
  }

  /** A missing protocol parameter is rejected. */
  lemma MissingProtocol(httpHost: string)
    ensures Render(None, httpHost).status == BAD_REQUEST
  {
  }
}
