/** The plugin's client for an OpenAI-compatible chat-completions API:
    base-URL normalization, the SSRF guard on every URL it calls, request
    assembly and response extraction for completions, the chat message list,
    and the text-to-speech call with its URL fallback. DNS, `parse_url`,
    `filter_var`'s address parsing, the HTTP transport and `json_decode` are
    functions given in a `Net` value; the range test is written out. */
module GeminiClient {
  import opened Wrappers
  import opened Text
  import opened Moodle

  /** The plugin settings the client reads; an unset setting is "". */
  datatype Config = Config(
    apikey: string,
    baseurl: string,
    model: string,
    ttsurl: string,
    ttsmodel: string,
    ttsvoice: string)

  /** The parts of `parse_url`'s result the guard reads. */
  datatype ParsedUrl = ParsedUrl(scheme: Option<string>, host: Option<string>)

  /** An AAAA record returned by `dns_get_record`. */
  datatype DnsRecord = DnsRecord(ipv6: Option<string>)

  /** An address accepted by `filter_var(..., FILTER_VALIDATE_IP)`:
      four octets, or eight 16-bit groups. */
  datatype Ip = V4(a: int, b: int, c: int, d: int) | V6(groups: seq<int>)

  datatype Role = System | User | Assistant

  /** The fixed system instructions of each request kind; the tutor's
      instructions embed the content the student asks about. */
  datatype Brief =
    | PresentationBrief
    | FlashcardsBrief
    | QuizBrief
    | SummaryBrief
    | AudioScriptBrief
    | TutorBrief(context: string)

  datatype Content = Said(text: string) | Instructions(brief: Brief)

  datatype Message = Message(role: Role, content: Content)

  /** The JSON body posted to `chat/completions`; `jsonObject` stands for the
      `response_format: {type: json_object}` member. */
  datatype CompletionRequest = CompletionRequest(
    url: string,
    apikey: string,
    model: string,
    messages: seq<Message>,
    jsonObject: bool)

  /** The JSON body posted to the speech endpoint (format `mp3`). */
  datatype SpeechRequest = SpeechRequest(
    url: string,
    apikey: string,
    model: string,
    input: string,
    voice: string)

  /** The HTTP status of a curl call (0 when the transport failed) and its body. */
  datatype HttpResponse = HttpResponse(code: int, body: string)

  /** The outside world as seen by the client. */
  datatype Net = Net(
    parseUrl: string -> Option<ParsedUrl>,
    /** `gethostbyname`: returns its argument unchanged when resolution fails. */
    hostByName: string -> string,
    /** `dns_get_record(..., DNS_AAAA)`: `None` stands for `false`. */
    aaaa: string -> Option<seq<DnsRecord>>,
    parseIp: string -> Option<Ip>,
    complete: CompletionRequest -> HttpResponse,
    speak: SpeechRequest -> HttpResponse,
    decodeJson: string -> Option<Json>,
    /** PHP's string conversion of the number `json_decode` reads from a
        JSON number literal. */
    numberText: string -> string)

  /** A constructed client; its fields do not change afterwards. */
  datatype Client = Client(apikey: string, baseurl: string, model: string)

  // ---------------------------------------------------------------------
  // Public addresses.

  /** RFC 1918 private networks. */
  predicate PrivateV4(a: int, b: int) {
    a == 10 || (a == 172 && 16 <= b <= 31) || (a == 192 && b == 168)
  }

  /** 0.0.0.0/8, 127.0.0.0/8, 169.254.0.0/16 and 240.0.0.0/4. */
  predicate ReservedV4(a: int, b: int) {
    a == 0 || a == 127 || (a == 169 && b == 254) || a >= 240
  }

  /** `::1`, section 2.5.3 of RFC 4291. */
  predicate LoopbackV6(g: seq<int>) {
    g == [0, 0, 0, 0, 0, 0, 0, 1]
  }

  /** `::/128`, the unspecified address, section 2.5.2 of RFC 4291. */
  predicate UnspecifiedV6(g: seq<int>) {
    g == [0, 0, 0, 0, 0, 0, 0, 0]
  }

  /** `::ffff:0:0/96`, IPv4-mapped addresses, section 2.5.5.2 of RFC 4291. */
  predicate MappedV4(g: seq<int>) {
    |g| == 8 && g[..6] == [0, 0, 0, 0, 0, 0xffff]
  }

  /** `fe80::/10`, section 2.5.6 of RFC 4291. */
  predicate LinkLocalV6(g: seq<int>) {
    |g| > 0 && 0xfe80 <= g[0] <= 0xfebf
  }

  /** `fc00::/7`, RFC 4193. */
  predicate UniqueLocalV6(g: seq<int>) {
    |g| > 0 && 0xfc00 <= g[0] <= 0xfdff
  }

  /** Outside the ranges PHP documents for `FILTER_FLAG_NO_PRIV_RANGE`
      and `FILTER_FLAG_NO_RES_RANGE`. */
  predicate IsPublic(ip: Ip) {
    match ip
    case V4(a, b, _, _) => !PrivateV4(a, b) && !ReservedV4(a, b)
    case V6(g) =>
      && !UnspecifiedV6(g) && !LoopbackV6(g) && !MappedV4(g)
      && !LinkLocalV6(g) && !UniqueLocalV6(g)
  }

  /** `filter_var($ip, FILTER_VALIDATE_IP, FILTER_FLAG_NO_PRIV_RANGE |
      FILTER_FLAG_NO_RES_RANGE) !== false`: a valid address outside the
      private and reserved ranges. */
  predicate PassesFilter(net: Net, ip: string) {
    net.parseIp(ip).Some? && IsPublic(net.parseIp(ip).value)
  }

  // ---------------------------------------------------------------------
  // The SSRF guard.

  /** The addresses of the AAAA records that carry one, in record order. */
  function V6Addresses(rs: seq<DnsRecord>): (ips: seq<string>)
    ensures |ips| <= |rs|
  {
    if rs == [] then []
    else
      var last := rs[|rs| - 1];
      V6Addresses(rs[..|rs| - 1]) + (if last.ipv6.Some? then [last.ipv6.value] else [])
  }

  /** The IPv4 answer when resolution succeeded. */
  function V4Candidates(net: Net, host: string): seq<string> {
    if net.hostByName(host) != host then [net.hostByName(host)] else []
  }

  /** The host itself when it is an IP literal. */
  function LiteralCandidates(net: Net, host: string): seq<string> {
    if net.parseIp(host).Some? then [host] else []
  }

  /** Every address the guard checks for `host`: the IPv4 answer, the AAAA
      answers, then the host itself if it is an IP literal. */
  function Candidates(net: Net, host: string): seq<string> {
    V4Candidates(net, host)
    + (match net.aaaa(host) case None => [] case Some(rs) => V6Addresses(rs))
    + LiteralCandidates(net, host)
  }

  predicate AllPass(net: Net, ips: seq<string>) {
    forall i :: 0 <= i < |ips| ==> PassesFilter(net, ips[i])
  }

  predicate SchemeAllowed(p: ParsedUrl) {
    p.scheme.None? || p.scheme.value == "https" || p.scheme.value == "http"
  }

  /** The verdict of `validate_url`: no host is `invalidurl`; any candidate
      outside the public ranges is `ssrfblocked`; a present scheme other
      than http or https is `invalidurl`, checked last. */
  function UrlVerdict(net: Net, url: string): Outcome<Error> {
    match net.parseUrl(url)
    case None => Fail(InvalidUrl)
    case Some(p) =>
      if p.host.None? then Fail(InvalidUrl)
      else if !AllPass(net, Candidates(net, p.host.value)) then Fail(SsrfBlocked)
      else if !SchemeAllowed(p) then Fail(InvalidUrl)
      else Pass
  }

  /** The loop over the AAAA records. */
  method CollectV6(rs: seq<DnsRecord>) returns (ips: seq<string>)
    ensures ips == V6Addresses(rs)
  {
    ips := [];
    var i := 0;
    while i < |rs|
      invariant 0 <= i <= |rs|
      invariant ips == V6Addresses(rs[..i])
    {
      assert rs[..i + 1][..i] == rs[..i];
      if rs[i].ipv6.Some? {
        ips := ips + [rs[i].ipv6.value];
      }
      i := i + 1;
    }
    assert rs[..|rs|] == rs;
  }

  /** Collects the candidate addresses as `validate_url` does. */
  method CollectCandidates(net: Net, host: string) returns (ips: seq<string>)
    ensures ips == Candidates(net, host)
  {
    ips := [];
    var v4 := net.hostByName(host);
    if v4 != host {
      ips := ips + [v4];
    }
    var records := net.aaaa(host);
    if records.Some? {
      var v6 := CollectV6(records.value);
      ips := ips + v6;
    }
    if net.parseIp(host).Some? {
      ips := ips + [host];
    }
  }

  /** `validate_url`: collects the candidate addresses, then checks each. */
  method ValidateUrl(net: Net, url: string) returns (o: Outcome<Error>)
    ensures o == UrlVerdict(net, url)
  {
    var parsed := net.parseUrl(url);
    if parsed.None? || parsed.value.host.None? {
      return Fail(InvalidUrl);
    }
    var ips := CollectCandidates(net, parsed.value.host.value);
    var k := 0;
    while k < |ips|
      invariant 0 <= k <= |ips|
      invariant forall j :: 0 <= j < k ==> PassesFilter(net, ips[j])
    {
      var ip := net.parseIp(ips[k]);
      if ip.None? || !IsPublic(ip.value) {
        return Fail(SsrfBlocked);
      }
      k := k + 1;
    }
    var scheme := parsed.value.scheme;
    if scheme.Some? && scheme.value != "https" && scheme.value != "http" {
      return Fail(InvalidUrl);
    }
    return Pass;
  }

  /** A URL passes exactly when it has a host, every candidate address is
      public, and its scheme, if any, is http or https. */
  lemma UrlVerdictPass(net: Net, url: string)
    ensures UrlVerdict(net, url) == Pass <==>
      && net.parseUrl(url).Some?
      && net.parseUrl(url).value.host.Some?
      && AllPass(net, Candidates(net, net.parseUrl(url).value.host.value))
      && SchemeAllowed(net.parseUrl(url).value)
  {
  }

  /** Every candidate is checked, not only the first: one failing address
      anywhere in the list blocks the URL, whatever its scheme. */
  lemma EveryCandidateChecked(net: Net, url: string, i: int)
    requires net.parseUrl(url).Some? && net.parseUrl(url).value.host.Some?
    requires var ips := Candidates(net, net.parseUrl(url).value.host.value);
      0 <= i < |ips| && !PassesFilter(net, ips[i])
    ensures UrlVerdict(net, url) == Fail(SsrfBlocked)
  {
  }

  /** The guard fails open: a host with no candidate address (nothing
      resolves and it is no IP literal) passes whatever it names. */
  lemma FailsOpenWithoutCandidates(net: Net, url: string)
    requires net.parseUrl(url).Some? && net.parseUrl(url).value.host.Some?
    requires Candidates(net, net.parseUrl(url).value.host.value) == []
    requires SchemeAllowed(net.parseUrl(url).value)
    ensures UrlVerdict(net, url) == Pass
  {
  }

  /** An instance of failing open: `parse_url` keeps the brackets of an IPv6
      literal host, so `[::1]` neither resolves nor validates as an IP, and
      a URL aimed at the loopback address passes. */
  lemma BracketedLoopbackPasses(net: Net)
    requires net.parseUrl("http://[::1]/") == Some(ParsedUrl(Some("http"), Some("[::1]")))
    requires net.hostByName("[::1]") == "[::1]"
    requires net.aaaa("[::1]") == None
    requires net.parseIp("[::1]") == None
    requires net.parseIp("::1") == Some(V6([0, 0, 0, 0, 0, 0, 0, 1]))
    ensures UrlVerdict(net, "http://[::1]/") == Pass
    ensures !PassesFilter(net, "::1")
  {
    assert Candidates(net, "[::1]") == [];
  }

  /** A fail-closed variant of the guard, for contrast: a host with no
      candidate address is blocked as well. */
  function UrlVerdictFailClosed(net: Net, url: string): (o: Outcome<Error>)
    ensures o.Pass? ==> UrlVerdict(net, url).Pass?
  {
    match net.parseUrl(url)
    case None => Fail(InvalidUrl)
    case Some(p) =>
      if p.host.None? then Fail(InvalidUrl)
      else if Candidates(net, p.host.value) == [] then Fail(SsrfBlocked)
      else UrlVerdict(net, url)
  }

  /** Under the fail-closed guard a passing URL has at least one candidate
      address, and every one of them is public. */
  lemma FailClosedChecksSomething(net: Net, url: string)
    requires UrlVerdictFailClosed(net, url) == Pass
    ensures var ips := Candidates(net, net.parseUrl(url).value.host.value);
      |ips| > 0 && AllPass(net, ips)
  {
  }

  // ---------------------------------------------------------------------
  // Construction.

  /** The constructor's normalization: append `/` unless the URL already
      ends with one. */
  function NormalizeBase(b: string): (r: string)
    ensures EndsWith(r, "/")
    ensures EndsWith(b, "/") ==> r == b
    ensures !EndsWith(b, "/") ==> r == b + "/"
  {
    if EndsWith(b, "/") then b else b + "/"
  }

  lemma NormalizeBaseIdempotent(b: string)
    ensures NormalizeBase(NormalizeBase(b)) == NormalizeBase(b)
  {
  }

  /** The client the constructor builds, or the exception it throws when
      the normalized base URL fails the guard. */
  function ClientFor(cfg: Config, net: Net): (r: Result<Client, Error>)
    ensures r.Success? <==> UrlVerdict(net, NormalizeBase(cfg.baseurl)) == Pass
    ensures r.Success? ==>
      && EndsWith(r.value.baseurl, "/")
      && r.value.baseurl == NormalizeBase(cfg.baseurl)
      && r.value.apikey == cfg.apikey
      && r.value.model == cfg.model
    ensures r.Failure? ==> UrlVerdict(net, NormalizeBase(cfg.baseurl)) == Fail(r.error)
    ensures r.Failure? ==> r.error == InvalidUrl || r.error == SsrfBlocked
  {
    var base := NormalizeBase(cfg.baseurl);
    match UrlVerdict(net, base)
    case Fail(e) => Failure(e)
    case Pass => Success(Client(cfg.apikey, base, cfg.model))
  }

  /** `new gemini_client()`. */
  method NewClient(cfg: Config, net: Net) returns (r: Result<Client, Error>)
    ensures r == ClientFor(cfg, net)
  {
    var base := cfg.baseurl;
    if !EndsWith(base, "/") {
      base := base + "/";
    }
    var verdict := ValidateUrl(net, base);
    if verdict.Fail? {
      return Failure(verdict.error);
    }
    return Success(Client(cfg.apikey, base, cfg.model));
  }

  // ---------------------------------------------------------------------
  // Chat completions.

  /** The request `generate_content` posts. */
  function CompletionRequestFor(c: Client, messages: seq<Message>, format: string): (q: CompletionRequest)
    ensures q.url == c.baseurl + "chat/completions"
    ensures q.jsonObject <==> format == "json_object"
    ensures q.messages == messages && q.apikey == c.apikey && q.model == c.model
  {
    CompletionRequest(c.baseurl + "chat/completions", c.apikey, c.model, messages, format == "json_object")
  }

  /** `$a[$key]` on a decoded array. */
  function Member(j: Json, key: string): Option<Json> {
    match j
    case JObj(m) => if key in m then Some(m[key]) else None
    case _ => None
  }

  /** `$a[0]` on a decoded array: the first list element, or a member named "0". */
  function First(j: Json): Option<Json> {
    match j
    case JArr(xs) => if |xs| > 0 then Some(xs[0]) else None
    case JObj(m) => if "0" in m then Some(m["0"]) else None
    case _ => None
  }

  /** The string a set scalar content becomes where the plugin uses it as
      text: a string as it is, `true` as "1", `false` as "", a number as PHP
      prints it; null is not set, and arrays and objects are not taken. */
  function ScalarText(v: Json, numberText: string -> string): Option<string> {
    match v
    case JStr(s) => Some(s)
    case JBool(b) => Some(if b then "1" else "")
    case JNum(l) => Some(numberText(l))
    case _ => None
  }

  /** `$response['choices'][0]['message']['content']` when `isset` holds
      for it and it is a scalar. */
  function ChoiceContent(j: Json, numberText: string -> string): Option<string> {
    match Member(j, "choices")
    case None => None
    case Some(choices) =>
      match First(choices)
      case None => None
      case Some(choice) =>
        match Member(choice, "message")
        case None => None
        case Some(msg) =>
          match Member(msg, "content")
          case None => None
          case Some(v) => ScalarText(v, numberText)
  }

  /** A completion whose first choice has set scalar content yields that
      content as text: a string is returned unchanged, and a null content
      is not set. */
  lemma ChoiceContentOfCompletion(v: Json, rest: seq<Json>, others: map<string, Json>, numberText: string -> string)
    ensures var j := JObj(others["choices" := JArr([JObj(map["message" := JObj(map["content" := v])])] + rest)]);
      && ChoiceContent(j, numberText) == ScalarText(v, numberText)
      && (v.JStr? ==> ChoiceContent(j, numberText) == Some(v.s))
      && (v.JNum? ==> ChoiceContent(j, numberText) == Some(numberText(v.literal)))
      && (v.JBool? ==> ChoiceContent(j, numberText).Some?)
      && (v.JNull? ==> ChoiceContent(j, numberText).None?)
  {
  }

  /** A response without `choices` yields nothing. */
  lemma ChoiceContentWithoutChoices(m: map<string, Json>)
    requires "choices" !in m
    ensures forall numberText: string -> string :: ChoiceContent(JObj(m), numberText) == None
  {
  }

  /** `generate_content`: non-200 is `apierror` with the code; an undecodable
      body is `invalidjson`; a missing content is `apiinvalidresponse`. */
  function CompletionResult(c: Client, net: Net, messages: seq<Message>, format: string): (r: Result<string, Error>)
    ensures var resp := net.complete(CompletionRequestFor(c, messages, format));
      && (resp.code != 200 <==> r == Failure(ApiError(resp.code)))
      && (r.Success? <==>
            resp.code == 200 && net.decodeJson(resp.body).Some?
            && ChoiceContent(net.decodeJson(resp.body).value, net.numberText).Some?)
      && (r.Success? ==> r.value == ChoiceContent(net.decodeJson(resp.body).value, net.numberText).value)
      && (resp.code == 200 && net.decodeJson(resp.body).None? ==> r == Failure(InvalidJson))
      && ((resp.code == 200 && net.decodeJson(resp.body).Some?
           && ChoiceContent(net.decodeJson(resp.body).value, net.numberText).None?) ==> r == Failure(ApiInvalidResponse))
  {
    var resp := net.complete(CompletionRequestFor(c, messages, format));
    if resp.code != 200 then Failure(ApiError(resp.code))
    else
      match net.decodeJson(resp.body)
      case None => Failure(InvalidJson)
      case Some(j) =>
        match ChoiceContent(j, net.numberText)
        case None => Failure(ApiInvalidResponse)
        case Some(s) => Success(s)
  }

  /** The two messages of the single-topic helpers (`generate_presentation`,
      `generate_flashcards`, `generate_quiz_questions`, `generate_summary`). */
  function TopicMessages(brief: Brief, lead: string, topic: string): seq<Message> {
    [Message(System, Instructions(brief)), Message(User, Said(lead + topic))]
  }

  /** The message list of `chat_with_content`. */
  function ChatList(context: string, question: string, history: seq<Message>): seq<Message> {
    [Message(System, Instructions(TutorBrief(context)))] + history + [Message(User, Said(question))]
  }

  /** The tutor's instructions come first, then the history in order, then
      the question: `|history| + 2` messages. */
  lemma ChatListShape(context: string, question: string, history: seq<Message>)
    ensures var ms := ChatList(context, question, history);
      && |ms| == |history| + 2
      && ms[0] == Message(System, Instructions(TutorBrief(context)))
      && ms[1..|ms| - 1] == history
      && ms[|ms| - 1] == Message(User, Said(question))
  {
    var ms := ChatList(context, question, history);
    assert ms[1..|ms| - 1] == history;
  }

  /** Builds the chat message list by appending, as `chat_with_content` does. */
  method ChatMessages(context: string, question: string, history: seq<Message>) returns (ms: seq<Message>)
    ensures ms == ChatList(context, question, history)
  {
    ms := [Message(System, Instructions(TutorBrief(context)))];
    var i := 0;
    while i < |history|
      invariant 0 <= i <= |history|
      invariant ms == [Message(System, Instructions(TutorBrief(context)))] + history[..i]
    {
      ms := ms + [history[i]];
      assert history[..i + 1] == history[..i] + [history[i]];
      i := i + 1;
    }
    assert history[..|history|] == history;
    ms := ms + [Message(User, Said(question))];
  }

  /** `chat_with_content`: the completion of the chat message list, as text. */
  method ChatWithContent(c: Client, net: Net, context: string, question: string, history: seq<Message>)
    returns (r: Result<string, Error>)
    ensures r == CompletionResult(c, net, ChatList(context, question, history), "text")
  {
    var ms := ChatMessages(context, question, history);
    r := CompletionResult(c, net, ms, "text");
  }

  // ---------------------------------------------------------------------
  // Text to speech.

  const Endpoint: string := "chat/completions"

  /** The fallback speech URL: `chat/completions` removed from the base URL,
      a trailing `/` ensured, `audio/speech` appended. */
  function TtsFallback(base: string): (u: string)
    ensures EndsWith(u, "audio/speech")
    ensures |u| >= |"/audio/speech"| && u[|u| - |"/audio/speech"|] == '/'
  {
    var stripped := NormalizeBase(ReplaceAll(base, Endpoint, ""));
    assert stripped[|stripped| - 1] == '/';
    stripped + "audio/speech"
  }

  /** The usual base URL, without the endpoint in it, gets `audio/speech` appended. */
  lemma TtsFallbackPlainBase(base: string)
    requires !Contains(base, Endpoint) && EndsWith(base, "/")
    ensures TtsFallback(base) == base + "audio/speech"
  {
    ReplaceAllAbsent(base, Endpoint, "");
  }

  /** The endpoint's letters occur in it once, so it cannot overlap itself. */
  lemma EndpointFirstAfter(p: string, q: string)
    requires !Contains(p, Endpoint)
    ensures IndexOf(p + Endpoint + q, Endpoint) == Some(|p|)
  {
    var s := p + Endpoint + q;
    assert s[|p|..|p| + |Endpoint|] == Endpoint;
    forall j | 0 <= j < |p|
      ensures !MatchAt(s, Endpoint, j)
    {
      if j + |Endpoint| <= |p| {
        assert s[j..j + |Endpoint|] == p[j..j + |Endpoint|];
        assert !MatchAt(p, Endpoint, j);
      } else {
        var d := |p| - j;
        assert s[j + 15] == Endpoint[15 - d];
        assert Endpoint[15 - d] != 's';
        var w := s[j..j + |Endpoint|];
        assert w[15] == s[j + 15];
        assert w != Endpoint;
      }
    }
    IndexOfFirst(s, Endpoint, |p|);
  }

  /** A base URL configured as the full endpoint (normalized to end in
      `chat/completions/`) yields a speech URL with a doubled slash. */
  lemma TtsFallbackFromEndpointUrl(p: string)
    requires !Contains(p, Endpoint)
    ensures TtsFallback(p + Endpoint + "/") == p + "/audio/speech"
  {
    StripEndpoint(p);
    assert NormalizeBase(p + "/") == p + "/";
    assert p + "/" + "audio/speech" == p + "/audio/speech";
  }

  /** Removing `chat/completions` from `p + "chat/completions/"` leaves `p + "/"`. */
  lemma StripEndpoint(p: string)
    requires !Contains(p, Endpoint)
    ensures ReplaceAll(p + Endpoint + "/", Endpoint, "") == p + "/"
  {
    var s := p + Endpoint + "/";
    EndpointFirstAfter(p, "/");
    ReplaceAllFirst(s, Endpoint, "");
    assert s[|p| + |Endpoint|..] == "/";
    assert s[..|p|] == p;
    assert ReplaceAll("/", Endpoint, "") == "/";
  }

  /** PHP `$value ?: $default` on a setting. */
  function OrDefault(value: string, default: string): string {
    if PhpEmpty(value) then default else value
  }

  /** The speech URL: the `ttsurl` setting, or the fallback when it is empty. */
  function TtsUrl(cfg: Config, c: Client): string {
    if PhpEmpty(cfg.ttsurl) then TtsFallback(c.baseurl) else cfg.ttsurl
  }

  function SpeechRequestFor(cfg: Config, c: Client, input: string): (q: SpeechRequest)
    ensures q.url == TtsUrl(cfg, c) && q.input == input && q.apikey == c.apikey
    ensures q.model == (if PhpEmpty(cfg.ttsmodel) then "tts-1" else cfg.ttsmodel)
    ensures q.voice == (if PhpEmpty(cfg.ttsvoice) then "alloy" else cfg.ttsvoice)
  {
    SpeechRequest(TtsUrl(cfg, c), c.apikey, OrDefault(cfg.ttsmodel, "tts-1"), input, OrDefault(cfg.ttsvoice, "alloy"))
  }

  /** `generate_speech_mp3`: the speech URL must pass the guard; a non-200
      answer is `apierror`; otherwise the body is the MP3 data. */
  function SpeechResult(cfg: Config, c: Client, net: Net, input: string): (r: Result<string, Error>)
    ensures var q := SpeechRequestFor(cfg, c, input);
      && (UrlVerdict(net, q.url).Fail? ==> r == Failure(UrlVerdict(net, q.url).error))
      && (r.Success? <==> UrlVerdict(net, q.url) == Pass && net.speak(q).code == 200)
      && (r.Success? ==> r.value == net.speak(q).body)
      && (UrlVerdict(net, q.url) == Pass && net.speak(q).code != 200 ==> r == Failure(ApiError(net.speak(q).code)))
  {
    var q := SpeechRequestFor(cfg, c, input);
    match UrlVerdict(net, q.url)
    case Fail(e) => Failure(e)
    case Pass =>
      var resp := net.speak(q);
      if resp.code != 200 then Failure(ApiError(resp.code)) else Success(resp.body)
  }

  method GenerateSpeech(cfg: Config, c: Client, net: Net, input: string) returns (r: Result<string, Error>)
    ensures r == SpeechResult(cfg, c, net, input)
  {
    var url := cfg.ttsurl;
    if PhpEmpty(url) {
      var base := ReplaceAll(c.baseurl, Endpoint, "");
      if !EndsWith(base, "/") {
        base := base + "/";
      }
      url := base + "audio/speech";
    }
    var verdict := ValidateUrl(net, url);
    if verdict.Fail? {
      return Failure(verdict.error);
    }
    var q := SpeechRequest(url, c.apikey, OrDefault(cfg.ttsmodel, "tts-1"), input, OrDefault(cfg.ttsvoice, "alloy"));
    var resp := net.speak(q);
    if resp.code != 200 {
      return Failure(ApiError(resp.code));
    }
    return Success(resp.body);
  }
}
