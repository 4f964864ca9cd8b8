/** The entry dispatcher: an event with a `body` key is an approve-button
    callback (decode the button value, apply that one change, report it); an
    event without one is the scheduled scan (collect suggestions and notify). */
module Handler {
  import opened Wrappers
  import opened Payload
  import opened Callback
  import opened Notify
  import opened Scanner

  /** The environment-supplied settings, read once. */
  datatype Config = Config(threshold: real, webhookUrl: Option<string>)

  /** The event's `body` key: absent, present with `null`, or a text. */
  datatype Body = NoBody | NullBody | TextBody(text: string)

  /** The invocation event: `body` is present only for callbacks. */
  datatype Event = Event(body: Body, isBase64Encoded: bool)

  /** The part of the parsed callback document the handler reads:
      `actions` (when present) and each action's `value` (when present). */
  datatype ActionElement = ActionElement(value: Option<string>)
  datatype CallbackDocument = CallbackDocument(actions: Option<seq<ActionElement>>)

  /** The library steps the callback path relies on: base64 decoding (which
      may raise), URL unquoting, and parsing the outer JSON document (which
      may raise). */
  datatype Codecs = Codecs(
    base64Decode: string -> Option<string>,
    unquote: string -> string,
    parseDocument: string -> Option<CallbackDocument>)

  /** The EC2 side of one change: creating the client for a region, which
      happens before the `try` and so may raise out of the change, and the
      stop, wait, modify and start sequence, whose errors are caught. */
  datatype Ec2Control = Ec2Control(
    connect: string -> Result<(), string>,
    resize: ActionPayload -> Result<(), string>)

  /** The invocation result. */
  datatype Response =
    | Done(message: string)            // statusCode 200 with the change report
    | Failed                           // statusCode 500: something on the callback path raised
    | NoAction                         // `{}`: a document without an action value
    | Suggestions(items: seq<Suggestion>)
    | Raised                           // an exception left the handler: no response at all

  /** What an invocation did: its response, the change it attempted (if any)
      and the webhook post it made (if any). */
  datatype Outcome = Outcome(response: Response, attempted: Option<ActionPayload>, sent: Option<Message>)

  /** The opening both change reports share. */
  function ReportLead(p: ActionPayload): string
  {
    "Instance " + p.instanceId
  }

  function ChangedReport(p: ActionPayload): string
  {
    ReportLead(p) + " has been changed to " + p.suggestedType + ". (Region: " + p.region + ")"
  }

  function FailedReport(p: ActionPayload, e: string): string
  {
    ReportLead(p) + " change failed. (Region: " + p.region + "): " + e
  }

  /** The two reports can never be confused: right after the instance id
      and a space, one goes on with `h` and the other with `c`. */
  lemma ReportsDiffer(p: ActionPayload, e: string)
    ensures ChangedReport(p) != FailedReport(p, e)
  {
    var n := |ReportLead(p)|;
    assert ChangedReport(p)[n + 1] == 'h';
    assert FailedReport(p, e)[n + 1] == 'c';
  }

  /** `apply_single_ec2_change`. Creating the client may raise out of it
      (`Err`); once the client exists, any error of the change sequence is
      caught and turned into the failure report. */
  function ApplyChange(p: ActionPayload, ec2: Ec2Control): (r: Result<(bool, string), string>)
    ensures r.Err? <==> ec2.connect(p.region).Err?
    ensures r.Ok? ==> (r.value.0 <==> ec2.resize(p).Ok?)
    // both reports open with the instance id
    ensures r.Ok? ==> ReportLead(p) <= r.value.1
    // the report alone tells success from failure
    ensures r.Ok? ==> (r.value.1 == ChangedReport(p) <==> r.value.0)
    // a failure report ends with the error's text
    ensures r.Ok? && !r.value.0 ==> r.value.1 == FailedReport(p, ec2.resize(p).error)
  {
    match ec2.connect(p.region)
    case Err(e) => Err(e)
    case Ok(_) =>
      match ec2.resize(p)
      case Ok(_) => Ok((true, ChangedReport(p)))
      case Err(e) =>
        ReportsDiffer(p, e);
        Ok((false, FailedReport(p, e)))
  }

  /** The first action's `value`, when the document has a non-empty
      `actions` list whose first element carries one. */
  function FirstActionValue(doc: CallbackDocument): (r: Option<string>)
    ensures r.Some? <==> doc.actions.Some? && |doc.actions.value| > 0 && doc.actions.value[0].value.Some?
    ensures r.Some? ==> r.value == doc.actions.value[0].value.value
  {
    if doc.actions.Some? && |doc.actions.value| > 0 then doc.actions.value[0].value else None
  }

  /** The callback document: the body, base64-decoded when flagged, then
      unquoted, stripped of its `payload=` prefix and parsed. `None` when a
      step raises. */
  function Document(body: string, isBase64: bool, codecs: Codecs): Option<CallbackDocument>
  {
    var data :- if isBase64 then codecs.base64Decode(body) else Some(body);
    codecs.parseDocument(StripPrefix(codecs.unquote(data)))
  }

  /** The first action's button value of the callback document, when the
      document can be read and carries one. */
  function ArrivedValue(body: string, isBase64: bool, codecs: Codecs): Option<string>
  {
    var doc :- Document(body, isBase64, codecs);
    FirstActionValue(doc)
  }

  /** The change that button value asks for, when it parses. */
  function ArrivedChange(body: string, isBase64: bool, codecs: Codecs): Option<ActionPayload>
  {
    var value :- ArrivedValue(body, isBase64, codecs);
    DecodeActionValue(value)
  }

  /** The callback branch of `lambda_handler`. A change is attempted exactly
      when the response is 200: the report says whether the resize itself
      succeeded. */
  function HandleCallback(body: string, isBase64: bool, codecs: Codecs, ec2: Ec2Control,
                          url: Option<string>): (r: Outcome)
    ensures r.attempted.Some? <==> r.response.Done?
    ensures !r.response.Done? ==> r.sent.None?
    ensures r.response.Failed? || r.response.Done? || r.response.NoAction?
    // a document that cannot be read gives 500
    ensures Document(body, isBase64, codecs).None? ==> r.response.Failed?
    // `{}` exactly when the document is read but carries no action value
    ensures r.response.NoAction? <==>
      Document(body, isBase64, codecs).Some? && ArrivedValue(body, isBase64, codecs).None?
    // a change is attempted only as the first action's value asks, and only once its client exists
    ensures r.attempted.Some? ==>
      r.attempted == ArrivedChange(body, isBase64, codecs) && ec2.connect(r.attempted.value.region).Ok?
    // ... and whenever the value parses and its client exists, that change is attempted
    ensures ArrivedChange(body, isBase64, codecs).Some?
            && ec2.connect(ArrivedChange(body, isBase64, codecs).value.region).Ok?
            ==> r.attempted == ArrivedChange(body, isBase64, codecs)
    // the report of the attempted change is the response and the only post
    ensures r.response.Done? ==>
      && ApplyChange(r.attempted.value, ec2).Ok?
      && r.response.message == ApplyChange(r.attempted.value, ec2).value.1
      && r.sent == SendBlocks([Section(r.response.message)], url)
  {
    match Document(body, isBase64, codecs)
    case None => Outcome(Failed, None, None)
    case Some(doc) =>
      match FirstActionValue(doc)
      case None => Outcome(NoAction, None, None)
      case Some(value) =>
        match DecodeActionValue(value)
        case None => Outcome(Failed, None, None)
        case Some(p) =>
          match ApplyChange(p, ec2)
          case Err(_) => Outcome(Failed, None, None)
          case Ok((_, message)) => Outcome(Done(message), Some(p), SendBlocks([Section(message)], url))
  }

  /** A button value that does not parse gives a 500 response, and no change
      is attempted and nothing is posted. */
  lemma UnparsableValueFails(body: string, isBase64: bool, codecs: Codecs, doc: CallbackDocument,
                             value: string, ec2: Ec2Control, url: Option<string>)
    requires Document(body, isBase64, codecs) == Some(doc)
    requires FirstActionValue(doc) == Some(value)
    requires DecodeActionValue(value).None?
    ensures HandleCallback(body, isBase64, codecs, ec2, url) == Outcome(Failed, None, None)
  {
  }

  /** End to end: a form body `payload=<document>` whose first action carries
      the button value written for `p`, with its spaces arriving as `+`,
      applies `p` with the spaces and `+` of its fields deleted, which is `p`
      itself exactly when its fields have neither. When the client for that
      region cannot be created, the response is 500 and nothing is posted. */
  lemma ApprovedPayloadApplied(body: string, isBase64: bool, text: string, document: string,
                               codecs: Codecs, doc: CallbackDocument, p: ActionPayload,
                               ec2: Ec2Control, url: Option<string>)
    requires if isBase64 then codecs.base64Decode(body) == Some(text) else body == text
    requires codecs.unquote(text) == "payload=" + document
    requires codecs.parseDocument(document) == Some(doc)
    requires FirstActionValue(doc) == Some(FormSpaces(Encode(p)))
    ensures ec2.connect(StripFields(FormFields(p)).region).Ok? ==>
      && HandleCallback(body, isBase64, codecs, ec2, url).attempted == Some(StripFields(FormFields(p)))
      && HandleCallback(body, isBase64, codecs, ec2, url).response
         == Done(ApplyChange(StripFields(FormFields(p)), ec2).value.1)
    ensures ec2.connect(StripFields(FormFields(p)).region).Ok? ==>
      (HandleCallback(body, isBase64, codecs, ec2, url).attempted == Some(p)
       <==> && ' ' !in p.instanceId && ' ' !in p.currentType && ' ' !in p.suggestedType && ' ' !in p.region
            && '+' !in p.instanceId && '+' !in p.currentType && '+' !in p.suggestedType && '+' !in p.region)
    ensures ec2.connect(StripFields(FormFields(p)).region).Err? ==>
      HandleCallback(body, isBase64, codecs, ec2, url) == Outcome(Failed, None, None)
  {
    StripPrefixOf("payload=", document);
    assert Document(body, isBase64, codecs) == Some(doc);
    FormValueDecodes(p);
    FormValueRoundTrip(p);
  }

  const NoChangeText: string := "No instances need optimization."

  /** The scan branch's result: the suggestions and the one post made. The
      region list is fetched outside any `try`, so its failure raises out of
      the handler. `clock(region)` is the time read when that region's
      instances are listed. */
  function HandleScan(regions: Result<seq<string>, string>, provider: Provider, clock: string -> int, cfg: Config,
                      showCpu: real -> string): (r: Outcome)
    ensures r.attempted.None?
    ensures regions.Err? ==> r.response.Raised? && r.sent.None?
    ensures regions.Ok? ==>
      && r.response.Suggestions?
      && r.response.items == ScanRegions(regions.value, provider, clock, cfg.threshold)
      && (r.sent.Some? <==> UrlSet(cfg.webhookUrl))
    // the one post goes to the configured webhook
    ensures r.sent.Some? ==> UrlSet(cfg.webhookUrl) && r.sent.value.url == cfg.webhookUrl.value
    // no suggestion: exactly one "nothing to do" section
    ensures r.response.Suggestions? && |r.response.items| == 0 && r.sent.Some? ==>
      r.sent.value.blocks == [Section(NoChangeText)]
    // otherwise the header, the divider and one triple per suggestion
    ensures r.response.Suggestions? && |r.response.items| > 0 && r.sent.Some? ==>
      && |r.sent.value.blocks| == 2 + 3 * |r.response.items|
      && r.sent.value.blocks[0] == Header(HeaderText)
      && r.sent.value.blocks == Blocks(r.response.items, showCpu)
  {
    match regions
    case Err(_) => Outcome(Raised, None, None)
    case Ok(names) =>
      var items := ScanRegions(names, provider, clock, cfg.threshold);
      var sent := if |items| > 0 then NotifyEc2Suggestions(items, cfg.webhookUrl, showCpu)
                  else SendBlocks([Section(NoChangeText)], cfg.webhookUrl);
      Outcome(Suggestions(items), None, sent)
  }

  /** `lambda_handler`: dispatch on the presence of the `body` key. A `null`
      body takes the callback path, where decoding or unquoting it raises. */
  function HandleEvent(event: Event, cfg: Config, codecs: Codecs, ec2: Ec2Control,
                       regions: Result<seq<string>, string>, provider: Provider, clock: string -> int,
                       showCpu: real -> string): (r: Outcome)
    ensures event.body.NoBody? <==> r.response.Suggestions? || r.response.Raised?
    ensures event.body.NoBody? ==> r == HandleScan(regions, provider, clock, cfg, showCpu)
    ensures event.body.NullBody? ==> r == Outcome(Failed, None, None)
    ensures event.body.TextBody? ==>
      r == HandleCallback(event.body.text, event.isBase64Encoded, codecs, ec2, cfg.webhookUrl)
  {
    match event.body
    case TextBody(body) => HandleCallback(body, event.isBase64Encoded, codecs, ec2, cfg.webhookUrl)
    case NullBody => Outcome(Failed, None, None)
    case NoBody => HandleScan(regions, provider, clock, cfg, showCpu)
  }
}
