/** The Translate button: blank input gets a warning; demo mode gets the
    offline line; live mode sends the request to the generator and, on any
    failure, falls back to the offline line. The generator is a parameter: a
    function from the request to its result. */
module Resolver {
  import opened Base
  import opened PyStr
  import opened Styles
  import opened Prompt
  import opened DemoLines
  import opened Paywall

  /** The generator's answer to one request: the content of its first choice,
      or a failure of any kind (transport, authentication, quota, a malformed
      response). */
  datatype Generation = Generated(content: string) | Failed

  /** What the page shows after Translate. */
  datatype Reply =
    | NoReply                      // blank input: a warning and no line
    | DemoLine(text: string)       // demo mode
    | LiveLine(text: string)       // live mode, the generator answered
    | FallbackLine(text: string)   // live mode, building or sending the request raised

  /** The reply, and the request handed to the generator, if any. */
  datatype Outcome = Outcome(reply: Reply, request: Option<seq<Message>>)

  /** The Translate branch. The generator sees exactly the built request, and
      only in live mode with text to translate; every reply other than a live
      one is the offline line, which is never empty. */
  function Translate(c: Catalog, style: string, input: string, demo: bool, generate: seq<Message> -> Generation): (o: Outcome)
    ensures o.reply.NoReply? <==> AllSpace(input)
    ensures o.reply.DemoLine? <==> !AllSpace(input) && demo
    ensures o.request.Some? <==> !AllSpace(input) && !demo && BuildMessages(c, style, input).Ok?
    ensures o.request.Some? ==> o.request.value == BuildMessages(c, style, input).value
    ensures o.reply.LiveLine? <==> o.request.Some? && generate(o.request.value).Generated?
    ensures o.reply.LiveLine? ==> o.reply.text == Strip(generate(o.request.value).content)
    ensures o.reply.DemoLine? || o.reply.FallbackLine? ==>
      o.reply.text == DemoTranslate(input, style) && o.reply.text != []
  {
    if Strip(input) == [] then Outcome(NoReply, None)
    else if demo then Outcome(DemoLine(DemoTranslate(input, style)), None)
    else
      match BuildMessages(c, style, input)
      case Err(_) => Outcome(FallbackLine(DemoTranslate(input, style)), None)
      case Ok(request) =>
        match generate(request)
        case Generated(content) => Outcome(LiveLine(Strip(content)), Some(request))
        case Failed => Outcome(FallbackLine(DemoTranslate(input, style)), Some(request))
  }

  /** Blank input and demo mode never consult the generator: any two
      generators give the same outcome. */
  lemma OfflineIgnoresGenerator(c: Catalog, style: string, input: string, demo: bool,
                                g1: seq<Message> -> Generation, g2: seq<Message> -> Generation)
    requires AllSpace(input) || demo
    ensures Translate(c, style, input, demo, g1) == Translate(c, style, input, demo, g2)
  {
  }

  /** The outcome depends on the generator only through its answer to the
      built request. */
  lemma GeneratorSeenOnlyOnRequest(c: Catalog, style: string, input: string, demo: bool,
                                   g1: seq<Message> -> Generation, g2: seq<Message> -> Generation)
    requires BuildMessages(c, style, input).Ok? ==>
      g1(BuildMessages(c, style, input).value) == g2(BuildMessages(c, style, input).value)
    ensures Translate(c, style, input, demo, g1) == Translate(c, style, input, demo, g2)
  {
  }

  /** A failed generation in live mode degrades to exactly the demo line. */
  lemma FailureFallsBack(c: Catalog, style: string, input: string, generate: seq<Message> -> Generation)
    requires !AllSpace(input) && BuildMessages(c, style, input).Ok?
    requires generate(BuildMessages(c, style, input).value).Failed?
    ensures Translate(c, style, input, false, generate).reply == FallbackLine(DemoTranslate(input, style))
  {
  }

  /** The page as a whole: the sidebar decides the mode, then Translate runs. */
  function TranslatePage(mode: Mode, paywall: Option<PaywallConfig>, accessCode: string, apiKey: Option<string>,
                         c: Catalog, style: string, input: string, generate: seq<Message> -> Generation): (o: Outcome)
    ensures o.request.Some? ==>
      && mode == ApiPaid && Strip(accessCode) in ValidCodes(paywall)
      && apiKey.Some? && !AllSpace(apiKey.value)
  {
    Translate(c, style, input, DemoMode(mode, paywall, accessCode, apiKey), generate)
  }

  /** Text to translate always gets a line: a request that cannot be built,
      like a generator that fails, ends in the demo line. */
  lemma AlwaysAnswers(mode: Mode, paywall: Option<PaywallConfig>, accessCode: string, apiKey: Option<string>,
                      c: Catalog, style: string, input: string, generate: seq<Message> -> Generation)
    requires !AllSpace(input)
    ensures var o := TranslatePage(mode, paywall, accessCode, apiKey, c, style, input, generate);
      o.reply.LiveLine? || o.reply.text == DemoTranslate(input, style)
  {
  }
}
