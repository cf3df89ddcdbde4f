/** The receipt-extraction route (`POST /api/scrape`) as a pure function
    from its inputs to the response it sends.  The request body, the API
    key setting and the upstream model's reply are parameters, and
    `JSON.parse` is the parameter `parse`; the route's only decisions are
    which of these paths to take and which items to return. */
module Scrape {
  import opened Wrappers
  import opened Seqs
  import opened Text
  import opened JsValue

  /** What `JSON.parse` (or `request.json()`, `response.json()`) gives for
      a text: a value, or a `SyntaxError` carrying its message. */
  datatype Parsed = Parsed(value: Value) | SyntaxError(message: string)

  /** The vision model's reply to the route's `fetch`: the request failed
      outright, or a response with a status code and a body text. */
  datatype Upstream = NetworkError(message: string) | Response(status: nat, body: string)

  /** The `error` field of a response: a text the route states, or the
      message of the `TypeError` the runtime raises when the route reads
      `property` of `null`. */
  datatype ErrorText = Literal(text: string) | TypeErrorReading(property: string)

  /** The route's response.  `BadRequest` is status 400 with its `error`
      text; the other two are status 200: the fixed mock
      list with a `message` (and an `error` or the model's raw content when
      the route adds one), or the items extracted from the model's reply. */
  datatype Outcome =
    | BadRequest(errorText: string)
    | Fallback(message: string, error: Option<ErrorText>, rawResponse: Option<Value>)
    | Extracted(items: seq<Value>)

  const NoImageError: string := "No image provided"
  const PlaceholderKey: string := "your_together_api_key_here"
  const MinImageLength: real := 100.0
  const KeyMissingMessage: string := "Mock data returned - configure TOGETHER_API_KEY for real processing"
  const ShortImageMessage: string := "Image data too short, using mock data"
  const ParseFailedMessage: string := "Failed to parse AI response, returning mock data"
  const ErrorMessage: string := "Error occurred, returning mock data"
  const InvalidStructure: string := "Invalid response structure from Together AI"

  function MockItem(name: string, price: real): Value
  {
    Obj(map["name" := Str(name), "price" := Num(price)])
  }

  /** The fixed list every fallback path returns. */
  const MockItems: seq<Value> := [
    MockItem("Coffee", 4.5), MockItem("Sandwich", 8.99), MockItem("Salad", 12.75), MockItem("Soda", 2.25)
  ]

  function ApiErrorMessage(status: nat): string
  {
    "API error (" + Decimal(status) + "), returning mock data"
  }

  /** The HTTP status of a response. */
  function Status(o: Outcome): nat
  {
    if o.BadRequest? then 400 else 200
  }

  /** The `items` field of a response (absent, here empty, for a 400). */
  function Items(o: Outcome): seq<Value>
  {
    match o
    case BadRequest(_) => []
    case Fallback(_, _, _) => MockItems
    case Extracted(items) => items
  }

  /** The catch-all handler: mock items, a generic message and the thrown
      error's message. */
  function Failure(e: ErrorText): Outcome
  {
    Fallback(ErrorMessage, Some(e), None)
  }

  /** A key is configured when it is set, non-empty and not the
      placeholder from the example environment file: those three settings
      are exactly the ones that select the mock response. */
  function KeyConfigured(apiKey: Option<string>): (b: bool)
    ensures !b <==> apiKey == None || apiKey == Some("") || apiKey == Some(PlaceholderKey)
  {
    apiKey.Some? && apiKey.value != [] && apiKey.value != PlaceholderKey
  }

  /** The image's `length` compares below 100.  A string image is too
      short when it has fewer than 100 characters; a number or boolean has
      no `length` and never is; an object is judged by its own `length`
      property: a number is compared with 100, and `null` and the booleans
      (0, 0 and 1) always are. */
  function TooShort(image: Value): (b: bool)
    requires !image.Nullish()
    ensures image.Str? ==> (b <==> |image.s| < 100)
    ensures image.Arr? ==> (b <==> |image.elems| < 100)
    ensures image.Bool? || image.Num? ==> !b
    ensures image.Obj? && "length" !in image.fields ==> !b
    ensures image.Obj? && "length" in image.fields && image.fields["length"].Null? ==> b
    ensures image.Obj? && "length" in image.fields && image.fields["length"].Bool? ==> b
    ensures image.Obj? && "length" in image.fields && image.fields["length"].Num? ==>
              (b <==> image.fields["length"].n < MinImageLength)
  {
    var len := image.Field("length").LooseNumber();
    len.Some? && len.value < MinImageLength
  }

  // ---------------------------------------------------------------------
  // Locating the JSON array in the model's text.

  function FirstIndexOf(s: string, c: char): (r: Option<nat>)
    ensures r.Some? ==> r.value < |s| && s[r.value] == c && c !in s[..r.value]
    ensures r == None ==> c !in s
  {
    if s == [] then None
    else if s[0] == c then Some(0)
    else
      match FirstIndexOf(s[1..], c)
      case None => None
      case Some(i) =>
        assert s[..i + 1] == [s[0]] + s[1..][..i];
        Some(i + 1)
  }

  function LastIndexOf(s: string, c: char): (r: Option<nat>)
    ensures r.Some? ==> r.value < |s| && s[r.value] == c && c !in s[r.value + 1..]
    ensures r == None ==> c !in s
  {
    if s == [] then None
    else if s[|s| - 1] == c then Some(|s| - 1)
    else
      var i := LastIndexOf(s[..|s| - 1], c);
      if i.Some? then
        assert s[i.value + 1..] == s[..|s| - 1][i.value + 1..] + [s[|s| - 1]];
        i
      else i
  }

  /** Some `[` is followed, later in the text, by a `]`. */
  predicate HasBracketPair(s: string)
  {
    exists i, j :: 0 <= i < j < |s| && s[i] == '[' && s[j] == ']'
  }

  /** The text the route parses out of the model's reply: the greedy
      match of a bracketed run, which goes from the first `[` to the last
      `]` after it (the leftmost start, then the longest run); with no
      match the whole text is kept. */
  function ExtractArray(s: string): (r: string)
    ensures !HasBracketPair(s) ==> r == s
    ensures HasBracketPair(s) ==>
              exists i, j :: 0 <= i < j < |s| && r == s[i..j + 1] && s[i] == '[' && s[j] == ']'
                             && '[' !in s[..i] && ']' !in s[j + 1..]
  {
    var first := FirstIndexOf(s, '[');
    var last := LastIndexOf(s, ']');
    if first.Some? && last.Some? && first.value < last.value then
      s[first.value..last.value + 1]
    else
      s
  }

  /** The extracted text is the longest bracketed slice starting at the
      leftmost possible `[`: it runs from the first `[` to the last `]`,
      and every other `[` … `]` pair lies inside it. */
  lemma ExtractArrayCoversEveryPair(s: string, i': nat, j': nat)
    requires i' < j' < |s| && s[i'] == '[' && s[j'] == ']'
    ensures FirstIndexOf(s, '[').Some? && LastIndexOf(s, ']').Some?
    ensures var i, j := FirstIndexOf(s, '[').value, LastIndexOf(s, ']').value;
            i <= i' && j' <= j && ExtractArray(s) == s[i..j + 1]
  {
  }

  // ---------------------------------------------------------------------
  // Validating the model's items.

  /** The route keeps an element when it is truthy, its `name` is a
      string and its `price` a number; of the values `JSON.parse` yields,
      only objects with those two own properties qualify. */
  function IsValidItem(v: Value): (b: bool)
    ensures b <==> && v.Obj?
                   && "name" in v.fields && v.fields["name"].Str?
                   && "price" in v.fields && v.fields["price"].Num?
  {
    v.Truthy() && v.Field("name").Str? && v.Field("price").Num?
  }

  /** The route's item filter: the valid elements, in order. */
  function ValidItems(elems: seq<Value>): (r: seq<Value>)
    ensures forall k :: 0 <= k < |r| ==> IsValidItem(r[k])
    ensures forall k :: 0 <= k < |elems| && IsValidItem(elems[k]) ==> elems[k] in r
    ensures IsSubsequence(r, elems)
  {
    Filter(IsValidItem, elems)
  }

  /** Every mock item passes the route's own validity filter. */
  lemma MockItemsValid()
    ensures ValidItems(MockItems) == MockItems
  {
  }

  /** The inner `try`: turn the message content into items, falling back to
      the mock list when the content is not a string, does not parse, is
      not an array, or holds no valid item. */
  function ParseContent(content: Value, parse: string -> Parsed): (r: Outcome)
    ensures r.Extracted? || r == Fallback(ParseFailedMessage, None, Some(content))
    ensures r.Extracted? <==>
              && content.Str?
              && parse(ExtractArray(content.s)).Parsed?
              && parse(ExtractArray(content.s)).value.Arr?
              && ValidItems(parse(ExtractArray(content.s)).value.elems) != []
    ensures r.Extracted? ==> r.items == ValidItems(parse(ExtractArray(content.s)).value.elems)
  {
    var giveUp := Fallback(ParseFailedMessage, None, Some(content));
    if !content.Str? then giveUp
    else
      match parse(ExtractArray(content.s))
      case SyntaxError(_) => giveUp
      case Parsed(items) =>
        if !items.Arr? then giveUp
        else
          var valid := ValidItems(items.elems);
          if valid == [] then giveUp else Extracted(valid)
  }

  /** The reply has a message: reading `choices`, its first element and
      that element's `message` gives a truthy value each time.  Only an
      object whose first choice is an object with a `message` passes, and
      a reply of the documented shape (a non-empty `choices` array whose
      first element carries a truthy `message`) always does. */
  function HasMessage(data: Value): (b: bool)
    ensures b ==> && data.Obj? && "choices" in data.fields
                  && !data.fields["choices"].Nullish()
                  && data.fields["choices"].First().Obj?
                  && "message" in data.fields["choices"].First().fields
    ensures (&& data.Obj? && "choices" in data.fields && data.fields["choices"].Arr?
             && data.fields["choices"].elems != []
             && data.fields["choices"].elems[0].Obj?
             && "message" in data.fields["choices"].elems[0].fields
             && data.fields["choices"].elems[0].fields["message"].Truthy()) ==> b
  {
    && !data.Nullish()
    && data.Field("choices").Truthy()
    && data.Field("choices").First().Truthy()
    && data.Field("choices").First().Field("message").Truthy()
  }

  /** The `content` of the first choice's message. */
  function Content(data: Value): Value
    requires HasMessage(data)
  {
    data.Field("choices").First().Field("message").Field("content")
  }

  /** After a successful reply: check that the first choice has a
      message, then read its `content`.  A `null` reply throws on the first read; any other
      reply without a message fails the structure check; both end in the
      catch-all handler with the mock list. */
  function Interpret(data: Value, parse: string -> Parsed): (r: Outcome)
    ensures data.Nullish() ==> r == Failure(TypeErrorReading("choices"))
    ensures !data.Nullish() && !HasMessage(data) ==> r == Failure(Literal(InvalidStructure))
    ensures HasMessage(data) ==> r == ParseContent(Content(data), parse)
  {
    if data.Nullish() then Failure(TypeErrorReading("choices"))
    else
      var choices := data.Field("choices");
      if !choices.Truthy() then Failure(Literal(InvalidStructure))
      else
        var first := choices.First();
        if !first.Truthy() then Failure(Literal(InvalidStructure))
        else
          var message := first.Field("message");
          if !message.Truthy() then Failure(Literal(InvalidStructure))
          else ParseContent(message.Field("content"), parse)
  }

  /** The upstream call and what follows it: a failed request or an
      unreadable body ends in the catch-all handler, a non-2xx status in
      the API-error response, and a 2xx reply is interpreted. */
  function CallUpstream(upstream: Upstream, parse: string -> Parsed): (r: Outcome)
    ensures upstream.NetworkError? ==> r == Failure(Literal(upstream.message))
    ensures upstream.Response? && 200 <= upstream.status <= 299 ==>
              match parse(upstream.body)
              case SyntaxError(m) => r == Failure(Literal(m))
              case Parsed(data) => r == Interpret(data, parse)
    ensures r.Extracted? ==> upstream.Response? && 200 <= upstream.status <= 299
    ensures !r.BadRequest? && |Items(r)| > 0
  {
    match upstream
    case NetworkError(m) => Failure(Literal(m))
    case Response(status, body) =>
      if !(200 <= status <= 299) then Fallback(ApiErrorMessage(status), Some(Literal(body)), None)
      else
        match parse(body)
        case SyntaxError(m) => Failure(Literal(m))
        case Parsed(data) => Interpret(data, parse)
  }

  /** The request carries no usable image: its body parses to a value that
      is not `null` and whose `base64Image` is falsy. */
  predicate ImageMissing(requestBody: string, parse: string -> Parsed)
  {
    && parse(requestBody).Parsed?
    && !parse(requestBody).value.Nullish()
    && !parse(requestBody).value.Field("base64Image").Truthy()
  }

  /** The request carries an image: its body parses to a value that is not
      `null` and whose `base64Image` is truthy. */
  predicate ImagePresent(requestBody: string, parse: string -> Parsed)
  {
    && parse(requestBody).Parsed?
    && !parse(requestBody).value.Nullish()
    && parse(requestBody).value.Field("base64Image").Truthy()
  }

  function Image(requestBody: string, parse: string -> Parsed): (image: Value)
    requires ImagePresent(requestBody, parse)
    ensures !image.Nullish()
  {
    parse(requestBody).value.Field("base64Image")
  }

  /** `POST`: the response for a request body, the configured key (`None`
      when the variable is unset), the upstream reply the route would get,
      and the JSON parser. */
  function Post(requestBody: string, apiKey: Option<string>, upstream: Upstream, parse: string -> Parsed): (r: Outcome)
    ensures r.BadRequest? <==> ImageMissing(requestBody, parse)
    ensures Status(r) == 400 <==> r.BadRequest?
    ensures r.BadRequest? ==> r.errorText == NoImageError
    ensures !r.BadRequest? ==> |Items(r)| > 0
    ensures parse(requestBody).SyntaxError? ==> r == Failure(Literal(parse(requestBody).message))
    ensures parse(requestBody).Parsed? && parse(requestBody).value.Nullish() ==>
              r == Failure(TypeErrorReading("base64Image"))
    ensures ImagePresent(requestBody, parse) && !KeyConfigured(apiKey) ==>
              r == Fallback(KeyMissingMessage, None, None)
    ensures ImagePresent(requestBody, parse) && KeyConfigured(apiKey) && TooShort(Image(requestBody, parse)) ==>
              r == Fallback(ShortImageMessage, None, None)
    ensures ImagePresent(requestBody, parse) && KeyConfigured(apiKey) && !TooShort(Image(requestBody, parse)) ==>
              r == CallUpstream(upstream, parse)
    ensures r.Extracted? ==>
              && ImagePresent(requestBody, parse) && KeyConfigured(apiKey)
              && upstream.Response? && 200 <= upstream.status <= 299
              && forall k :: 0 <= k < |r.items| ==> IsValidItem(r.items[k])
  {
    match parse(requestBody)
    case SyntaxError(m) => Failure(Literal(m))
    case Parsed(request) =>
      if request.Nullish() then Failure(TypeErrorReading("base64Image"))
      else
        var image := request.Field("base64Image");
        if !image.Truthy() then BadRequest(NoImageError)
        else if !KeyConfigured(apiKey) then Fallback(KeyMissingMessage, None, None)
        else if TooShort(image) then Fallback(ShortImageMessage, None, None)
        else CallUpstream(upstream, parse)
  }

  // ---------------------------------------------------------------------
  // Properties of the route.

  /** Without a configured key the response is the mock list whatever the
      image length and whatever the model would have answered: the key
      check comes first and no call is made. */
  lemma KeyCheckPrecedesCall(requestBody: string, apiKey: Option<string>, u1: Upstream, u2: Upstream, parse: string -> Parsed)
    requires ImagePresent(requestBody, parse) && !KeyConfigured(apiKey)
    ensures Post(requestBody, apiKey, u1, parse) == Post(requestBody, apiKey, u2, parse)
    ensures Items(Post(requestBody, apiKey, u1, parse)) == MockItems
  {
  }

  /** With a configured key but an image shorter than 100 characters the
      response is the mock list, independent of the model's reply. */
  lemma ShortImageSkipsCall(requestBody: string, apiKey: Option<string>, u1: Upstream, u2: Upstream, parse: string -> Parsed)
    requires ImagePresent(requestBody, parse) && KeyConfigured(apiKey) && TooShort(Image(requestBody, parse))
    ensures Post(requestBody, apiKey, u1, parse) == Post(requestBody, apiKey, u2, parse)
    ensures Items(Post(requestBody, apiKey, u1, parse)) == MockItems
  {
  }

  /** A non-2xx reply gives the mock list, a message naming the status
      code, and the reply's body as `error`. */
  lemma UpstreamErrorReported(status: nat, body: string, parse: string -> Parsed)
    requires !(200 <= status <= 299)
    ensures var r := CallUpstream(Response(status, body), parse);
            && r.Fallback? && Items(r) == MockItems && Status(r) == 200
            && Contains(r.message, Decimal(status))
            && r.error == Some(Literal(body))
  {
    var m := ApiErrorMessage(status);
    assert m[11..11 + |Decimal(status)|] == Decimal(status);
  }

  /** Extracted items are exactly the valid elements of the array parsed
      out of the model's text, in their original order. */
  lemma ExtractedItemsAreValidSubsequence(content: Value, parse: string -> Parsed)
    requires ParseContent(content, parse).Extracted?
    ensures var arr := parse(ExtractArray(content.s)).value.elems;
            var items := ParseContent(content, parse).items;
            && IsSubsequence(items, arr)
            && items == Filter(IsValidItem, arr)
            && |items| == Count(IsValidItem, arr)
  {
  }
}
