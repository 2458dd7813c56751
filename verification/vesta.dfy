/**
 * The `Vesta` client class of lib/esm/vestaAPI.js: the request record each call hands to
 * the HTTP library (URL, method, authentication headers, body), the choice between a
 * text body and a `characters` body, and the two board builders.
 */
module VestaApi {
  import opened Wrappers
  import opened Grid
  import opened Encoder

  /** The constructor's argument; `config.api_key` and `config.api_secret` may be undefined. */
  datatype Config = Config(apiKey: Option<string>, apiSecret: Option<string>)

  datatype HttpMethod = Get | Post

  /** What a caller posts: a string, or an array of lines of codes. */
  datatype Message = Text(text: string) | Characters(rows: seq<seq<Code>>)

  /** The JSON body: `{text: ...}` or `{characters: ...}`. */
  datatype Body = TextBody(text: string) | CharactersBody(characters: seq<seq<Code>>)

  /** The `options` argument of `request`. */
  datatype RequestOptions = RequestOptions(verb: HttpMethod, data: Option<Body>)

  /** The configuration handed to the HTTP library: url, method, headers and data. */
  datatype HttpRequest = HttpRequest(
    url: string, verb: HttpMethod, headers: map<string, Option<string>>, data: Option<Body>)

  const PlatformUrl: string := "https://platform.vestaboard.com"
  const ApiKeyHeader: string := "X-Vestaboard-Api-Key"
  const ApiSecretHeader: string := "X-Vestaboard-Api-Secret"
  const SubscriptionsPath: string := "/subscriptions"
  const ViewerPath: string := "/viewer"
  const MessageSuffix: string := "/message"

  /** The request carries exactly the two credential headers, with these values. */
  predicate SignedWith(r: HttpRequest, key: Option<string>, secret: Option<string>) {
    && r.headers.Keys == {ApiKeyHeader, ApiSecretHeader}
    && r.headers[ApiKeyHeader] == key
    && r.headers[ApiSecretHeader] == secret
  }

  /** The endpoint of `postMessage`: `/subscriptions/${subscriptionId}/message`. */
  function MessageEndpoint(subscriptionId: string): string {
    SubscriptionsPath + "/" + subscriptionId + MessageSuffix
  }

  /** Reads the subscription id back out of a message endpoint, if it is one. */
  function SubscriptionOf(endpoint: string): Option<string> {
    var pre := SubscriptionsPath + "/";
    if |endpoint| >= |pre| + |MessageSuffix|
       && endpoint[..|pre|] == pre
       && endpoint[|endpoint| - |MessageSuffix|..] == MessageSuffix
    then Some(endpoint[|pre|..|endpoint| - |MessageSuffix|])
    else None
  }

  /** The message endpoint names its subscription, whatever characters the id holds. */
  lemma SubscriptionOfMessageEndpoint(subscriptionId: string)
    ensures SubscriptionOf(MessageEndpoint(subscriptionId)) == Some(subscriptionId)
  {
    var pre := SubscriptionsPath + "/";
    var e := MessageEndpoint(subscriptionId);
    assert e == pre + subscriptionId + MessageSuffix;
    assert e[..|pre|] == pre;
    assert e[|e| - |MessageSuffix|..] == MessageSuffix;
    assert e[|pre|..|e| - |MessageSuffix|] == subscriptionId;
  }

  /** The message a body carries: the inverse of the payload choice in `postMessage`. */
  function MessageOf(body: Body): Message {
    match body
    case TextBody(text) => Text(text)
    case CharactersBody(rows) => Characters(rows)
  }

  class Vesta {
    const apiKey: Option<string>
    const apiSecret: Option<string>
    const baseUrl: string

    /** Captures the credentials; the base URL is fixed. Nothing is checked or sent. */
    constructor (config: Config)
      ensures apiKey == config.apiKey && apiSecret == config.apiSecret
      ensures baseUrl == PlatformUrl
    {
      apiKey := config.apiKey;
      apiSecret := config.apiSecret;
      baseUrl := PlatformUrl;
    }

    /** The endpoint part of a URL under this client's base URL, if it is one. */
    function EndpointOf(url: string): Option<string> {
      if |baseUrl| <= |url| && url[..|baseUrl|] == baseUrl then Some(url[|baseUrl|..]) else None
    }

    /**
     * `request`: the request goes to the base URL followed by the endpoint, carries the
     * two credential headers taken from the constructor, and passes method and data on.
     */
    function Request(endpoint: string, options: RequestOptions): (r: HttpRequest)
      ensures EndpointOf(r.url) == Some(endpoint)
      ensures SignedWith(r, apiKey, apiSecret)
      ensures r.verb == options.verb && r.data == options.data
    {
      var url := baseUrl + endpoint;
      assert url[..|baseUrl|] == baseUrl && url[|baseUrl|..] == endpoint;
      var headers := map[ApiKeyHeader := apiKey, ApiSecretHeader := apiSecret];
      HttpRequest(url, options.verb, headers, options.data)
    }

    /** `getSubscriptions`: a GET of `/subscriptions` without a body. */
    function GetSubscriptions(): (r: HttpRequest)
      ensures EndpointOf(r.url) == Some(SubscriptionsPath)
      ensures r.verb == Get && r.data == None
      ensures SignedWith(r, apiKey, apiSecret)
    {
      Request(SubscriptionsPath, RequestOptions(Get, None))
    }

    /** `getViewer`: a GET of `/viewer` without a body. */
    function GetViewer(): (r: HttpRequest)
      ensures EndpointOf(r.url) == Some(ViewerPath)
      ensures r.verb == Get && r.data == None
      ensures SignedWith(r, apiKey, apiSecret)
    {
      Request(ViewerPath, RequestOptions(Get, None))
    }

    /**
     * `postMessage`: a POST to the subscription's message endpoint whose body is
     * `{characters: message}` exactly when the message is an array, `{text: message}`
     * otherwise; the body always gives the message back.
     */
    function PostMessage(subscriptionId: string, message: Message): (r: HttpRequest)
      ensures EndpointOf(r.url).Some? && SubscriptionOf(EndpointOf(r.url).value) == Some(subscriptionId)
      ensures r.verb == Post
      ensures r.data.Some? && MessageOf(r.data.value) == message
      ensures r.data.Some? && (r.data.value.CharactersBody? <==> message.Characters?)
      ensures SignedWith(r, apiKey, apiSecret)
    {
      SubscriptionOfMessageEndpoint(subscriptionId);
      var data := match message
        case Characters(rows) => CharactersBody(rows)
        case Text(text) => TextBody(text);
      Request(MessageEndpoint(subscriptionId), RequestOptions(Post, Some(data)))
    }

    /**
     * `characterArrayFromString`: the board for s. Cell (row, col) is flat element
     * 22 * row + col of the encoder's output when that element exists and is truthy, and
     * blank otherwise, so output beyond 132 cells is dropped and short output is padded.
     */
    method CharacterArrayFromString(t: CharTable, s: string) returns (board: seq<seq<int>>)
      ensures IsBoard(board)
      ensures forall r, c :: 0 <= r < Rows && 0 <= c < LineLength ==>
        board[r][c] == OrZero(At(Encoding(t, s), r * LineLength + c))
    {
      var charBoard := MakeBoard(t, s);
      board := Reshape(charBoard);
      forall r, c | 0 <= r < Rows && 0 <= c < LineLength
        ensures board[r][c] == OrZero(At(charBoard, r * LineLength + c))
      {
        assert r * LineLength + c == c + r * 22;
      }
    }

    /**
     * `clearBoardTo`: posts to the subscription a full 6 x 22 board every cell of which
     * is the code of `symbol` (`char` in the source).
     */
    function ClearBoardTo(t: CharTable, symbol: string, subscriptionId: string): (r: HttpRequest)
      ensures r.verb == Post
      ensures EndpointOf(r.url).Some? && SubscriptionOf(EndpointOf(r.url).value) == Some(subscriptionId)
      ensures r.data.Some? && r.data.value.CharactersBody?
      ensures SignedWith(r, apiKey, apiSecret)
      ensures var b := r.data.value.characters;
        IsBoard(b) && forall row, col :: 0 <= row < Rows && 0 <= col < LineLength ==> b[row][col] == t.Lookup(symbol)
    {
      var clearBoard := seq(|EmptyBoard|, row requires 0 <= row < |EmptyBoard| =>
        seq(|EmptyBoard[row]|, _ => t.Lookup(symbol)));
      PostMessage(subscriptionId, Characters(clearBoard))
    }
  }
}
