/**
 * The chat API route (app/api/chat/route.ts): it puts the wallet context in
 * front of the user's message, hands the result to the conversation chain and
 * answers with the chain's reply, or with a fixed error body and status 500.
 */
module ChatRoute {
  import opened Wrappers
  import opened JsText

  /** The JSON body the chat widget posts. `walletAddress` is absent when the
      widget has no address (JSON drops `undefined`). */
  datatype ChatRequest = ChatRequest(message: string, walletAddress: Option<string>, isConnected: bool)

  /** The JSON body the route answers with. `response` is whatever the chain
      returned under that key, which may be missing. */
  datatype ChatJson = Answer(response: Option<string>) | ErrorBody(error: string)

  datatype HttpReply = HttpReply(status: nat, body: ChatJson)

  /** What the conversation chain's `call` did with the context message. */
  datatype ChainResult = Replied(response: Option<string>) | Threw

  const ConnectedTag: string := "[Wallet Status: Connected] "
  const NotConnectedTag: string := "[Wallet Status: Not Connected] "
  const WalletTagOpen: string := "[Connected Wallet: "
  const WalletTagClose: string := "] "
  const InternalError: string := "Internal server error"

  function WalletTag(address: string): string {
    WalletTagOpen + address + WalletTagClose
  }

  function StatusTag(isConnected: bool): string {
    if isConnected then ConnectedTag else NotConnectedTag
  }

  /** `enhancedMessage`: the wallet tag goes first when the address is truthy. */
  function EnhancedMessage(message: string, walletAddress: Option<string>): string {
    if IsTruthy(walletAddress) then WalletTag(walletAddress.value) + message else message
  }

  /** `contextMessage`: the status tag goes in front of the enhanced message. */
  function ContextMessage(req: ChatRequest): string {
    StatusTag(req.isConnected) + EnhancedMessage(req.message, req.walletAddress)
  }

  /** The whole handler: a body that cannot be read, or a chain that throws,
      gives the error body with status 500; otherwise the chain's `response`
      is passed on unchanged with status 200. */
  function Post(body: Option<ChatRequest>, chain: string -> ChainResult): (reply: HttpReply)
    ensures reply.status == 200 <==> body.Some? && chain(ContextMessage(body.value)).Replied?
    ensures reply.status == 200 ==> reply.body == Answer(chain(ContextMessage(body.value)).response)
    ensures reply.status != 200 ==> reply == HttpReply(500, ErrorBody(InternalError))
  {
    match body
    case None => HttpReply(500, ErrorBody(InternalError))
    case Some(req) =>
      match chain(ContextMessage(req))
      case Replied(r) => HttpReply(200, Answer(r))
      case Threw => HttpReply(500, ErrorBody(InternalError))
  }

  /** The context message starts with the "Connected" tag exactly when the
      request says connected, and with the "Not Connected" tag exactly when it
      does not; so it starts with exactly one of them. */
  lemma StatusTagIff(req: ChatRequest)
    ensures StartsWith(ContextMessage(req), ConnectedTag) <==> req.isConnected
    ensures StartsWith(ContextMessage(req), NotConnectedTag) <==> !req.isConnected
  {
    var r := ContextMessage(req);
    assert ConnectedTag[16] == 'C' && NotConnectedTag[16] == 'N';
    if req.isConnected {
      assert r[..|ConnectedTag|] == ConnectedTag;
      assert r[16] == 'C';
    } else {
      assert r[..|NotConnectedTag|] == NotConnectedTag;
      assert r[16] == 'N';
    }
  }

  /** The layout of the context message: status tag, then the wallet tag when
      (and only when) the address is truthy, then the message itself, which is
      therefore always a suffix. The two tags are chosen independently. */
  lemma ContextLayout(req: ChatRequest)
    ensures IsTruthy(req.walletAddress) ==>
      ContextMessage(req) == StatusTag(req.isConnected) + WalletTag(req.walletAddress.value) + req.message
    ensures !IsTruthy(req.walletAddress) ==> ContextMessage(req) == StatusTag(req.isConnected) + req.message
    ensures |req.message| <= |ContextMessage(req)|
    ensures ContextMessage(req)[|ContextMessage(req)| - |req.message|..] == req.message
  {
    var r := ContextMessage(req);
    var e := EnhancedMessage(req.message, req.walletAddress);
    if IsTruthy(req.walletAddress) {
      assert r == StatusTag(req.isConnected) + WalletTag(req.walletAddress.value) + req.message;
    }
    assert r[|r| - |req.message|..] == req.message;
  }

  /** The context as the conversation chain sees it, read back: the connection
      flag, the wallet address if a wallet tag follows, and the message. */
  datatype Context = Context(isConnected: bool, walletAddress: Option<string>, message: string)

  /** The index of the first `c` in `s`, if any. */
  function IndexOf(s: string, c: char): (r: Option<nat>)
    ensures r.Some? ==> r.value < |s| && s[r.value] == c && c !in s[..r.value]
    ensures r.None? ==> c !in s
  {
    if s == [] then None
    else if s[0] == c then Some(0)
    else match IndexOf(s[1..], c)
      case None => None
      case Some(k) => assert s[..k + 1] == [s[0]] + s[1..][..k]; Some(k + 1)
  }

  /** Any position holding the first `c` is what `IndexOf` finds. */
  lemma {:induction false} IndexOfFirst(s: string, c: char, k: nat)
    requires k < |s| && s[k] == c
    requires forall j :: 0 <= j < k ==> s[j] != c
    ensures IndexOf(s, c) == Some(k)
  {
    if k > 0 {
      IndexOfFirst(s[1..], c, k - 1);
    }
  }

  /** Reading the wallet tag, if one starts the text. */
  function ParseWalletTag(s: string): (Option<string>, string) {
    if StartsWith(s, WalletTagOpen) then
      var rest := s[|WalletTagOpen|..];
      match IndexOf(rest, ']')
      case Some(k) =>
        if StartsWith(rest[k..], WalletTagClose) then (Some(rest[..k]), rest[k + |WalletTagClose|..])
        else (None, s)
      case None => (None, s)
    else (None, s)
  }

  /** Reading a context message back into its parts. */
  function ParseContext(s: string): Option<Context> {
    if StartsWith(s, ConnectedTag) then
      var (a, m) := ParseWalletTag(s[|ConnectedTag|..]);
      Some(Context(true, a, m))
    else if StartsWith(s, NotConnectedTag) then
      var (a, m) := ParseWalletTag(s[|NotConnectedTag|..]);
      Some(Context(false, a, m))
    else None
  }

  /** The address as the chain can tell it: present only when truthy. */
  function SeenAddress(a: Option<string>): Option<string> {
    if IsTruthy(a) then a else None
  }

  /** The context tags lose no information as long as an address holds no `]`,
      and a message sent without an address does not itself begin with a wallet
      tag. Without those conditions the chain cannot tell the parts apart. */
  lemma ContextRoundTrip(req: ChatRequest)
    requires IsTruthy(req.walletAddress) ==> ']' !in req.walletAddress.value
    requires !IsTruthy(req.walletAddress) ==> !StartsWith(req.message, WalletTagOpen)
    ensures ParseContext(ContextMessage(req)) == Some(Context(req.isConnected, SeenAddress(req.walletAddress), req.message))
  {
    StatusTagIff(req);
    var tag := StatusTag(req.isConnected);
    var e := EnhancedMessage(req.message, req.walletAddress);
    assert ContextMessage(req)[|tag|..] == e;
    if IsTruthy(req.walletAddress) {
      WalletTagRoundTrip(req.walletAddress.value, req.message);
    }
  }

  /** A wallet tag around an address without `]` reads back as that address
      and the text after it. */
  lemma WalletTagRoundTrip(a: string, message: string)
    requires ']' !in a
    ensures ParseWalletTag(WalletTag(a) + message) == (Some(a), message)
  {
    var e := WalletTag(a) + message;
    assert e[..|WalletTagOpen|] == WalletTagOpen;
    var rest := e[|WalletTagOpen|..];
    assert rest == a + WalletTagClose + message;
    assert rest[..|a|] == a;
    assert rest[|a|] == ']';
    IndexOfFirst(rest, ']', |a|);
    assert rest[|a|..][..|WalletTagClose|] == WalletTagClose;
    assert rest[|a| + |WalletTagClose|..] == message;
  }

  /** A wallet address with `isConnected` false still yields the wallet tag,
      after the "Not Connected" tag. */
  lemma TagsIndependent(message: string, address: string)
    requires address != ""
    ensures ContextMessage(ChatRequest(message, Some(address), false))
         == NotConnectedTag + WalletTag(address) + message
  {
  }
}
