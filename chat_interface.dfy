/**
 * The chat widget (app/components/ChatInterface.tsx).
 *
 * An assistant reply may carry an action marker `<function>NAME</function>`.
 * The widget finds the first marker the way the regular expression
 * `/<function>(.*?)<\/function>/` does, shows the reply with that marker cut
 * out and trimmed, and then runs the named action. The transcript only ever
 * grows; a submission is refused while one is outstanding or when the input
 * is blank; any failure becomes one fixed apology; the loading flag is always
 * cleared at the end.
 */
module ChatInterface {
  import opened Wrappers
  import opened JsText
  import opened ChatRoute

  // ---------------------------------------------------------------------------
  // The action marker

  const OpenTag: string := "<function>"
  const CloseTag: string := "</function>"

  predicate OpensAt(s: string, i: nat) {
    i + |OpenTag| <= |s| && s[i..i + |OpenTag|] == OpenTag
  }

  predicate ClosesAt(s: string, j: nat) {
    j + |CloseTag| <= |s| && s[j..j + |CloseTag|] == CloseTag
  }

  /** `.` never matches a line terminator, so the name must be free of them. */
  predicate LineFree(s: string, from: nat, to: nat) {
    from <= to <= |s| && forall m :: from <= m < to ==> !IsLineTerminator(s[m])
  }

  /** The regular expression matches `s[i..j + |CloseTag|]`, with `s[i + |OpenTag|..j]`
      as its capture. */
  predicate MatchesAt(s: string, i: nat, j: nat) {
    i + |OpenTag| <= j && OpensAt(s, i) && ClosesAt(s, j) && LineFree(s, i + |OpenTag|, j)
  }

  /** A match: `open` is where `<function>` starts, `close` where `</function>` starts. */
  datatype Span = Span(open: nat, close: nat)

  /** The lazy `.*?` followed by `</function>`: the first closing tag at or after
      `k` that no line terminator separates from `k`. */
  function CloseFrom(s: string, k: nat): (r: Option<nat>)
    decreases |s| - k
    ensures r.Some? ==> k <= r.value && ClosesAt(s, r.value) && LineFree(s, k, r.value)
    ensures r.Some? ==> forall j :: k <= j < r.value ==> !ClosesAt(s, j)
    ensures r.None? ==> forall j: nat :: ClosesAt(s, j) ==> !LineFree(s, k, j)
  {
    if ClosesAt(s, k) then Some(k)
    else if k >= |s| || IsLineTerminator(s[k]) then None
    else CloseFrom(s, k + 1)
  }

  /** The regular-expression search: try each start position from `i` on. */
  function FindFrom(s: string, i: nat): (r: Option<Span>)
    decreases |s| - i
    ensures r.Some? ==> i <= r.value.open && MatchesAt(s, r.value.open, r.value.close)
    ensures r.Some? ==> forall j: nat :: MatchesAt(s, r.value.open, j) ==> r.value.close <= j
    ensures r.Some? ==> forall i', j: nat :: i <= i' < r.value.open ==> !MatchesAt(s, i', j)
    ensures r.None? ==> forall i', j: nat :: i <= i' ==> !MatchesAt(s, i', j)
  {
    if i + |OpenTag| > |s| then None
    else if OpensAt(s, i) && CloseFrom(s, i + |OpenTag|).Some? then Some(Span(i, CloseFrom(s, i + |OpenTag|).value))
    else FindFrom(s, i + 1)
  }

  /** `reply.match(/<function>(.*?)<\/function>/)`: the match that starts
      leftmost and, among those, ends first; none when no `<function>` is followed
      on the same line by a `</function>`. */
  function FindMarker(s: string): (r: Option<Span>)
    ensures r.None? <==> forall i, j: nat :: !MatchesAt(s, i, j)
    ensures r.Some? ==> MatchesAt(s, r.value.open, r.value.close)
    ensures r.Some? ==> forall i, j: nat :: MatchesAt(s, i, j) ==> r.value.open <= i
    ensures r.Some? ==> forall j: nat :: MatchesAt(s, r.value.open, j) ==> r.value.close <= j
  {
    FindFrom(s, 0)
  }

  /** `functionMatch[1]`: the capture, possibly empty. */
  function ActionName(s: string, m: Span): string
    requires MatchesAt(s, m.open, m.close)
  {
    s[m.open + |OpenTag|..m.close]
  }

  /** `reply.replace(/<function>.*?<\/function>/, '')`: only the first match is
      removed, since the expression has no `g` flag. */
  function StripMarker(s: string, m: Span): string
    requires MatchesAt(s, m.open, m.close)
  {
    s[..m.open] + s[m.close + |CloseTag|..]
  }

  /** A reply with a marker is the text before it, the marker around the
      action name, and the text after it; the cleaned text is the trimmed
      concatenation of the outer parts, so any later marker is kept. */
  lemma MarkerDecomposition(s: string)
    requires FindMarker(s).Some?
    ensures var m := FindMarker(s).value;
      s == s[..m.open] + OpenTag + ActionName(s, m) + CloseTag + s[m.close + |CloseTag|..]
      && StripMarker(s, m) == s[..m.open] + s[m.close + |CloseTag|..]
      && |StripMarker(s, m)| == |s| - |OpenTag| - |ActionName(s, m)| - |CloseTag|
  {
    var m := FindMarker(s).value;
    MatchParts(s, m);
  }

  lemma MatchParts(s: string, m: Span)
    requires MatchesAt(s, m.open, m.close)
    ensures s == s[..m.open] + OpenTag + ActionName(s, m) + CloseTag + s[m.close + |CloseTag|..]
  {
    var i, j, k, l := m.open, m.open + |OpenTag|, m.close, m.close + |CloseTag|;
    FiveParts(s, i, j, k, l);
  }

  /** Cutting a sequence at four points and gluing the pieces gives it back. */
  lemma FiveParts(s: string, i: nat, j: nat, k: nat, l: nat)
    requires i <= j <= k <= l <= |s|
    ensures s == s[..i] + s[i..j] + s[j..k] + s[k..l] + s[l..]
  {
    assert s[..j] == s[..i] + s[i..j];
    assert s[..k] == s[..j] + s[j..k];
    assert s[..l] == s[..k] + s[k..l];
    assert s == s[..l] + s[l..];
  }

  /** The pieces of `a + (b + c + d) + e`, read back by position. */
  lemma Pieces(a: string, b: string, c: string, d: string, e: string)
    ensures var s := a + (b + c + d) + e;
      var i, j, k, l := |a|, |a| + |b|, |a| + |b| + |c|, |a| + |b| + |c| + |d|;
      && s[..i] == a && s[i..j] == b && s[j..k] == c && s[k..l] == d && s[l..] == e
      && forall p :: j <= p < k ==> s[p] == c[p - j]
  {
    var s := a + (b + c + d) + e;
    assert s == a + b + c + d + e;
  }

  /** `<` begins each tag and occurs nowhere else in it, so no tag can start
      inside another occurrence of itself. */
  lemma TagsHaveNoBorder()
    ensures forall k :: 1 <= k < |OpenTag| ==> OpenTag[k] != '<'
    ensures forall k :: 1 <= k < |CloseTag| ==> CloseTag[k] != '<'
  {
  }

  /** Text without a `<` holds neither tag. */
  lemma NoTagWithoutAngle(s: string)
    requires '<' !in s
    ensures forall p: nat :: !OpensAt(s, p) && !ClosesAt(s, p)
  {
    forall p: nat ensures !OpensAt(s, p) && !ClosesAt(s, p) {
      if p < |s| {
        assert s[p] != '<';
      }
      if p + |OpenTag| <= |s| {
        assert s[p..p + |OpenTag|][0] == s[p];
      }
      if p + |CloseTag| <= |s| {
        assert s[p..p + |CloseTag|][0] == s[p];
      }
    }
  }

  /** The marker as the assistant backend writes it. */
  function Marker(name: string): string {
    OpenTag + name + CloseTag
  }

  /** Encoding and decoding agree: a reply built as `before + <function>name</function> + after`
      yields exactly that name and that cleaned text, provided `before` holds no
      `<function>` and `name` holds neither a line terminator nor a `</function>`. */
  lemma {:induction false} MarkerRoundTrip(before: string, name: string, after: string)
    requires forall p: nat :: !OpensAt(before, p)
    requires forall p: nat :: !ClosesAt(name, p)
    requires forall k :: 0 <= k < |name| ==> !IsLineTerminator(name[k])
    ensures var s := before + Marker(name) + after;
      FindMarker(s) == Some(Span(|before|, |before| + |OpenTag| + |name|))
      && ActionName(s, FindMarker(s).value) == name
      && StripMarker(s, FindMarker(s).value) == before + after
  {
    var s := before + Marker(name) + after;
    var o := |before|;
    var c := o + |OpenTag| + |name|;
    NoMatchInBefore(before, name, after);
    MarkerMatches(before, name, after);
    FirstMatch(s, o, c);
    Pieces(before, OpenTag, name, CloseTag, after);
  }

  /** A match with no match starting before it and no closing tag inside it
      is the one the search finds. */
  lemma FirstMatch(s: string, o: nat, c: nat)
    requires MatchesAt(s, o, c)
    requires forall i: nat, j: nat :: i < o ==> !MatchesAt(s, i, j)
    requires forall j: nat :: o + |OpenTag| <= j < c ==> !ClosesAt(s, j)
    ensures FindMarker(s) == Some(Span(o, c))
  {
    var m := FindMarker(s).value;
    assert m.open == o;
    assert m.close == c;
  }

  /** No match of the expression starts inside `before`. */
  lemma NoMatchInBefore(before: string, name: string, after: string)
    requires forall p: nat :: !OpensAt(before, p)
    ensures var s := before + Marker(name) + after;
      forall i: nat, j: nat :: i < |before| ==> !MatchesAt(s, i, j)
  {
    TagsHaveNoBorder();
    var s := before + Marker(name) + after;
    var o := |before|;
    assert s[o] == '<';
    forall i: nat, j: nat | i < o ensures !MatchesAt(s, i, j) {
      if i + |OpenTag| <= o {
        assert s[i..i + |OpenTag|] == before[i..i + |OpenTag|];
        assert !OpensAt(before, i);
      } else if i + |OpenTag| <= |s| {
        assert s[i..i + |OpenTag|][o - i] == s[o];
      }
    }
  }

  /** The marker itself matches, and no closing tag starts inside its name. */
  lemma MarkerMatches(before: string, name: string, after: string)
    requires forall p: nat :: !ClosesAt(name, p)
    requires forall k :: 0 <= k < |name| ==> !IsLineTerminator(name[k])
    ensures var s := before + Marker(name) + after;
      var o := |before|;
      var c := o + |OpenTag| + |name|;
      && MatchesAt(s, o, c)
      && forall j: nat :: o + |OpenTag| <= j < c ==> !ClosesAt(s, j)
  {
    TagsHaveNoBorder();
    var s := before + Marker(name) + after;
    var o := |before|;
    var n := o + |OpenTag|;
    var c := n + |name|;
    Pieces(before, OpenTag, name, CloseTag, after);
    assert s[c] == s[c..c + |CloseTag|][0];
    forall j: nat | n <= j < c ensures !ClosesAt(s, j) {
      if j + |CloseTag| <= c {
        assert s[j..j + |CloseTag|] == s[n..c][j - n..j - n + |CloseTag|];
        assert !ClosesAt(name, j - n);
      } else if j + |CloseTag| <= |s| {
        assert s[j..j + |CloseTag|][c - j] == s[c];
      }
    }
  }

  // ---------------------------------------------------------------------------
  // Transcript entries and the effects of one reply

  datatype Role = User | Assistant | System
  datatype Message = Message(role: Role, content: string)

  /** What the widget does, in order: append a message, or call `connect`. */
  datatype Effect = Append(message: Message) | Connect

  const ConnectWalletAction: string := "connect_wallet"
  const ConnectFailedText: string := "Failed to connect wallet. Please try again."
  const RequestFailedText: string := "Sorry, there was an error processing your request."
  const WalletCreatedPrefix: string := "WALLET_CREATED:"
  const WalletCreatedBanner: string := "Your Base Smart Wallet has been created! Address: "

  /** The messages a run of effects appends, in order. */
  function Appended(effects: seq<Effect>): seq<Message> {
    if effects == [] then []
    else (if effects[0].Append? then [effects[0].message] else []) + Appended(effects[1..])
  }

  /** How many times a run of effects calls `connect`. */
  function Connects(effects: seq<Effect>): nat {
    if effects == [] then 0 else (if effects[0].Connect? then 1 else 0) + Connects(effects[1..])
  }

  lemma {:induction false} AppendedConcat(a: seq<Effect>, b: seq<Effect>)
    ensures Appended(a + b) == Appended(a) + Appended(b)
  {
    if a != [] {
      assert (a + b)[1..] == a[1..] + b;
      AppendedConcat(a[1..], b);
    } else {
      assert a + b == b;
    }
  }

  /** `handleFunctionCall` with `handleWalletConnection`: only `connect_wallet`
      does anything; it calls `connect` once, and a throwing `connect` is
      reported by one system message. */
  function DispatchEffects(name: string, connectThrows: bool): seq<Effect> {
    if name == ConnectWalletAction then
      [Connect] + (if connectThrows then [Append(Message(System, ConnectFailedText))] else [])
    else []
  }

  /** A reply split into what is shown and what is run: no marker, or the
      first marker's name with the cleaned text. */
  datatype ParsedReply = Plain | Marked(name: string, clean: string)

  function ParseReply(text: string): ParsedReply {
    match FindMarker(text)
    case None => Plain
    case Some(m) => Marked(ActionName(text, m), Trim(StripMarker(text, m)))
  }

  /** The effects of a reply with a marker: the cleaned text, then the action. */
  function MarkedEffects(name: string, clean: string, connectThrows: bool): seq<Effect> {
    ShownEffects(clean) + DispatchEffects(name, connectThrows)
  }

  /** The effects of a reply that arrived with `text` as its `response`. */
  function AnswerEffects(text: string, connectThrows: bool): seq<Effect> {
    match ParseReply(text)
    case Plain => [Append(Message(Assistant, text))]
    case Marked(name, clean) => MarkedEffects(name, clean, connectThrows)
  }

  /** The effects of the part of `handleSubmit` after the request: `data` is
      the parsed body, or None when `fetch` or `json()` threw. A body with
      `error`, or without a `response` string, ends in the apology. */
  function ReplyEffects(data: Option<ChatJson>, connectThrows: bool): seq<Effect> {
    match data
    case Some(Answer(Some(text))) => AnswerEffects(text, connectThrows)
    case _ => [Append(Message(Assistant, RequestFailedText))]
  }

  /** With no marker the reply is appended verbatim, untrimmed, as the only effect. */
  lemma NoMarkerVerbatim(text: string, connectThrows: bool)
    requires forall i, j: nat :: !MatchesAt(text, i, j)
    ensures ReplyEffects(Some(Answer(Some(text))), connectThrows) == [Append(Message(Assistant, text))]
  {
  }

  /** Every failure gives exactly one effect: the apology. */
  lemma FailureIsOneApology(data: Option<ChatJson>, connectThrows: bool)
    requires !(data.Some? && data.value.Answer? && data.value.response.Some?)
    ensures ReplyEffects(data, connectThrows) == [Append(Message(Assistant, RequestFailedText))]
  {
  }

  /** The dispatcher calls `connect` once for `connect_wallet` and appends at
      most the one failure notice; for any other name it does nothing. */
  lemma DispatchShape(name: string, connectThrows: bool)
    ensures Connects(DispatchEffects(name, connectThrows)) == if name == ConnectWalletAction then 1 else 0
    ensures Appended(DispatchEffects(name, connectThrows))
         == if name == ConnectWalletAction && connectThrows then [Message(System, ConnectFailedText)] else []
  {
    var d := DispatchEffects(name, connectThrows);
    if name == ConnectWalletAction {
      var tail: seq<Effect> := if connectThrows then [Append(Message(System, ConnectFailedText))] else [];
      assert d == [Connect] + tail;
      assert d[1..] == tail;
      if connectThrows {
        assert tail[1..] == [];
        assert Connects(tail) == 0 + Connects([]);
        assert Appended(tail) == [Message(System, ConnectFailedText)] + Appended([]);
      }
      assert Connects(d) == 1 + Connects(tail);
      assert Appended(d) == [] + Appended(tail);
    }
  }

  /** The cleaned text a marker reply shows, as the list of effects it contributes. */
  function ShownEffects(clean: string): (e: seq<Effect>) {
    if clean != "" then [Append(Message(Assistant, clean))] else []
  }

  lemma ShownShape(clean: string)
    ensures Connects(ShownEffects(clean)) == 0
    ensures Appended(ShownEffects(clean)) == if clean != "" then [Message(Assistant, clean)] else []
  {
    var e := ShownEffects(clean);
    if clean != "" {
      assert e[1..] == [];
    }
  }

  lemma {:induction false} ConnectsConcat(a: seq<Effect>, b: seq<Effect>)
    ensures Connects(a + b) == Connects(a) + Connects(b)
  {
    if a != [] {
      assert (a + b)[1..] == a[1..] + b;
      ConnectsConcat(a[1..], b);
    } else {
      assert a + b == b;
    }
  }

  /** For a marked reply, `connect` runs once exactly for `connect_wallet`;
      any other name adds nothing beyond the cleaned text. */
  lemma MarkedShape(name: string, clean: string, connectThrows: bool)
    ensures Connects(MarkedEffects(name, clean, connectThrows)) == (if name == ConnectWalletAction then 1 else 0)
    ensures name != ConnectWalletAction ==>
      Appended(MarkedEffects(name, clean, connectThrows)) == if clean != "" then [Message(Assistant, clean)] else []
  {
    var d := DispatchEffects(name, connectThrows);
    ConnectsConcat(ShownEffects(clean), d);
    AppendedConcat(ShownEffects(clean), d);
    ShownShape(clean);
    DispatchShape(name, connectThrows);
  }

  /** A reply built around one marker parses to that marker's name and the
      trimmed text around it. */
  lemma ParseBuiltReply(before: string, name: string, after: string)
    requires forall p: nat :: !OpensAt(before, p)
    requires forall p: nat :: !ClosesAt(name, p)
    requires forall k :: 0 <= k < |name| ==> !IsLineTerminator(name[k])
    ensures ParseReply(before + Marker(name) + after) == Marked(name, Trim(before + after))
  {
    MarkerRoundTrip(before, name, after);
  }

  /** In a marked reply's effects the cleaned assistant text precedes the
      `connect` call, which precedes its failure notice, and no assistant
      message is empty. */
  lemma MarkedOrder(name: string, clean: string, connectThrows: bool)
    ensures var e := MarkedEffects(name, clean, connectThrows);
      forall i, j :: 0 <= i < |e| && 0 <= j < |e| && e[i].Append? && e[i].message.role == Assistant && e[j].Connect? ==> i < j
    ensures var e := MarkedEffects(name, clean, connectThrows);
      forall i, j :: 0 <= i < |e| && 0 <= j < |e| && e[i].Connect? && e[j].Append? && e[j].message.role == System ==> i < j
    ensures var e := MarkedEffects(name, clean, connectThrows);
      forall i :: 0 <= i < |e| && e[i].Append? && e[i].message.role == Assistant ==> e[i].message.content != ""
  {
    var shown := ShownEffects(clean);
    var d := DispatchEffects(name, connectThrows);
    var e := MarkedEffects(name, clean, connectThrows);
    assert |shown| <= 1 && forall i :: 0 <= i < |shown| ==> shown[i] == Append(Message(Assistant, clean)) && clean != "";
    assert forall j :: 0 <= j < |d| ==> d[j].Connect? || d[j].message.role == System;
    assert forall j :: 0 <= j < |d| && d[j].Connect? ==> j == 0;
    assert forall j :: |shown| <= j < |e| ==> e[j] == d[j - |shown|];
  }

  /** A reply with a marker is handled by its name and its cleaned text. */
  lemma MarkedReply(text: string, connectThrows: bool)
    requires FindMarker(text).Some?
    ensures var m := FindMarker(text).value;
      AnswerEffects(text, connectThrows) == MarkedEffects(ActionName(text, m), Trim(StripMarker(text, m)), connectThrows)
  {
  }

  /** `connect` is called exactly once when the first marker names
      `connect_wallet` and never otherwise; an unknown or empty name appends
      nothing beyond the cleaned text. */
  lemma ConnectIffConnectWallet(text: string, connectThrows: bool)
    requires FindMarker(text).Some?
    ensures var m := FindMarker(text).value;
      var clean := Trim(StripMarker(text, m));
      && Connects(AnswerEffects(text, connectThrows)) == (if ActionName(text, m) == ConnectWalletAction then 1 else 0)
      && (ActionName(text, m) != ConnectWalletAction ==>
           Appended(AnswerEffects(text, connectThrows)) == if clean != "" then [Message(Assistant, clean)] else [])
  {
    var m := FindMarker(text).value;
    MarkedReply(text, connectThrows);
    MarkedShape(ActionName(text, m), Trim(StripMarker(text, m)), connectThrows);
  }

  /** The cleaned assistant text, if any, comes before the action, and the
      action's own system message comes after it. */
  lemma TextBeforeAction(text: string, connectThrows: bool)
    requires FindMarker(text).Some?
    ensures var e := AnswerEffects(text, connectThrows);
      forall i, j :: 0 <= i < |e| && 0 <= j < |e| && e[i].Append? && e[i].message.role == Assistant && e[j].Connect? ==> i < j
    ensures var e := AnswerEffects(text, connectThrows);
      forall i, j :: 0 <= i < |e| && 0 <= j < |e| && e[i].Connect? && e[j].Append? && e[j].message.role == System ==> i < j
  {
    var m := FindMarker(text).value;
    MarkedReply(text, connectThrows);
    MarkedOrder(ActionName(text, m), Trim(StripMarker(text, m)), connectThrows);
  }

  /** A reply with a marker never produces an empty assistant bubble. */
  lemma NoEmptyBubbleFromMarker(text: string, connectThrows: bool)
    requires FindMarker(text).Some?
    ensures var e := AnswerEffects(text, connectThrows);
      forall i :: 0 <= i < |e| && e[i].Append? && e[i].message.role == Assistant ==> e[i].message.content != ""
  {
    var m := FindMarker(text).value;
    MarkedReply(text, connectThrows);
    MarkedOrder(ActionName(text, m), Trim(StripMarker(text, m)), connectThrows);
  }

  // ---------------------------------------------------------------------------
  // Rendering rule for wallet messages

  function WalletCreatedContent(address: string): string {
    WalletCreatedPrefix + address
  }

  /** What the bubble shows: a `WALLET_CREATED:` message is shown as the banner
      followed by the second `:`-separated field; anything else verbatim. The
      rule looks at the content only, whatever the role. */
  function Display(content: string): string {
    if StartsWith(content, WalletCreatedPrefix) then
      var fields := Split(content, ':');
      WalletCreatedBanner + (if |fields| > 1 then fields[1] else "undefined")
    else content
  }

  /** The banner shows the address that the wallet effect stored, when the
      address has no `:`; an address with a `:` is cut at its first `:`. */
  lemma DisplayWalletCreated(address: string)
    ensures ':' !in address ==> Display(WalletCreatedContent(address)) == WalletCreatedBanner + address
    ensures Display(WalletCreatedContent(address)) == WalletCreatedBanner + Split(address, ':')[0]
  {
    var c := WalletCreatedContent(address);
    assert c[..|WalletCreatedPrefix|] == WalletCreatedPrefix;
    CreatedFields(address);
    if ':' !in address { SplitWhole(address, ':'); }
  }

  /** The stored content splits into `WALLET_CREATED` and the address's own fields. */
  lemma CreatedFields(address: string)
    ensures Split(WalletCreatedContent(address), ':') == ["WALLET_CREATED"] + Split(address, ':')
  {
    var name := "WALLET_CREATED";
    assert ':' !in name;
    assert WalletCreatedContent(address) == name + [':'] + address;
    SplitAfter(name, ':', address);
  }

  /** Content that does not start with the prefix is shown unchanged. */
  lemma DisplayOther(content: string)
    requires !StartsWith(content, WalletCreatedPrefix)
    ensures Display(content) == content
  {
  }

  /** The wallet-connected effect: a system message when connected with a truthy address. */
  function WalletEffects(isConnected: bool, address: Option<string>): seq<Effect> {
    if isConnected && IsTruthy(address) then [Append(Message(System, WalletCreatedContent(address.value)))] else []
  }

  // ---------------------------------------------------------------------------
  // The widget's state

  class ChatSession {
    var messages: seq<Message>
    var input: string
    var isLoading: bool
    /** The account as `useAccount` last reported it. */
    var isConnected: bool
    var address: Option<string>
    /** Everything the widget has done, in order; `connect` leaves only this trace. */
    ghost var log: seq<Effect>

    ghost predicate Valid()
      reads this
    {
      messages == Appended(log)
    }

    /** Mounting: empty transcript and input, not loading, and the
        wallet-connected effect runs once for the initial account. */
    constructor (isConnected: bool, address: Option<string>)
      ensures Valid()
      ensures input == "" && !isLoading
      ensures this.isConnected == isConnected && this.address == address
      ensures log == WalletEffects(isConnected, address)
    {
      this.isConnected := isConnected;
      this.address := address;
      input := "";
      isLoading := false;
      messages := Appended(WalletEffects(isConnected, address));
      log := WalletEffects(isConnected, address);
    }

    /** Typing: the field is disabled while a request is outstanding, so no
        change event reaches it then. */
    method EditInput(value: string)
      modifies this
      ensures input == (if old(isLoading) then old(input) else value)
      ensures messages == old(messages) && log == old(log) && isLoading == old(isLoading)
      ensures isConnected == old(isConnected) && address == old(address)
    {
      if !isLoading {
        input := value;
      }
    }

    /** `useAccount` reporting an account: the effect that depends on
        `[isConnected, address]` runs when either changed. */
    method AccountChanged(isConnected: bool, address: Option<string>)
      requires Valid()
      modifies this
      ensures Valid()
      ensures this.isConnected == isConnected && this.address == address
      ensures log == old(log) + (if (isConnected, address) != (old(this.isConnected), old(this.address))
                                 then WalletEffects(isConnected, address) else [])
      ensures messages == old(messages) + (if (isConnected, address) != (old(this.isConnected), old(this.address))
                                           then Appended(WalletEffects(isConnected, address)) else [])
      ensures input == old(input) && isLoading == old(isLoading)
    {
      if (isConnected, address) != (this.isConnected, this.address) {
        var e := WalletEffects(isConnected, address);
        AppendedConcat(log, e);
        this.isConnected, this.address := isConnected, address;
        messages, log := messages + Appended(e), log + e;
      }
    }

    /** The part of `handleSubmit` before the request is sent. A blank input or
        an outstanding request changes nothing; otherwise the trimmed input is
        appended as the user's message, the input is cleared, the widget starts
        loading, and the returned request carries the message and the account. */
    method Submit() returns (request: Option<ChatRequest>)
      requires Valid()
      modifies this
      ensures Valid()
      ensures request.None? <==> Trim(old(input)) == "" || old(isLoading)
      ensures request.None? ==>
        messages == old(messages) && log == old(log) && input == old(input) && isLoading == old(isLoading)
      ensures request.Some? ==>
        && request.value == ChatRequest(Trim(old(input)), address, isConnected)
        && log == old(log) + [Append(Message(User, Trim(old(input))))]
        && messages == old(messages) + [Message(User, Trim(old(input)))]
        && input == "" && isLoading
      ensures isConnected == old(isConnected) && address == old(address)
    {
      var userMessage := Trim(input);
      if userMessage == "" || isLoading {
        return None;
      }
      input := "";
      var e := [Append(Message(User, userMessage))];
      AppendedConcat(log, e);
      messages := messages + [Message(User, userMessage)];
      log := log + e;
      isLoading := true;
      request := Some(ChatRequest(userMessage, address, isConnected));
    }

    /** Appending one message, recorded in the log. */
    method Say(m: Message)
      requires Valid()
      modifies this
      ensures Valid()
      ensures log == old(log) + [Append(m)] && messages == old(messages) + [m]
      ensures input == old(input) && isLoading == old(isLoading)
      ensures isConnected == old(isConnected) && address == old(address)
    {
      AppendedConcat(log, [Append(m)]);
      messages := messages + [m];
      log := log + [Append(m)];
    }

    /** `handleFunctionCall`: `connect_wallet` calls `connect`, whose throwing
        is caught and reported; any other name only logs a warning. */
    method HandleFunctionCall(name: string, connectThrows: bool)
      requires Valid()
      modifies this
      ensures Valid()
      ensures log == old(log) + DispatchEffects(name, connectThrows)
      ensures input == old(input) && isLoading == old(isLoading)
      ensures isConnected == old(isConnected) && address == old(address)
    {
      if name == ConnectWalletAction {
        AppendedConcat(log, [Connect]);
        log := log + [Connect];
        if connectThrows {
          Say(Message(System, ConnectFailedText));
        }
      }
    }

    /** The branch of a reply with a marker: the cleaned text when it is not
        blank, then the action. */
    method HandleMarked(name: string, clean: string, connectThrows: bool)
      requires Valid()
      modifies this
      ensures Valid()
      ensures log == old(log) + MarkedEffects(name, clean, connectThrows)
      ensures input == old(input) && isLoading == old(isLoading)
      ensures isConnected == old(isConnected) && address == old(address)
    {
      ghost var before := log;
      if clean != "" {
        Say(Message(Assistant, clean));
      }
      assert log == before + ShownEffects(clean);
      HandleFunctionCall(name, connectThrows);
    }

    /** A reply whose `response` is `text`: with a marker, the cleaned text
        (when not blank) and then the action; without one, the text as it is. */
    method HandleAnswer(text: string, connectThrows: bool)
      requires Valid()
      modifies this
      ensures Valid()
      ensures log == old(log) + AnswerEffects(text, connectThrows)
      ensures input == old(input) && isLoading == old(isLoading)
      ensures isConnected == old(isConnected) && address == old(address)
    {
      var parsed := ParseReply(text);
      if parsed.Marked? {
        HandleMarked(parsed.name, parsed.clean, connectThrows);
      } else {
        Say(Message(Assistant, text));
      }
    }

    /** The part of `handleSubmit` after the response: effects as `ReplyEffects`
        says, in that order, and finally the loading flag is cleared. */
    method Settle(data: Option<ChatJson>, connectThrows: bool)
      requires Valid()
      modifies this
      ensures Valid()
      ensures log == old(log) + ReplyEffects(data, connectThrows)
      ensures messages == old(messages) + Appended(ReplyEffects(data, connectThrows))
      ensures !isLoading && input == old(input)
      ensures isConnected == old(isConnected) && address == old(address)
    {
      ghost var before := log;
      if data.Some? && data.value.Answer? && data.value.response.Some? {
        HandleAnswer(data.value.response.value, connectThrows);
      } else {
        Say(Message(Assistant, RequestFailedText));
      }
      AppendedConcat(before, ReplyEffects(data, connectThrows));
      isLoading := false;
    }

    /** `handleSubmit` when nothing else happens while the request is out. */
    method HandleSubmit(data: Option<ChatJson>, connectThrows: bool) returns (request: Option<ChatRequest>)
      requires Valid()
      modifies this
      ensures Valid()
      ensures request.None? <==> Trim(old(input)) == "" || old(isLoading)
      ensures request.None? ==>
        messages == old(messages) && log == old(log) && input == old(input) && isLoading == old(isLoading)
      ensures request.Some? ==>
        && request.value == ChatRequest(Trim(old(input)), old(address), old(isConnected))
        && log == old(log) + [Append(Message(User, Trim(old(input))))] + ReplyEffects(data, connectThrows)
        && messages == old(messages) + [Message(User, Trim(old(input)))] + Appended(ReplyEffects(data, connectThrows))
        && input == "" && !isLoading
      ensures isConnected == old(isConnected) && address == old(address)
    {
      request := Submit();
      if request.Some? {
        Settle(data, connectThrows);
      }
    }
  }
}
