/**
 * Properties that cross module boundaries: concrete assistant replies as
 * the chat widget handles them, the route's reply as the widget reads it,
 * and a freshly created prediction as its card shows it.
 */
module EndToEnd {
  import opened Wrappers
  import opened JsText
  import opened ChatRoute
  import opened ChatInterface
  import opened Calls
  import opened PredictionCard
  import opened PredictionForm

  /** "Sure! <function>connect_wallet</function>": a reply that says something
      and asks for the wallet. */
  const SureReply: string := "Sure! " + Marker(ConnectWalletAction)

  /** `SureReply` shows "Sure!" and then connects the wallet. */
  lemma SureConnectWallet(connectThrows: bool)
    ensures ParseReply(SureReply) == Marked(ConnectWalletAction, "Sure!")
    ensures AnswerEffects(SureReply, connectThrows)
         == [Append(Message(Assistant, "Sure!")), Connect]
            + (if connectThrows then [Append(Message(System, ConnectFailedText))] else [])
  {
    SureParses();
    ConnectEffects("Sure!", connectThrows);
  }

  /** A `connect_wallet` marker with some text around it shows the text, then connects. */
  lemma ConnectEffects(clean: string, connectThrows: bool)
    requires clean != ""
    ensures MarkedEffects(ConnectWalletAction, clean, connectThrows)
         == [Append(Message(Assistant, clean)), Connect]
            + (if connectThrows then [Append(Message(System, ConnectFailedText))] else [])
  {
  }

  lemma SureParses()
    ensures ParseReply(SureReply) == Marked(ConnectWalletAction, "Sure!")
  {
    NoTagWithoutAngle("Sure! ");
    NoTagWithoutAngle(ConnectWalletAction);
    MarkerRoundTrip("Sure! ", ConnectWalletAction, "");
    assert SureReply == "Sure! " + Marker(ConnectWalletAction) + "";
    assert "Sure! " + "" == "Sure! ";
    TrimSure();
  }

  lemma TrimSure()
    ensures Trim("Sure! ") == "Sure!"
  {
    var t := "Sure! ";
    assert !IsTrimmable(t[0]) && !IsTrimmable(t[4]) && IsTrimmable(t[5]);
    TrimIsUniqueCore(t, 0, 5);
    assert t[0..5] == "Sure!";
  }

  /** A reply that is only the marker shows no bubble and connects the wallet. */
  lemma OnlyMarker(connectThrows: bool)
    ensures ParseReply(Marker("connect_wallet")) == Marked("connect_wallet", "")
    ensures AnswerEffects(Marker("connect_wallet"), connectThrows)
         == [Connect] + (if connectThrows then [Append(Message(System, ConnectFailedText))] else [])
  {
    NoTagWithoutAngle("");
    NoTagWithoutAngle("connect_wallet");
    MarkerRoundTrip("", "connect_wallet", "");
    assert "" + Marker("connect_wallet") + "" == Marker("connect_wallet");
    TrimOfBlank("");
  }

  /** An unknown action does nothing at all when the reply is only its marker. */
  lemma UnknownAction(connectThrows: bool)
    ensures AnswerEffects(Marker("do_something_unknown"), connectThrows) == []
  {
    NoTagWithoutAngle("");
    NoTagWithoutAngle("do_something_unknown");
    MarkerRoundTrip("", "do_something_unknown", "");
    assert "" + Marker("do_something_unknown") + "" == Marker("do_something_unknown");
    TrimOfBlank("");
  }

  /** Whatever the route answers, the widget appends the text it carries, or
      the one apology when the route failed or carried no text. */
  lemma RouteReplyInWidget(body: Option<ChatRequest>, chain: string -> ChainResult, connectThrows: bool)
    ensures var reply := Post(body, chain);
      && (reply.status != 200 ==>
            ReplyEffects(Some(reply.body), connectThrows) == [Append(Message(Assistant, RequestFailedText))])
      && (reply.status == 200 && chain(ContextMessage(body.value)).response.Some? ==>
            ReplyEffects(Some(reply.body), connectThrows)
            == AnswerEffects(chain(ContextMessage(body.value)).response.value, connectThrows))
  {
  }

  /** A prediction created with the form's default deadline shows "1 day left"
      and the vote buttons at the moment it was created, for any clock
      reading a `Date` can hold up to a day before the end of its range. */
  lemma FreshPredictionIsOpen(p: Prediction, nowMs: int)
    requires p.deadline == DefaultDeadline(nowMs) && !p.resolved
    requires -MaxDateMs <= nowMs <= MaxDateMs - DayMs
    ensures TimeLeftOf(p.deadline, p.resolved, nowMs) == DaysLeft(1)
    ensures LabelText(TimeLeftOf(p.deadline, p.resolved, nowMs)) == "1 day left"
    ensures !IsExpired(p.deadline, nowMs)
    ensures FooterOf(p, nowMs).VoteButtons?
  {
    var diff := p.deadline * 1000 - nowMs;
    assert 0 < diff <= DayMs;
    assert DecimalString(1) == "1";
  }

  /** The form's default call is encodable for any clock reading from 1970
      up to about the year 10889. */
  lemma DefaultCallEncodable(question: string, nowMs: int)
    requires 0 <= nowMs <= 0xFFFF_FFFF_FFFF
    ensures Encodable(CreatePredictionCall(question, DefaultOptions, DefaultDeadline(nowMs)))
  {
    CreatePredictionEncodable(question, DefaultOptions, DefaultDeadline(nowMs));
  }
}
