/**
 * The page layout's two popups (app/components/Layout.tsx): the chat and the
 * create-prediction popup, each toggled by its button, never both open.
 * Each toggle reads the flag as it was before the click, as the handler's
 * closure does.
 */
module Layout {
  import PredictionForm

  /** The two flags as a value, and the toggles as functions on it. */
  datatype PopupState = PopupState(showChat: bool, showCreatePrediction: bool)

  const Closed := PopupState(false, false)

  predicate Exclusive(s: PopupState) {
    !(s.showChat && s.showCreatePrediction)
  }

  /** `toggleChat`: flip the chat; opening it closes the other popup. */
  function ToggleChatState(s: PopupState): (t: PopupState)
    ensures t.showChat == !s.showChat
    ensures !s.showChat ==> !t.showCreatePrediction
    ensures s.showChat ==> t.showCreatePrediction == s.showCreatePrediction
  {
    PopupState(!s.showChat, if !s.showChat then false else s.showCreatePrediction)
  }

  /** `toggleCreatePrediction`: the mirror image. */
  function ToggleCreateState(s: PopupState): (t: PopupState)
    ensures t.showCreatePrediction == !s.showCreatePrediction
    ensures !s.showCreatePrediction ==> !t.showChat
    ensures s.showCreatePrediction ==> t.showChat == s.showChat
  {
    PopupState(if !s.showCreatePrediction then false else s.showChat, !s.showCreatePrediction)
  }

  datatype Click = ChatButton | CreateButton

  function Apply(s: PopupState, c: Click): PopupState {
    match c
    case ChatButton => ToggleChatState(s)
    case CreateButton => ToggleCreateState(s)
  }

  function Run(s: PopupState, clicks: seq<Click>): PopupState
    decreases |clicks|
  {
    if clicks == [] then s else Run(Apply(s, clicks[0]), clicks[1..])
  }

  /** Either toggle leaves at most one popup open, whatever the state before. */
  lemma ToggleExclusive(s: PopupState, c: Click)
    ensures Exclusive(Apply(s, c))
  {
  }

  /** From the initial state no sequence of clicks opens both popups. */
  lemma {:induction false} RunExclusive(s: PopupState, clicks: seq<Click>)
    requires Exclusive(s)
    ensures Exclusive(Run(s, clicks))
    decreases |clicks|
  {
    if clicks != [] {
      ToggleExclusive(s, clicks[0]);
      RunExclusive(Apply(s, clicks[0]), clicks[1..]);
    }
  }

  /** Two clicks on the same button give that button's popup back the state
      it had before the first. */
  lemma DoubleToggle(s: PopupState, c: Click)
    ensures c == ChatButton ==> Apply(Apply(s, c), c).showChat == s.showChat
    ensures c == CreateButton ==> Apply(Apply(s, c), c).showCreatePrediction == s.showCreatePrediction
  {
  }

  class Popups {
    var showChat: bool
    var showCreatePrediction: bool

    function State(): PopupState
      reads this
    {
      PopupState(showChat, showCreatePrediction)
    }

    predicate Valid()
      reads this
    {
      Exclusive(State())
    }

    constructor()
      ensures State() == Closed && Valid()
    {
      showChat := false;
      showCreatePrediction := false;
    }

    method ToggleChat()
      modifies this
      ensures State() == ToggleChatState(old(State()))
      ensures Valid()
    {
      var wasOpen := showChat;
      showChat := !wasOpen;
      if !wasOpen {
        showCreatePrediction := false;
      }
    }

    method ToggleCreatePrediction()
      modifies this
      ensures State() == ToggleCreateState(old(State()))
      ensures Valid()
    {
      var wasOpen := showCreatePrediction;
      showCreatePrediction := !wasOpen;
      if !wasOpen {
        showChat := false;
      }
    }

    /** The form's `onSuccess` is `toggleCreatePrediction`: the form resets
        first, then the open form popup closes. */
    method CompleteForm(form: PredictionForm.FormState, nowMs: int)
      modifies this, form
      ensures form.IsFresh(nowMs) && form.Valid()
      ensures State() == ToggleCreateState(old(State()))
      ensures old(showCreatePrediction) ==> !showCreatePrediction && showChat == old(showChat)
    {
      form.Complete(nowMs);
      ToggleCreatePrediction();
    }
  }
}
