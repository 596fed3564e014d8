/**
 * The conversation pane of a project: which messages are listed, which one
 * carries the progress of a running generation, when the loading indicator
 * shows, and the effect that opens the newest assistant fragment once per
 * message.
 */
module MessagesView {
  import opened Common
  import opened Store
  import opened CodeAgent

  /** The messages query: the project's messages, oldest first. */
  function MessagesOf(ms: seq<Message>, projectId: string): seq<Message>
  {
    if ms == [] then []
    else (if ms[0].projectId == projectId then [ms[0]] else []) + MessagesOf(ms[1..], projectId)
  }

  /** `displayMessages`: the messages whose type is not IN_PROGRESS, in order. */
  function DisplayMessages(ms: seq<Message>): seq<Message>
  {
    if ms == [] then []
    else (if ms[0].kind != InProgressKind then [ms[0]] else []) + DisplayMessages(ms[1..])
  }

  predicate IsRunning(m: Message)
  {
    m.role == Assistant && m.kind == InProgressKind
  }

  /** `progressMessage`: the first assistant IN_PROGRESS message. */
  function ProgressMessage(ms: seq<Message>): Option<Message>
  {
    if ms == [] then None
    else if IsRunning(ms[0]) then Some(ms[0])
    else ProgressMessage(ms[1..])
  }

  /** `messages.findLast` of an assistant message. */
  function LastAssistant(ms: seq<Message>): Option<Message>
  {
    if ms == [] then None
    else if ms[|ms| - 1].role == Assistant then Some(ms[|ms| - 1])
    else LastAssistant(ms[..|ms| - 1])
  }

  /** The loading indicator, with the progress fields of the progress message when there is one. */
  datatype Loading = Hidden | Shown(progress: Option<Progress>)

  function LoadingIndicator(ms: seq<Message>): Loading
  {
    var isLastMessageUser := |ms| > 0 && ms[|ms| - 1].role == User;
    var progressMessage := ProgressMessage(ms);
    if isLastMessageUser || progressMessage.Some? then
      Shown(if progressMessage.Some? then progressMessage.value.progress else None)
    else Hidden
  }

  /** The remembered last assistant message id and the fragment shown beside the conversation. */
  datatype ViewState = ViewState(lastAssistantId: Option<nat>, activeFragment: Option<Fragment>)

  /** What one run of the auto-activate effect does. */
  function AutoActivate(s: ViewState, ms: seq<Message>): ViewState
  {
    var last := LastAssistant(ms);
    if last.Some? && last.value.fragment.Some? && Some(last.value.id) != s.lastAssistantId then
      ViewState(Some(last.value.id), last.value.fragment)
    else s
  }

  class MessagesContainer {
    var lastAssistantId: Option<nat>
    var activeFragment: Option<Fragment>

    function State(): ViewState
      reads this
    {
      ViewState(lastAssistantId, activeFragment)
    }

    constructor (activeFragment: Option<Fragment>)
      ensures State() == ViewState(None, activeFragment)
    {
      lastAssistantId := None;
      this.activeFragment := activeFragment;
    }

    /** The effect that runs on every new poll result. */
    method OnMessages(ms: seq<Message>)
      modifies this
      ensures State() == AutoActivate(old(State()), ms)
    {
      var last := LastAssistant(ms);
      if last.Some? && last.value.fragment.Some? && Some(last.value.id) != lastAssistantId {
        activeFragment := last.value.fragment;
        lastAssistantId := Some(last.value.id);
      }
    }

    /** A click on a message's fragment card opens that fragment. */
    method OnFragmentClick(m: Message)
      modifies this`activeFragment
      ensures activeFragment == m.fragment
    {
      activeFragment := m.fragment;
    }
  }

  // ---------------------------------------------------------------- lemmas

  /** The list shows exactly the messages that are not IN_PROGRESS, and keeps their order. */
  lemma {:induction false} DisplayMessagesSpec(ms: seq<Message>)
    ensures forall m :: m in DisplayMessages(ms) <==> m in ms && m.kind != InProgressKind
    ensures |DisplayMessages(ms)| <= |ms|
  {
    if ms != [] {
      DisplayMessagesSpec(ms[1..]);
      assert forall m :: m in ms <==> m == ms[0] || m in ms[1..];
    }
  }

  lemma {:induction false} DisplayMessagesAppend(a: seq<Message>, b: seq<Message>)
    ensures DisplayMessages(a + b) == DisplayMessages(a) + DisplayMessages(b)
  {
    if a == [] {
      assert a + b == b;
    } else {
      assert (a + b)[1..] == a[1..] + b;
      DisplayMessagesAppend(a[1..], b);
    }
  }

  /** The progress message is the first running assistant message, and is missing exactly when there is none. */
  lemma {:induction false} ProgressMessageSpec(ms: seq<Message>)
    ensures ProgressMessage(ms).None? <==> forall i :: 0 <= i < |ms| ==> !IsRunning(ms[i])
    ensures ProgressMessage(ms).Some? ==>
      exists i :: 0 <= i < |ms| && ms[i] == ProgressMessage(ms).value && IsRunning(ms[i]) && forall j :: 0 <= j < i ==> !IsRunning(ms[j])
  {
    if ms != [] {
      ProgressMessageSpec(ms[1..]);
      if IsRunning(ms[0]) {
        assert ms[0] == ProgressMessage(ms).value;
      } else {
        assert forall i :: 0 < i < |ms| ==> ms[i] == ms[1..][i - 1];
        if ProgressMessage(ms).Some? {
          var i :| 0 <= i < |ms[1..]| && ms[1..][i] == ProgressMessage(ms).value
            && IsRunning(ms[1..][i]) && forall j :: 0 <= j < i ==> !IsRunning(ms[1..][j]);
          assert ms[i + 1] == ms[1..][i];
          forall j | 0 <= j < i + 1 ensures !IsRunning(ms[j]) {
            if j > 0 {
              assert ms[j] == ms[1..][j - 1];
            }
          }
        }
      }
    }
  }

  /** The last assistant message is the assistant message with no assistant message after it. */
  lemma {:induction false} LastAssistantSpec(ms: seq<Message>)
    ensures LastAssistant(ms).None? <==> forall i :: 0 <= i < |ms| ==> ms[i].role != Assistant
    ensures LastAssistant(ms).Some? ==>
      exists i :: 0 <= i < |ms| && ms[i] == LastAssistant(ms).value && ms[i].role == Assistant && forall j :: i < j < |ms| ==> ms[j].role != Assistant
  {
    if ms != [] {
      var init := ms[..|ms| - 1];
      LastAssistantSpec(init);
      assert forall i :: 0 <= i < |init| ==> init[i] == ms[i];
    }
  }

  /** The indicator shows exactly when the newest message is the user's or some assistant message is still running. */
  lemma LoadingIndicatorSpec(ms: seq<Message>)
    ensures LoadingIndicator(ms).Shown? <==>
      (|ms| > 0 && ms[|ms| - 1].role == User) || exists i :: 0 <= i < |ms| && IsRunning(ms[i])
  {
    ProgressMessageSpec(ms);
  }

  /** A second run of the effect on the same messages changes nothing. */
  lemma AutoActivateIdempotent(s: ViewState, ms: seq<Message>)
    ensures AutoActivate(AutoActivate(s, ms), ms) == AutoActivate(s, ms)
  {
  }

  /**
   * After the effect the remembered id is that of the last assistant message
   * whenever that message has a fragment, and its fragment is the one shown
   * if the id was new; a last assistant message without fragment changes
   * nothing.
   */
  lemma AutoActivateSpec(s: ViewState, ms: seq<Message>)
    ensures var last := LastAssistant(ms);
      last.Some? && last.value.fragment.Some? ==> AutoActivate(s, ms).lastAssistantId == Some(last.value.id)
    ensures var last := LastAssistant(ms);
      last.Some? && last.value.fragment.Some? && s.lastAssistantId != Some(last.value.id) ==>
        AutoActivate(s, ms).activeFragment == last.value.fragment
    ensures var last := LastAssistant(ms);
      (last.None? || last.value.fragment.None?) ==> AutoActivate(s, ms) == s
  {
  }

  /** A fragment the user opened by hand is not replaced by later polls that bring no new assistant message. */
  lemma ClickSurvivesPolls(s: ViewState, ms: seq<Message>, chosen: Option<Fragment>)
    ensures var clicked := AutoActivate(s, ms).(activeFragment := chosen);
      AutoActivate(clicked, ms) == clicked
  {
  }

  /** The state after a series of polls. */
  function AfterPolls(s: ViewState, polls: seq<seq<Message>>): ViewState
    decreases |polls|
  {
    if polls == [] then s else AfterPolls(AutoActivate(s, polls[0]), polls[1..])
  }

  /** Polls that all end on the same assistant message activate its fragment at most once: every poll after the first changes nothing. */
  lemma {:induction false} SameLastAssistantOnce(s: ViewState, polls: seq<seq<Message>>)
    requires |polls| >= 1
    requires forall k :: 0 <= k < |polls| ==> LastAssistant(polls[k]) == LastAssistant(polls[0])
    ensures AfterPolls(s, polls) == AutoActivate(s, polls[0])
    decreases |polls|
  {
    if |polls| > 1 {
      var t := AutoActivate(s, polls[0]);
      assert AutoActivate(t, polls[1]) == t;
      SameLastAssistantOnce(t, polls[1..]);
      assert AutoActivate(t, polls[1..][0]) == t;
    }
  }

  /**
   * Once a run has saved its result, with or without the ERROR message
   * before it, the project's messages hold no running message and end with
   * an assistant message, so the indicator is hidden and the new fragment is
   * opened.
   */
  lemma LoadingEndsWhenRunSaves(ms: seq<Message>, projectId: string, isError: bool, errorId: nat,
                                 id: nat, content: string, fragment: Fragment, s: ViewState)
    requires s.lastAssistantId != Some(id)
    ensures var shown := MessagesOf(WithoutProgress(ms, projectId)
                                      + (if isError then [ErrorMessage(errorId, projectId)] else [])
                                      + [ResultMessage(id, projectId, content, fragment)], projectId);
      LoadingIndicator(shown) == Hidden && AutoActivate(s, shown) == ViewState(Some(id), Some(fragment))
  {
    var kept := WithoutProgress(ms, projectId);
    var err := if isError then [ErrorMessage(errorId, projectId)] else [];
    var result := ResultMessage(id, projectId, content, fragment);
    MessagesOfAppend(kept + err, [result], projectId);
    MessagesOfAppend(kept, err, projectId);
    assert MessagesOf(err, projectId) == err;
    assert MessagesOf([result], projectId) == [result];
    WithoutProgressMembers(ms, projectId);
    MessagesOfMembers(kept, projectId);
    var front := MessagesOf(kept, projectId);
    var shown := front + err + [result];
    assert MessagesOf(kept + err + [result], projectId) == shown;
    forall i | 0 <= i < |shown| ensures !IsRunning(shown[i]) {
      if i < |front| {
        assert shown[i] == front[i];
        assert shown[i] in MessagesOf(kept, projectId);
      }
    }
    ProgressMessageSpec(shown);
  }

  lemma {:induction false} MessagesOfAppend(a: seq<Message>, b: seq<Message>, projectId: string)
    ensures MessagesOf(a + b, projectId) == MessagesOf(a, projectId) + MessagesOf(b, projectId)
  {
    if a == [] {
      assert a + b == b;
    } else {
      assert (a + b)[1..] == a[1..] + b;
      MessagesOfAppend(a[1..], b, projectId);
    }
  }

  /** The query returns exactly the project's messages. */
  lemma {:induction false} MessagesOfMembers(ms: seq<Message>, projectId: string)
    ensures forall m :: m in MessagesOf(ms, projectId) <==> m in ms && m.projectId == projectId
  {
    if ms != [] {
      MessagesOfMembers(ms[1..], projectId);
      assert forall m :: m in ms <==> m == ms[0] || m in ms[1..];
    }
  }
}
