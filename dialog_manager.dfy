/** The AI dialog manager (ai_agent/dialog_manager.py): dialogs keyed by id,
    each an append-only list of AI and user messages. Ids and timestamps,
    drawn from `uuid4` and the clock in the source, are parameters. */
module Dialogs {
  import opened Wrappers

  datatype Sender = Ai | User

  datatype Message = Message(
    id: string,
    sender: Sender,
    text: string,
    questionType: Option<string>,   // AI messages only
    timestamp: string,
    requiresResponse: bool)         // absent, hence False, on user messages

  datatype DialogStatus = Active | Closed

  datatype Dialog = Dialog(
    id: string,
    context: string,
    messages: seq<Message>,
    status: DialogStatus,
    createdAt: string,
    updatedAt: string)

  datatype DialogError = DialogNotFound(dialogId: string)

  /** An AI message still waiting for an answer. */
  predicate IsPending(m: Message)
  {
    m.sender == Ai && m.requiresResponse
  }

  /** The last pending AI message of a message list: the value
      `get_latest_ai_question` finds scanning from the end. */
  function LatestPending(messages: seq<Message>): (r: Option<Message>)
    ensures r.Some? ==> IsPending(r.value) && r.value in messages
  {
    if messages == [] then None
    else if IsPending(messages[|messages| - 1]) then Some(messages[|messages| - 1])
    else LatestPending(messages[..|messages| - 1])
  }

  /** `LatestPending` finds a pending message exactly when there is one, and
      then it is the last one: no pending message comes after it. */
  lemma {:induction false} LatestPendingIsLast(messages: seq<Message>)
    ensures LatestPending(messages).None? <==> forall i :: 0 <= i < |messages| ==> !IsPending(messages[i])
    ensures LatestPending(messages).Some? ==>
      exists i :: && 0 <= i < |messages| && messages[i] == LatestPending(messages).value
                  && IsPending(messages[i])
                  && forall j :: i < j < |messages| ==> !IsPending(messages[j])
  {
    if messages != [] {
      var init := messages[..|messages| - 1];
      var last := |messages| - 1;
      if IsPending(messages[last]) {
        assert LatestPending(messages) == Some(messages[last]);
      } else {
        assert LatestPending(messages) == LatestPending(init);
        LatestPendingIsLast(init);
        assert forall i :: 0 <= i < last ==> messages[i] == init[i];
        if LatestPending(init).Some? {
          var i :| 0 <= i < |init| && init[i] == LatestPending(init).value
                   && IsPending(init[i]) && forall j :: i < j < |init| ==> !IsPending(init[j]);
          assert messages[i] == init[i] && forall j :: i < j < |messages| ==> !IsPending(messages[j]);
        } else {
          assert forall i :: 0 <= i < |messages| ==> !IsPending(messages[i]);
        }
      }
    }
  }

  /** A user reply does not change the latest pending question. */
  lemma UserReplyKeepsQuestion(messages: seq<Message>, reply: Message)
    requires reply.sender == User
    ensures LatestPending(messages + [reply]) == LatestPending(messages)
  {
    assert (messages + [reply])[..|messages|] == messages;
  }

  /** A new AI question becomes the latest pending one. */
  lemma AiQuestionIsLatest(messages: seq<Message>, question: Message)
    requires question.sender == Ai && question.requiresResponse
    ensures LatestPending(messages + [question]) == Some(question)
  {
  }

  class DialogManager {
    var dialogs: map<string, Dialog>
    var currentDialogId: Option<string>

    /** Every dialog is stored under its own id. */
    predicate Valid()
      reads this
    {
      forall d :: d in dialogs ==> dialogs[d].id == d
    }

    constructor ()
      ensures dialogs == map[] && currentDialogId == None && Valid()
    {
      dialogs := map[];
      currentDialogId := None;
    }

    /** `start_new_dialog`: a new active dialog without messages, which
        becomes the current one. */
    method StartNewDialog(context: string, dialogUuid: string, now: string) returns (dialogId: string)
      requires Valid()
      modifies this
      ensures Valid()
      ensures dialogId == dialogUuid
      ensures dialogs == old(dialogs)[dialogId := Dialog(dialogId, context, [], Active, now, now)]
      ensures currentDialogId == Some(dialogId)
      ensures forall d :: d in old(dialogs) && d != dialogId ==> d in dialogs && dialogs[d] == old(dialogs[d])
    {
      dialogId := dialogUuid;
      dialogs := dialogs[dialogId := Dialog(dialogId, context, [], Active, now, now)];
      currentDialogId := Some(dialogId);
    }

    /** `add_ai_message`: refused for an unknown dialog; otherwise one AI
        question awaiting a response is appended. `questionType` is always
        passed here; the source's default argument for it is `"general"`. */
    method AddAiMessage(dialogId: string, message: string, questionType: string, messageUuid: string, now: string)
      returns (r: Outcome<DialogError>)
      requires Valid()
      modifies this
      ensures Valid()
      ensures r.Fail? <==> dialogId !in old(dialogs)
      ensures r.Fail? ==> r.error == DialogNotFound(dialogId) && dialogs == old(dialogs)
      ensures r.Pass? ==>
        var d := old(dialogs)[dialogId];
        dialogs == old(dialogs)[dialogId := d.(
          messages := d.messages + [Message(messageUuid, Ai, message, Some(questionType), now, true)],
          updatedAt := now)]
      ensures currentDialogId == old(currentDialogId)
    {
      if dialogId !in dialogs {
        return Fail(DialogNotFound(dialogId));
      }
      var messageObj := Message(messageUuid, Ai, message, Some(questionType), now, true);
      var d := dialogs[dialogId];
      dialogs := dialogs[dialogId := d.(messages := d.messages + [messageObj], updatedAt := now)];
      return Pass;
    }

    /** `add_user_message`: refused for an unknown dialog; otherwise one user
        message is appended. */
    method AddUserMessage(dialogId: string, message: string, messageUuid: string, now: string)
      returns (r: Outcome<DialogError>)
      requires Valid()
      modifies this
      ensures Valid()
      ensures r.Fail? <==> dialogId !in old(dialogs)
      ensures r.Fail? ==> r.error == DialogNotFound(dialogId) && dialogs == old(dialogs)
      ensures r.Pass? ==>
        var d := old(dialogs)[dialogId];
        dialogs == old(dialogs)[dialogId := d.(
          messages := d.messages + [Message(messageUuid, User, message, None, now, false)],
          updatedAt := now)]
      ensures r.Pass? ==> LatestPending(dialogs[dialogId].messages) == LatestPending(old(dialogs)[dialogId].messages)
      ensures currentDialogId == old(currentDialogId)
    {
      if dialogId !in dialogs {
        return Fail(DialogNotFound(dialogId));
      }
      var messageObj := Message(messageUuid, User, message, None, now, false);
      var d := dialogs[dialogId];
      UserReplyKeepsQuestion(d.messages, messageObj);
      dialogs := dialogs[dialogId := d.(messages := d.messages + [messageObj], updatedAt := now)];
      return Pass;
    }

    /** `get_latest_ai_question`: the last AI message that requires a
        response, scanning the dialog's messages from the end; none for an
        unknown dialog. */
    method GetLatestAiQuestion(dialogId: string) returns (m: Option<Message>)
      ensures dialogId !in dialogs ==> m == None
      ensures dialogId in dialogs ==> m == LatestPending(dialogs[dialogId].messages)
      ensures m.Some? ==> IsPending(m.value) && dialogId in dialogs && m.value in dialogs[dialogId].messages
    {
      if dialogId !in dialogs {
        return None;
      }
      var messages := dialogs[dialogId].messages;
      var i := |messages|;
      assert messages[..i] == messages;
      while i > 0
        invariant 0 <= i <= |messages|
        invariant LatestPending(messages) == LatestPending(messages[..i])
        decreases i
      {
        var message := messages[i - 1];
        assert messages[..i][..i - 1] == messages[..i - 1];
        if message.sender == Ai && message.requiresResponse {
          return Some(message);
        }
        i := i - 1;
      }
      return None;
    }

    /** `get_dialog_history`: the dialog's messages, or none for an unknown id. */
    function GetDialogHistory(dialogId: string): (h: seq<Message>)
      reads this
      ensures dialogId !in dialogs ==> h == []
      ensures dialogId in dialogs ==> h == dialogs[dialogId].messages
    {
      if dialogId in dialogs then dialogs[dialogId].messages else []
    }

    /** `close_dialog`: a known dialog is marked closed, its messages kept;
        an unknown id changes nothing. */
    method CloseDialog(dialogId: string, now: string)
      requires Valid()
      modifies this
      ensures Valid()
      ensures dialogId !in old(dialogs) ==> dialogs == old(dialogs)
      ensures dialogId in old(dialogs) ==>
        dialogs == old(dialogs)[dialogId := old(dialogs)[dialogId].(status := Closed, updatedAt := now)]
      ensures currentDialogId == old(currentDialogId)
    {
      if dialogId in dialogs {
        dialogs := dialogs[dialogId := dialogs[dialogId].(status := Closed, updatedAt := now)];
      }
    }
  }

  /** The questions `generate_ai_questions_for_document_update` asks. */
  const UpdateQuestions: seq<string> := [
    "新しい規格で追加された主要な要件は何ですか？",
    "既存の書類で削除または変更が必要な部分はありますか？",
    "組織の特定の業務プロセスに関連する変更はありますか？",
    "新しい規格で要求される追加の手順や手続きはありますか？",
    "既存の責任者や担当者の役割に変更はありますか？",
    "新しい規格で要求される追加の文書や記録はありますか？",
    "組織の規模や特性に応じた除外事項はありますか？",
    "新しい規格で要求される追加の監査や評価はありますか？"
  ]

  /** The same eight questions whatever the two texts are. */
  function GenerateAiQuestionsForDocumentUpdate(existingDocText: string, newStandardText: string): (qs: seq<string>)
    ensures |qs| == 8
    ensures forall i, j :: 0 <= i < j < |qs| ==> qs[i] != qs[j]
  {
    UpdateQuestions
  }
}
