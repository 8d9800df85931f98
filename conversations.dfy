/**
 * The conversation store of the main page (src/pages/Index.tsx): the
 * ordered list of conversations shown in the sidebar, the messages saved
 * per conversation, and the active conversation, updated by the page's
 * handlers and by the effect that saves and retitles after each change of
 * the chat's messages. `crypto.randomUUID` is a parameter of the send
 * handler; React's batching and rendering are not modelled, each handler
 * and the effect run as one step.
 */
module Conversations {
  import opened Js
  import S = StreamClient
  import Ocr

  datatype Conversation = Conversation(id: string, title: string, mode: S.Mode)

  /** What is kept for a conversation: its messages and its mode. */
  datatype Saved = Saved(messages: seq<S.Message>, mode: S.Mode)

  /** `content.slice(0, 40) || "Image"`: the first 40 characters, or "Image" for empty content. */
  function Title(content: string): (t: string)
    ensures 0 < |t| <= 40 || t == "Image"
    ensures content != "" ==> t <= content && |t| == (if |content| < 40 then |content| else 40)
    ensures content == "" ==> t == "Image"
  {
    if content == "" then "Image"
    else if |content| < 40 then content
    else content[..40]
  }

  /** `messages.find(m => m.role === "user")`. */
  function FirstUser(ms: seq<S.Message>): (r: Option<S.Message>)
    ensures r.None? <==> forall i :: 0 <= i < |ms| ==> ms[i].role != S.User
    ensures r.Some? ==> exists i :: 0 <= i < |ms| && ms[i] == r.value && r.value.role == S.User
                                    && forall j :: 0 <= j < i ==> ms[j].role != S.User
  {
    if ms == [] then None
    else if ms[0].role == S.User then Some(ms[0])
    else
      var r := FirstUser(ms[1..]);
      assert r.Some? ==> exists i :: 0 <= i < |ms[1..]| && ms[1..][i] == r.value && r.value.role == S.User
                                       && forall j :: 0 <= j < i ==> ms[1..][j].role != S.User;
      assert forall i :: 1 <= i < |ms| ==> ms[i] == ms[1..][i - 1];
      r
  }

  /** The conversation list after retitling conversation `id`; the others are untouched. */
  function Retitled(convs: seq<Conversation>, id: string, title: string, mode: S.Mode): (r: seq<Conversation>)
    ensures |r| == |convs|
    ensures forall i :: 0 <= i < |convs| && convs[i].id != id ==> r[i] == convs[i]
    ensures forall i :: 0 <= i < |convs| && convs[i].id == id ==> r[i] == Conversation(id, title, mode)
  {
    seq(|convs|, i requires 0 <= i < |convs| =>
      if convs[i].id == id then Conversation(convs[i].id, title, mode) else convs[i])
  }

  /** `convs.filter(c => c.id !== id)`. */
  function Removed(convs: seq<Conversation>, id: string): (r: seq<Conversation>)
    ensures forall c :: c in r <==> c in convs && c.id != id
    ensures |r| <= |convs|
  {
    if convs == [] then []
    else (if convs[0].id != id then [convs[0]] else []) + Removed(convs[1..], id)
  }

  /** Removal works piece by piece, so the kept conversations stay in their order. */
  lemma {:induction false} RemovedAppend(a: seq<Conversation>, b: seq<Conversation>, id: string)
    ensures Removed(a + b, id) == Removed(a, id) + Removed(b, id)
  {
    if a == [] {
      assert a + b == b;
    } else {
      assert (a + b)[1..] == a[1..] + b;
      RemovedAppend(a[1..], b, id);
    }
  }

  /** Removing an id that is not listed changes nothing. */
  lemma {:induction false} RemovedAbsent(convs: seq<Conversation>, id: string)
    requires forall i :: 0 <= i < |convs| ==> convs[i].id != id
    ensures Removed(convs, id) == convs
  {
    if convs != [] {
      RemovedAbsent(convs[1..], id);
    }
  }

  /** No two conversations share an id. */
  ghost predicate UniqueIds(convs: seq<Conversation>) {
    forall i, j :: 0 <= i < j < |convs| ==> convs[i].id != convs[j].id
  }

  lemma {:induction false} RemovedKeepsUnique(convs: seq<Conversation>, id: string)
    requires UniqueIds(convs)
    ensures UniqueIds(Removed(convs, id))
  {
    if convs != [] {
      RemovedKeepsUnique(convs[1..], id);
      var rest := Removed(convs[1..], id);
      assert forall c :: c in rest ==> c in convs[1..];
      assert forall k :: 0 <= k < |rest| ==> rest[k].id != convs[0].id by {
        forall k | 0 <= k < |rest| ensures rest[k].id != convs[0].id {
          assert rest[k] in convs[1..];
          var m :| 0 <= m < |convs[1..]| && convs[1..][m] == rest[k];
          assert convs[m + 1] == rest[k];
        }
      }
    }
  }

  /** The main page's state. */
  class IndexPage {
    var mode: S.Mode
    var conversations: seq<Conversation>
    var activeConvId: Option<string>
    var savedMessages: map<string, Saved>
    /** The chat hook the page uses (`useChat(mode)`). */
    const chat: S.ChatHook

    constructor ()
      ensures mode == S.Medicine && conversations == [] && activeConvId == None && savedMessages == map[]
      ensures fresh(chat) && chat.messages == [] && !chat.isLoading
    {
      mode := S.Medicine;
      conversations := [];
      activeConvId := None;
      savedMessages := map[];
      chat := new S.ChatHook();
    }

    /** A conversation is active: `activeConvId` is a non-empty id. */
    predicate Active()
      reads this
    {
      activeConvId.Some? && activeConvId.value != ""
    }

    /** `hasActiveConversation`: the chat shows messages. */
    predicate HasActiveConversation()
      reads this, chat
    {
      |chat.messages| > 0
    }

    /**
     * `handleSend`. Without an active conversation a new one is created with
     * id `newId`, titled after the content, in the current mode, first in the
     * list, and made active; then the message is sent on the chat hook.
     */
    method HandleSend(content: string, images: seq<string>, ocrResults: seq<Ocr.OcrResult>, newId: string,
                      reply: S.Reply, parse: string -> S.Parsed)
      returns (request: S.ChatRequest)
      modifies this, chat
      ensures !old(Active()) ==> conversations == [Conversation(newId, Title(content), mode)] + old(conversations)
                                 && activeConvId == Some(newId)
      ensures old(Active()) ==> conversations == old(conversations) && activeConvId == old(activeConvId)
      ensures mode == old(mode) && savedMessages == old(savedMessages)
      ensures request == S.BuildRequest(old(chat.messages) + [S.UserMessage(content, images, ocrResults)], mode)
      ensures chat.messages == S.Transcript(old(chat.messages) + [S.UserMessage(content, images, ocrResults)],
                                            S.TurnUpserts(reply, parse))
      ensures HasActiveConversation()
      ensures (UniqueIds(old(conversations)) && forall i :: 0 <= i < |old(conversations)| ==> old(conversations)[i].id != newId)
              ==> UniqueIds(conversations)
    {
      if !Active() {
        var conv := Conversation(newId, Title(content), mode);
        conversations := [conv] + conversations;
        activeConvId := Some(newId);
      }
      request := chat.Send(mode, content, images, ocrResults, reply, parse);
    }

    /**
     * The effect run after the messages, the active id or the mode change:
     * with an active conversation and some messages, save them with the mode
     * under the active id, and retitle that conversation after the first
     * user message.
     */
    method SaveEffect()
      modifies this
      ensures mode == old(mode) && activeConvId == old(activeConvId)
      ensures !(Active() && |chat.messages| > 0) ==>
                savedMessages == old(savedMessages) && conversations == old(conversations)
      ensures Active() && |chat.messages| > 0 ==>
                var id := activeConvId.value;
                && savedMessages == old(savedMessages)[id := Saved(chat.messages, mode)]
                && conversations == (match FirstUser(chat.messages)
                                     case None => old(conversations)
                                     case Some(first) => Retitled(old(conversations), id, Title(first.content), mode))
    {
      if Active() && |chat.messages| > 0 {
        var id := activeConvId.value;
        savedMessages := savedMessages[id := Saved(chat.messages, mode)];
        var firstUser := FirstUser(chat.messages);
        if firstUser.Some? {
          conversations := Retitled(conversations, id, Title(firstUser.value.content), mode);
        }
      }
    }

    /** `handleSelectConversation`: restore what was saved for `id`, if anything, and make it active. */
    method SelectConversation(id: string)
      modifies this, chat
      ensures activeConvId == Some(id)
      ensures id in savedMessages ==> chat.messages == savedMessages[id].messages && mode == savedMessages[id].mode
      ensures id !in savedMessages ==> chat.messages == old(chat.messages) && mode == old(mode)
      ensures conversations == old(conversations) && savedMessages == old(savedMessages)
      ensures chat.isLoading == old(chat.isLoading)
    {
      if id in savedMessages {
        var saved := savedMessages[id];
        chat.SetMessages(saved.messages);
        mode := saved.mode;
      }
      activeConvId := Some(id);
    }

    /** `handleNewConversation`: no conversation is active and the chat is empty. */
    method NewConversation()
      modifies this, chat
      ensures activeConvId == None && !HasActiveConversation()
      ensures conversations == old(conversations) && savedMessages == old(savedMessages) && mode == old(mode)
      ensures chat.isLoading == old(chat.isLoading)
    {
      activeConvId := None;
      chat.Reset();
    }

    /** `handleBackToHome`: the same two updates as a new conversation. */
    method BackToHome()
      modifies this, chat
      ensures activeConvId == None && !HasActiveConversation()
      ensures conversations == old(conversations) && savedMessages == old(savedMessages) && mode == old(mode)
      ensures chat.isLoading == old(chat.isLoading)
    {
      activeConvId := None;
      chat.Reset();
    }

    /**
     * `handleDeleteConversation`: drop `id` from the list and from the saved
     * messages; when it was active, nothing is active and the chat is empty.
     */
    method DeleteConversation(id: string)
      modifies this, chat
      ensures conversations == Removed(old(conversations), id)
      ensures savedMessages == old(savedMessages) - {id}
      ensures old(activeConvId) == Some(id) ==> activeConvId == None && chat.messages == []
      ensures old(activeConvId) != Some(id) ==> activeConvId == old(activeConvId) && chat.messages == old(chat.messages)
      ensures mode == old(mode) && chat.isLoading == old(chat.isLoading)
      ensures UniqueIds(old(conversations)) ==> UniqueIds(conversations)
    {
      conversations := Removed(conversations, id);
      if UniqueIds(old(conversations)) {
        RemovedKeepsUnique(old(conversations), id);
      }
      savedMessages := savedMessages - {id};
      if activeConvId == Some(id) {
        activeConvId := None;
        chat.Reset();
      }
    }
  }

  /** Retitling keeps the ids, so it keeps them unique. */
  lemma {:induction false} RetitledKeepsUnique(convs: seq<Conversation>, id: string, title: string, mode: S.Mode)
    requires UniqueIds(convs)
    ensures UniqueIds(Retitled(convs, id, title, mode))
  {
    var r := Retitled(convs, id, title, mode);
    assert forall i :: 0 <= i < |convs| ==> r[i].id == convs[i].id;
  }
}
