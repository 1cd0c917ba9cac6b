/** The tutoring chat beside a task: how the saved conversation seeds the
    chat, which messages are shown, and when the conversation is saved. The
    chat engine itself is not modelled; its message list and status are
    inputs of each effect run, and a save is recorded instead of sent. */
module AiChat {
  import opened Wrappers
  import opened TextOps
  import opened ArrayMethods

  datatype Role = System | User | Assistant

  /** A message of the chat engine. */
  datatype Message = Message(id: string, role: Role, content: string)

  /** A message as stored with the task status. */
  datatype AiMessage = AiMessage(role: Role, content: string, timestamp: string)

  datatype ChatStatus = Submitted | Streaming | Ready | Error

  /** One call of the save query: the task status and the stored messages. */
  datatype SaveCall = SaveCall(taskStatusId: int, messages: seq<AiMessage>)

  const SystemMessageId: string := "1"

  /** The id given to the saved message at position `i`; numbering starts
      at 2 because 1 is the system message's. */
  function SavedId(i: nat): (id: string)
    ensures id != SystemMessageId
    ensures |id| > 6 && id[..6] == "saved-"
  {
    "saved-" + Decimal(i + 2)
  }

  /** Distinct positions get distinct ids. */
  lemma SavedIdInjective(i: nat, j: nat)
    requires SavedId(i) == SavedId(j)
    ensures i == j
  {
    assert SavedId(i)[6..] == Decimal(i + 2);
    assert SavedId(j)[6..] == Decimal(j + 2);
    DecimalInjective(i + 2, j + 2);
  }

  function FromSaved(saved: seq<AiMessage>): (r: seq<Message>)
    ensures |r| == |saved|
    ensures forall i :: 0 <= i < |saved| ==> r[i].role == saved[i].role && r[i].content == saved[i].content
  {
    seq(|saved|, i requires 0 <= i < |saved| => Message(SavedId(i), saved[i].role, saved[i].content))
  }

  /** The chat's initial list: the system prompt, then the saved messages in
      order; a missing saved list counts as empty. */
  function InitialMessages(systemContent: string, saved: Option<seq<AiMessage>>): (r: seq<Message>)
    ensures |r| == 1 + |saved.GetOr([])|
    ensures r[0] == Message(SystemMessageId, System, systemContent)
  {
    [Message(SystemMessageId, System, systemContent)] + FromSaved(saved.GetOr([]))
  }

  /** The initial list never repeats an id. */
  lemma InitialIdsDistinct(systemContent: string, saved: Option<seq<AiMessage>>)
    ensures forall i, j :: 0 <= i < j < |InitialMessages(systemContent, saved)| ==>
      InitialMessages(systemContent, saved)[i].id != InitialMessages(systemContent, saved)[j].id
  {
    var r := InitialMessages(systemContent, saved);
    forall i, j | 0 <= i < j < |r| ensures r[i].id != r[j].id {
      assert r[j].id == SavedId(j - 1);
      if i > 0 {
        assert r[i].id == SavedId(i - 1);
        if r[i].id == r[j].id {
          SavedIdInjective(i - 1, j - 1);
        }
      }
    }
  }

  /** The length the chat starts out as already saved: one more than the
      saved messages when a saved list exists, even an empty one; else 0. */
  function InitialSavedLength(saved: Option<seq<AiMessage>>): (n: nat)
    ensures saved.Some? ==> n == |InitialMessages("", saved)|
    ensures saved.None? ==> n == 0
  {
    if saved.Some? then |saved.value| + 1 else 0
  }

  /** The messages shown under the greeting: all but the first. */
  function Displayed(messages: seq<Message>): (r: seq<Message>)
    ensures |r| == if messages == [] then 0 else |messages| - 1
    ensures forall i :: 0 <= i < |r| ==> r[i] == messages[i + 1]
  {
    if messages == [] then [] else messages[1..]
  }

  /** Right after loading, exactly the saved messages are shown. */
  lemma DisplayedInitial(systemContent: string, saved: Option<seq<AiMessage>>)
    ensures Displayed(InitialMessages(systemContent, saved)) == FromSaved(saved.GetOr([]))
  {
  }

  function IsNotSystem(): Message -> bool {
    (m: Message) => m.role != System
  }

  function Stamped(timestamp: string): Message -> AiMessage {
    (m: Message) => AiMessage(m.role, m.content, timestamp)
  }

  /** What is stored: the non-system messages, in order, with the time of
      the save. Every non-system message is stored with its role and content,
      and nothing else is. */
  function SavePayload(messages: seq<Message>, timestamp: string): (r: seq<AiMessage>)
    ensures |r| <= |messages|
    ensures forall i :: 0 <= i < |r| ==> r[i].role != System && r[i].timestamp == timestamp
    ensures forall m :: m in messages && m.role != System ==> AiMessage(m.role, m.content, timestamp) in r
    ensures forall a :: a in r ==> exists m :: m in messages && m.role != System && a == AiMessage(m.role, m.content, timestamp)
  {
    var kept := Filter(messages, IsNotSystem());
    PayloadShape(messages, kept, timestamp);
    Map(kept, Stamped(timestamp))
  }

  lemma PayloadShape(messages: seq<Message>, kept: seq<Message>, timestamp: string)
    requires kept == Filter(messages, IsNotSystem())
    ensures forall i :: 0 <= i < |kept| ==> kept[i].role != System
    ensures forall i :: 0 <= i < |kept| ==> Map(kept, Stamped(timestamp))[i] == AiMessage(kept[i].role, kept[i].content, timestamp)
    ensures forall m :: m in messages && m.role != System ==> AiMessage(m.role, m.content, timestamp) in Map(kept, Stamped(timestamp))
    ensures forall a :: a in Map(kept, Stamped(timestamp)) ==>
      exists m :: m in messages && m.role != System && a == AiMessage(m.role, m.content, timestamp)
  {
    forall m ensures m in kept <==> m in messages && m.role != System {
      FilterMembers(messages, IsNotSystem(), m);
    }
    MapAt(kept, Stamped(timestamp));
    MapMembers(kept, Stamped(timestamp));
  }

  /** Saving a conversation made of two parts stores the first part's
      payload followed by the second's: the order of the messages is kept. */
  lemma SavePayloadAppend(a: seq<Message>, b: seq<Message>, timestamp: string)
    ensures SavePayload(a + b, timestamp) == SavePayload(a, timestamp) + SavePayload(b, timestamp)
  {
    FilterAppend(a, b, IsNotSystem());
    MapAppend(Filter(a, IsNotSystem()), Filter(b, IsNotSystem()), Stamped(timestamp));
  }

  /** A single message is stored, stamped, unless it is the system prompt.
      With `SavePayloadAppend` this determines the payload of every list. */
  lemma SavePayloadSingle(m: Message, timestamp: string)
    ensures SavePayload([m], timestamp) == if m.role == System then [] else [AiMessage(m.role, m.content, timestamp)]
  {
    assert [m][1..] == [];
  }

  /** Saving the freshly loaded chat stores the loaded conversation again,
      message for message (only the timestamps are new). */
  lemma PayloadOfInitial(systemContent: string, saved: seq<AiMessage>, timestamp: string)
    requires forall i :: 0 <= i < |saved| ==> saved[i].role != System
    ensures |SavePayload(InitialMessages(systemContent, Some(saved)), timestamp)| == |saved|
    ensures forall i :: 0 <= i < |saved| ==>
      SavePayload(InitialMessages(systemContent, Some(saved)), timestamp)[i] == AiMessage(saved[i].role, saved[i].content, timestamp)
  {
    var msgs := InitialMessages(systemContent, Some(saved));
    var rest := FromSaved(saved);
    assert msgs == [msgs[0]] + rest;
    assert msgs[1..] == rest;
    FilterKeepsAll(rest, IsNotSystem());
    assert Filter(msgs, IsNotSystem()) == rest;
    PayloadShape(msgs, rest, timestamp);
  }

  /** The save trigger: the reply finished streaming, or the chat is ready
      with more messages than were last saved. */
  predicate ShouldSave(prevStatus: ChatStatus, status: ChatStatus, count: nat, lastSaved: nat) {
    (prevStatus == Streaming && status == Ready) || (status == Ready && count > lastSaved)
  }

  /** Loading a saved conversation does not save it again. */
  lemma InitialLoadNotSaved(systemContent: string, saved: Option<seq<AiMessage>>, prevStatus: ChatStatus)
    requires saved.Some? && prevStatus != Streaming
    ensures !ShouldSave(prevStatus, Ready, |InitialMessages(systemContent, saved)|, InitialSavedLength(saved))
  {
    assert InitialSavedLength(saved) == |InitialMessages(systemContent, saved)|;
  }

  /** The two references the save effect keeps between renders, and the
      save calls it has made. */
  class ChatSaver {
    var prevStatus: ChatStatus
    var lastSavedLength: nat
    var saves: seq<SaveCall>

    constructor (status: ChatStatus, saved: Option<seq<AiMessage>>)
      ensures prevStatus == status && lastSavedLength == InitialSavedLength(saved) && saves == []
    {
      prevStatus := status;
      lastSavedLength := InitialSavedLength(saved);
      saves := [];
    }

    /** One run of the save effect. With no task status or no message past
        the system prompt it does nothing, not even remember the status. */
    method Effect(messages: seq<Message>, status: ChatStatus, taskStatusId: int, timestamp: string)
      modifies this
      ensures taskStatusId == 0 || |messages| <= 1 ==>
        prevStatus == old(prevStatus) && lastSavedLength == old(lastSavedLength) && saves == old(saves)
      ensures taskStatusId != 0 && |messages| > 1 ==> prevStatus == status
      ensures taskStatusId != 0 && |messages| > 1 && ShouldSave(old(prevStatus), status, |messages|, old(lastSavedLength)) ==>
        lastSavedLength == |messages| && saves == old(saves) + [SaveCall(taskStatusId, SavePayload(messages, timestamp))]
      ensures !(taskStatusId != 0 && |messages| > 1 && ShouldSave(old(prevStatus), status, |messages|, old(lastSavedLength))) ==>
        lastSavedLength == old(lastSavedLength) && saves == old(saves)
    {
      if taskStatusId == 0 || |messages| <= 1 {
        return;
      }
      if ShouldSave(prevStatus, status, |messages|, lastSavedLength) {
        saves := saves + [SaveCall(taskStatusId, SavePayload(messages, timestamp))];
        lastSavedLength := |messages|;
      }
      prevStatus := status;
    }
  }
}
