/** The durable store of conversations' turns and messages. */
module JarvisState {
  import opened Prelude
  import opened RuntimeContract

  type ConversationId = nat

  datatype Status = Running | Completed | Failed | Cancelled | Interrupted

  datatype Role = User | Assistant

  datatype Message = Message(conversation: ConversationId, role: Role, body: string, refs: seq<string>)

  datatype Turn = Turn(
    conversation: ConversationId,
    userMessage: nat,
    status: Status,
    errorCode: Option<ErrorCode>,
    assistantMessage: Option<nat>)

  datatype StoreError =
    | EmptyBody | ConversationNotFound | ActiveTurn | TurnNotFound | TurnNotRunning | TooManyRefs | InvalidErrorCode
    | StorageFailed

  // ----- Text and codes --------------------------------------------------------------

  function TrimLeft(s: string): string {
    if s != "" && IsSpace(s[0]) then TrimLeft(s[1..]) else s
  }

  function TrimRight(s: string): string
    decreases |s|
  {
    if s != "" && IsSpace(s[|s| - 1]) then TrimRight(s[..|s| - 1]) else s
  }

  /** `body.strip()` */
  function Trim(s: string): string { TrimRight(TrimLeft(s)) }

  /** Only white space goes, at both ends, and all of it there. */
  lemma TrimmedIs(s: string) returns (i: nat, j: nat)
    ensures i <= j <= |s| && Trim(s) == s[i..j]
    ensures forall k :: 0 <= k < i || j <= k < |s| ==> IsSpace(s[k])
    ensures i < j ==> !IsSpace(s[i]) && !IsSpace(s[j - 1])
  {
    i := LeftTrimmedIs(s);
    j := RightTrimmedIs(s[i..]);
    assert s[i..][..j] == s[i..i + j];
    assert forall k :: i + j <= k < |s| ==> s[k] == s[i..][k - i];
    j := i + j;
  }

  lemma {:induction false} LeftTrimmedIs(s: string) returns (i: nat)
    ensures i <= |s| && TrimLeft(s) == s[i..] && forall k :: 0 <= k < i ==> IsSpace(s[k])
    ensures i < |s| ==> !IsSpace(s[i])
  {
    i := 0;
    if s != "" && IsSpace(s[0]) {
      i := LeftTrimmedIs(s[1..]);
      assert forall k :: 1 <= k < |s| ==> s[k] == s[1..][k - 1];
      i := i + 1;
    }
  }

  lemma {:induction false} RightTrimmedIs(s: string) returns (j: nat)
    ensures j <= |s| && TrimRight(s) == s[..j] && forall k :: j <= k < |s| ==> IsSpace(s[k])
    ensures j > 0 ==> !IsSpace(s[j - 1])
    decreases |s|
  {
    j := |s|;
    if s != "" && IsSpace(s[|s| - 1]) {
      j := RightTrimmedIs(s[..|s| - 1]);
    }
  }

  predicate CodeStart(c: char) { 'a' <= c <= 'z' || '0' <= c <= '9' }

  /** The store's error-code pattern. The fixed codes of the pipeline all match it. */
  predicate StorableCode(code: ErrorCode) {
    code.Reported? ==>
      && 1 <= |code.text| <= 64 && CodeStart(code.text[0])
      && forall i :: 0 <= i < |code.text| ==> CodeStart(code.text[i]) || code.text[i] in {'_', '.', '-'}
  }

  /** `dict.fromkeys`: first occurrences, in order. */
  function Unique(refs: seq<string>): (u: seq<string>)
    ensures forall r :: r in u <==> r in refs
    decreases |refs|
  {
    if refs == [] then []
    else
      var before := Unique(refs[..|refs| - 1]);
      if refs[|refs| - 1] in before then before else before + [refs[|refs| - 1]]
  }

  lemma {:induction false} UniqueOfDistinct(refs: seq<string>)
    requires forall i, j :: 0 <= i < j < |refs| ==> refs[i] != refs[j]
    ensures Unique(refs) == refs
    decreases |refs|
  {
    if refs != [] {
      UniqueOfDistinct(refs[..|refs| - 1]);
      assert refs == refs[..|refs| - 1] + [refs[|refs| - 1]];
    }
  }

  /** No reference twice, and later ones never displace or precede earlier ones. */
  lemma {:induction false} UniqueKeepsFirst(refs: seq<string>)
    ensures forall i, j :: 0 <= i < j < |Unique(refs)| ==> Unique(refs)[i] != Unique(refs)[j]
    ensures forall k :: 0 <= k <= |refs| ==> Unique(refs[..k]) <= Unique(refs)
    decreases |refs|
  {
    if refs != [] {
      var front := refs[..|refs| - 1];
      UniqueKeepsFirst(front);
      forall k | 0 <= k <= |refs| ensures Unique(refs[..k]) <= Unique(refs) {
        if k < |refs| {
          assert front[..k] == refs[..k];
        } else {
          assert refs[..k] == refs;
        }
      }
    }
  }

  // ----- The store --------------------------------------------------------------------

  class JarvisStateStore {
    /** When false, a transaction may fail and roll back at any time. */
    const reliable: bool
    var conversations: set<ConversationId>
    var turns: map<TurnId, Turn>
    var messages: seq<Message>
    var nextTurn: TurnId

    ghost predicate Valid()
      reads this
    {
      && (forall t :: t in turns ==> t < nextTurn && turns[t].conversation in conversations)
      && OneRunning()
      && (forall t :: t in turns ==> Answered(t))
      && OneOwner()
    }

    /** No two turns share an assistant message. */
    ghost predicate OneOwner()
      reads this
    {
      forall t, u :: t in turns && u in turns && t != u && turns[t].assistantMessage.Some? ==>
        turns[t].assistantMessage != turns[u].assistantMessage
    }

    /** At most one running turn in a conversation. */
    ghost predicate OneRunning()
      reads this
    {
      forall t, u :: t in turns && u in turns && t != u && turns[t].status.Running? && turns[u].status.Running? ==>
        turns[t].conversation != turns[u].conversation
    }

    /** A turn has its own assistant message exactly when it completed. */
    ghost predicate Answered(t: TurnId)
      requires t in turns
      reads this
    {
      && (turns[t].status.Completed? <==> turns[t].assistantMessage.Some?)
      && (turns[t].assistantMessage.Some? ==>
            && turns[t].assistantMessage.value < |messages|
            && messages[turns[t].assistantMessage.value].role.Assistant?
            && messages[turns[t].assistantMessage.value].conversation == turns[t].conversation)
    }

    constructor (reliable: bool, conversations: set<ConversationId>)
      ensures Valid() && turns == map[] && messages == [] && this.reliable == reliable
      ensures this.conversations == conversations
    {
      this.reliable, this.conversations := reliable, conversations;
      turns, messages, nextTurn := map[], [], 0;
    }

    predicate HasRunning(conversation: ConversationId)
      reads this
    {
      exists t :: t in turns && turns[t].conversation == conversation && turns[t].status.Running?
    }

    /** What every operation keeps: an ended turn stays as it ended, messages stay. */
    twostate predicate Kept()
      reads this
    {
      && old(messages) <= messages && conversations == old(conversations)
      && (forall t :: t in old(turns) ==> t in turns && turns[t].conversation == old(turns)[t].conversation)
      && (forall t :: t in old(turns) && !old(turns)[t].status.Running? ==> turns[t] == old(turns)[t])
    }

    method CreateTurn(conversation: ConversationId, body: string) returns (created: Result<TurnId, StoreError>)
      requires Valid()
      modifies this
      ensures Valid() && Kept() && old(nextTurn) <= nextTurn
      ensures created.Err? ==> turns == old(turns) && messages == old(messages)
      ensures created.Err? && created.error.ActiveTurn? ==>
        HasRunning(conversation)
      ensures reliable ==> (created.Ok? <==>
        Trim(body) != "" && conversation in conversations && !old(HasRunning(conversation)))
      ensures created.Ok? ==>
        && created.value == old(nextTurn) < nextTurn && created.value !in old(turns)
        && turns == old(turns)[created.value := Turn(conversation, |old(messages)|, Running, None, None)]
        && messages == old(messages) + [Message(conversation, User, Trim(body), [])]
        && Trim(body) != "" && conversation in conversations
    {
      var clean := Trim(body);
      if clean == "" {
        return Err(EmptyBody);
      }
      if conversation !in conversations {
        return Err(ConversationNotFound);
      }
      if HasRunning(conversation) {
        return Err(ActiveTurn);
      }
      var fails: bool := *;
      if fails && !reliable {
        return Err(StorageFailed);
      }
      var id := nextTurn;
      turns := turns[id := Turn(conversation, |messages|, Running, None, None)];
      messages := messages + [Message(conversation, User, clean, [])];
      nextTurn := nextTurn + 1;
      return Ok(id);
    }

    method CompleteTurn(turnId: TurnId, body: string, refs: seq<string>) returns (failed: Option<StoreError>)
      requires Valid()
      modifies this
      ensures Valid() && Kept()
      ensures failed.Some? ==> turns == old(turns) && messages == old(messages)
      ensures failed.None? ==>
        && turnId in old(turns) && old(turns)[turnId].status.Running?
        && messages == old(messages) + [Message(turns[turnId].conversation, Assistant, body, Unique(refs))]
        && turns == old(turns)[turnId := old(turns)[turnId].(status := Completed, assistantMessage := Some(|old(messages)|))]
      ensures reliable && turnId in old(turns) && old(turns)[turnId].status.Running? && |Unique(refs)| <= MAX_PRESENTED ==>
        failed.None?
    {
      var unique := Unique(refs);
      if |unique| > MAX_PRESENTED {
        return Some(TooManyRefs);
      }
      if turnId !in turns {
        return Some(TurnNotFound);
      }
      if !turns[turnId].status.Running? {
        return Some(TurnNotRunning);
      }
      var fails: bool := *;
      if fails && !reliable {
        return Some(StorageFailed);
      }
      var turn := turns[turnId];
      turns := turns[turnId := turn.(status := Completed, assistantMessage := Some(|messages|))];
      messages := messages + [Message(turn.conversation, Assistant, body, unique)];
      return None;
    }

    /** An ended turn is returned as it is; only a running one is written. */
    method FinishWithoutMessage(turnId: TurnId, status: Status, code: Option<ErrorCode>) returns (failed: Option<StoreError>)
      requires Valid() && (status.Failed? || status.Cancelled? || status.Interrupted?)
      modifies this
      ensures Valid() && Kept() && messages == old(messages) && nextTurn == old(nextTurn)
      ensures failed.Some? ==> turns == old(turns)
      ensures failed.None? ==> turnId in old(turns)
      ensures failed.None? && !old(turns)[turnId].status.Running? ==> turns == old(turns)
      ensures failed.None? && old(turns)[turnId].status.Running? ==>
        turns == old(turns)[turnId := old(turns)[turnId].(status := status, errorCode := code)]
      ensures reliable && turnId in old(turns) && (code.Some? ==> StorableCode(code.value)) ==> failed.None?
      ensures code.Some? && !StorableCode(code.value) ==> failed.Some?
    {
      if code.Some? && !StorableCode(code.value) {
        return Some(InvalidErrorCode);
      }
      if turnId !in turns {
        return Some(TurnNotFound);
      }
      var fails: bool := *;
      if fails && !reliable {
        return Some(StorageFailed);
      }
      if turns[turnId].status.Running? {
        turns := turns[turnId := turns[turnId].(status := status, errorCode := code)];
      }
      return None;
    }

    /** At start-up every turn still running belongs to a dead process. */
    method InterruptOrphanedRunningTurns() returns (count: nat)
      requires Valid()
      modifies this
      ensures Valid() && Kept() && messages == old(messages)
      ensures turns.Keys == old(turns).Keys
      ensures forall t :: t in turns && old(turns)[t].status.Running? ==>
        turns[t] == old(turns)[t].(status := Interrupted, errorCode := Some(ProcessRestarted))
      ensures count == |set t | t in old(turns) && old(turns)[t].status.Running?|
    {
      count := |set t | t in turns && turns[t].status.Running?|;
      turns := map t | t in turns ::
        if turns[t].status.Running? then turns[t].(status := Interrupted, errorCode := Some(ProcessRestarted)) else turns[t];
    }
  }
}
