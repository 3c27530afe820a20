/** Session storage as a map from session identifiers, and the client's load-decrypt-save order. */
module SessionStore {
  import opened Bytes
  import opened Primitives
  import opened RatchetState
  import opened RatchetPersistence
  import opened Text
  import Conversation
  import ConversationRuns

  type Sessions = map<string, PersistedSession>

  function Load(sessions: Sessions, id: string): Result<Option<PersistedSession>> {
    if IsBlank(id) then Err(InvalidRatchetSessionId)
    else if id in sessions then Ok(Some(sessions[id]))
    else Ok(None)
  }

  class InMemorySessionStore {
    var sessions: Sessions

    constructor ()
      ensures sessions == map[]
    {
      sessions := map[];
    }

    method LoadSession(id: string) returns (r: Result<Option<PersistedSession>>)
      ensures IsBlank(id) ==> r == Err(InvalidRatchetSessionId)
      ensures !IsBlank(id) ==> r.Ok? && (r.value.Some? <==> id in sessions)
      ensures !IsBlank(id) && id in sessions ==> r.value == Some(sessions[id])
      ensures r == Load(sessions, id)
    {
      if IsBlank(id) {
        return Err(InvalidRatchetSessionId);
      }
      return if id in sessions then Ok(Some(sessions[id])) else Ok(None);
    }

    method SaveSession(id: string, session: PersistedSession) returns (r: Outcome)
      modifies this
      ensures r == if IsBlank(id) then Fail(InvalidRatchetSessionId) else Pass
      ensures sessions == if IsBlank(id) then old(sessions) else old(sessions)[id := session]
    {
      if IsBlank(id) {
        return Fail(InvalidRatchetSessionId);
      }
      sessions := sessions[id := session];
      return Pass;
    }

    method DeleteSession(id: string) returns (r: Outcome)
      modifies this
      ensures r == if IsBlank(id) then Fail(InvalidRatchetSessionId) else Pass
      ensures sessions == if IsBlank(id) then old(sessions) else old(sessions) - {id}
    {
      if IsBlank(id) {
        return Fail(InvalidRatchetSessionId);
      }
      sessions := sessions - {id};
      return Pass;
    }
  }

  datatype Answer = NoSession | LoadFailed(error: CoreError) | Answered(result: Result<seq<byte>>)

  datatype Served = Served(sessions: Sessions, answer: Answer)

  /** The client's decryption: load the session, decrypt, and save it only if that succeeded. */
  ghost function LoadDecryptSave(sessions: Sessions, id: string, e: Envelope, associatedData: seq<byte>): Served {
    match Load(sessions, id)
    case Err(error) => Served(sessions, LoadFailed(error))
    case Ok(None) => Served(sessions, NoSession)
    case Ok(Some(persisted)) =>
      match Restore(persisted)
      case Err(error) => Served(sessions, LoadFailed(error))
      case Ok(s) =>
        var d := Decrypt(s, e, associatedData);
        if d.result.Ok? then Served(sessions[id := Persist(d.state)], Answered(d.result))
        else Served(sessions, Answered(d.result))
  }

  /**
    With a stored conversation side, the client's decryption answers as the session would, and
    leaves stored exactly the session of the saving client: a failed call changes nothing.
   */
  lemma ServesLikeSavingClient(
    rule: ResetRule, t: Conversation.Talk, side: Conversation.Side, sessions: Sessions, id: string,
    e: Envelope, associatedData: seq<byte>)
    requires Conversation.Invariant(rule, t) && !IsBlank(id)
    requires id in sessions && sessions[id] == Persist(Conversation.SessionOf(t, side))
    ensures var served := LoadDecryptSave(sessions, id, e, associatedData);
            var next := ConversationRuns.HandSaving(t, side, e, associatedData);
            && served.answer == Answered(Decrypt(Conversation.SessionOf(t, side), e, associatedData).result)
            && served.sessions == sessions[id := Persist(Conversation.SessionOf(next, side))]
            && (served.answer.result.Err? ==> served.sessions == sessions)
  {
    var s := Conversation.SessionOf(t, side);
    CacheWithinBounds(rule, t, side);
    SaveThenLoad(s);
    HandSavingSession(t, side, e, associatedData);
    hide Decrypt, Restore, Persist, Conversation.Invariant, ConversationRuns.HandSaving;
  }

  lemma HandSavingSession(
    t: Conversation.Talk, side: Conversation.Side, e: Envelope, associatedData: seq<byte>)
    ensures var s := Conversation.SessionOf(t, side);
            var d := Decrypt(s, e, associatedData);
            Conversation.SessionOf(ConversationRuns.HandSaving(t, side, e, associatedData), side)
            == if d.result.Ok? then d.state else s
  {
    hide Decrypt;
  }

  lemma CacheWithinBounds(rule: ResetRule, t: Conversation.Talk, side: Conversation.Side)
    requires Conversation.Invariant(rule, t)
    ensures |Conversation.SessionOf(t, side).skipped| <= MAX_SKIPPED_MESSAGE_KEYS
  {
    hide Conversation.RootsOk, Conversation.LogOk, Conversation.SessionOk, Conversation.EntryOk, Conversation.Covered;
  }
}
