/** Server-owned thread metadata and the record of which assistant owns a thread. */
module ThreadStore {
  import opened Items

  datatype Status = Idle | Busy

  /** Thread metadata; `json` is the length of its serialization. */
  datatype Thread = Thread(threadId: string, status: Status, json: nat)

  datatype StoredThread = StoredThread(thread: Thread, assistant: Option<string>)

  type Records = map<string, StoredThread>

  function OwnerOf(records: Records, thread: string): Option<string> {
    if thread in records then records[thread].assistant else None
  }

  /** Creates or replaces metadata; the owner is read again and kept. */
  function PutStep(records: Records, thread: Thread): Records {
    records[thread.threadId := StoredThread(thread, OwnerOf(records, thread.threadId))]
  }

  datatype Claimed = Claimed | NotFound | OtherOwner(owner: string)

  function ClaimVerdict(records: Records, thread: string, assistant: string): Claimed {
    if thread !in records then NotFound
    else match records[thread].assistant
      case None => Claimed
      case Some(owner) => if owner == assistant then Claimed else OtherOwner(owner)
  }

  function ClaimStep(records: Records, thread: string, assistant: string): Records {
    if ClaimVerdict(records, thread, assistant) == Claimed
    then records[thread := records[thread].(assistant := Some(assistant))]
    else records
  }

  /** An owner, once set, is kept by every write to the store. */
  lemma OwnerKept(records: Records, thread: string, put: Thread, claimed: string, assistant: string)
    requires OwnerOf(records, thread).Some?
    ensures OwnerOf(PutStep(records, put), thread) == OwnerOf(records, thread)
    ensures OwnerOf(ClaimStep(records, claimed, assistant), thread) == OwnerOf(records, thread)
  {
  }

  class InMemoryThreadStore {
    const maxThreadBytes: nat
    var threads: Records

    constructor (maxThreadBytes: nat)
      ensures threads == map[] && this.maxThreadBytes == maxThreadBytes
    {
      this.maxThreadBytes, threads := maxThreadBytes, map[];
    }

    /** The cache may lose entries at any time, by age or by count. */
    method Lose(lost: set<string>)
      modifies this
      ensures threads == old(threads) - lost
    {
      threads := threads - lost;
    }

    method GetThread(thread: string) returns (copy: Option<Thread>)
      ensures copy == if thread in threads then Some(threads[thread].thread) else None
    {
      copy := if thread in threads then Some(threads[thread].thread) else None;
    }

    method PutThread(thread: Thread) returns (stored: bool)
      modifies this
      ensures stored <==> thread.json <= maxThreadBytes
      ensures threads == if stored then PutStep(old(threads), thread) else old(threads)
      ensures forall t :: OwnerOf(threads, t) == OwnerOf(old(threads), t)
      ensures stored ==> thread.threadId in threads && threads[thread.threadId].thread == thread
      ensures forall t :: t != thread.threadId ==>
                (t in threads <==> t in old(threads)) && (t in threads ==> threads[t] == old(threads)[t])
    {
      if thread.json > maxThreadBytes {
        return false;
      }
      var assistant: Option<string> := None;
      if thread.threadId in threads {
        assistant := threads[thread.threadId].assistant;
      }
      threads := threads[thread.threadId := StoredThread(thread, assistant)];
      return true;
    }

    method GetAssistantId(thread: string) returns (assistant: Option<string>)
      ensures assistant == OwnerOf(threads, thread)
    {
      assistant := if thread in threads then threads[thread].assistant else None;
    }

    method ClaimAssistant(thread: string, assistant: string) returns (verdict: Claimed)
      modifies this
      ensures verdict == ClaimVerdict(old(threads), thread, assistant)
      ensures threads == ClaimStep(old(threads), thread, assistant)
      ensures verdict == NotFound <==> thread !in old(threads)
      ensures verdict == Claimed <==> OwnerOf(threads, thread) == Some(assistant)
      ensures forall owner :: verdict == OtherOwner(owner) <==>
                thread in old(threads) && old(threads)[thread].assistant == Some(owner) && owner != assistant
      ensures threads.Keys == old(threads).Keys
      ensures forall t :: t in threads ==> threads[t].thread == old(threads)[t].thread
      ensures forall t :: t in threads && (t != thread || verdict != Claimed) ==> threads[t] == old(threads)[t]
      ensures forall t :: OwnerOf(old(threads), t).Some? ==> OwnerOf(threads, t) == OwnerOf(old(threads), t)
    {
      if thread !in threads {
        return NotFound;
      }
      var record := threads[thread];
      if record.assistant.Some? && record.assistant.value != assistant {
        return OtherOwner(record.assistant.value);
      }
      record := record.(assistant := Some(assistant));
      threads := threads[thread := record];
      return Claimed;
    }

    method DeleteThread(thread: string)
      modifies this
      ensures threads == old(threads) - {thread}
    {
      threads := threads - {thread};
    }
  }
}

/** Claiming a thread for an assistant when no other request interferes. */
module ThreadOwnership {
  import opened Items
  import opened ThreadStore

  /** The newest checkpoint of the thread, and in it the assistant marker, if any. */
  type Latest = Option<Option<string>>

  datatype Resolved = Owner(assistant: Option<string>) | Failed(reason: Claimed)

  method GetThreadAssistantId(thread: string, latest: Latest, store: InMemoryThreadStore) returns (resolved: Resolved)
    modifies store
    ensures var owner := OwnerOf(old(store.threads), thread);
            if owner.Some? then resolved == Owner(owner) && store.threads == old(store.threads)
            else if latest.Some? && latest.value.Some? then
              if thread in old(store.threads)
              then && resolved == Owner(latest.value)
                   && store.threads == ClaimStep(old(store.threads), thread, latest.value.value)
              else resolved == Failed(NotFound) && store.threads == old(store.threads)
            else resolved == Owner(None) && store.threads == old(store.threads)
  {
    var assistant := store.GetAssistantId(thread);
    if assistant.Some? {
      return Owner(assistant);
    }
    if latest.None? {
      return Owner(None);
    }
    assistant := latest.value;
    if assistant.Some? {
      var verdict := store.ClaimAssistant(thread, assistant.value);
      if verdict != Claimed {
        return Failed(verdict);
      }
    }
    return Owner(assistant);
  }

  datatype ClaimResult = Accepted | Conflict | Missing

  /** The assistant that owns a thread by record or, failing that, by its newest checkpoint. */
  function DurableOwner(records: Records, thread: string, latest: Latest): Option<string> {
    if OwnerOf(records, thread).Some? then OwnerOf(records, thread)
    else if latest.Some? then latest.value
    else None
  }

  /**
   A recorded thread accepts an assistant exactly when its durable owner is that
   assistant or absent; either way the store then records the durable owner.
   */
  method ClaimThreadAssistant(thread: string, assistant: string, latest: Latest, store: InMemoryThreadStore)
    returns (result: ClaimResult)
    modifies store
    ensures result == Missing <==> thread !in old(store.threads)
    ensures thread in old(store.threads) ==>
              var owner := DurableOwner(old(store.threads), thread, latest);
              && (result == Accepted <==> owner == None || owner == Some(assistant))
              && OwnerOf(store.threads, thread) == (if owner == None then Some(assistant) else owner)
    ensures thread in old(store.threads) && old(store.threads)[thread].assistant.Some? ==>
              && (result == Accepted <==> old(store.threads)[thread].assistant.value == assistant)
              && store.threads[thread].assistant == old(store.threads)[thread].assistant
    ensures thread in old(store.threads) && old(store.threads)[thread].assistant == None
            && latest.Some? && latest.value.Some? ==>
              && (result == Accepted <==> latest.value.value == assistant)
              && store.threads[thread].assistant == latest.value
    ensures thread in old(store.threads) && old(store.threads)[thread].assistant == None
            && (latest.Some? ==> latest.value == None) ==>
              result == Accepted && store.threads[thread].assistant == Some(assistant)
    ensures forall t :: t != thread ==> OwnerOf(store.threads, t) == OwnerOf(old(store.threads), t)
    ensures store.threads.Keys == old(store.threads).Keys
  {
    var existing := GetThreadAssistantId(thread, latest, store);
    if existing.Failed? {
      return Missing;
    }
    if existing.assistant.Some? && existing.assistant.value != assistant {
      return Conflict;
    }
    var verdict := store.ClaimAssistant(thread, assistant);
    match verdict
    case Claimed => result := Accepted;
    case NotFound => result := Missing;
    case OtherOwner(_) => result := Conflict;
  }
}
