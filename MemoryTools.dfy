/** The memory tools of memory.py: `add_memory`, `search_memory` and
    `get_all_memories`. Each makes at most one call to the store, always for
    the configured user, and turns every fault into a string result. The
    configured user (`USER_NAME`, read from the environment with "David" as
    the default) is the `userName` parameter. */
module MemoryTools {
  import opened Base
  import opened Text
  import opened Store

  const NoMessagesText := "No messages to save"
  const SavedPrefix := "Saved "
  const SavedSuffix := " messages to memory"
  const SaveErrorPrefix := "Error saving memory: "
  const SearchErrorPrefix := "Error searching memory: "
  const GetAllErrorPrefix := "Error getting memories: "

  /** `f"Saved {len(messages)} messages to memory"`. */
  function SavedText(count: nat): string {
    SavedPrefix + DecimalString(count) + SavedSuffix
  }

  /** The three kinds of answer of `add_memory` cannot be confused, and the
      confirmation carries the count in decimal, readable back. */
  lemma AddMemoryTexts(count: nat, reason: string)
    ensures SaveErrorPrefix <= SaveErrorPrefix + reason
    ensures !(SaveErrorPrefix <= SavedText(count)) && !(SaveErrorPrefix <= NoMessagesText)
    ensures SavedText(count) != NoMessagesText
    ensures var digits := SavedText(count)[|SavedPrefix|..|SavedText(count)| - |SavedSuffix|];
      AllDigits(digits) && DecimalValue(digits) == count
  {
    assert SavedText(count)[0] == 'S' && SaveErrorPrefix[0] == 'E' && NoMessagesText[0] == 'N';
    assert SavedText(count)[|SavedPrefix|..|SavedText(count)| - |SavedSuffix|] == DecimalString(count);
    DecimalRoundTrip(count);
  }

  /** `add_memory(messages)`: an empty list is refused without touching the
      store; otherwise one `add` call for the configured user, answered by a
      count confirmation or, when the store raises, an error string. */
  method AddMemory(store: MemoryStore, userName: string, messages: seq<Entry>, reply: Outcome)
    returns (answer: string)
    modifies store
    ensures messages == [] ==> answer == NoMessagesText && store.log == old(store.log)
    ensures messages != [] ==> store.log == old(store.log) + [AddCall(messages, userName)]
    ensures messages != [] && reply.Done? ==> answer == SavedText(|messages|)
    ensures messages != [] && reply.Failed? ==> answer == SaveErrorPrefix + reply.reason
  {
    if messages == [] {
      return NoMessagesText;
    }
    var res := store.Add(messages, userName, reply);
    if res.Failed? {
      return SaveErrorPrefix + res.reason;
    }
    answer := SavedText(|messages|);
  }

  /** A tool's answer: the projected memories (which the tool serialises with
      `json.dumps(..., indent=2)`), or a message. */
  datatype ToolReply = Memories(views: seq<MemoryView>) | Message(text: string)

  /** The shared tail of `search_memory` and `get_all_memories`: project the
      records, or turn the fault of the store call or of the projection into
      a message starting with `errorPrefix`. */
  function MemoriesReply(fetched: Result<seq<Record>>, errorPrefix: string): ToolReply {
    match fetched
    case Fault(e) => Message(errorPrefix + e)
    case Ok(records) =>
      match Project(records)
      case Fault(e) => Message(errorPrefix + e)
      case Ok(views) => Memories(views)
  }

  /** The tool lists the memories exactly when the store answered and every
      record has both keys; the list then has one `{memory, updated_at}` per
      record, in order. Otherwise the answer is an error message with the
      tool's prefix. */
  lemma MemoriesReplyShape(fetched: Result<seq<Record>>, errorPrefix: string)
    ensures MemoriesReply(fetched, errorPrefix).Memories? <==>
      fetched.Ok? && forall i :: 0 <= i < |fetched.value| ==> HasViewKeys(fetched.value[i])
    ensures MemoriesReply(fetched, errorPrefix).Memories? ==>
      var views := MemoriesReply(fetched, errorPrefix).views;
      |views| == |fetched.value| &&
      forall i :: 0 <= i < |views| ==>
        views[i] == MemoryView(fetched.value[i].fields[MemoryKey], fetched.value[i].fields[UpdatedAtKey])
    ensures MemoriesReply(fetched, errorPrefix).Message? ==>
      errorPrefix <= MemoriesReply(fetched, errorPrefix).text
  {
    if fetched.Ok? {
      ProjectOk(fetched.value);
    }
  }

  /** `search_memory(query)`: one `search` call for the configured user. */
  method SearchMemory(store: MemoryStore, userName: string, query: string, reply: Result<seq<Record>>)
    returns (answer: ToolReply)
    modifies store
    ensures store.log == old(store.log) + [SearchCall(query, userName)]
    ensures answer == MemoriesReply(reply, SearchErrorPrefix)
  {
    var results := store.Search(query, userName, reply);
    answer := MemoriesReply(results, SearchErrorPrefix);
  }

  /** `get_all_memories()`: one `get_all` call for the configured user, with
      the same projection as `search_memory`. */
  method GetAllMemories(store: MemoryStore, userName: string, reply: Result<seq<Record>>)
    returns (answer: ToolReply)
    modifies store
    ensures store.log == old(store.log) + [GetAllCall(userName)]
    ensures answer == MemoriesReply(reply, GetAllErrorPrefix)
  {
    var results := store.GetAll(userName, reply);
    answer := MemoriesReply(results, GetAllErrorPrefix);
  }
}
