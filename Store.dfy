/** The external memory store (the mem0 client) as the core sees it: the
    messages it is asked to add, the records it hands back, the projection of a
    record to `{memory, updated_at}`, and a client object that keeps a ghost log
    of every call made to it. What the store answers to a call is not modelled;
    each call takes the answer as a parameter. */
module Store {
  import opened Base

  /** One `{"role": ..., "content": ...}` dictionary passed to `add`. */
  datatype Entry = Entry(role: string, content: string)

  /** A record returned by `search` or `get_all`: a dictionary whose values the
      core reads as strings (`memory`, `updated_at`, and whatever else the
      store includes). */
  datatype Record = Record(fields: map<string, string>)

  /** The `{"memory": ..., "updated_at": ...}` dictionary a record is projected to. */
  datatype MemoryView = MemoryView(memory: string, updatedAt: string)

  /** A request made to the store, as the ghost log records it. */
  datatype StoreCall =
    | AddCall(messages: seq<Entry>, userId: string)
    | SearchCall(query: string, userId: string)
    | GetAllCall(userId: string)

  const MemoryKey := "memory"
  const UpdatedAtKey := "updated_at"

  /** `str(KeyError(key))`: the key in single quotes. */
  function KeyErrorText(key: string): string {
    "'" + key + "'"
  }

  predicate HasViewKeys(r: Record) {
    MemoryKey in r.fields && UpdatedAtKey in r.fields
  }

  /** `{"memory": r["memory"], "updated_at": r["updated_at"]}`; the first
      missing key raises `KeyError`. */
  function View(r: Record): (v: Result<MemoryView>)
    ensures v.Ok? <==> HasViewKeys(r)
    ensures v.Ok? ==> v.value.memory == r.fields[MemoryKey] && v.value.updatedAt == r.fields[UpdatedAtKey]
    ensures v.Fault? ==> v.reason == KeyErrorText(if MemoryKey in r.fields then UpdatedAtKey else MemoryKey)
  {
    if MemoryKey !in r.fields then Fault(KeyErrorText(MemoryKey))
    else if UpdatedAtKey !in r.fields then Fault(KeyErrorText(UpdatedAtKey))
    else Ok(MemoryView(r.fields[MemoryKey], r.fields[UpdatedAtKey]))
  }

  /** The list comprehension over the records: the projection of each record in
      turn, or the fault of the first record that lacks a key. */
  function Project(records: seq<Record>): Result<seq<MemoryView>>
  {
    if records == [] then Ok([])
    else
      match View(records[0])
      case Fault(e) => Fault(e)
      case Ok(v) =>
        match Project(records[1..])
        case Fault(e) => Fault(e)
        case Ok(vs) => Ok([v] + vs)
  }

  /** The projection succeeds exactly when every record has both keys; it then
      has one entry per record, in record order, each carrying that record's
      `memory` and `updated_at` and nothing else. */
  lemma {:induction false} ProjectOk(records: seq<Record>)
    ensures Project(records).Ok? <==> forall i :: 0 <= i < |records| ==> HasViewKeys(records[i])
    ensures Project(records).Ok? ==>
      |Project(records).value| == |records| &&
      forall i :: 0 <= i < |records| ==>
        Project(records).value[i] == MemoryView(records[i].fields[MemoryKey], records[i].fields[UpdatedAtKey])
  {
    if records != [] {
      ProjectOk(records[1..]);
      assert forall i :: 1 <= i < |records| ==> records[i] == records[1..][i - 1];
    }
  }

  /** A failed projection reports the first missing key as a `KeyError`. */
  lemma {:induction false} ProjectFault(records: seq<Record>)
    ensures Project(records).Fault? ==>
      Project(records).reason in {KeyErrorText(MemoryKey), KeyErrorText(UpdatedAtKey)}
  {
    if records != [] {
      ProjectFault(records[1..]);
    }
  }

  /** The memory-store client. Its only state in the model is the log of the
      calls made through it. */
  class MemoryStore {
    ghost var log: seq<StoreCall>

    constructor ()
      ensures log == []
    {
      log := [];
    }

    /** `add(messages, user_id=userId)`; `reply` is what the store answers. */
    method Add(messages: seq<Entry>, userId: string, reply: Outcome) returns (res: Outcome)
      modifies this
      ensures log == old(log) + [AddCall(messages, userId)]
      ensures res == reply
    {
      log := log + [AddCall(messages, userId)];
      res := reply;
    }

    /** `search(query, user_id=userId)`. */
    method Search(query: string, userId: string, reply: Result<seq<Record>>) returns (res: Result<seq<Record>>)
      modifies this
      ensures log == old(log) + [SearchCall(query, userId)]
      ensures res == reply
    {
      log := log + [SearchCall(query, userId)];
      res := reply;
    }

    /** `get_all(user_id=userId)`. */
    method GetAll(userId: string, reply: Result<seq<Record>>) returns (res: Result<seq<Record>>)
      modifies this
      ensures log == old(log) + [GetAllCall(userId)]
      ensures res == reply
    {
      log := log + [GetAllCall(userId)];
      res := reply;
    }
  }
}
