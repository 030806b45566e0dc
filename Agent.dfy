/** The agent's memory lifecycle: seeding a new session with the user's stored
    memories (`entrypoint`) and consolidating the session transcript into the
    store when the session shuts down (`shutdown_hook`, `shutdown_wrapper`). */
module Agent {
  import opened Base
  import opened Text
  import opened Store

  // ----- transcript items -----

  /** One element of a list-valued `content`: a `str`, or anything else. */
  datatype Fragment = Str(text: string) | NonText

  /** The `content` attribute of a chat item: a list of fragments, or any
      other value, given here by its `str()` form. */
  datatype Content = Scalar(shown: string) | Fragments(parts: seq<Fragment>)

  /** A chat item of the session history. `None` stands for a missing
      attribute (`hasattr` is false). */
  datatype Item = Item(role: Option<string>, content: Option<Content>)

  /** `"".join(parts)`: the fragments concatenated with no separator, or
      `None` when a fragment is not a `str` (Python raises `TypeError`). */
  function JoinFragments(parts: seq<Fragment>): Option<string>
  {
    if parts == [] then Some("")
    else
      match parts[0]
      case NonText => None
      case Str(t) =>
        match JoinFragments(parts[1..])
        case None => None
        case Some(rest) => Some(t + rest)
  }

  /** Joining is all-or-nothing: it fails exactly when some fragment is not text. */
  lemma {:induction false} JoinFragmentsDefined(parts: seq<Fragment>)
    ensures JoinFragments(parts).None? <==> exists k :: 0 <= k < |parts| && parts[k].NonText?
  {
    if parts != [] {
      JoinFragmentsDefined(parts[1..]);
      if parts[0].Str? && JoinFragments(parts).None? {
        var k :| 0 <= k < |parts[1..]| && parts[1..][k].NonText?;
        assert parts[k + 1].NonText?;
      }
    }
  }

  /** No characters are lost or added: the join of two runs of fragments is
      the join of the first followed by the join of the second, and a single
      text fragment joins to itself. */
  lemma {:induction false} JoinFragmentsAppend(a: seq<Fragment>, b: seq<Fragment>)
    ensures JoinFragments(a + b) ==
      (if JoinFragments(a).Some? && JoinFragments(b).Some?
       then Some(JoinFragments(a).value + JoinFragments(b).value) else None)
    ensures forall t :: JoinFragments([Str(t)]) == Some(t)
  {
    forall t ensures JoinFragments([Str(t)]) == Some(t) {
      assert [Str(t)][1..] == [];
      assert t + "" == t;
    }
    if a == [] {
      assert a + b == b;
      if JoinFragments(b).Some? {
        assert "" + JoinFragments(b).value == JoinFragments(b).value;
      }
    } else {
      assert (a + b)[1..] == a[1..] + b;
      JoinFragmentsAppend(a[1..], b);
      if a[0].Str? && JoinFragments(a[1..]).Some? && JoinFragments(b).Some? {
        assert a[0].text + (JoinFragments(a[1..]).value + JoinFragments(b).value)
            == (a[0].text + JoinFragments(a[1..]).value) + JoinFragments(b).value;
      }
    }
  }

  /** `"".join(content)` for a list, `str(content)` otherwise. */
  function Coerce(c: Content): Option<string> {
    match c
    case Scalar(shown) => Some(shown)
    case Fragments(parts) => JoinFragments(parts)
  }

  /** The item has both a `role` and a `content` attribute. */
  predicate WellFormed(it: Item) {
    it.role.Some? && it.content.Some?
  }

  predicate IsConversationRole(role: string) {
    role == "user" || role == "assistant"
  }

  /** The item is both well formed and spoken by the user or the assistant. */
  predicate Eligible(it: Item) {
    WellFormed(it) && IsConversationRole(it.role.value)
  }

  /** The entry stored for an eligible item whose content coerces to text. */
  function Normalized(it: Item): Entry
    requires WellFormed(it) && Coerce(it.content.value).Some?
  {
    Entry(it.role.value, Strip(Coerce(it.content.value).value))
  }

  /** One turn of the loop in `shutdown_hook`: nothing for a malformed item;
      a fault when the content of a well-formed item cannot be coerced (this
      happens before the role is looked at); otherwise the normalised entry if
      the role is kept, and nothing if it is not. */
  function FormatItem(it: Item): Option<seq<Entry>> {
    if !WellFormed(it) then Some([])
    else if Coerce(it.content.value).None? then None
    else if IsConversationRole(it.role.value) then Some([Normalized(it)])
    else Some([])
  }

  /** Sequencing of two runs of the loop: a fault anywhere is a fault. */
  function Then(a: Option<seq<Entry>>, b: Option<seq<Entry>>): Option<seq<Entry>> {
    if a.Some? && b.Some? then Some(a.value + b.value) else None
  }

  /** `message_formatted` after the loop over `items`, or `None` when the loop
      raised (and the `except` clause took over). */
  function Formatted(items: seq<Item>): Option<seq<Entry>> {
    if items == [] then Some([]) else Then(FormatItem(items[0]), Formatted(items[1..]))
  }

  lemma {:induction false} FormattedAppend(a: seq<Item>, b: seq<Item>)
    ensures Formatted(a + b) == Then(Formatted(a), Formatted(b))
  {
    if a == [] {
      assert a + b == b;
      if Formatted(b).Some? {
        assert [] + Formatted(b).value == Formatted(b).value;
      }
    } else {
      assert (a + b)[1..] == a[1..] + b;
      FormattedAppend(a[1..], b);
      var x, y, z := FormatItem(a[0]), Formatted(a[1..]), Formatted(b);
      if x.Some? && y.Some? && z.Some? {
        assert x.value + (y.value + z.value) == (x.value + y.value) + z.value;
      }
    }
  }

  lemma FormattedSingle(it: Item)
    ensures Formatted([it]) == FormatItem(it)
  {
    assert [it][1..] == [];
    if FormatItem(it).Some? {
      assert FormatItem(it).value + [] == FormatItem(it).value;
    }
  }

  /** The loop of `shutdown_hook`, step by step. */
  method FormatMessages(items: seq<Item>) returns (r: Option<seq<Entry>>)
    ensures r == Formatted(items)
  {
    var formatted: seq<Entry> := [];
    var i := 0;
    while i < |items|
      invariant 0 <= i <= |items|
      invariant Formatted(items[..i]) == Some(formatted)
    {
      var item := items[i];
      FormattedAppend(items[..i], [item]);
      assert items[..i + 1] == items[..i] + [item];
      FormattedSingle(item);
      if item.content.None? || item.role.None? {
        assert formatted + [] == formatted;
        i := i + 1;
        continue;
      }
      var text := Coerce(item.content.value);
      if text.None? {
        FormattedAppend(items[..i + 1], items[i + 1..]);
        assert items[..i + 1] + items[i + 1..] == items;
        return None;
      }
      if IsConversationRole(item.role.value) {
        formatted := formatted + [Entry(item.role.value, Strip(text.value))];
      } else {
        assert formatted + [] == formatted;
      }
      i := i + 1;
    }
    assert items[..i] == items;
    r := Some(formatted);
  }

  // ----- what the consolidated transcript is -----

  /** The items the loop keeps, in their original order. */
  function Kept(items: seq<Item>): seq<Item> {
    if items == [] then []
    else (if Eligible(items[0]) then [items[0]] else []) + Kept(items[1..])
  }

  /** `sub` is `s` with some elements left out, order unchanged. */
  predicate IsSubsequence(sub: seq<Item>, s: seq<Item>)
    decreases |s|
  {
    if sub == [] then true
    else if s == [] then false
    else if sub[0] == s[0] then IsSubsequence(sub[1..], s[1..])
    else IsSubsequence(sub, s[1..])
  }

  /** Selecting from `a + b` is selecting from `a`, then from `b`. */
  lemma {:induction false} KeptAppend(a: seq<Item>, b: seq<Item>)
    ensures Kept(a + b) == Kept(a) + Kept(b)
  {
    if a == [] {
      assert a + b == b;
    } else {
      assert (a + b)[1..] == a[1..] + b;
      KeptAppend(a[1..], b);
      var h := if Eligible(a[0]) then [a[0]] else [];
      assert h + (Kept(a[1..]) + Kept(b)) == (h + Kept(a[1..])) + Kept(b);
    }
  }

  /** `Kept` is an order-preserving selection of the eligible items: it is a
      subsequence of the input, holds only eligible items, and misses none:
      every eligible item, repeated turns included, appears at the position
      given by the number of items kept before it. */
  lemma {:induction false} KeptIsSelection(items: seq<Item>)
    ensures IsSubsequence(Kept(items), items)
    ensures |Kept(items)| <= |items|
    ensures forall k :: 0 <= k < |Kept(items)| ==> Eligible(Kept(items)[k])
    ensures forall j :: 0 <= j < |items| && Eligible(items[j]) ==>
      |Kept(items[..j])| < |Kept(items)| && Kept(items)[|Kept(items[..j])|] == items[j]
  {
    if items != [] {
      KeptIsSelection(items[1..]);
      var rest := Kept(items[1..]);
      if Eligible(items[0]) {
        assert Kept(items) == [items[0]] + rest;
        assert Kept(items)[1..] == rest;
      } else {
        assert Kept(items) == rest;
        assert rest != [] ==> Eligible(rest[0]) && rest[0] != items[0];
      }
    }
    forall j | 0 <= j < |items| && Eligible(items[j])
      ensures |Kept(items[..j])| < |Kept(items)| && Kept(items)[|Kept(items[..j])|] == items[j]
    {
      KeptAppend(items[..j], items[j..]);
      assert items[..j] + items[j..] == items;
      assert items[j..][1..] == items[j + 1..];
      assert Kept(items[j..]) == [items[j]] + Kept(items[j + 1..]);
    }
  }

  /** The loop faults exactly when some well-formed item (of any role) has a
      list content holding a fragment that is not text. */
  lemma {:induction false} FormattedFault(items: seq<Item>)
    ensures Formatted(items).None? <==>
      exists j :: 0 <= j < |items| && WellFormed(items[j]) && Coerce(items[j].content.value).None?
  {
    if items != [] {
      FormattedFault(items[1..]);
      if Formatted(items).None? && FormatItem(items[0]).Some? {
        var j :| 0 <= j < |items[1..]| && WellFormed(items[1..][j]) && Coerce(items[1..][j].content.value).None?;
        assert items[j + 1] == items[1..][j];
      }
      if !Formatted(items).None? {
        forall j | 0 <= j < |items| ensures !(WellFormed(items[j]) && Coerce(items[j].content.value).None?) {
          if j > 0 { assert items[j] == items[1..][j - 1]; }
        }
      }
    }
  }

  /** `e` is the entry the loop stores for item `it`. */
  predicate StoredAs(it: Item, e: Entry) {
    Eligible(it) && Coerce(it.content.value).Some? && e == Normalized(it)
  }

  /** When the loop completes, the formatted list holds one entry per kept
      item, in order: the item's role and its content coerced to text and
      stripped. */
  lemma {:induction false} FormattedEntries(items: seq<Item>)
    requires Formatted(items).Some?
    ensures |Formatted(items).value| == |Kept(items)|
    ensures forall k :: 0 <= k < |Kept(items)| ==> StoredAs(Kept(items)[k], Formatted(items).value[k])
  {
    if items != [] {
      var head := FormatItem(items[0]);
      var tail := Formatted(items[1..]);
      assert head.Some? && tail.Some?;
      FormattedEntries(items[1..]);
      var es := Formatted(items).value;
      var kept := Kept(items[1..]);
      assert es == head.value + tail.value;
      if Eligible(items[0]) {
        assert head.value == [Normalized(items[0])];
        assert Kept(items) == [items[0]] + kept;
        assert StoredAs(items[0], es[0]);
        forall k | 1 <= k < |es| ensures StoredAs(Kept(items)[k], es[k]) {
          assert es[k] == tail.value[k - 1];
          assert Kept(items)[k] == kept[k - 1];
        }
      } else {
        assert head.value == [];
        assert es == tail.value;
        assert Kept(items) == kept;
      }
    }
  }

  /** Every stored entry has role "user" or "assistant" and content with no
      whitespace at either end. */
  lemma FormattedRolesTrimmed(items: seq<Item>)
    requires Formatted(items).Some?
    ensures forall k :: 0 <= k < |Formatted(items).value| ==>
      IsConversationRole(Formatted(items).value[k].role) && Trimmed(Formatted(items).value[k].content)
  {
    FormattedEntries(items);
    var es := Formatted(items).value;
    forall k | 0 <= k < |es| ensures IsConversationRole(es[k].role) && Trimmed(es[k].content) {
      StripSlice(Coerce(Kept(items)[k].content.value).value);
    }
  }

  /** A whitespace-only content is stored as an empty string, not dropped. */
  lemma WhitespaceContentKept(role: string, text: string)
    requires IsConversationRole(role) && AllSpace(text)
    ensures Formatted([Item(Some(role), Some(Scalar(text)))]) == Some([Entry(role, "")])
  {
    StripEmpty(text);
    FormattedSingle(Item(Some(role), Some(Scalar(text))));
  }

  /** The transcript of the end-to-end scenario: the system turn is dropped and
      the other two are kept, in order. */
  lemma ScenarioTranscript()
    ensures Formatted([Item(Some("user"), Some(Scalar("hi"))),
                       Item(Some("system"), Some(Scalar("noop"))),
                       Item(Some("assistant"), Some(Scalar("hello")))])
         == Some([Entry("user", "hi"), Entry("assistant", "hello")])
  {
    var u, s, a := Item(Some("user"), Some(Scalar("hi"))),
                   Item(Some("system"), Some(Scalar("noop"))),
                   Item(Some("assistant"), Some(Scalar("hello")));
    var eu, ea := Entry("user", "hi"), Entry("assistant", "hello");
    StripKeepsTrimmed("hi");
    StripKeepsTrimmed("hello");
    assert FormatItem(u) == Some([eu]);
    assert FormatItem(s) == Some([]);
    assert FormatItem(a) == Some([ea]);
    FormattedSingle(a);
    assert [s, a][1..] == [a];
    assert Formatted([s, a]) == Then(Some([]), Some([ea]));
    assert [] + [ea] == [ea];
    assert [u, s, a][1..] == [s, a];
    assert Formatted([u, s, a]) == Then(Some([eu]), Some([ea]));
    assert [eu] + [ea] == [eu, ea];
  }

  // ----- shutdown hook -----

  /** What `shutdown_hook` logs as its conclusion. */
  datatype HookOutcome = Saved | NothingToSave | FormatFailed | SaveFailed(reason: string)

  /** `getattr(chat_ctx, "_messages", [])`. */
  function HistoryItems(history: Option<seq<Item>>): seq<Item> {
    history.GetOr([])
  }

  /** The calls the hook makes to the store for a given history. */
  function HookCalls(items: seq<Item>, userName: string): (calls: seq<StoreCall>)
    ensures |calls| <= 1
    ensures |calls| == 1 <==> Formatted(items).Some? && Formatted(items).value != []
    ensures |calls| == 1 ==> calls[0] == AddCall(Formatted(items).value, userName)
  {
    var f := Formatted(items);
    if f.Some? && f.value != [] then [AddCall(f.value, userName)] else []
  }

  /** The conclusion the hook reaches for a history, given the store's answer. */
  function HookResult(items: seq<Item>, reply: Outcome): HookOutcome {
    match Formatted(items)
    case None => FormatFailed
    case Some(es) =>
      if es == [] then NothingToSave
      else if reply.Done? then Saved
      else SaveFailed(reply.reason)
  }

  /** `shutdown_hook(session, mem0, user_name)`: format the history and add it
      to the store if anything is left. Every fault is caught. */
  method ShutdownHook(history: Option<seq<Item>>, store: MemoryStore, userName: string, reply: Outcome)
    returns (outcome: HookOutcome)
    modifies store
    ensures store.log == old(store.log) + HookCalls(HistoryItems(history), userName)
    ensures outcome == HookResult(HistoryItems(history), reply)
  {
    var messages := HistoryItems(history);
    var formatted := FormatMessages(messages);
    if formatted.None? {
      return FormatFailed;
    }
    if formatted.value != [] {
      var res := store.Add(formatted.value, userName, reply);
      outcome := if res.Done? then Saved else SaveFailed(res.reason);
    } else {
      outcome := NothingToSave;
    }
  }

  /** `shutdown_wrapper`: the hook runs only when the memory client was
      initialised (`if mem0:`); otherwise nothing is called. */
  method ShutdownWrapper(memoryEnabled: bool, history: Option<seq<Item>>, store: MemoryStore, userName: string, reply: Outcome)
    returns (outcome: Option<HookOutcome>)
    modifies store
    ensures !memoryEnabled ==> outcome == None && store.log == old(store.log)
    ensures memoryEnabled ==>
      outcome == Some(HookResult(HistoryItems(history), reply)) &&
      store.log == old(store.log) + HookCalls(HistoryItems(history), userName)
  {
    if memoryEnabled {
      var o := ShutdownHook(history, store, userName, reply);
      outcome := Some(o);
    } else {
      outcome := None;
    }
  }

  // ----- context seeding -----

  /** A message of the initial chat context. */
  datatype ChatMessage = ChatMessage(role: string, content: string)

  /** How session start-up ends as far as memory is concerned: whether the
      memory client is kept (`mem0` is not `None`) and the initial context;
      or a crash of `entrypoint`, since the projection of the records is not
      inside a `try`. */
  datatype SeedOutcome =
    | Seeded(memoryEnabled: bool, context: seq<ChatMessage>)
    | StartupCrash(reason: string)

  const SeedIntro := "The user's name is "
  const SeedLink := ", and this is relevant context about him: "

  /** The seed message text around the serialised memories `memoryText`. */
  function SeedText(userName: string, memoryText: string): string {
    SeedIntro + userName + SeedLink + memoryText + "."
  }

  /** Start-up seeding. `fetched` is the outcome of constructing the client
      and calling `get_all` (a fault from either); `dumps` stands for
      `json.dumps`, whose exact text is not modelled. */
  function SeedContext(userName: string, fetched: Result<seq<Record>>, dumps: seq<MemoryView> -> string): SeedOutcome {
    match fetched
    case Fault(_) => Seeded(false, [])
    case Ok(records) =>
      if records == [] then Seeded(true, [])
      else
        match Project(records)
        case Fault(e) => StartupCrash(e)
        case Ok(memories) => Seeded(true, [ChatMessage("assistant", SeedText(userName, dumps(memories)))])
  }

  /** The seeded context is empty when the client failed or there are no
      memories; otherwise, unless a record lacks a key, it is exactly one
      `assistant` message that mentions the user's name and the serialised
      projection of all the records, one entry per record, in order. */
  lemma SeedContextShape(userName: string, fetched: Result<seq<Record>>, dumps: seq<MemoryView> -> string)
    ensures fetched.Fault? ==> SeedContext(userName, fetched, dumps) == Seeded(false, [])
    ensures fetched == Ok([]) ==> SeedContext(userName, fetched, dumps) == Seeded(true, [])
    ensures SeedContext(userName, fetched, dumps).StartupCrash? <==>
      fetched.Ok? && exists i :: 0 <= i < |fetched.value| && !HasViewKeys(fetched.value[i])
    ensures fetched.Ok? && fetched.value != [] && SeedContext(userName, fetched, dumps).Seeded? ==>
      SeedContext(userName, fetched, dumps).memoryEnabled &&
      var memories := Project(fetched.value).value;
      var ctx := SeedContext(userName, fetched, dumps).context;
      |memories| == |fetched.value| &&
      (forall i :: 0 <= i < |memories| ==>
        memories[i] == MemoryView(fetched.value[i].fields[MemoryKey], fetched.value[i].fields[UpdatedAtKey])) &&
      |ctx| == 1 && ctx[0].role == "assistant" &&
      Contains(ctx[0].content, userName) && Contains(ctx[0].content, dumps(memories))
  {
    if fetched.Ok? {
      ProjectOk(fetched.value);
      if fetched.value != [] && Project(fetched.value).Ok? {
        var memories := Project(fetched.value).value;
        var text := SeedText(userName, dumps(memories));
        ContainsMiddle(SeedIntro, userName, SeedLink + dumps(memories) + ".");
        assert text == SeedIntro + userName + (SeedLink + dumps(memories) + ".");
        ContainsMiddle(SeedIntro + userName + SeedLink, dumps(memories), ".");
      }
    }
  }

  /** The memory part of `entrypoint`: construct the client, fetch all the
      user's memories and build the initial context. When constructing the
      client fails, `get_all` is never called. */
  method SeedSession(store: MemoryStore, userName: string, connect: Outcome,
                     reply: Result<seq<Record>>, dumps: seq<MemoryView> -> string)
    returns (seed: SeedOutcome)
    modifies store
    ensures connect.Failed? ==> store.log == old(store.log) && seed == Seeded(false, [])
    ensures connect.Done? ==>
      store.log == old(store.log) + [GetAllCall(userName)] && seed == SeedContext(userName, reply, dumps)
  {
    if connect.Failed? {
      return Seeded(false, []);
    }
    var results := store.GetAll(userName, reply);
    seed := SeedContext(userName, results, dumps);
  }
}
