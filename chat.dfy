/** The chat page's state and handlers: the message list (appended on a
    live `receiveMessage` and on send, replaced when history loads), the
    typing indicator with its single timer slot, and the search index with
    its cyclic cursor.

    Time is a discrete clock passed to the handlers that read it; a pending
    timer is the instant it fires. Ids that the page makes from `Date.now()`
    are passed in. Socket emits and store calls are appended to logs. */
module Chat {
  import opened Wrappers
  import Text
  import ChatService

  type UserId = string

  /** One entry of the page's `messages` list. */
  datatype Message = Message(senderId: UserId, content: string, timestamp: int, id: string)

  /** What the page emits on its socket. */
  datatype ClientEmit =
    | Join(userId: UserId)
    | SendMessage(senderId: UserId, receiverId: UserId, message: string)
    | Typing(senderId: UserId, receiverId: UserId)

  /** A send that has emitted and issued its persistence call and is waiting
      for that call to resolve. */
  datatype PendingSend = PendingSend(senderId: UserId, content: string, timestamp: int)

  /** How long the typing indicator stays on after the last event. */
  const TypingTimeoutMs: int := 3000

  /** A JavaScript value that is truthy: present and not the empty string. */
  predicate Known(id: Option<UserId>)
  {
    id.Some? && id.value != ""
  }

  /** A history document as the page lists it. */
  function FromDoc(d: ChatService.Doc): Message
  {
    Message(d.senderId, d.content, d.timestamp, d.id)
  }

  function FromDocs(ds: seq<ChatService.Doc>): (r: seq<Message>)
    ensures |r| == |ds|
    ensures forall i :: 0 <= i < |ds| ==> r[i] == FromDoc(ds[i])
  {
    seq(|ds|, i requires 0 <= i < |ds| => FromDoc(ds[i]))
  }

  // ---------------------------------------------------------------------------
  // Search

  /** The lowercased content contains the lowercased query. */
  predicate Hit(content: string, query: string)
  {
    Text.Contains(Text.Lower(content), Text.Lower(query))
  }

  ghost predicate StrictlyIncreasing(r: seq<nat>)
  {
    forall j1, j2 :: 0 <= j1 < j2 < |r| ==> r[j1] < r[j2]
  }

  /** The indices from `k` on whose message content matches `query`. */
  function MatchesFrom(messages: seq<Message>, query: string, k: nat): (r: seq<nat>)
    requires k <= |messages|
    ensures StrictlyIncreasing(r)
    ensures forall j :: 0 <= j < |r| ==> k <= r[j] < |messages|
    ensures forall i :: i in r <==> k <= i < |messages| && Hit(messages[i].content, query)
    decreases |messages| - k
  {
    if k == |messages| then []
    else (if Hit(messages[k].content, query) then [k] else []) + MatchesFrom(messages, query, k + 1)
  }

  /** `handleSearch`'s result list: empty for a blank query, otherwise the
      ascending indices of the messages that match the untrimmed query. */
  function SearchResults(messages: seq<Message>, query: string): (r: seq<nat>)
    ensures Text.IsBlank(query) ==> r == []
    ensures !Text.IsBlank(query) ==>
              StrictlyIncreasing(r) &&
              forall i :: i in r <==> 0 <= i < |messages| && Hit(messages[i].content, query)
  {
    Text.TrimSpec(query);
    if Text.Trim(query) == [] then [] else MatchesFrom(messages, query, 0)
  }

  /** The query's letter case does not matter. */
  lemma SearchIgnoresQueryCase(messages: seq<Message>, query: string)
    ensures SearchResults(messages, Text.Lower(query)) == SearchResults(messages, query)
  {
    Text.LowerIdempotent(query);
    assert Text.IsBlank(Text.Lower(query)) == Text.IsBlank(query);
    Text.TrimSpec(query);
    Text.TrimSpec(Text.Lower(query));
    MatchesSameHits(messages, query, Text.Lower(query), 0);
  }

  /** Three messages "hi", "yo" and "oh hi" and the query "Hi": the results
      are the first and the last message. */
  lemma SearchExample()
    ensures SearchResults([Message("a", "hi", 10, "1"), Message("b", "yo", 20, "2"),
                           Message("a", "oh hi", 30, "3")], "Hi") == [0, 2]
  {
    Text.TrimSpec("Hi");
    assert !Text.IsBlank("Hi") by { assert !Text.IsSpace("Hi"[0]); }
    ExampleHits();
    ThreeMatches([Message("a", "hi", 10, "1"), Message("b", "yo", 20, "2"), Message("a", "oh hi", 30, "3")], "Hi");
  }

  /** Hit, miss, hit: the first and the last index. */
  lemma ThreeMatches(ms: seq<Message>, q: string)
    requires |ms| == 3 && Hit(ms[0].content, q) && !Hit(ms[1].content, q) && Hit(ms[2].content, q)
    ensures MatchesFrom(ms, q, 0) == [0, 2]
  {
    assert MatchesFrom(ms, q, 3) == [];
    assert MatchesFrom(ms, q, 2) == [2];
    assert MatchesFrom(ms, q, 1) == [2];
  }

  lemma ExampleHits()
    ensures Hit("hi", "Hi") && !Hit("yo", "Hi") && Hit("oh hi", "Hi")
  {
    assert Text.Lower("Hi") == "hi";
    assert Text.Lower("hi") == "hi";
    assert Text.Lower("yo") == "yo";
    assert Text.Lower("oh hi") == "oh hi";
    assert Text.OccursAt("hi", "hi", 0);
    assert Text.OccursAt("oh hi", "hi", 3);
    assert "yo"[..2] != "hi" by { assert "yo"[..2][0] == 'y'; }
    assert "yo"[1..] == "o" && "o"[1..] == "";
    assert !Text.Contains("yo", "hi");
  }

  /** With two results, "next" from the first goes to the last and then
      wraps back to the first; "previous" from the first wraps to the last. */
  lemma CursorExample()
    ensures NextResult(0, 2) == 1 && NextResult(1, 2) == 0
    ensures PrevResult(0, 2) == 1
  {
  }

  lemma {:induction false} MatchesSameHits(messages: seq<Message>, q1: string, q2: string, k: nat)
    requires k <= |messages| && Text.Lower(q1) == Text.Lower(q2)
    ensures MatchesFrom(messages, q1, k) == MatchesFrom(messages, q2, k)
    decreases |messages| - k
  {
    if k < |messages| {
      MatchesSameHits(messages, q1, q2, k + 1);
    }
  }

  /** `(c + 1) % n`: the cursor after "next". */
  function NextResult(c: nat, n: nat): (r: nat)
    requires n > 0
    ensures c < n ==> r < n && r == if c == n - 1 then 0 else c + 1
  {
    assert c < n ==> (c + 1) % n == if c + 1 < n then c + 1 else 0 by {
      if c < n { ModOnce(c + 1, n); }
    }
    (c + 1) % n
  }

  /** `(c - 1 + n) % n`: the cursor after "previous". The operand is never
      negative, so JavaScript's `%` agrees with Dafny's. */
  function PrevResult(c: nat, n: nat): (r: nat)
    requires n > 0
    ensures c < n ==> r < n && r == if c == 0 then n - 1 else c - 1
  {
    assert c < n ==> (c - 1 + n) % n == if c == 0 then n - 1 else c - 1 by {
      if c < n { ModOnce(c - 1 + n, n); }
    }
    (c - 1 + n) % n
  }

  /** Reducing a value below `2 * n` subtracts `n` at most once. */
  lemma ModOnce(x: int, n: int)
    requires 0 < n && 0 <= x < 2 * n
    ensures x % n == if x < n then x else x - n
  {
    if x >= n {
      assert x == 1 * n + (x - n);
    }
  }

  /** "Next" then "previous" restores the cursor, and the other way round. */
  lemma NextPrevInverse(c: nat, n: nat)
    requires c < n
    ensures PrevResult(NextResult(c, n), n) == c
    ensures NextResult(PrevResult(c, n), n) == c
  {
  }

  /** The cursor after `k` presses of "next". */
  function NextTimes(c: nat, n: nat, k: nat): nat
    requires n > 0
  {
    if k == 0 then c else NextResult(NextTimes(c, n, k - 1), n)
  }

  /** Pressing "next" walks the results cyclically: after `k <= n` presses
      the cursor is `c + k`, wrapped once past the end. */
  lemma {:induction false} NextWalk(c: nat, n: nat, k: nat)
    requires c < n && k <= n
    ensures NextTimes(c, n, k) == if c + k < n then c + k else c + k - n
  {
    if k > 0 {
      NextWalk(c, n, k - 1);
    }
  }

  /** Pressing "next" once per result brings the cursor back to where it
      started. */
  lemma NextFullCircle(c: nat, n: nat)
    requires c < n
    ensures NextTimes(c, n, n) == c
  {
    NextWalk(c, n, n);
  }

  // ---------------------------------------------------------------------------
  // The page

  class ChatPage {
    /** The `userId` route parameter: the chat partner. */
    const partnerId: Option<UserId>
    var currentUserId: Option<UserId>
    var messages: seq<Message>
    var newMessage: string
    var isTyping: bool
    /** `typingTimeoutRef`: the one pending timer, as the instant it fires. */
    var typingDeadline: Option<int>
    var searchQuery: string
    var searchResults: seq<nat>
    var currentSearchIndex: nat
    /** Everything emitted on the page's socket, in order. */
    var emitted: seq<ClientEmit>
    /** Every `sendMessage` call to the store, in order. */
    var storeCalls: seq<ChatService.SendRequest>

    /** The cursor points into the results (or is 0 when there are none),
        and the indicator is never on without a timer to turn it off. */
    ghost predicate Valid()
      reads this
    {
      && (searchResults == [] ==> currentSearchIndex == 0)
      && (searchResults != [] ==> currentSearchIndex < |searchResults|)
      && (isTyping ==> typingDeadline.Some?)
    }

    /** The page mounts: empty list and input, no user yet, nothing emitted
        (the socket joins only once the current user is known). */
    constructor (partnerId: Option<UserId>)
      ensures Valid()
      ensures this.partnerId == partnerId && currentUserId == None
      ensures messages == [] && newMessage == "" && !isTyping && typingDeadline == None
      ensures searchQuery == "" && searchResults == [] && currentSearchIndex == 0
      ensures emitted == [] && storeCalls == []
    {
      this.partnerId := partnerId;
      currentUserId := None;
      messages, newMessage := [], "";
      isTyping, typingDeadline := false, None;
      searchQuery, searchResults, currentSearchIndex := "", [], 0;
      emitted, storeCalls := [], [];
    }

    /** `fetchCurrentUser` resolves: the id is set and the socket effect
        runs again, joining under that id when it is non-empty. */
    method CurrentUserLoaded(id: UserId)
      requires Valid()
      modifies this
      ensures Valid()
      ensures currentUserId == Some(id)
      ensures emitted == if id != "" then old(emitted) + [Join(id)] else old(emitted)
      ensures messages == old(messages) && newMessage == old(newMessage)
      ensures isTyping == old(isTyping) && typingDeadline == old(typingDeadline)
      ensures searchQuery == old(searchQuery) && searchResults == old(searchResults)
      ensures currentSearchIndex == old(currentSearchIndex) && storeCalls == old(storeCalls)
    {
      currentUserId := Some(id);
      if id != "" {
        emitted := emitted + [Join(id)];
      }
    }

    /** A live `receiveMessage`: exactly one entry appended, earlier entries
        untouched, no check against ids already listed. */
    method ReceiveMessage(senderId: UserId, message: string, timestamp: int, id: string)
      requires Valid()
      modifies this
      ensures Valid()
      ensures messages == old(messages) + [Message(senderId, message, timestamp, id)]
      ensures currentUserId == old(currentUserId) && newMessage == old(newMessage)
      ensures isTyping == old(isTyping) && typingDeadline == old(typingDeadline)
      ensures searchQuery == old(searchQuery) && searchResults == old(searchResults)
      ensures currentSearchIndex == old(currentSearchIndex)
      ensures emitted == old(emitted) && storeCalls == old(storeCalls)
    {
      messages := messages + [Message(senderId, message, timestamp, id)];
    }

    /** A live `typing` event: from anyone but the current user it turns the
        indicator on and replaces the pending timer by one that fires
        3000 ms from now. */
    method TypingReceived(senderId: UserId, now: int)
      requires Valid()
      modifies this
      ensures Valid()
      ensures currentUserId != Some(senderId) ==> isTyping && typingDeadline == Some(now + TypingTimeoutMs)
      ensures currentUserId == Some(senderId) ==> isTyping == old(isTyping) && typingDeadline == old(typingDeadline)
      ensures currentUserId == old(currentUserId) && messages == old(messages) && newMessage == old(newMessage)
      ensures searchQuery == old(searchQuery) && searchResults == old(searchResults)
      ensures currentSearchIndex == old(currentSearchIndex)
      ensures emitted == old(emitted) && storeCalls == old(storeCalls)
    {
      if currentUserId != Some(senderId) {
        isTyping := true;
        typingDeadline := Some(now + TypingTimeoutMs);
      }
    }

    /** The clock reaches `now`: a timer due by then fires and turns the
        indicator off; otherwise nothing changes. */
    method Tick(now: int)
      requires Valid()
      modifies this
      ensures Valid()
      ensures old(typingDeadline).Some? && old(typingDeadline).value <= now ==> !isTyping && typingDeadline == None
      ensures !(old(typingDeadline).Some? && old(typingDeadline).value <= now) ==>
                isTyping == old(isTyping) && typingDeadline == old(typingDeadline)
      ensures currentUserId == old(currentUserId) && messages == old(messages) && newMessage == old(newMessage)
      ensures searchQuery == old(searchQuery) && searchResults == old(searchResults)
      ensures currentSearchIndex == old(currentSearchIndex)
      ensures emitted == old(emitted) && storeCalls == old(storeCalls)
    {
      if typingDeadline.Some? && typingDeadline.value <= now {
        isTyping := false;
        typingDeadline := None;
      }
    }

    /** `loadMessages`: once both ids are known, the fetched history replaces
        the whole list, dropping whatever was appended meanwhile. `sent` and
        `received` are the outcomes of the two store queries. */
    method LoadMessages(sent: Option<seq<ChatService.Doc>>, received: Option<seq<ChatService.Doc>>)
      requires Valid()
      modifies this
      ensures Valid()
      ensures Known(currentUserId) && Known(partnerId) ==>
                messages == FromDocs(ChatService.FetchMessages(sent, received))
      ensures !(Known(currentUserId) && Known(partnerId)) ==> messages == old(messages)
      ensures currentUserId == old(currentUserId) && newMessage == old(newMessage)
      ensures isTyping == old(isTyping) && typingDeadline == old(typingDeadline)
      ensures searchQuery == old(searchQuery) && searchResults == old(searchResults)
      ensures currentSearchIndex == old(currentSearchIndex)
      ensures emitted == old(emitted) && storeCalls == old(storeCalls)
    {
      if Known(currentUserId) && Known(partnerId) {
        messages := FromDocs(ChatService.FetchMessages(sent, received));
      }
    }

    /** The part of `handleSendMessage` before its `await`: with a non-blank
        input and both ids known, emit the trimmed text, then call the store
        with it; otherwise do nothing. */
    method BeginSend(now: int) returns (pending: Option<PendingSend>)
      requires Valid()
      modifies this
      ensures Valid()
      ensures pending.Some? <==> !Text.IsBlank(old(newMessage)) && Known(currentUserId) && Known(partnerId)
      ensures pending.Some? ==>
                && pending.value == PendingSend(currentUserId.value, Text.Trim(newMessage), now)
                && emitted == old(emitted) + [SendMessage(currentUserId.value, partnerId.value, Text.Trim(newMessage))]
                && storeCalls == old(storeCalls) + [ChatService.SendRequest(currentUserId.value, partnerId.value, Text.Trim(newMessage))]
      ensures pending.None? ==> emitted == old(emitted) && storeCalls == old(storeCalls)
      ensures currentUserId == old(currentUserId) && messages == old(messages) && newMessage == old(newMessage)
      ensures isTyping == old(isTyping) && typingDeadline == old(typingDeadline)
      ensures searchQuery == old(searchQuery) && searchResults == old(searchResults)
      ensures currentSearchIndex == old(currentSearchIndex)
    {
      Text.TrimSpec(newMessage);
      if Text.Trim(newMessage) != [] && Known(currentUserId) && Known(partnerId) {
        var messageContent := Text.Trim(newMessage);
        emitted := emitted + [SendMessage(currentUserId.value, partnerId.value, messageContent)];
        storeCalls := storeCalls + [ChatService.SendRequest(currentUserId.value, partnerId.value, messageContent)];
        pending := Some(PendingSend(currentUserId.value, messageContent, now));
      } else {
        pending := None;
      }
    }

    /** The part of `handleSendMessage` after its `await`: append one local
        entry for the sent text and clear the input, including anything typed
        while the store call was pending. */
    method FinishSend(p: PendingSend, id: string)
      requires Valid()
      modifies this
      ensures Valid()
      ensures messages == old(messages) + [Message(p.senderId, p.content, p.timestamp, id)]
      ensures newMessage == ""
      ensures currentUserId == old(currentUserId)
      ensures isTyping == old(isTyping) && typingDeadline == old(typingDeadline)
      ensures searchQuery == old(searchQuery) && searchResults == old(searchResults)
      ensures currentSearchIndex == old(currentSearchIndex)
      ensures emitted == old(emitted) && storeCalls == old(storeCalls)
    {
      messages := messages + [Message(p.senderId, p.content, p.timestamp, id)];
      newMessage := "";
    }

    /** `handleSendMessage` when nothing else runs during its `await`: emit,
        persist, append one entry from the current user, clear the input. */
    method HandleSendMessage(now: int, id: string)
      requires Valid()
      modifies this
      ensures Valid()
      ensures var sending := !Text.IsBlank(old(newMessage)) && Known(currentUserId) && Known(partnerId);
              var content := Text.Trim(old(newMessage));
              && (sending ==>
                    && emitted == old(emitted) + [SendMessage(currentUserId.value, partnerId.value, content)]
                    && storeCalls == old(storeCalls) + [ChatService.SendRequest(currentUserId.value, partnerId.value, content)]
                    && messages == old(messages) + [Message(currentUserId.value, content, now, id)]
                    && newMessage == "")
              && (!sending ==>
                    && emitted == old(emitted) && storeCalls == old(storeCalls)
                    && messages == old(messages) && newMessage == old(newMessage))
      ensures currentUserId == old(currentUserId)
      ensures isTyping == old(isTyping) && typingDeadline == old(typingDeadline)
      ensures searchQuery == old(searchQuery) && searchResults == old(searchResults)
      ensures currentSearchIndex == old(currentSearchIndex)
    {
      var pending := BeginSend(now);
      if pending.Some? {
        FinishSend(pending.value, id);
      }
    }

    /** `handleInputChange`: store the text; with both ids known, emit one
        typing event and replace the pending timer by one 3000 ms from now.
        The local indicator is never turned on here. */
    method HandleInputChange(value: string, now: int)
      requires Valid()
      modifies this
      ensures Valid()
      ensures newMessage == value && isTyping == old(isTyping)
      ensures Known(currentUserId) && Known(partnerId) ==>
                && emitted == old(emitted) + [Typing(currentUserId.value, partnerId.value)]
                && typingDeadline == Some(now + TypingTimeoutMs)
      ensures !(Known(currentUserId) && Known(partnerId)) ==>
                emitted == old(emitted) && typingDeadline == old(typingDeadline)
      ensures currentUserId == old(currentUserId) && messages == old(messages)
      ensures searchQuery == old(searchQuery) && searchResults == old(searchResults)
      ensures currentSearchIndex == old(currentSearchIndex) && storeCalls == old(storeCalls)
    {
      newMessage := value;
      if Known(currentUserId) && Known(partnerId) {
        emitted := emitted + [Typing(currentUserId.value, partnerId.value)];
        typingDeadline := Some(now + TypingTimeoutMs);
      }
    }

    /** `handleSearch`: record the query, rebuild the results from the
        current list, reset the cursor. */
    method HandleSearch(query: string)
      requires Valid()
      modifies this
      ensures Valid()
      ensures searchQuery == query && currentSearchIndex == 0
      ensures searchResults == SearchResults(messages, query)
      ensures currentUserId == old(currentUserId) && messages == old(messages) && newMessage == old(newMessage)
      ensures isTyping == old(isTyping) && typingDeadline == old(typingDeadline)
      ensures emitted == old(emitted) && storeCalls == old(storeCalls)
    {
      // The source's branch, written out here rather than calling
      // `SearchResults`: the ensures ties the two together.
      searchQuery := query;
      if Text.Trim(query) == [] {
        searchResults := [];
      } else {
        searchResults := MatchesFrom(messages, query, 0);
      }
      currentSearchIndex := 0;
    }

    /** `goToNextResult`: a no-op without results; otherwise advance the
        cursor cyclically and return the message index scrolled to. */
    method GoToNextResult() returns (target: Option<nat>)
      requires Valid()
      modifies this
      ensures Valid()
      ensures searchResults == old(searchResults) && searchQuery == old(searchQuery)
      ensures old(searchResults) == [] ==> target == None && currentSearchIndex == old(currentSearchIndex)
      ensures old(searchResults) != [] ==>
                && currentSearchIndex == NextResult(old(currentSearchIndex), |old(searchResults)|)
                && target == Some(searchResults[currentSearchIndex])
      ensures currentUserId == old(currentUserId) && messages == old(messages) && newMessage == old(newMessage)
      ensures isTyping == old(isTyping) && typingDeadline == old(typingDeadline)
      ensures emitted == old(emitted) && storeCalls == old(storeCalls)
    {
      if |searchResults| == 0 {
        return None;
      }
      currentSearchIndex := NextResult(currentSearchIndex, |searchResults|);
      target := Some(searchResults[currentSearchIndex]);
    }

    /** `goToPrevResult`: the same, moving backwards. */
    method GoToPrevResult() returns (target: Option<nat>)
      requires Valid()
      modifies this
      ensures Valid()
      ensures searchResults == old(searchResults) && searchQuery == old(searchQuery)
      ensures old(searchResults) == [] ==> target == None && currentSearchIndex == old(currentSearchIndex)
      ensures old(searchResults) != [] ==>
                && currentSearchIndex == PrevResult(old(currentSearchIndex), |old(searchResults)|)
                && target == Some(searchResults[currentSearchIndex])
      ensures currentUserId == old(currentUserId) && messages == old(messages) && newMessage == old(newMessage)
      ensures isTyping == old(isTyping) && typingDeadline == old(typingDeadline)
      ensures emitted == old(emitted) && storeCalls == old(storeCalls)
    {
      if |searchResults| == 0 {
        return None;
      }
      currentSearchIndex := PrevResult(currentSearchIndex, |searchResults|);
      target := Some(searchResults[currentSearchIndex]);
    }
  }

  /** A run of the typing indicator: a repeated event before expiry extends
      the window without turning the indicator off in between, the timer
      then turns it off, and the current user's own echo is ignored. */
  method TypingScenario()
  {
    var page := new ChatPage(Some("b"));
    page.CurrentUserLoaded("a");
    page.TypingReceived("b", 0);
    page.Tick(2000);
    assert page.isTyping;
    page.TypingReceived("b", 2000);
    page.Tick(3000);
    assert page.isTyping;
    page.Tick(5000);
    assert !page.isTyping;
    page.TypingReceived("a", 6000);
    assert !page.isTyping;
  }
}
