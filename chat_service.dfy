/** The client's store calls: `sendMessage` (one `createDocument`, errors
    swallowed), `fetchMessages` (two directional queries, concatenated and
    sorted by timestamp) and `getChatPartner` (one `getDocument`, `null` on
    error). The store is a sequence of message documents; whether a call
    reaches it is a parameter. */
module ChatService {
  import opened Wrappers
  import Seqs

  type UserId = string

  /** A message document. `timestamp` is the instant in milliseconds that
      `new Date(doc.timestamp).getTime()` reads back. */
  datatype Doc = Doc(id: string, senderId: UserId, receiverId: UserId, content: string, timestamp: int)

  /** A user profile document: what the chat header shows. */
  datatype Profile = Profile(id: UserId, name: string, username: string, imageUrl: string)

  /** The arguments of one `sendMessage(senderId, receiverId, content)` call. */
  datatype SendRequest = SendRequest(senderId: UserId, receiverId: UserId, content: string)

  // ---------------------------------------------------------------------------
  // Ordering by timestamp

  ghost predicate SortedByTime(s: seq<Doc>)
  {
    forall i, j :: 0 <= i < j < |s| ==> s[i].timestamp <= s[j].timestamp
  }

  /** The documents of `s` stamped `t`, in their order in `s`. */
  function AtTime(s: seq<Doc>, t: int): seq<Doc>
  {
    if s == [] then [] else (if s[0].timestamp == t then [s[0]] else []) + AtTime(s[1..], t)
  }

  /** `r` is what a stable sort by timestamp makes of `s`: sorted, a
      permutation, and documents with equal timestamps in their order in `s`. */
  ghost predicate IsStableSortOf(r: seq<Doc>, s: seq<Doc>)
  {
    && SortedByTime(r)
    && multiset(r) == multiset(s)
    && forall t :: AtTime(r, t) == AtTime(s, t)
  }

  /** Insert `d` before the first document of `s` that is not earlier. */
  function Insert(d: Doc, s: seq<Doc>): seq<Doc>
  {
    if s == [] || d.timestamp <= s[0].timestamp then [d] + s else [s[0]] + Insert(d, s[1..])
  }

  lemma {:induction false} InsertSorted(d: Doc, s: seq<Doc>)
    requires SortedByTime(s)
    ensures SortedByTime(Insert(d, s))
    ensures |Insert(d, s)| == |s| + 1
    ensures Insert(d, s)[0] == if s == [] || d.timestamp <= s[0].timestamp then d else s[0]
  {
    if s != [] && d.timestamp > s[0].timestamp {
      var rest := Insert(d, s[1..]);
      InsertSorted(d, s[1..]);
      assert s[0].timestamp <= rest[0].timestamp;
      var r := [s[0]] + rest;
      forall i, j | 0 <= i < j < |r| ensures r[i].timestamp <= r[j].timestamp {
        if i == 0 && j > 1 {
          assert rest[0].timestamp <= rest[j - 1].timestamp;
        }
      }
    }
  }

  lemma {:induction false} InsertMultiset(d: Doc, s: seq<Doc>)
    ensures multiset(Insert(d, s)) == multiset(s) + multiset{d}
  {
    if s != [] && d.timestamp > s[0].timestamp {
      InsertMultiset(d, s[1..]);
      assert s == [s[0]] + s[1..];
    }
  }

  lemma {:induction false} InsertAtTime(d: Doc, s: seq<Doc>, t: int)
    ensures AtTime(Insert(d, s), t) == if d.timestamp == t then [d] + AtTime(s, t) else AtTime(s, t)
  {
    if s == [] || d.timestamp <= s[0].timestamp {
      assert ([d] + s)[1..] == s;
    } else {
      InsertAtTime(d, s[1..], t);
      assert ([s[0]] + Insert(d, s[1..]))[1..] == Insert(d, s[1..]);
    }
  }

  /** `allMessages.sort((a, b) => a.timestamp - b.timestamp)`; the engine's
      sort is stable, so this is an insertion sort that keeps ties in order. */
  function SortByTime(s: seq<Doc>): (r: seq<Doc>)
    ensures IsStableSortOf(r, s)
  {
    if s == [] then []
    else
      var rest := SortByTime(s[1..]);
      InsertSorted(s[0], rest);
      InsertMultiset(s[0], rest);
      assert s == [s[0]] + s[1..];
      assert forall t :: AtTime(Insert(s[0], rest), t) == AtTime(s, t) by {
        forall t ensures AtTime(Insert(s[0], rest), t) == AtTime(s, t) {
          InsertAtTime(s[0], rest, t);
        }
      }
      Insert(s[0], rest)
  }

  lemma AtTimeHead(s: seq<Doc>)
    ensures s != [] ==> AtTime(s, s[0].timestamp) != []
  {
  }

  lemma {:induction false} AtTimeBounds(s: seq<Doc>, t: int)
    requires SortedByTime(s) && AtTime(s, t) != []
    ensures s != [] && s[0].timestamp <= t
  {
    if s != [] && s[0].timestamp != t {
      AtTimeBounds(s[1..], t);
    }
  }

  /** A sorted sequence is determined by the order of each timestamp's
      documents: so there is exactly one stable sort of any input. */
  lemma {:induction false} StableSortUnique(a: seq<Doc>, b: seq<Doc>, s: seq<Doc>)
    requires IsStableSortOf(a, s) && IsStableSortOf(b, s)
    ensures a == b
  {
    SortedTiesDetermine(a, b);
  }

  lemma {:induction false} SortedTiesDetermine(a: seq<Doc>, b: seq<Doc>)
    requires SortedByTime(a) && SortedByTime(b)
    requires forall t :: AtTime(a, t) == AtTime(b, t)
    ensures a == b
    decreases |a|
  {
    if a == [] || b == [] {
      EmptyTogether(a, b);
    } else {
      HeadsAgree(a, b);
      forall t ensures AtTime(a[1..], t) == AtTime(b[1..], t) {
        TailsAgree(a, b, t);
      }
      SortedTiesDetermine(a[1..], b[1..]);
      assert a == [a[0]] + a[1..] && b == [b[0]] + b[1..];
    }
  }

  lemma EmptyTogether(a: seq<Doc>, b: seq<Doc>)
    requires forall t :: AtTime(a, t) == AtTime(b, t)
    ensures a == [] <==> b == []
  {
    AtTimeHead(a);
    AtTimeHead(b);
    if a != [] {
      assert AtTime(b, a[0].timestamp) == AtTime(a, a[0].timestamp);
    }
    if b != [] {
      assert AtTime(a, b[0].timestamp) == AtTime(b, b[0].timestamp);
    }
  }

  /** The earliest documents of two sorted sequences with the same ties
      are the same document. */
  lemma HeadsAgree(a: seq<Doc>, b: seq<Doc>)
    requires SortedByTime(a) && SortedByTime(b) && a != [] && b != []
    requires AtTime(a, a[0].timestamp) == AtTime(b, a[0].timestamp)
    requires AtTime(a, b[0].timestamp) == AtTime(b, b[0].timestamp)
    ensures a[0] == b[0]
  {
    var ta, tb := a[0].timestamp, b[0].timestamp;
    AtTimeHead(a);
    AtTimeHead(b);
    AtTimeBounds(a, tb);
    AtTimeBounds(b, ta);
    assert ta == tb;
    assert AtTime(a, ta) == [a[0]] + AtTime(a[1..], ta);
    assert AtTime(b, ta) == [b[0]] + AtTime(b[1..], ta);
    assert a[0] == AtTime(a, ta)[0] == AtTime(b, ta)[0] == b[0];
  }

  lemma TailsAgree(a: seq<Doc>, b: seq<Doc>, t: int)
    requires a != [] && b != [] && a[0] == b[0]
    requires AtTime(a, t) == AtTime(b, t)
    ensures AtTime(a[1..], t) == AtTime(b[1..], t)
  {
    if a[0].timestamp == t {
      assert AtTime(a[1..], t) == AtTime(a, t)[1..];
      assert AtTime(b[1..], t) == AtTime(b, t)[1..];
    } else {
      assert AtTime(a, t) == AtTime(a[1..], t);
      assert AtTime(b, t) == AtTime(b[1..], t);
    }
  }

  // ---------------------------------------------------------------------------
  // The store calls

  /** `listDocuments` with `senderId == sender` and `receiverId == receiver`,
      in store order. */
  function ListDocuments(docs: seq<Doc>, sender: UserId, receiver: UserId): (r: seq<Doc>)
    ensures Seqs.IsSubsequence(r, docs)
    ensures forall d :: d in r <==> d in docs && d.senderId == sender && d.receiverId == receiver
    ensures forall d :: multiset(r)[d] == if d.senderId == sender && d.receiverId == receiver then multiset(docs)[d] else 0
  {
    Seqs.Filter(docs, (d: Doc) => d.senderId == sender && d.receiverId == receiver)
  }

  /** `fetchMessages` given the outcomes of its two queries (`None`: the
      query threw). Any failure gives `[]`; otherwise the stable sort of the
      sent documents followed by the received ones. */
  function FetchMessages(sent: Option<seq<Doc>>, received: Option<seq<Doc>>): (r: seq<Doc>)
    ensures sent.None? || received.None? ==> r == []
    ensures sent.Some? && received.Some? ==> IsStableSortOf(r, sent.value + received.value)
  {
    if sent.None? || received.None? then [] else SortByTime(sent.value + received.value)
  }

  /** `fetchMessages(current, partner)` against a store whose queries succeed. */
  function History(docs: seq<Doc>, current: UserId, partner: UserId): seq<Doc>
  {
    FetchMessages(Some(ListDocuments(docs, current, partner)), Some(ListDocuments(docs, partner, current)))
  }

  /** The history holds exactly the stored documents between the two users,
      in either direction, in timestamp order. */
  lemma HistoryOfPair(docs: seq<Doc>, current: UserId, partner: UserId, d: Doc)
    ensures SortedByTime(History(docs, current, partner))
    ensures d in History(docs, current, partner) <==>
              d in docs && ((d.senderId == current && d.receiverId == partner) ||
                            (d.senderId == partner && d.receiverId == current))
  {
    var r := History(docs, current, partner);
    var both := ListDocuments(docs, current, partner) + ListDocuments(docs, partner, current);
    assert d in r <==> d in multiset(r);
    assert d in both <==> d in multiset(both);
  }

  /** Ties keep concatenation order: a sent document comes before a received
      one with the same timestamp. */
  lemma {:induction false} SentBeforeReceivedOnTies(sent: seq<Doc>, received: seq<Doc>, t: int)
    ensures AtTime(FetchMessages(Some(sent), Some(received)), t) == AtTime(sent, t) + AtTime(received, t)
  {
    AtTimeAppend(sent, received, t);
  }

  lemma {:induction false} AtTimeAppend(a: seq<Doc>, b: seq<Doc>, t: int)
    ensures AtTime(a + b, t) == AtTime(a, t) + AtTime(b, t)
  {
    if a != [] {
      AtTimeAppend(a[1..], b, t);
      assert (a + b)[1..] == a[1..] + b;
    } else {
      assert a + b == b;
    }
  }

  /** Chatting with oneself: both queries return the same documents, so
      every message appears twice. */
  lemma SelfChatDuplicates(docs: seq<Doc>, u: UserId)
    ensures |History(docs, u, u)| == 2 * |ListDocuments(docs, u, u)|
  {
    var r := History(docs, u, u);
    assert |r| == |multiset(r)|;
  }

  /** `sendMessage`: one `createDocument` with the request's fields and a
      fresh id; `stored` says whether the store accepted it. Nothing is
      returned either way: failures are swallowed. */
  function SendMessage(docs: seq<Doc>, req: SendRequest, id: string, now: int, stored: bool): seq<Doc>
  {
    if stored then docs + [Doc(id, req.senderId, req.receiverId, req.content, now)] else docs
  }

  /** A stored message shows up in both participants' histories; an
      unstored one changes neither. */
  lemma SentMessageInHistory(docs: seq<Doc>, req: SendRequest, id: string, now: int, stored: bool)
    ensures var d := Doc(id, req.senderId, req.receiverId, req.content, now);
            stored ==> (d in History(SendMessage(docs, req, id, now, stored), req.receiverId, req.senderId) &&
                        d in History(SendMessage(docs, req, id, now, stored), req.senderId, req.receiverId))
    ensures !stored ==> SendMessage(docs, req, id, now, stored) == docs
  {
    var d := Doc(id, req.senderId, req.receiverId, req.content, now);
    var docs' := SendMessage(docs, req, id, now, stored);
    HistoryOfPair(docs', req.receiverId, req.senderId, d);
    HistoryOfPair(docs', req.senderId, req.receiverId, d);
  }

  /** `getChatPartner`: the profile document, or `null` (`None`) when the
      store is unreachable or has no such document. */
  function GetChatPartner(profiles: map<UserId, Profile>, userId: UserId, reachable: bool): (r: Option<Profile>)
    ensures r.Some? <==> reachable && userId in profiles
    ensures r.Some? ==> r.value == profiles[userId]
  {
    if reachable && userId in profiles then Some(profiles[userId]) else None
  }
}
