/** The relay server: the in-memory `users` directory that maps a user id to
    the id of the socket it joined on, and the `join`, `sendMessage`, `typing`
    and `disconnect` handlers that read and write it.

    The directory is a sequence of entries in the order `Object.entries`
    visits them (insertion order; an overwritten key keeps its place).
    Emits to sockets are appended to `outbox`; each `createDocument` call is
    appended to `store` together with whether the store accepted it. */
module Presence {
  import opened Wrappers

  type UserId = string
  type SocketId = string

  datatype Entry = Entry(userId: UserId, socketId: SocketId)

  /** A server-to-client emit, addressed to one socket. */
  datatype Emit =
    | ReceiveMessage(to: SocketId, senderId: UserId, message: string, timestamp: int)
    | TypingNotice(to: SocketId, senderId: UserId)

  /** `timestamp.toISOString()`: an injective rendering of the instant. */
  datatype IsoTime = IsoTime(epochMillis: int)

  function ToIsoString(t: int): IsoTime
  {
    IsoTime(t)
  }

  /** The document the server asks the store to create. */
  datatype MessageRecord = MessageRecord(senderId: UserId, receiverId: UserId, message: string, timestamp: IsoTime)

  /** One `createDocument` call and whether it resolved (false: it threw and
      the error was logged). */
  datatype StoreAttempt = StoreAttempt(record: MessageRecord, succeeded: bool)

  // ---------------------------------------------------------------------------
  // The directory as a value

  /** No user id has two entries. */
  ghost predicate DistinctKeys(es: seq<Entry>)
  {
    es == [] || (Lookup(es[1..], es[0].userId) == None && DistinctKeys(es[1..]))
  }

  /** No socket is the value of two entries. */
  ghost predicate DistinctSockets(es: seq<Entry>)
  {
    es == [] || ((forall e :: e in es[1..] ==> e.socketId != es[0].socketId) && DistinctSockets(es[1..]))
  }

  /** `users[userId]`: the socket of the first entry for `u`, if any. */
  function Lookup(es: seq<Entry>, u: UserId): (r: Option<SocketId>)
    ensures r.Some? ==> Entry(u, r.value) in es
    ensures r.None? ==> forall e :: e in es ==> e.userId != u
  {
    if es == [] then None
    else if es[0].userId == u then Some(es[0].socketId)
    else Lookup(es[1..], u)
  }

  /** `users[userId] = socketId`: overwrite the entry for `u` in place, or
      add one at the end. */
  function Put(es: seq<Entry>, u: UserId, s: SocketId): (r: seq<Entry>)
    ensures Lookup(r, u) == Some(s)
    ensures forall v :: v != u ==> Lookup(r, v) == Lookup(es, v)
    ensures |r| == if Lookup(es, u).Some? then |es| else |es| + 1
    ensures DistinctKeys(es) ==> DistinctKeys(r)
    ensures Lookup(es, u).None? ==> r == es + [Entry(u, s)]
  {
    if es == [] then [Entry(u, s)]
    else if es[0].userId == u then [Entry(u, s)] + es[1..]
    else [es[0]] + Put(es[1..], u, s)
  }

  /** The `disconnect` handler's effect: the first entry whose socket is `s`
      is deleted; the rest keep their order. */
  function RemoveFirst(es: seq<Entry>, s: SocketId): seq<Entry>
  {
    if es == [] then []
    else if es[0].socketId == s then es[1..]
    else [es[0]] + RemoveFirst(es[1..], s)
  }

  /** When no entry maps to `s`, disconnecting `s` changes nothing. */
  lemma {:induction false} RemoveFirstAbsent(es: seq<Entry>, s: SocketId)
    requires forall k :: 0 <= k < |es| ==> es[k].socketId != s
    ensures RemoveFirst(es, s) == es
  {
    if es != [] {
      RemoveFirstAbsent(es[1..], s);
    }
  }

  /** When `i` is the first entry mapping to `s`, exactly that entry goes. */
  lemma {:induction false} RemoveFirstAt(es: seq<Entry>, s: SocketId, i: int)
    requires 0 <= i < |es| && es[i].socketId == s
    requires forall k :: 0 <= k < i ==> es[k].socketId != s
    ensures RemoveFirst(es, s) == es[..i] + es[i + 1..]
  {
    if i > 0 {
      RemoveFirstAt(es[1..], s, i - 1);
      assert es[1..][..i - 1] + es[1..][i..] == es[1..i] + es[i + 1..];
      assert [es[0]] + es[1..i] == es[..i];
    }
  }

  /** Disconnecting deletes at most one entry, keeps the directory
      duplicate-free, and leaves the lookup of every user unchanged except
      possibly one whose socket was `s`, which becomes absent. */
  lemma {:induction false} RemoveFirstLookup(es: seq<Entry>, s: SocketId, u: UserId)
    requires DistinctKeys(es)
    ensures |es| - 1 <= |RemoveFirst(es, s)| <= |es|
    ensures DistinctKeys(RemoveFirst(es, s))
    ensures Lookup(RemoveFirst(es, s), u) == Lookup(es, u)
         || (Lookup(es, u) == Some(s) && Lookup(RemoveFirst(es, s), u) == None)
    ensures Lookup(es, u) != Some(s) ==> Lookup(RemoveFirst(es, s), u) == Lookup(es, u)
  {
    if es != [] {
      RemoveFirstLookup(es[1..], s, u);
      if es[0].socketId != s {
        RemoveFirstLookup(es[1..], s, es[0].userId);
      }
    }
  }

  /** If every socket belongs to one user, disconnecting `s` leaves no entry
      pointing at `s`. */
  lemma {:induction false} RemoveFirstClearsSocket(es: seq<Entry>, s: SocketId)
    requires DistinctSockets(es)
    ensures forall e :: e in RemoveFirst(es, s) ==> e.socketId != s
  {
    if es != [] {
      if es[0].socketId == s {
      } else {
        RemoveFirstClearsSocket(es[1..], s);
      }
    }
  }

  /** A user who re-joined on a new socket keeps it when the old socket
      disconnects: `join(u, s1)`, `join(u, s2)`, `disconnect(s1)`. */
  lemma RejoinSurvivesStaleDisconnect(es: seq<Entry>, u: UserId, s1: SocketId, s2: SocketId)
    requires DistinctKeys(es) && s1 != s2
    ensures Lookup(RemoveFirst(Put(Put(es, u, s1), u, s2), s1), u) == Some(s2)
  {
    RemoveFirstLookup(Put(Put(es, u, s1), u, s2), s1, u);
  }

  /** Looking up in a concatenation finds the first part's entry first. */
  lemma {:induction false} LookupAppend(x: seq<Entry>, y: seq<Entry>, u: UserId)
    ensures Lookup(x + y, u) == if Lookup(x, u).Some? then Lookup(x, u) else Lookup(y, u)
  {
    if x != [] {
      LookupAppend(x[1..], y, u);
      assert (x + y)[1..] == x[1..] + y;
    } else {
      assert x + y == y;
    }
  }

  /** Two new ids that join on one socket nobody else uses, `a` first:
      disconnecting the socket removes `a` and leaves `b` behind, because
      the scan stops at the first match. */
  lemma SharedSocketLeavesStaleEntry(es: seq<Entry>, a: UserId, b: UserId, s: SocketId)
    requires a != b && Lookup(es, a) == None && Lookup(es, b) == None
    requires forall k :: 0 <= k < |es| ==> es[k].socketId != s
    ensures Lookup(RemoveFirst(Put(Put(es, a, s), b, s), s), b) == Some(s)
    ensures Lookup(RemoveFirst(Put(Put(es, a, s), b, s), s), a) == None
  {
    JoinTwoNew(es, a, b, s);
    RemoveAfterUnused(es, [Entry(a, s), Entry(b, s)], s);
    LookupAppend(es, [Entry(b, s)], a);
    LookupAppend(es, [Entry(b, s)], b);
  }

  lemma JoinTwoNew(es: seq<Entry>, a: UserId, b: UserId, s: SocketId)
    requires a != b && Lookup(es, a) == None && Lookup(es, b) == None
    ensures Put(Put(es, a, s), b, s) == es + [Entry(a, s), Entry(b, s)]
  {
    LookupAppend(es, [Entry(a, s)], b);
  }

  /** The scan passes over a prefix with no entry on the socket. */
  lemma RemoveAfterUnused(es: seq<Entry>, rest: seq<Entry>, s: SocketId)
    requires forall k :: 0 <= k < |es| ==> es[k].socketId != s
    requires rest != [] && rest[0].socketId == s
    ensures RemoveFirst(es + rest, s) == es + rest[1..]
  {
    var joined := es + rest;
    assert joined[..|es|] == es && joined[|es| + 1..] == rest[1..];
    RemoveFirstAt(joined, s, |es|);
  }

  /** `users[u] = s` for an id that already has an entry overwrites the
      first entry for `u` where it sits: the directory's order is kept. */
  lemma PutInPlace(es: seq<Entry>, u: UserId, s: SocketId, i: int)
    requires 0 <= i < |es| && es[i].userId == u
    requires forall k :: 0 <= k < i ==> es[k].userId != u
    ensures Put(es, u, s) == es[..i] + [Entry(u, s)] + es[i + 1..]
  {
    assert es == es[..i] + ([es[i]] + es[i + 1..]);
    PutSkip(es[..i], [es[i]] + es[i + 1..], u, s);
  }

  /** `Put` passes over entries for other ids unchanged. */
  lemma {:induction false} PutSkip(p: seq<Entry>, q: seq<Entry>, u: UserId, s: SocketId)
    requires forall k :: 0 <= k < |p| ==> p[k].userId != u
    ensures Put(p + q, u, s) == p + Put(q, u, s)
  {
    if p == [] {
      EmptyPrefix(q, Put(q, u, s));
    } else {
      var pq := p + q;
      assert pq[0] == p[0] && pq[1..] == p[1..] + q;
      PutSkip(p[1..], q, u, s);
      HeadTail(p, Put(q, u, s));
    }
  }

  lemma EmptyPrefix(q: seq<Entry>, x: seq<Entry>)
    ensures [] + q == q && [] + x == x
  {
  }

  lemma HeadTail(p: seq<Entry>, x: seq<Entry>)
    requires p != []
    ensures [p[0]] + (p[1..] + x) == p + x
  {
    assert [p[0]] + p[1..] == p;
  }

  /** An id that has an entry has a first one. */
  lemma {:induction false} FirstEntryOf(es: seq<Entry>, u: UserId) returns (i: int)
    requires Lookup(es, u).Some?
    ensures 0 <= i < |es| && es[i].userId == u
    ensures forall k :: 0 <= k < i ==> es[k].userId != u
  {
    if es[0].userId == u {
      i := 0;
    } else {
      var j := FirstEntryOf(es[1..], u);
      i := j + 1;
    }
  }

  /** In a directory with distinct ids, no two entries share an id. */
  lemma {:induction false} DistinctKeysAt(es: seq<Entry>, i: int, j: int)
    requires DistinctKeys(es) && 0 <= i < j < |es|
    ensures es[i].userId != es[j].userId
  {
    if i == 0 {
      assert es[j] in es[1..];
    } else {
      DistinctKeysAt(es[1..], i - 1, j - 1);
    }
  }

  /** Which id survives depends on entry order, not join order: when `b`
      already has an entry and `a` has none, join(a, s), join(b, s),
      disconnect(s) keeps `b`'s entry where it was, so the disconnect
      removes `b` and leaves `a`. */
  lemma SharedSocketOrderByFirstEntry(es: seq<Entry>, a: UserId, b: UserId, s: SocketId)
    requires DistinctKeys(es) && a != b
    requires Lookup(es, a) == None && Lookup(es, b).Some?
    requires forall k :: 0 <= k < |es| ==> es[k].socketId != s
    ensures Lookup(RemoveFirst(Put(Put(es, a, s), b, s), s), b) == None
    ensures Lookup(RemoveFirst(Put(Put(es, a, s), b, s), s), a) == Some(s)
  {
    var e1 := Put(es, a, s);
    var i := FirstEntryOf(es, b);
    AppendedAt(es, Entry(a, s), e1, i);
    PutInPlace(e1, b, s, i);
    var e2 := Put(e1, b, s);
    var x := es[..i] + es[i + 1..];
    ReplaceThenDrop(es, i, Entry(a, s), Entry(b, s), e1, e2);
    RemoveFirstAt(e2, s, i);
    DropFirstEntry(es, i, a, b);
    LookupAppend(x, [Entry(a, s)], a);
    LookupAppend(x, [Entry(a, s)], b);
  }

  /** With distinct ids, deleting the first entry for `b` leaves no entry
      for `b`; an id with no entry still has none. */
  lemma DropFirstEntry(es: seq<Entry>, i: int, a: UserId, b: UserId)
    requires DistinctKeys(es) && Lookup(es, a) == None
    requires 0 <= i < |es| && es[i].userId == b
    requires forall k :: 0 <= k < i ==> es[k].userId != b
    ensures Lookup(es[..i] + es[i + 1..], b) == None
    ensures Lookup(es[..i] + es[i + 1..], a) == None
  {
    var x := es[..i] + es[i + 1..];
    forall k | 0 <= k < |x|
      ensures x[k].userId != b && x[k].userId != a
    {
      if k < i {
        assert x[k] == es[k];
      } else {
        assert x[k] == es[k + 1];
        DistinctKeysAt(es, i, k + 1);
      }
    }
  }

  /** Sequence bookkeeping for `SharedSocketOrderByFirstEntry`: an index of
      `es` keeps its entry and its prefix in `es + [ea]`. */
  lemma AppendedAt(es: seq<Entry>, ea: Entry, e1: seq<Entry>, i: int)
    requires e1 == es + [ea] && 0 <= i < |es|
    ensures |e1| == |es| + 1 && e1[i] == es[i]
    ensures forall k :: 0 <= k < i ==> e1[k] == es[k]
  {
  }

  /** Sequence bookkeeping for `SharedSocketOrderByFirstEntry`: replacing
      the entry at `i` of `es + [ea]` by `eb` and then deleting it leaves
      `es` without its entry at `i`, followed by `ea`. */
  lemma ReplaceThenDrop(es: seq<Entry>, i: int, ea: Entry, eb: Entry, e1: seq<Entry>, e2: seq<Entry>)
    requires 0 <= i < |es| && e1 == es + [ea]
    requires e2 == e1[..i] + [eb] + e1[i + 1..]
    ensures |e2| == |e1| && e2[i] == eb
    ensures forall k :: 0 <= k < i ==> e2[k] == es[k]
    ensures e2[..i] + e2[i + 1..] == es[..i] + es[i + 1..] + [ea]
  {
    assert e2[..i] == es[..i];
    assert e2[i + 1..] == es[i + 1..] + [ea];
  }

  // ---------------------------------------------------------------------------
  // The server process

  class RelayServer {
    var users: seq<Entry>
    var outbox: seq<Emit>
    var store: seq<StoreAttempt>

    ghost predicate Valid()
      reads this
    {
      DistinctKeys(users)
    }

    constructor ()
      ensures Valid()
      ensures users == [] && outbox == [] && store == []
    {
      users, outbox, store := [], [], [];
    }

    /** `join`: the last join for a user wins; nothing else changes. */
    method Join(userId: UserId, socketId: SocketId)
      requires Valid()
      modifies this
      ensures Valid()
      ensures users == Put(old(users), userId, socketId)
      ensures Lookup(users, userId) == Some(socketId)
      ensures forall v :: v != userId ==> Lookup(users, v) == Lookup(old(users), v)
      ensures outbox == old(outbox) && store == old(store)
    {
      users := Put(users, userId, socketId);
    }

    /** `sendMessage`: one live emit when the receiver is present, none
        otherwise; one persistence attempt either way, with the same
        instant. `stored` is the outcome of `createDocument`; a failure is
        only logged and never undoes the emit. */
    method SendMessage(senderId: UserId, receiverId: UserId, message: string, now: int, stored: bool)
      requires Valid()
      modifies this
      ensures Valid() && users == old(users)
      ensures Lookup(users, receiverId).Some? ==>
                outbox == old(outbox) + [ReceiveMessage(Lookup(users, receiverId).value, senderId, message, now)]
      ensures Lookup(users, receiverId).None? ==> outbox == old(outbox)
      ensures store == old(store) + [StoreAttempt(MessageRecord(senderId, receiverId, message, ToIsoString(now)), stored)]
    {
      var receiverSocketId := Lookup(users, receiverId);
      var timestamp := now;
      if receiverSocketId.Some? {
        outbox := outbox + [ReceiveMessage(receiverSocketId.value, senderId, message, timestamp)];
      }
      store := store + [StoreAttempt(MessageRecord(senderId, receiverId, message, ToIsoString(timestamp)), stored)];
    }

    /** `typing`: forwarded to the receiver's socket when present; never
        persisted. */
    method Typing(senderId: UserId, receiverId: UserId)
      requires Valid()
      modifies this
      ensures Valid() && users == old(users) && store == old(store)
      ensures Lookup(users, receiverId).Some? ==> outbox == old(outbox) + [TypingNotice(Lookup(users, receiverId).value, senderId)]
      ensures Lookup(users, receiverId).None? ==> outbox == old(outbox)
    {
      var receiverSocketId := Lookup(users, receiverId);
      if receiverSocketId.Some? {
        outbox := outbox + [TypingNotice(receiverSocketId.value, senderId)];
      }
    }

    /** `disconnect`: scan the entries in order and delete the first one
        whose socket is the closing one, then stop. */
    method Disconnect(socketId: SocketId)
      requires Valid()
      modifies this
      ensures Valid()
      ensures users == RemoveFirst(old(users), socketId)
      ensures outbox == old(outbox) && store == old(store)
    {
      ghost var before := users;
      var i := 0;
      while i < |users|
        invariant 0 <= i <= |users| && users == before
        invariant forall k :: 0 <= k < i ==> users[k].socketId != socketId
      {
        if users[i].socketId == socketId {
          RemoveFirstAt(users, socketId, i);
          users := users[..i] + users[i + 1..];
          break;
        }
        i := i + 1;
      }
      if users == before {
        RemoveFirstAbsent(before, socketId);
      }
      RemoveFirstLookup(before, socketId, "");
    }
  }
}
