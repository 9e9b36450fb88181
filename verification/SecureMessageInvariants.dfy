/** What every synchronous stretch of the controller keeps. */
module SecureMessageInvariants {
  import opened Wrappers
  import opened SecureMessages

  /** Records, the key index and the expiry timers describe the same messages. */
  ghost predicate Bijection(c: Core) {
    && c.authenticatedKeysByMessageId.Keys == c.messageExpiryTimers.Keys
    && (forall id | id in c.authenticatedKeysByMessageId ::
          && c.messageExpiryTimers[id].authenticatedKey == c.authenticatedKeysByMessageId[id]
          && c.authenticatedKeysByMessageId[id] in c.authenticatedMessages
          && c.authenticatedMessages[c.authenticatedKeysByMessageId[id]].messageId == id)
    && (forall key | key in c.authenticatedMessages ::
          && c.authenticatedMessages[key].messageId in c.authenticatedKeysByMessageId
          && c.authenticatedKeysByMessageId[c.authenticatedMessages[key].messageId] == key)
  }

  /** Each record has exactly its own timer on the platform, due at the recorded expiry. */
  ghost predicate Scheduled(c: Core) {
    && (forall id | id in c.messageExpiryTimers ::
          var e := c.messageExpiryTimers[id];
          && e.timer in c.timers
          && c.timers[e.timer].messageId == id
          && c.timers[e.timer].authenticatedKey == e.authenticatedKey
          && e.authenticatedKey in c.authenticatedMessages
          && c.timers[e.timer].deadline == c.authenticatedMessages[e.authenticatedKey].expiresAtMs)
    && (forall t | t in c.timers ::
          && t < c.startedTimers
          && c.timers[t].messageId in c.messageExpiryTimers
          && c.messageExpiryTimers[c.timers[t].messageId].timer == t)
  }

  /** URLs and conversation lists mention registered messages only. */
  ghost predicate Owned(c: Core) {
    && c.objectUrls.Keys <= c.authenticatedKeysByMessageId.Keys
    && (forall k | k in c.conversationMessageIds ::
          c.conversationMessageIds[k] <= c.authenticatedKeysByMessageId.Keys)
  }

  /** Every URL ever created is held by one message, or was revoked exactly once. */
  ghost predicate LedgerBalanced(held: map<Id, Url>, created: nat, revoked: multiset<Url>) {
    && Injective(held)
    && (forall id | id in held :: held[id] < created)
    && (forall u: Url :: revoked[u] == if u < created && u !in held.Values then 1 else 0)
  }

  ghost predicate UrlsConserved(c: Core) {
    LedgerBalanced(c.objectUrls, c.createdUrls, c.revokedUrls)
  }

  ghost predicate EmptyOnceClosed(c: Core) {
    c.closed ==>
      && c.objectUrls == map[] && c.conversationMessageIds == map[] && c.authenticatedMessages == map[]
      && c.authenticatedKeysByMessageId == map[] && c.messageExpiryTimers == map[] && c.timers == map[]
  }

  ghost predicate Registered(c: Core, conversationId: Id, m: Fingerprint) {
    MatchesAuthenticatedMessage(c, conversationId, m)
  }

  /** What decryption authenticates names the device and the client message id of the transport, and a picture
      has an attachment. */
  ghost predicate Bound(conversationId: Id, m: Fingerprint, crypto: Crypto) {
    && var content := crypto(conversationId, m);
       && content.senderDeviceId + ":" + content.clientMessageId == m.senderDeviceId + ":" + m.clientMessageId
       && (content.ImageContent? ==> m.attachment.Some?)
  }

  /** What direct decryption would show for the fingerprinted facts, whatever the delivery status. */
  ghost predicate Faithful(message: ChatMessage, conversationId: Id, m: Fingerprint, crypto: Crypto) {
    && message.id == m.id && message.senderId == m.senderUserId
    && message.sentAt == m.createdAt && message.expiresAt == m.expiresAt
    && Bound(conversationId, m, crypto)
    && match crypto(conversationId, m)
       case TextContent(_, _, text) => message.TextMessage? && message.text == text
       case ImageContent(_, _, _) => message.ImageMessage?
  }

  /** Cached plaintext is what decryption would give; unexpired and open, it is still registered. */
  ghost predicate CacheSound(c: Core, now: Instant, crypto: Crypto) {
    forall id | id in c.decryptedMessages ::
      var e := c.decryptedMessages[id];
      && e.fingerprint.id == id
      && Faithful(e.message, e.conversationId, e.fingerprint, crypto)
      && (!c.closed && e.fingerprint.expiresAt > now ==> Registered(c, e.conversationId, e.fingerprint))
  }

  ghost predicate Sound(c: Core) {
    Bijection(c) && Scheduled(c) && Owned(c) && UrlsConserved(c) && EmptyOnceClosed(c)
  }

  /** From `c` to `d`, no record is lost or changed before its recorded expiry, unless closed. */
  ghost predicate RecordsKept(c: Core, d: Core, now: Instant) {
    && (c.closed ==> d.closed)
    && (forall key | key in c.authenticatedMessages && c.authenticatedMessages[key].expiresAtMs > now && !d.closed ::
          key in d.authenticatedMessages && d.authenticatedMessages[key] == c.authenticatedMessages[key])
  }

  // ------------------------------------------------------------ single operations

  lemma RegisteredKept(c: Core, d: Core, now: Instant, conversationId: Id, m: Fingerprint)
    requires Bijection(d) && RecordsKept(c, d, now)
    requires Registered(c, conversationId, m) && m.expiresAt > now && !d.closed
    ensures Registered(d, conversationId, m)
  {
    assert d.authenticatedMessages[KeyOf(m)] == RecordOf(conversationId, m);
  }

  lemma RevokeBalances(held: map<Id, Url>, created: nat, revoked: multiset<Url>, id: Id)
    requires LedgerBalanced(held, created, revoked)
    ensures LedgerBalanced(held - {id}, created, if id in held then revoked + multiset{held[id]} else revoked)
  {
    var left := held - {id};
    if id in held {
      var after := revoked + multiset{held[id]};
      forall u: Url ensures after[u] == if u < created && u !in left.Values then 1 else 0 {
        if u in held.Values && u != held[id] {
          var k :| k in held && held[k] == u;
          assert k in left && left[k] == u;
        }
      }
    } else {
      assert left == held;
    }
  }

  lemma RevokeKeeps(c: Core, id: Id)
    requires Sound(c)
    ensures Sound(RevokeObjectUrl(c, id))
  {
    RevokeBalances(c.objectUrls, c.createdUrls, c.revokedUrls, id);
  }

  lemma CreateUrlKeeps(c: Core, id: Id)
    requires Sound(c) && id !in c.objectUrls && id in c.authenticatedKeysByMessageId && !c.closed
    ensures Sound(CreateObjectUrl(c, id))
  {
    var d := CreateObjectUrl(c, id);
    forall u: Url ensures d.revokedUrls[u] == if u < d.createdUrls && u !in d.objectUrls.Values then 1 else 0 {
      if u == c.createdUrls {
        assert d.objectUrls[id] == u;
      } else if u in c.objectUrls.Values {
        var k :| k in c.objectUrls && c.objectUrls[k] == u;
        assert d.objectUrls[k] == u;
      }
    }
  }

  lemma RegisterKeepsIndexes(c: Core, conversationId: Id, m: Fingerprint, now: Instant)
    requires Bijection(c) && !Conflicts(c, conversationId, m) && KeyOf(m) !in c.authenticatedMessages
    ensures m.id !in c.authenticatedKeysByMessageId && Bijection(Register(c, conversationId, m, now))
  {
    assert m.id !in c.authenticatedKeysByMessageId;
  }

  lemma RegisterKeepsSchedule(c: Core, conversationId: Id, m: Fingerprint, now: Instant)
    requires Scheduled(c) && now < m.expiresAt
    requires m.id !in c.messageExpiryTimers && KeyOf(m) !in c.authenticatedMessages
    ensures Scheduled(Register(c, conversationId, m, now))
  {
  }

  lemma RegisterKeeps(c: Core, conversationId: Id, m: Fingerprint, now: Instant)
    requires Sound(c) && !c.closed && now < m.expiresAt
    requires !Conflicts(c, conversationId, m) && KeyOf(m) !in c.authenticatedMessages
    ensures Sound(Register(c, conversationId, m, now))
    ensures RecordsKept(c, Register(c, conversationId, m, now), now)
    ensures Registered(Register(c, conversationId, m, now), conversationId, m)
  {
    RegisterKeepsIndexes(c, conversationId, m, now);
    RegisterKeepsSchedule(c, conversationId, m, now);
    assert Owned(Register(c, conversationId, m, now));
  }

  /** `d` is `c` without anything that belongs to the message `id`. */
  ghost predicate Without(c: Core, d: Core, id: Id) {
    && d.closed == c.closed && d.createdUrls == c.createdUrls && d.startedTimers == c.startedTimers
    && d.objectUrls == c.objectUrls - {id}
    && d.decryptedMessages == c.decryptedMessages - {id}
    && d.conversationMessageIds == WithoutMessage(c.conversationMessageIds, id)
    && d.authenticatedKeysByMessageId == c.authenticatedKeysByMessageId - {id}
    && d.messageExpiryTimers == c.messageExpiryTimers - {id}
    && d.authenticatedMessages ==
         (if id in c.authenticatedKeysByMessageId
          then c.authenticatedMessages - {c.authenticatedKeysByMessageId[id]} else c.authenticatedMessages)
    && d.timers == (if id in c.messageExpiryTimers
                    then c.timers - {c.messageExpiryTimers[id].timer} else c.timers)
  }

  /** The entries for one message agree with one another. */
  predicate AgreesAt(c: Core, id: Id) {
    if id in c.authenticatedKeysByMessageId then
      var key := c.authenticatedKeysByMessageId[id];
      && id in c.messageExpiryTimers && c.messageExpiryTimers[id].authenticatedKey == key
      && key in c.authenticatedMessages && c.authenticatedMessages[key].messageId == id
    else id !in c.messageExpiryTimers
  }

  lemma RevokeRemoves(c: Core, id: Id)
    ensures RevokeObjectUrl(c, id).objectUrls == c.objectUrls - {id}
    ensures RevokeObjectUrl(c, id) == c.(objectUrls := c.objectUrls - {id},
                                         revokedUrls := RevokeObjectUrl(c, id).revokedUrls)
  {
    if id !in c.objectUrls {
      assert c.objectUrls - {id} == c.objectUrls;
    }
  }

  lemma ExpireRemovesAll(c: Core, id: Id)
    requires AgreesAt(c, id)
    ensures Without(c, ExpireMessage(c, id, Lookup(c.authenticatedKeysByMessageId, id)), id)
    ensures ExpireMessage(c, id, Lookup(c.authenticatedKeysByMessageId, id)).revokedUrls
            == RevokeObjectUrl(c, id).revokedUrls
  {
    var cancelled := CancelTimer(c, id);
    RevokeRemoves(c, id);
    RevokeRemoves(cancelled, id);
    if id !in c.authenticatedKeysByMessageId {
      assert c.authenticatedKeysByMessageId - {id} == c.authenticatedKeysByMessageId;
      assert c.messageExpiryTimers - {id} == c.messageExpiryTimers;
    } else {
      assert cancelled.timers == c.timers - {c.messageExpiryTimers[id].timer};
    }
  }

  lemma WithoutKeepsIndexes(c: Core, d: Core, id: Id)
    requires Sound(c) && Without(c, d, id)
    ensures Bijection(d) && Owned(d) && EmptyOnceClosed(d)
  {
    if id in c.authenticatedKeysByMessageId {
      forall other | other in d.authenticatedKeysByMessageId
        ensures c.authenticatedKeysByMessageId[other] != c.authenticatedKeysByMessageId[id] {
        assert c.authenticatedMessages[c.authenticatedKeysByMessageId[other]].messageId == other;
      }
    }
  }

  lemma WithoutKeepsSchedule(c: Core, d: Core, id: Id)
    requires Sound(c) && Without(c, d, id)
    ensures Scheduled(d)
  {
    forall other | other in d.messageExpiryTimers
      ensures var e := d.messageExpiryTimers[other];
              e.timer in d.timers && e.authenticatedKey in d.authenticatedMessages
    {
      assert c.timers[c.messageExpiryTimers[other].timer].messageId == other;
      assert c.authenticatedMessages[c.authenticatedKeysByMessageId[other]].messageId == other;
    }
  }

  lemma WithoutKeepsUrls(c: Core, d: Core, id: Id)
    requires UrlsConserved(c) && Without(c, d, id) && d.revokedUrls == RevokeObjectUrl(c, id).revokedUrls
    ensures UrlsConserved(d)
  {
    RevokeBalances(c.objectUrls, c.createdUrls, c.revokedUrls, id);
  }

  /** Expiring a message whose record is absent or due. */
  lemma ExpireKeeps(c: Core, id: Id, now: Instant)
    requires Sound(c)
    requires id in c.authenticatedKeysByMessageId ==>
               c.authenticatedMessages[c.authenticatedKeysByMessageId[id]].expiresAtMs <= now
    ensures var d := ExpireMessage(c, id, Lookup(c.authenticatedKeysByMessageId, id));
            Without(c, d, id) && Sound(d) && RecordsKept(c, d, now)
  {
    assert AgreesAt(c, id);
    ExpireRemovesAll(c, id);
    KeepsWithout(c, ExpireMessage(c, id, Lookup(c.authenticatedKeysByMessageId, id)), id, now);
  }

  lemma KeepsWithout(c: Core, d: Core, id: Id, now: Instant)
    requires Sound(c) && Without(c, d, id) && d.revokedUrls == RevokeObjectUrl(c, id).revokedUrls
    requires id in c.authenticatedKeysByMessageId ==>
               c.authenticatedMessages[c.authenticatedKeysByMessageId[id]].expiresAtMs <= now
    ensures Sound(d) && RecordsKept(c, d, now)
  {
    WithoutKeepsIndexes(c, d, id);
    WithoutKeepsSchedule(c, d, id);
    WithoutKeepsUrls(c, d, id);
  }

  /** Plaintext is only ever dropped: nothing is rewritten. */
  ghost predicate PlaintextOnlyDropped(c: Core, d: Core) {
    forall k | k in d.decryptedMessages ::
      k in c.decryptedMessages && d.decryptedMessages[k] == c.decryptedMessages[k]
  }

  lemma ExpireIfDueKeeps(c: Core, id: Id, now: Instant)
    requires Sound(c)
    ensures var d := ExpireMessageIfDue(c, id, now);
            Sound(d) && RecordsKept(c, d, now) && d.closed == c.closed && PlaintextOnlyDropped(c, d)
  {
    var key := Lookup(c.authenticatedKeysByMessageId, id);
    if !(key.Some? && key.value in c.authenticatedMessages
         && c.authenticatedMessages[key.value].expiresAtMs > now) {
      ExpireKeeps(c, id, now);
      assert Without(c, ExpireMessage(c, id, key), id);
    }
  }

  /** A platform timer that is due removes exactly the record it was started for. */
  lemma FireKeeps(c: Core, t: TimerId, now: Instant)
    requires Sound(c) && t in c.timers && c.timers[t].deadline <= now
    ensures Sound(FireTimer(c, t)) && RecordsKept(c, FireTimer(c, t), now) && FireTimer(c, t).closed == c.closed
    ensures PlaintextOnlyDropped(c, FireTimer(c, t))
    ensures c.timers[t].authenticatedKey !in FireTimer(c, t).authenticatedMessages
    ensures FireTimer(c, t) == ExpireMessage(c, c.timers[t].messageId,
                                             Lookup(c.authenticatedKeysByMessageId, c.timers[t].messageId))
  {
    var id := c.timers[t].messageId;
    var key := c.timers[t].authenticatedKey;
    assert c.messageExpiryTimers[id].timer == t;
    assert c.authenticatedKeysByMessageId[id] == key;
    ExpireKeeps(c, id, now);
    assert (c.timers - {t}) - {t} == c.timers - {t};
  }

  lemma CloseBalances(c: Core)
    requires UrlsConserved(c)
    ensures UrlsConserved(Close(c))
    ensures forall u: Url | u < c.createdUrls :: Close(c).revokedUrls[u] == 1
  {
    var d := Close(c);
    assert UrlsOf(c.objectUrls, c.objectUrls.Keys) == c.objectUrls.Values;
    forall u: Url ensures d.revokedUrls[u] == if u < d.createdUrls then 1 else 0 {
      if u in c.objectUrls.Values {
        assert c.revokedUrls[u] == 0;
      }
    }
  }

  lemma CloseKeeps(c: Core)
    requires Sound(c)
    ensures Sound(Close(c)) && Close(c).closed
    ensures forall u: Url | u < c.createdUrls :: Close(c).revokedUrls[u] == 1
  {
    var d := Close(c);
    forall t | t in c.timers ensures t !in d.timers {
      assert c.messageExpiryTimers[c.timers[t].messageId].timer == t;
    }
    assert d.timers == map[];
    CloseBalances(c);
  }

  lemma ExpireDeadKeeps(c: Core, shown: seq<Shown>, now: Instant)
    requires Sound(c)
    ensures var d := ExpireDead(c, shown, now);
            Sound(d) && RecordsKept(c, d, now) && d.closed == c.closed && PlaintextOnlyDropped(c, d)
    decreases |shown|
  {
    if shown != [] {
      if shown[0].message.expiresAt > now {
        ExpireDeadKeeps(c, shown[1..], now);
      } else {
        ExpireIfDueKeeps(c, shown[0].message.id, now);
        ExpireDeadKeeps(ExpireMessageIfDue(c, shown[0].message.id, now), shown[1..], now);
      }
    }
  }

  lemma DropStaleBalances(c: Core, stale: set<Id>)
    requires UrlsConserved(c)
    ensures UrlsConserved(DropStale(c, stale))
  {
    var d := DropStale(c, stale);
    var gone := UrlsOf(c.objectUrls, stale);
    forall u: Url ensures d.revokedUrls[u] == if u < d.createdUrls && u !in d.objectUrls.Values then 1 else 0 {
      if u in gone {
        assert u in c.objectUrls.Values;
      } else if u in c.objectUrls.Values {
        var k :| k in c.objectUrls && c.objectUrls[k] == u;
        assert d.objectUrls[k] == u;
      }
    }
  }

  lemma DropStaleKeeps(c: Core, stale: set<Id>, now: Instant)
    requires Sound(c)
    ensures var d := DropStale(c, stale);
            Sound(d) && RecordsKept(c, d, now) && d.closed == c.closed && PlaintextOnlyDropped(c, d)
  {
    DropStaleBalances(c, stale);
    var d := DropStale(c, stale);
    if c.closed { assert d.objectUrls == map[]; }
  }
}
