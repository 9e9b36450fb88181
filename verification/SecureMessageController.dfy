/** The controller object itself, proved against the functions of SecureMessages. */
module SecureMessageControllers {
  import opened Arithmetic
  import opened Wrappers
  import opened SecureMessages

  class SecureMessageController {
    const currentUserId: Id
    const crypto: Crypto

    var lifetimeAborted: bool
    var objectUrls: map<Id, Url>
    var conversationMessageIds: map<Id, set<Id>>
    var decryptedMessages: map<Id, CacheEntry>
    var authenticatedMessages: map<Key, Record>
    var authenticatedKeysByMessageId: map<Id, Key>
    var messageExpiryTimers: map<Id, Expiry>
    // The platform's side: URL.createObjectURL, URL.revokeObjectURL, setTimeout and clearTimeout.
    var createdUrls: nat
    var revokedUrls: multiset<Url>
    var timers: map<TimerId, Timer>
    var startedTimers: nat

    ghost function View(): Core
      reads this
    {
      Core(lifetimeAborted, objectUrls, conversationMessageIds, decryptedMessages, authenticatedMessages,
           authenticatedKeysByMessageId, messageExpiryTimers, createdUrls, revokedUrls, timers, startedTimers)
    }

    constructor (currentUserId: Id, crypto: Crypto)
      ensures View() == EMPTY && this.currentUserId == currentUserId && this.crypto == crypto
    {
      this.currentUserId := currentUserId;
      this.crypto := crypto;
      lifetimeAborted, objectUrls, conversationMessageIds, decryptedMessages := false, map[], map[], map[];
      authenticatedMessages, authenticatedKeysByMessageId, messageExpiryTimers := map[], map[], map[];
      createdUrls, revokedUrls, timers, startedTimers := 0, multiset{}, map[], 0;
    }

    method RevokeObjectUrl(messageId: Id)
      modifies this
      ensures View() == SecureMessages.RevokeObjectUrl(old(View()), messageId)
    {
      if messageId !in objectUrls { return; }
      revokedUrls := revokedUrls + multiset{objectUrls[messageId]};
      objectUrls := objectUrls - {messageId};
    }

    method UnlistMessage(messageId: Id)
      modifies this`conversationMessageIds
      ensures conversationMessageIds == WithoutMessage(old(conversationMessageIds), messageId)
    {
      var lists := conversationMessageIds;
      var pending := lists.Keys;
      while pending != {}
        invariant pending <= lists.Keys == conversationMessageIds.Keys
        invariant forall k | k in lists ::
                    lists[k] == if k in pending then conversationMessageIds[k] else conversationMessageIds[k] - {messageId}
        decreases pending
      {
        var k :| k in pending;
        lists := lists[k := lists[k] - {messageId}];
        pending := pending - {k};
      }
      conversationMessageIds := lists;
    }

    method ReleaseMessage(messageId: Id)
      modifies this
      ensures View() == ForgetPlaintext(SecureMessages.RevokeObjectUrl(old(View()), messageId), messageId)
                        .(conversationMessageIds := WithoutMessage(old(conversationMessageIds), messageId))
    {
      RevokeObjectUrl(messageId);
      decryptedMessages := decryptedMessages - {messageId};
      UnlistMessage(messageId);
    }

    method CancelTimer(messageId: Id)
      modifies this
      ensures View() == SecureMessages.CancelTimer(old(View()), messageId)
    {
      if messageId in messageExpiryTimers {
        timers := timers - {messageExpiryTimers[messageId].timer};
        messageExpiryTimers := messageExpiryTimers - {messageId};
      }
    }

    method ForgetRegistration(messageId: Id, key: Key)
      modifies this
      ensures View() == SecureMessages.ForgetRegistration(old(View()), messageId, key)
    {
      if key in authenticatedMessages && authenticatedMessages[key].messageId == messageId {
        authenticatedMessages := authenticatedMessages - {key};
      }
      if messageId in authenticatedKeysByMessageId && authenticatedKeysByMessageId[messageId] == key {
        authenticatedKeysByMessageId := authenticatedKeysByMessageId - {messageId};
      }
    }

    method ExpireMessage(messageId: Id, expectedKey: Option<Key>)
      modifies this
      ensures View() == SecureMessages.ExpireMessage(old(View()), messageId, expectedKey)
    {
      var expiry := Lookup(messageExpiryTimers, messageId);
      if expectedKey.Some? && expiry.Some? && expiry.value.authenticatedKey != expectedKey.value { return; }
      CancelTimer(messageId);
      ReleaseMessage(messageId);
      var key := if expectedKey.Some? then expectedKey
                 else if expiry.Some? then Some(expiry.value.authenticatedKey)
                 else Lookup(authenticatedKeysByMessageId, messageId);
      if key == None { return; }
      ForgetRegistration(messageId, key.value);
    }

    method ExpireMessageIfDue(messageId: Id, now: Instant)
      modifies this
      ensures View() == SecureMessages.ExpireMessageIfDue(old(View()), messageId, now)
    {
      var key := Lookup(authenticatedKeysByMessageId, messageId);
      var authenticated := if key == None then None else Lookup(authenticatedMessages, key.value);
      if authenticated.Some? && authenticated.value.expiresAtMs > now { return; }
      ExpireMessage(messageId, key);
    }

    method RememberAuthenticatedMessage(conversationId: Id, m: Fingerprint, now: Instant)
      returns (error: Option<LoadError>)
      modifies this
      ensures match SecureMessages.RememberAuthenticatedMessage(old(View()), conversationId, m, now)
              case Ok(c) => error == None && View() == c
              case Err(e) => error == Some(e) && View() == old(View())
    {
      if m.expiresAt <= now { return Some(MESSAGE_EXPIRED); }
      var key := KeyOf(m);
      var keyForMessage := Lookup(authenticatedKeysByMessageId, m.id);
      var existing := Lookup(authenticatedMessages, key);
      if (keyForMessage.Some? && keyForMessage.value != key)
         || (existing.Some? && (existing.value.messageId != m.id
                                || existing.value.conversationId != conversationId
                                || existing.value.fingerprint != m
                                || existing.value.expiresAtMs != m.expiresAt)) {
        return Some(MESSAGE_REPLAY_OR_REWRITE_DETECTED);
      }
      if existing.Some? { return None; }

      Register(conversationId, m, now);
      return None;
    }

    /** The record, its key and the timer that will end both. */
    method Register(conversationId: Id, m: Fingerprint, now: Instant)
      modifies this
      ensures View() == SecureMessages.Register(old(View()), conversationId, m, now)
    {
      var key := KeyOf(m);
      authenticatedMessages := authenticatedMessages[key := Record(m.id, conversationId, m, m.expiresAt)];
      authenticatedKeysByMessageId := authenticatedKeysByMessageId[m.id := key];
      timers := timers[startedTimers := Timer(m.id, key, now + Max(0, m.expiresAt - now))];
      messageExpiryTimers := messageExpiryTimers[m.id := Expiry(key, startedTimers)];
      startedTimers := startedTimers + 1;
    }

    /** The platform calls back: the timer is spent, then the message it was started for expires. */
    method TimerFires(t: TimerId)
      requires t in timers
      modifies this
      ensures View() == FireTimer(old(View()), t)
    {
      var timer := timers[t];
      timers := timers - {t};
      ExpireMessage(timer.messageId, Some(timer.authenticatedKey));
    }

    method ReleasePlatform()
      requires Injective(objectUrls)
      modifies this`revokedUrls, this`timers
      ensures View() == old(View()).(revokedUrls := old(revokedUrls) + multiset(UrlsOf(objectUrls, objectUrls.Keys)),
                                     timers := old(timers) - TimersOf(messageExpiryTimers, messageExpiryTimers.Keys))
    {
      revokedUrls := RevokeEach(objectUrls, objectUrls.Keys, revokedUrls);
      timers := CancelEach(messageExpiryTimers, timers);
    }

    method ClearMaps()
      modifies this`objectUrls, this`conversationMessageIds, this`decryptedMessages,
               this`authenticatedMessages, this`authenticatedKeysByMessageId, this`messageExpiryTimers
      ensures View() == old(View()).(objectUrls := map[], conversationMessageIds := map[], decryptedMessages := map[],
                                     authenticatedMessages := map[], authenticatedKeysByMessageId := map[],
                                     messageExpiryTimers := map[])
    {
      objectUrls, conversationMessageIds, decryptedMessages := map[], map[], map[];
      authenticatedMessages, authenticatedKeysByMessageId, messageExpiryTimers := map[], map[], map[];
    }

    method Close()
      requires Injective(objectUrls)
      modifies this
      ensures View() == SecureMessages.Close(old(View()))
    {
      lifetimeAborted := true;
      ReleasePlatform();
      ClearMaps();
    }

    // ---------------------------------------------------------------- load, stretch by stretch

    method ScanItem(f: Frame, now: Instant) returns (g: Frame)
      requires f.next < |f.page|
      modifies this
      ensures (View(), g) == SecureMessages.ScanItem(old(View()), f, now, currentUserId)
    {
      var m := f.page[f.next];
      if lifetimeAborted || f.aborted { return Fail(f, ABORTED); }
      if m.facts.expiresAt <= now {
        ExpireMessageIfDue(m.facts.id, now);
        return Advance(f);
      }
      var cached := Lookup(decryptedMessages, m.facts.id);
      if cached.Some? && cached.value.conversationId == f.conversationId && cached.value.fingerprint == m.facts
         && KeyOf(m.facts) in authenticatedMessages
         && authenticatedMessages[KeyOf(m.facts)] == RecordOf(f.conversationId, m.facts)
         && Lookup(authenticatedKeysByMessageId, m.facts.id) == Some(KeyOf(m.facts))
      {
        var message := cached.value.message.(deliveryStatus := OwnDeliveryStatus(m, currentUserId));
        decryptedMessages := decryptedMessages[m.facts.id := cached.value.(message := message)];
        return Collect(f, message, currentUserId);
      }
      return f.(phase := Decrypting);
    }

    method AfterDecrypt(f: Frame, content: Content, now: Instant) returns (g: Frame)
      requires f.next < |f.page| && content == crypto(f.conversationId, f.page[f.next].facts)
      modifies this
      ensures (View(), g) == SecureMessages.AfterDecrypt(old(View()), f, now, currentUserId, crypto)
    {
      var m := f.page[f.next];
      if lifetimeAborted || f.aborted { return Fail(f, ABORTED); }
      if m.facts.expiresAt <= now {
        ExpireMessageIfDue(m.facts.id, now);
        return Advance(f);
      }
      if ContentKey(content) != KeyOf(m.facts) { return Fail(f, AUTHENTICATED_MESSAGE_BINDING_INVALID); }
      var error := RememberAuthenticatedMessage(f.conversationId, m.facts, now);
      if error.Some? { return Fail(f, error.value); }
      match content
      case TextContent(_, _, text) =>
        var message := TextChatMessage(m, text, currentUserId);
        decryptedMessages := decryptedMessages[m.facts.id := CacheEntry(f.conversationId, m.facts, message)];
        return Collect(f, message, currentUserId);
      case ImageContent(_, _, _) =>
        if m.facts.attachment == None { return Fail(f, IMAGE_ATTACHMENT_MISSING); }
        return f.(phase := Downloading);
    }

    method AfterDownload(f: Frame, now: Instant) returns (g: Frame)
      requires f.next < |f.page|
      modifies this
      ensures (View(), g) == SecureMessages.AfterDownload(old(View()), f, now, currentUserId)
    {
      var m := f.page[f.next];
      if lifetimeAborted || f.aborted { return Fail(f, ABORTED); }
      if m.facts.expiresAt <= now { return Fail(f, MESSAGE_EXPIRED); }
      RevokeObjectUrl(m.facts.id);
      var url := createdUrls;
      createdUrls := createdUrls + 1;
      objectUrls := objectUrls[m.facts.id := url];
      return f.(phase := Storing(ImageMessage(m.facts.id, m.facts.senderUserId, m.facts.createdAt, m.facts.expiresAt,
                                              OwnDeliveryStatus(m, currentUserId), url)));
    }

    method StoreImage(f: Frame) returns (g: Frame)
      requires f.next < |f.page| && f.phase.Storing?
      modifies this
      ensures (View(), g) == SecureMessages.StoreImage(old(View()), f, currentUserId)
    {
      var m := f.page[f.next];
      decryptedMessages := decryptedMessages[m.facts.id := CacheEntry(f.conversationId, m.facts, f.phase.image)];
      return Collect(f, f.phase.image, currentUserId);
    }

    /** The filter over the collected messages, which also drops the ones that have expired. */
    method FilterLive(shown: seq<Shown>, now: Instant) returns (live: seq<Shown>)
      modifies this
      ensures live == Live(shown, now) && View() == ExpireDead(old(View()), shown, now)
    {
      live := [];
      var i := 0;
      while i < |shown|
        invariant i <= |shown|
        invariant live + Live(shown[i..], now) == Live(shown, now)
        invariant ExpireDead(View(), shown[i..], now) == ExpireDead(old(View()), shown, now)
      {
        SweepOne(View(), shown, i, now);
        if shown[i].message.expiresAt > now {
          live := live + [shown[i]];
        } else {
          ExpireMessageIfDue(shown[i].message.id, now);
        }
        i := i + 1;
      }
    }

    method ReleaseStale(stale: set<Id>)
      requires Injective(objectUrls)
      modifies this
      ensures View() == DropStale(old(View()), stale)
    {
      revokedUrls := RevokeEach(objectUrls, stale, revokedUrls);
      objectUrls := objectUrls - stale;
      decryptedMessages := decryptedMessages - stale;
    }

    method ShowOnly(conversationId: Id, ids: set<Id>)
      requires Injective(objectUrls)
      modifies this
      ensures View() == SecureMessages.ShowOnly(old(View()), conversationId, ids)
    {
      var previous := if conversationId in conversationMessageIds then conversationMessageIds[conversationId] else {};
      ReleaseStale(previous - ids);
      conversationMessageIds := conversationMessageIds[conversationId := ids];
    }

    method Finish(f: Frame, now: Instant) returns (g: Frame)
      requires Injective(ExpireDead(View(), f.shown, now).objectUrls)
      modifies this
      ensures (View(), g) == SecureMessages.Finish(old(View()), f, now)
    {
      if lifetimeAborted || f.aborted { return Fail(f, ABORTED); }
      var live := FilterLive(f.shown, now);
      ShowOnly(f.conversationId, IdsOf(live));
      var last := if live == [] then None else Some(live[|live| - 1].message.sentAt);
      return f.(phase := Done(Loaded(live, 0, last, now)));
    }
  }

  /** URL.revokeObjectURL for every listed message that holds a URL. */
  method RevokeEach(held: map<Id, Url>, ids: set<Id>, revoked: multiset<Url>) returns (all: multiset<Url>)
    requires Injective(held)
    ensures all == revoked + multiset(UrlsOf(held, ids))
  {
    all := revoked;
    var pending := ids;
    ghost var released: set<Id> := {};
    assert UrlsOf(held, released) == {};
    while pending != {}
      invariant released + pending == ids && released !! pending
      invariant all == revoked + multiset(UrlsOf(held, released))
      decreases pending
    {
      var id :| id in pending;
      OneMoreUrl(held, released, id, revoked);
      if id in held {
        all := all + multiset{held[id]};
      }
      pending, released := pending - {id}, released + {id};
    }
    assert released == ids;
  }

  /** clearTimeout for every registered expiry timer. */
  method CancelEach(expiries: map<Id, Expiry>, timers: map<TimerId, Timer>) returns (rest: map<TimerId, Timer>)
    ensures rest == timers - TimersOf(expiries, expiries.Keys)
  {
    rest := timers;
    var armed := expiries.Keys;
    ghost var cancelled: set<Id> := {};
    assert TimersOf(expiries, cancelled) == {};
    while armed != {}
      invariant armed + cancelled == expiries.Keys
      invariant rest == timers - TimersOf(expiries, cancelled)
      decreases armed
    {
      var id :| id in armed;
      rest := rest - {expiries[id].timer};
      assert TimersOf(expiries, cancelled + {id}) == TimersOf(expiries, cancelled) + {expiries[id].timer};
      armed, cancelled := armed - {id}, cancelled + {id};
    }
    assert cancelled == expiries.Keys;
  }

  /** Revoking one more message's URL, on top of what `revoked` already counted. */
  lemma OneMoreUrl(held: map<Id, Url>, ids: set<Id>, id: Id, revoked: multiset<Url>)
    requires Injective(held) && id !in ids
    ensures id in held ==>
              revoked + multiset(UrlsOf(held, ids)) + multiset{held[id]} == revoked + multiset(UrlsOf(held, ids + {id}))
    ensures id !in held ==> UrlsOf(held, ids + {id}) == UrlsOf(held, ids)
  {
    if id in held {
      assert held[id] !in UrlsOf(held, ids);
      assert UrlsOf(held, ids + {id}) == UrlsOf(held, ids) + {held[id]};
    }
  }

  // ------------------------------------------------------------------ downloadExactBytes

  type Byte = b: int | 0 <= b < 256

  /** DOWNLOAD_ABORTED stands for the signal's reason and for the reader's own AbortError. */
  datatype DownloadError = IMAGE_DOWNLOAD_SIZE_INVALID | IMAGE_DOWNLOAD_FAILED | DOWNLOAD_ABORTED

  /** What the response body yields: chunks, then the end or a read error, which may be an AbortError. */
  datatype Body = End | Broken(abortError: bool) | Chunk(bytes: seq<Byte>, rest: Body)

  function Received(body: Body): seq<Byte> {
    match body
    case Chunk(bytes, rest) => bytes + Received(rest)
    case _ => []
  }

  predicate Completes(body: Body) {
    match body
    case End => true
    case Broken(_) => false
    case Chunk(_, rest) => Completes(rest)
  }

  predicate BreaksByAbort(body: Body) {
    match body
    case End => false
    case Broken(abortError) => abortError
    case Chunk(_, rest) => BreaksByAbort(rest)
  }

  /** Accepts exactly the bodies of the declared size and returns their bytes; any failure leaves zeros.
      `signalAborted` is what the signal says when a failed read has been cancelled. */
  method DownloadExactBytes(body: Body, expectedBytes: nat, signalAborted: bool)
    returns (output: array<Byte>, error: Option<DownloadError>)
    ensures fresh(output) && output.Length == expectedBytes
    ensures error == None <==> Completes(body) && |Received(body)| == expectedBytes
    ensures error == None ==> output[..] == Received(body)
    ensures error.Some? ==> forall k | 0 <= k < output.Length :: output[k] == 0
    ensures error == Some(IMAGE_DOWNLOAD_FAILED) <==>
              !signalAborted && !Completes(body) && !BreaksByAbort(body) && |Received(body)| <= expectedBytes
    ensures error == Some(DOWNLOAD_ABORTED) <==>
              if |Received(body)| > expectedBytes then signalAborted else !Completes(body) && (signalAborted || BreaksByAbort(body))
    ensures error == Some(IMAGE_DOWNLOAD_SIZE_INVALID) <==>
              if |Received(body)| > expectedBytes then !signalAborted else Completes(body) && |Received(body)| < expectedBytes
  {
    output := new Byte[expectedBytes];
    Zero(output);
    error := None;
    var offset := 0;
    var reader := body;
    while reader.Chunk? && error == None
      invariant 0 <= offset <= expectedBytes == output.Length && fresh(output)
      invariant error == None ==> Received(body) == output[..offset] + Received(reader)
      invariant Completes(body) == Completes(reader) && BreaksByAbort(body) == BreaksByAbort(reader)
      invariant error == None || (error == Some(IMAGE_DOWNLOAD_SIZE_INVALID) && |Received(body)| > expectedBytes)
      decreases if error == None then 1 else 0, reader
    {
      var value := reader.bytes;
      if offset + |value| > expectedBytes {
        error := Some(IMAGE_DOWNLOAD_SIZE_INVALID);
      } else {
        ghost var before := output[..offset];
        forall k | 0 <= k < |value| { output[offset + k] := value[k]; }
        assert output[..offset] == before;
        assert output[..offset + |value|] == before + value;
        offset := offset + |value|;
        reader := reader.rest;
      }
    }
    if error == None && reader.Broken? {
      error := Some(if reader.abortError then DOWNLOAD_ABORTED else IMAGE_DOWNLOAD_FAILED);
    }
    if error.Some? {
      Zero(output);
      return output, if signalAborted then Some(DOWNLOAD_ABORTED) else error;
    }
    if offset != expectedBytes {
      Zero(output);
      return output, Some(IMAGE_DOWNLOAD_SIZE_INVALID);
    }
    assert output[..offset] == output[..];
    return output, None;
  }

  method Zero(output: array<Byte>)
    modifies output
    ensures forall k | 0 <= k < output.Length :: output[k] == 0
  {
    forall k | 0 <= k < output.Length { output[k] := 0; }
  }

  /** One message of the filter: it stays, or it is expired if due. */
  lemma SweepOne(c: Core, shown: seq<Shown>, i: nat, now: Instant)
    requires i < |shown|
    ensures Live(shown[i..], now)
            == (if shown[i].message.expiresAt > now then [shown[i]] else []) + Live(shown[i + 1..], now)
    ensures ExpireDead(c, shown[i..], now)
            == ExpireDead(if shown[i].message.expiresAt > now then c
                          else SecureMessages.ExpireMessageIfDue(c, shown[i].message.id, now), shown[i + 1..], now)
  {
    assert shown[i..][0] == shown[i] && shown[i..][1..] == shown[i + 1..];
  }

  // ------------------------------------------------------------------ page order

  datatype PageError = MESSAGE_PAGE_CURSOR_INVALID | MESSAGE_PAGE_ORDER_INVALID

  /** The cursor must be the last sequence; neighbours must increase, which orders the whole page. */
  method CheckPageOrder(items: seq<Encrypted>, nextAfterSequence: nat) returns (error: Option<PageError>)
    ensures error == None <==>
              StrictlyIncreasing(items)
              && (items == [] || items[|items| - 1].facts.serverSequence == nextAfterSequence)
    ensures error == Some(MESSAGE_PAGE_CURSOR_INVALID) <==>
              items != [] && items[|items| - 1].facts.serverSequence != nextAfterSequence
  {
    if |items| > 0 && items[|items| - 1].facts.serverSequence != nextAfterSequence {
      return Some(MESSAGE_PAGE_CURSOR_INVALID);
    }
    var index := 1;
    while index < |items|
      invariant 1 <= index && (items == [] || index <= |items|)
      invariant items != [] ==> StrictlyIncreasing(items[..index])
    {
      if items[index - 1].facts.serverSequence >= items[index].facts.serverSequence {
        return Some(MESSAGE_PAGE_ORDER_INVALID);
      }
      index := index + 1;
    }
    assert items == [] || items[..index] == items;
    return None;
  }
}
