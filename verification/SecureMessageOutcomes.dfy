/** What is forgotten when, what a return leaves behind, and what an abort prevents. */
module SecureMessageOutcomes {
  import opened Wrappers
  import opened SecureMessages
  import opened SecureMessageInvariants
  import opened SecureMessageRuns

  // ---------------------------------------------------------------- forgetting

  /** Nothing is kept of the message: no URL, plaintext, record, timer or listing. */
  ghost predicate Forgotten(c: Core, id: Id) {
    && id !in c.objectUrls && id !in c.decryptedMessages && id !in c.authenticatedKeysByMessageId
    && id !in c.messageExpiryTimers
    && (forall key | key in c.authenticatedMessages :: c.authenticatedMessages[key].messageId != id)
    && forall k | k in c.conversationMessageIds :: id !in c.conversationMessageIds[k]
  }

  /** The message has no record, or the expiry on its record has passed. */
  predicate Due(c: Core, id: Id, now: Instant) {
    forall key | key in c.authenticatedMessages && c.authenticatedMessages[key].messageId == id ::
      c.authenticatedMessages[key].expiresAtMs <= now
  }

  lemma WithoutForgets(c: Core, d: Core, id: Id)
    requires Sound(c) && Without(c, d, id) && Bijection(d)
    ensures Forgotten(d, id)
  {
  }

  lemma DueIsForgotten(c: Core, id: Id, now: Instant)
    requires Sound(c)
    ensures if Due(c, id, now) then Forgotten(ExpireMessageIfDue(c, id, now), id) else ExpireMessageIfDue(c, id, now) == c
  {
    if id in c.authenticatedKeysByMessageId { assert c.authenticatedMessages[c.authenticatedKeysByMessageId[id]].messageId == id; }
    if Due(c, id, now) {
      ExpireKeeps(c, id, now);
      WithoutForgets(c, ExpireMessageIfDue(c, id, now), id);
    }
  }

  /** When its timer has run, nothing is kept of a message. */
  lemma TimerForgets(states: seq<System>, steps: seq<Step>, i: nat, w: World)
    requires Run(states, steps, w) && i < |steps| && steps[i].Fire?
    ensures steps[i].timer in states[i].core.timers
    ensures Forgotten(states[i + 1].core, states[i].core.timers[steps[i].timer].messageId)
  {
    RunKeeps(states, steps, i, w);
    var (c, t) := (states[i].core, steps[i].timer);
    FireKeeps(c, t, states[i].clock);
    var id := c.timers[t].messageId;
    assert c.messageExpiryTimers[id].timer == t;
    ExpireKeeps(c, id, states[i].clock);
    WithoutForgets(c, FireTimer(c, t), id);
  }

  /** A load that meets an expired message of its page skips it; whatever was kept of it is forgotten exactly
      when its recorded expiry, not the one the page claims, has passed too. */
  lemma ExpiredIsForgotten(states: seq<System>, steps: seq<Step>, i: nat, load: LoadId, w: World)
    requires Run(states, steps, w) && i < |steps| && (steps[i] == Scan(load) || steps[i] == Decrypted(load))
    requires Running(states[i], load) && !states[i].core.closed && !states[i].loads[load].aborted
    requires states[i].loads[load].page[states[i].loads[load].next].facts.expiresAt <= states[i].clock
    ensures load in states[i + 1].loads
    ensures var (f, g) := (states[i].loads[load], states[i + 1].loads[load]);
            var id := f.page[f.next].facts.id;
            && g == f.(next := f.next + 1, phase := Scanning)
            && if Due(states[i].core, id, states[i].clock) then Forgotten(states[i + 1].core, id)
               else states[i + 1].core == states[i].core
  {
    RunKeeps(states, steps, i, w);
    var f := states[i].loads[load];
    DueIsForgotten(states[i].core, f.page[f.next].facts.id, states[i].clock);
  }

  // ---------------------------------------------------------------- plaintext and records

  /** Cached text belongs to an open controller and to a message on record. */
  ghost predicate TextOnRecord(c: Core) {
    forall id | id in c.decryptedMessages && c.decryptedMessages[id].message.TextMessage? ::
      !c.closed && c.decryptedMessages[id].fingerprint.id == id
      && Registered(c, c.decryptedMessages[id].conversationId, c.decryptedMessages[id].fingerprint)
  }

  lemma WithoutKeepsText(c: Core, d: Core, id: Id)
    requires Sound(c) && TextOnRecord(c) && Without(c, d, id)
    ensures TextOnRecord(d)
  {
  }

  lemma CacheKeepsText(c: Core, conversationId: Id, m: Fingerprint, message: ChatMessage)
    requires TextOnRecord(c) && (message.TextMessage? ==> !c.closed && Registered(c, conversationId, m))
    ensures TextOnRecord(Cache(c, conversationId, m, message))
  {
  }

  lemma ExpireKeepsText(c: Core, id: Id, now: Instant)
    requires Sound(c) && TextOnRecord(c)
    ensures TextOnRecord(ExpireMessageIfDue(c, id, now)) && Sound(ExpireMessageIfDue(c, id, now))
  {
    DueIsForgotten(c, id, now);
    ExpireIfDueKeeps(c, id, now);
    if ExpireMessageIfDue(c, id, now) != c {
      ExpireKeeps(c, id, now);
      WithoutKeepsText(c, ExpireMessageIfDue(c, id, now), id);
    }
  }

  lemma {:induction false} ExpireDeadKeepsText(c: Core, shown: seq<Shown>, now: Instant)
    requires Sound(c) && TextOnRecord(c)
    ensures TextOnRecord(ExpireDead(c, shown, now)) && Sound(ExpireDead(c, shown, now))
    decreases |shown|
  {
    if shown != [] {
      if shown[0].message.expiresAt > now {
        ExpireDeadKeepsText(c, shown[1..], now);
      } else {
        ExpireKeepsText(c, shown[0].message.id, now);
        ExpireDeadKeepsText(ExpireMessageIfDue(c, shown[0].message.id, now), shown[1..], now);
      }
    }
  }

  lemma ScanKeepsText(c: Core, f: Frame, now: Instant, currentUserId: Id)
    requires Sound(c) && TextOnRecord(c) && f.next < |f.page|
    ensures TextOnRecord(ScanItem(c, f, now, currentUserId).0)
  {
    var m := f.page[f.next].facts;
    if !Aborted(c, f) && m.expiresAt <= now {
      ExpireKeepsText(c, m.id, now);
    } else if !Aborted(c, f) && CacheHit(c, f.conversationId, m) {
      var message := c.decryptedMessages[m.id].message.(deliveryStatus := OwnDeliveryStatus(f.page[f.next], currentUserId));
      CacheKeepsText(c, f.conversationId, m, message);
    }
  }

  lemma RememberKeepsText(c: Core, conversationId: Id, m: Fingerprint, now: Instant)
    requires Sound(c) && TextOnRecord(c) && RememberAuthenticatedMessage(c, conversationId, m, now).Ok? && !c.closed
    ensures var known := RememberAuthenticatedMessage(c, conversationId, m, now).value;
            TextOnRecord(known) && Registered(known, conversationId, m) && !known.closed
  {
    if KeyOf(m) !in c.authenticatedMessages {
      RegisterKeepsIndexes(c, conversationId, m, now);
    } else {
      assert c.authenticatedKeysByMessageId[c.authenticatedMessages[KeyOf(m)].messageId] == KeyOf(m);
    }
  }

  lemma DecryptKeepsText(c: Core, f: Frame, now: Instant, w: World)
    requires Sound(c) && TextOnRecord(c) && f.next < |f.page|
    ensures TextOnRecord(AfterDecrypt(c, f, now, w.currentUserId, w.crypto).0)
  {
    var m := f.page[f.next];
    var content := w.crypto(f.conversationId, m.facts);
    if !Aborted(c, f) && m.facts.expiresAt <= now {
      ExpireKeepsText(c, m.facts.id, now);
    } else if !Aborted(c, f) && ContentKey(content) == KeyOf(m.facts) {
      var known := RememberAuthenticatedMessage(c, f.conversationId, m.facts, now);
      if known.Ok? {
        RememberKeepsText(c, f.conversationId, m.facts, now);
        if content.TextContent? {
          CacheKeepsText(known.value, f.conversationId, m.facts, TextChatMessage(m, content.text, w.currentUserId));
        }
      }
    }
  }

  lemma FinishKeepsText(c: Core, f: Frame, now: Instant)
    requires Sound(c) && TextOnRecord(c)
    ensures TextOnRecord(Finish(c, f, now).0)
  {
    if !Aborted(c, f) { ExpireDeadKeepsText(c, f.shown, now); }
  }

  lemma FireKeepsText(c: Core, t: TimerId, now: Instant)
    requires Sound(c) && TextOnRecord(c) && t in c.timers && c.timers[t].deadline <= now
    ensures TextOnRecord(FireTimer(c, t))
  {
    FireKeeps(c, t, now);
    var id := c.timers[t].messageId;
    assert c.messageExpiryTimers[id].timer == t;
    ExpireKeeps(c, id, now);
    WithoutKeepsText(c, FireTimer(c, t), id);
  }

  lemma StepKeepsText(s: System, step: Step, w: World)
    requires Inv(s, w) && Enabled(s, step) && TextOnRecord(s.core)
    ensures TextOnRecord(Apply(s, step, w).core)
  {
    match step
    case Scan(load) => ScanKeepsText(s.core, s.loads[load], s.clock, w.currentUserId);
    case Decrypted(load) => DecryptKeepsText(s.core, s.loads[load], s.clock, w);
    case Stored(load) =>
      var f := s.loads[load];
      CacheKeepsText(s.core, f.conversationId, f.page[f.next].facts, f.phase.image);
    case Finished(load) => FinishKeepsText(s.core, s.loads[load], s.clock);
    case Fire(t) => FireKeepsText(s.core, t, s.clock);
    case _ =>
  }

  /** In every state, cached text has a record for its conversation and fingerprint: no text outlives it. */
  lemma {:induction false} TextNeverOutlivesItsRecord(states: seq<System>, steps: seq<Step>, i: nat, w: World)
    requires Run(states, steps, w) && i < |states|
    ensures TextOnRecord(states[i].core)
  {
    if i > 0 {
      RunKeeps(states, steps, i - 1, w);
      TextNeverOutlivesItsRecord(states, steps, i - 1, w);
      StepKeepsText(states[i - 1], steps[i - 1], w);
    }
  }

  // ---------------------------------------------------------------- aborts

  /** After an abort, its own or the controller's, a load that has not returned yet never does. */
  lemma {:induction false} AbortedNeverReturns(states: seq<System>, steps: seq<Step>, i: nat, j: nat, load: LoadId, w: World)
    requires Run(states, steps, w) && i <= j < |states| && load in states[i].loads
    requires states[i].core.closed || states[i].loads[load].aborted
    requires !states[i].loads[load].phase.Done?
    ensures load in states[j].loads && !states[j].loads[load].phase.Done?
    ensures states[j].core.closed || states[j].loads[load].aborted
    decreases j - i
  {
    if i < j {
      AbortedNeverReturns(states, steps, i, j - 1, load, w);
      RunKeeps(states, steps, j - 1, w);
      StepStaysAborted(states[j - 1], steps[j - 1], load, w);
    }
  }

  lemma StepStaysAborted(s: System, step: Step, load: LoadId, w: World)
    requires Inv(s, w) && Enabled(s, step) && load in s.loads && (s.core.closed || s.loads[load].aborted)
    requires !s.loads[load].phase.Done?
    ensures var d := Apply(s, step, w);
            && load in d.loads && !d.loads[load].phase.Done? && (d.core.closed || d.loads[load].aborted)
  {
    StepKeeps(s, step, w);
  }

  /** And the next stretch of it that tests for an abort fails with that and changes nothing else. */
  lemma AbortedStretchFails(states: seq<System>, steps: seq<Step>, i: nat, load: LoadId, w: World)
    requires Run(states, steps, w) && i < |steps| && load in states[i].loads
    requires steps[i] in {Scan(load), Decrypted(load), Downloaded(load), Finished(load)}
    requires states[i].core.closed || states[i].loads[load].aborted
    ensures states[i + 1] == states[i].(loads := states[i].loads[load := states[i].loads[load].(phase := Failed(ABORTED))])
  {
    RunKeeps(states, steps, i, w);
  }

  // ---------------------------------------------------------------- why a load fails

  /** Some record stands for this key or this id that is not exactly this message in this conversation. */
  predicate Contradicted(c: Core, conversationId: Id, m: Fingerprint) {
    var key := m.senderDeviceId + ":" + m.clientMessageId;
    || (m.id in c.authenticatedKeysByMessageId && c.authenticatedKeysByMessageId[m.id] != key)
    || (key in c.authenticatedMessages
        && (c.authenticatedMessages[key].messageId != m.id || c.authenticatedMessages[key].conversationId != conversationId
            || c.authenticatedMessages[key].fingerprint != m || c.authenticatedMessages[key].expiresAtMs != m.expiresAt))
  }

  /** After the decryption of an unexpired message a load goes on exactly when what was authenticated names the
      message's device and client id, no record contradicts it, and a picture has its attachment; otherwise it
      fails with the first of the three errors. */
  lemma DecryptedDecides(states: seq<System>, steps: seq<Step>, i: nat, load: LoadId, w: World)
    requires Run(states, steps, w) && i < |steps| && steps[i] == Decrypted(load) && Running(states[i], load)
    requires !states[i].core.closed && !states[i].loads[load].aborted
    requires states[i].loads[load].page[states[i].loads[load].next].facts.expiresAt > states[i].clock
    ensures load in states[i + 1].loads
    ensures var (c, f, g) := (states[i].core, states[i].loads[load], states[i + 1].loads[load]);
            var m := f.page[f.next].facts;
            var content := w.crypto(f.conversationId, m);
            var bound := content.senderDeviceId + ":" + content.clientMessageId == m.senderDeviceId + ":" + m.clientMessageId;
            var contradicted := Contradicted(c, f.conversationId, m);
            && (g.phase == Failed(AUTHENTICATED_MESSAGE_BINDING_INVALID) <==> !bound)
            && (g.phase == Failed(MESSAGE_REPLAY_OR_REWRITE_DETECTED) <==> bound && contradicted)
            && (g.phase == Failed(IMAGE_ATTACHMENT_MISSING)
                <==> bound && !contradicted && content.ImageContent? && m.attachment == None)
            && (g.phase == Downloading <==> bound && !contradicted && content.ImageContent? && m.attachment.Some?)
            && (g.phase == Scanning <==> bound && !contradicted && content.TextContent?)
            && (bound && !contradicted ==> Registered(states[i + 1].core, f.conversationId, m))
  {
    RunKeeps(states, steps, i, w);
    var (c, f) := (states[i].core, states[i].loads[load]);
    var m := f.page[f.next].facts;
    assert Conflicts(c, f.conversationId, m) <==> Contradicted(c, f.conversationId, m);
    if !Conflicts(c, f.conversationId, m) {
      RememberRegisters(c, f.conversationId, m, states[i].clock);
    }
  }

  lemma RememberRegisters(c: Core, conversationId: Id, m: Fingerprint, now: Instant)
    requires Bijection(c) && m.expiresAt > now && !Conflicts(c, conversationId, m)
    ensures RememberAuthenticatedMessage(c, conversationId, m, now).Ok?
    ensures Registered(RememberAuthenticatedMessage(c, conversationId, m, now).value, conversationId, m)
  {
    if KeyOf(m) in c.authenticatedMessages {
      assert c.authenticatedKeysByMessageId[c.authenticatedMessages[KeyOf(m)].messageId] == KeyOf(m);
    }
  }

  /** A picture that arrives after its message expired fails the load, and no URL is created for it. */
  lemma LatePictureFails(states: seq<System>, steps: seq<Step>, i: nat, load: LoadId, w: World)
    requires Run(states, steps, w) && i < |steps| && steps[i] == Downloaded(load) && Running(states[i], load)
    requires !states[i].core.closed && !states[i].loads[load].aborted
    requires states[i].loads[load].page[states[i].loads[load].next].facts.expiresAt <= states[i].clock
    ensures load in states[i + 1].loads && states[i + 1].core == states[i].core
    ensures states[i + 1].loads[load].phase == Failed(MESSAGE_EXPIRED)
  {
    RunKeeps(states, steps, i, w);
  }

  // ---------------------------------------------------------------- the cache

  /** What a stretch adds to a load it also caches, under the message's id and with its fingerprint. */
  lemma CollectedIsCached(states: seq<System>, steps: seq<Step>, i: nat, load: LoadId, w: World)
    requires Run(states, steps, w) && i < |steps| && steps[i] in {Scan(load), Decrypted(load), Stored(load)}
    requires load in states[i].loads && load in states[i + 1].loads
    requires states[i + 1].loads[load].shown != states[i].loads[load].shown
    ensures var (f, g, c) := (states[i].loads[load], states[i + 1].loads[load], states[i + 1].core);
            && f.next < |f.page| && |g.shown| == |f.shown| + 1 && g.shown[..|f.shown|] == f.shown
            && var (m, last) := (f.page[f.next].facts, g.shown[|f.shown|]);
               && last.origin == f.next && g.next == f.next + 1
               && m.id in c.decryptedMessages && c.decryptedMessages[m.id] == CacheEntry(f.conversationId, m, last.message)
  {
    RunKeeps(states, steps, i, w);
  }

  /** A message that is cached for this conversation and fingerprint, on record and unexpired, is shown again
      without a new decryption, with the status its receipts have now. */
  lemma CachedIsShown(states: seq<System>, steps: seq<Step>, i: nat, load: LoadId, w: World)
    requires Run(states, steps, w) && i < |steps| && steps[i] == Scan(load) && Running(states[i], load)
    requires !states[i].core.closed && !states[i].loads[load].aborted
    requires var (c, f) := (states[i].core, states[i].loads[load]);
             var m := f.page[f.next].facts;
             && m.expiresAt > states[i].clock && Registered(c, f.conversationId, m)
             && m.id in c.decryptedMessages && c.decryptedMessages[m.id].conversationId == f.conversationId
             && c.decryptedMessages[m.id].fingerprint == m
    ensures load in states[i + 1].loads
    ensures var (f, g) := (states[i].loads[load], states[i + 1].loads[load]);
            var (m, cached) := (f.page[f.next], states[i].core.decryptedMessages[f.page[f.next].facts.id].message);
            && |g.shown| == |f.shown| + 1 && g.next == f.next + 1 && g.phase == Scanning
            && g.shown[|f.shown|].message == cached.(deliveryStatus := g.shown[|f.shown|].message.deliveryStatus)
            && StatusOf(g.shown[|f.shown|].message.deliveryStatus, m, w.currentUserId)
  {
    RunKeeps(states, steps, i, w);
    OwnStatus(states[i].loads[load].page[states[i].loads[load].next], w.currentUserId);
  }

  // ---------------------------------------------------------------- what a return leaves behind

  /** A return lists exactly what it shows, and releases the URL and the plaintext of whatever the
      conversation listed before and does not show now. */
  lemma ReturnReleases(states: seq<System>, steps: seq<Step>, j: nat, load: LoadId, w: World)
    requires Returns(states, steps, j, load, w)
    ensures var (c, d, f) := (states[j].core, states[j + 1].core, states[j].loads[load]);
            var ids := set x | x in states[j + 1].loads[load].phase.result.shown :: x.message.id;
            && f.conversationId in d.conversationMessageIds && d.conversationMessageIds[f.conversationId] == ids
            && (f.conversationId in c.conversationMessageIds ==>
                  forall id | id in c.conversationMessageIds[f.conversationId] && id !in ids ::
                    id !in d.objectUrls && id !in d.decryptedMessages)
            && forall k | k in c.conversationMessageIds && k != f.conversationId ::
                 k in d.conversationMessageIds && d.conversationMessageIds[k] <= c.conversationMessageIds[k]
  {
    RunKeeps(states, steps, j, w);
    var (c, f) := (states[j].core, states[j].loads[load]);
    SweepLists(c, f.shown, states[j].clock);
    SweepForgets(c, f.shown, states[j].clock);
  }

  /** The sweep of the expired messages removes ids from the lists, and only those it has forgotten. */
  lemma {:induction false} SweepLists(c: Core, shown: seq<Shown>, now: Instant)
    ensures var d := ExpireDead(c, shown, now);
            && d.conversationMessageIds.Keys == c.conversationMessageIds.Keys
            && forall k | k in c.conversationMessageIds :: d.conversationMessageIds[k] <= c.conversationMessageIds[k]
    decreases |shown|
  {
    if shown != [] {
      if shown[0].message.expiresAt > now {
        SweepLists(c, shown[1..], now);
      } else {
        SweepLists(ExpireMessageIfDue(c, shown[0].message.id, now), shown[1..], now);
      }
    }
  }

  /** What the sweep takes off a list has neither URL nor plaintext any more. */
  ghost predicate OffTheLists(c: Core, d: Core) {
    && c.conversationMessageIds.Keys == d.conversationMessageIds.Keys
    && (forall id | id in d.objectUrls :: id in c.objectUrls) && (forall id | id in d.decryptedMessages :: id in c.decryptedMessages)
    && forall k, id | k in c.conversationMessageIds && id in c.conversationMessageIds[k] && id !in d.conversationMessageIds[k] ::
         id !in d.objectUrls && id !in d.decryptedMessages
  }

  lemma {:induction false} SweepForgets(c: Core, shown: seq<Shown>, now: Instant)
    requires Sound(c)
    ensures OffTheLists(c, ExpireDead(c, shown, now))
    decreases |shown|
  {
    if shown != [] {
      if shown[0].message.expiresAt > now {
        SweepForgets(c, shown[1..], now);
      } else {
        var d := ExpireMessageIfDue(c, shown[0].message.id, now);
        ExpireIfDueKeeps(c, shown[0].message.id, now);
        OneForgotten(c, shown[0].message.id, now);
        SweepForgets(d, shown[1..], now);
      }
    }
  }

  lemma OneForgotten(c: Core, id: Id, now: Instant)
    requires Sound(c)
    ensures OffTheLists(c, ExpireMessageIfDue(c, id, now))
  {
    DueIsForgotten(c, id, now);
    if Due(c, id, now) { ExpireKeeps(c, id, now); }
  }

  lemma ForgottenStays(c: Core, other: Id, now: Instant, id: Id)
    requires Sound(c)
    ensures Forgotten(c, id) ==> Forgotten(ExpireMessageIfDue(c, other, now), id)
    ensures Due(c, id, now) ==> Due(ExpireMessageIfDue(c, other, now), id, now)
  {
    DueIsForgotten(c, other, now);
    if Due(c, other, now) { ExpireKeeps(c, other, now); }
  }

  lemma {:induction false} SweepKeepsForgotten(c: Core, shown: seq<Shown>, now: Instant, id: Id)
    requires Sound(c) && Forgotten(c, id)
    ensures Forgotten(ExpireDead(c, shown, now), id)
    decreases |shown|
  {
    if shown != [] {
      if shown[0].message.expiresAt > now {
        SweepKeepsForgotten(c, shown[1..], now, id);
      } else {
        ExpireIfDueKeeps(c, shown[0].message.id, now);
        ForgottenStays(c, shown[0].message.id, now, id);
        SweepKeepsForgotten(ExpireMessageIfDue(c, shown[0].message.id, now), shown[1..], now, id);
      }
    }
  }

  lemma {:induction false} SweepForgetsDue(c: Core, shown: seq<Shown>, now: Instant, x: Shown)
    requires Sound(c) && x in shown && x.message.expiresAt <= now && Due(c, x.message.id, now)
    ensures Forgotten(ExpireDead(c, shown, now), x.message.id)
    decreases |shown|
  {
    if shown[0].message.expiresAt > now {
      SweepForgetsDue(c, shown[1..], now, x);
    } else {
      var d := ExpireMessageIfDue(c, shown[0].message.id, now);
      ExpireIfDueKeeps(c, shown[0].message.id, now);
      ForgottenStays(c, shown[0].message.id, now, x.message.id);
      if shown[0] == x {
        DueIsForgotten(c, x.message.id, now);
        SweepKeepsForgotten(d, shown[1..], now, x.message.id);
      } else {
        SweepForgetsDue(d, shown[1..], now, x);
      }
    }
  }

  /** A return forgets what it had collected and what has expired since, in the message and on record. */
  lemma ReturnForgets(states: seq<System>, steps: seq<Step>, j: nat, load: LoadId, x: Shown, w: World)
    requires Returns(states, steps, j, load, w) && x in states[j].loads[load].shown
    requires x.message.expiresAt <= states[j].clock && Due(states[j].core, x.message.id, states[j].clock)
    ensures Forgotten(states[j + 1].core, x.message.id)
  {
    RunKeeps(states, steps, j, w);
    var (c, f, now) := (states[j].core, states[j].loads[load], states[j].clock);
    SweepForgetsDue(c, f.shown, now, x);
    FinishListsOnlyKept(c, f, now, x, w);
  }

  lemma FinishListsOnlyKept(c: Core, f: Frame, now: Instant, x: Shown, w: World)
    requires Sound(c) && FrameSound(c, f, now, w) && !Aborted(c, f) && f.phase.Scanning?
    requires Forgotten(ExpireDead(c, f.shown, now), x.message.id) && x.message.expiresAt <= now
    ensures Forgotten(Finish(c, f, now).0, x.message.id)
  {
    ExpireDeadKeeps(c, f.shown, now);
    LiveAreRegistered(c, ExpireDead(c, f.shown, now), f, now, w);
  }

  // ---------------------------------------------------------------- keys

  predicate NoColon(id: Id) { ':' !in id }

  /** For ids without a colon the authenticated key is as good as the pair of device and client message id. */
  lemma KeysIdentify(m: Fingerprint, n: Fingerprint)
    requires NoColon(m.senderDeviceId) && NoColon(n.senderDeviceId)
    ensures KeyOf(m) == KeyOf(n) <==> m.senderDeviceId == n.senderDeviceId && m.clientMessageId == n.clientMessageId
  {
    if KeyOf(m) == KeyOf(n) {
      FirstColon(m.senderDeviceId, m.clientMessageId, n.senderDeviceId, n.clientMessageId);
    }
  }

  lemma {:induction false} FirstColon(a: string, b: string, c: string, d: string)
    requires NoColon(a) && NoColon(c) && a + ":" + b == c + ":" + d
    ensures a == c && b == d
  {
    var (s, t) := (a + ":" + b, c + ":" + d);
    assert s[|a|] == ':' && t[|c|] == ':';
    assert forall k | 0 <= k < |a| :: s[k] == a[k] && a[k] in a;
    assert forall k | 0 <= k < |c| :: t[k] == c[k] && c[k] in c;
    assert s[..|a|] == a && t[..|a|] == c;
    assert s[|a| + 1..] == b && t[|a| + 1..] == d;
  }

  // ---------------------------------------------------------------- a picture that outlives its record

  const PICTURE := Encrypted(
    Fingerprint("m", "u", "d", "c", 1, IMAGE, 0, 5, "", "", "", Some(AttachmentFacts("", 1, 1, "", ""))), "", [])

  /** The user is another one, and every message decrypts to a picture that is bound to it. */
  const PICTURES := World("v", (conversationId: Id, m: Fingerprint) => ImageContent(m.senderDeviceId, m.clientMessageId, ""))

  /** The picture expires and its timer runs while its load waits to store it. */
  const LATE_STORE: seq<Step> :=
    [Start(0, "k", [PICTURE]), Scan(0), Decrypted(0), Downloaded(0), Tick(5), Fire(0), Stored(0)]

  /** After the download: the message is on record with its timer, its URL is held, and the load awaits the store. */
  ghost predicate AwaitsStore(s: System) {
    && s.clock == 0 && !s.core.closed && s.core.objectUrls == map["m" := 0] && s.core.decryptedMessages == map[]
    && s.core.authenticatedKeysByMessageId == map["m" := "d:c"] && s.core.messageExpiryTimers == map["m" := Expiry("d:c", 0)]
    && s.core.timers == map[0 := Timer("m", "d:c", 5)] && s.core.createdUrls == 1 && s.core.revokedUrls == multiset{}
    && 0 in s.loads && s.loads[0].page == [PICTURE] && s.loads[0].next == 0
    && s.loads[0].phase.Storing? && s.loads[0].phase.image == ImageMessage("m", "u", 0, 5, None, 0)
  }

  lemma PictureIsDownloaded() returns (states: seq<System>)
    ensures Run(states, LATE_STORE[..4], PICTURES) && AwaitsStore(states[4])
  {
    var s0 := System(0, EMPTY, map[]);
    var s1 := Apply(s0, LATE_STORE[0], PICTURES);
    var s2 := Apply(s1, LATE_STORE[1], PICTURES);
    var s3 := Apply(s2, LATE_STORE[2], PICTURES);
    var s4 := Apply(s3, LATE_STORE[3], PICTURES);
    assert "d" + ":" + "c" == "d:c";
    states := [s0, s1, s2, s3, s4];
  }

  lemma PictureIsStoredLate(s4: System) returns (s5: System, s6: System, s7: System)
    requires AwaitsStore(s4)
    ensures Enabled(s4, Tick(5)) && Injective(s4.core.objectUrls) && s5 == Apply(s4, Tick(5), PICTURES)
    ensures Enabled(s5, Fire(0)) && Injective(s5.core.objectUrls) && s6 == Apply(s5, Fire(0), PICTURES)
    ensures Enabled(s6, Stored(0)) && Injective(s6.core.objectUrls) && s7 == Apply(s6, Stored(0), PICTURES)
    ensures var c := s7.core;
            && !c.closed && "m" in c.decryptedMessages && "m" !in c.authenticatedKeysByMessageId
            && c.decryptedMessages["m"].message == ImageMessage("m", "u", 0, 5, None, 0) && c.revokedUrls == multiset{0}
  {
    s5 := Apply(s4, Tick(5), PICTURES);
    s6 := Apply(s5, Fire(0), PICTURES);
    s7 := Apply(s6, Stored(0), PICTURES);
  }

  /** So the rule for text does not extend to pictures: the cache write after the picture's await tests nothing,
      and leaves an entry, with a revoked URL, for a message that is no longer on record. */
  lemma PictureOutlivesItsRecord() returns (states: seq<System>)
    ensures Run(states, LATE_STORE, PICTURES)
    ensures var c := states[7].core;
            && !c.closed && "m" in c.decryptedMessages && "m" !in c.authenticatedKeysByMessageId
            && c.decryptedMessages["m"].message.ImageMessage? && c.revokedUrls[c.decryptedMessages["m"].message.url] == 1
  {
    var first := PictureIsDownloaded();
    var s5, s6, s7 := PictureIsStoredLate(first[4]);
    states := first + [s5, s6, s7];
    forall i | 0 <= i < 7
      ensures Enabled(states[i], LATE_STORE[i])
      ensures Injective(states[i].core.objectUrls) ==> states[i + 1] == Apply(states[i], LATE_STORE[i], PICTURES)
    {
      if i < 4 { assert LATE_STORE[..4][i] == LATE_STORE[i]; }
    }
  }
}
