/** Whose picture an image message carries, over all interleavings. */
module SecureMessagePictures {
  import opened Wrappers
  import opened SecureMessages
  import opened SecureMessageInvariants
  import opened SecureMessageRuns

  predicate Shows(m: ChatMessage, id: Id, u: Url) { m.ImageMessage? && m.id == id && m.url == u }

  ghost predicate InCache(c: Core, id: Id, u: Url) {
    exists k | k in c.decryptedMessages :: Shows(c.decryptedMessages[k].message, id, u)
  }

  ghost predicate InList(shown: seq<Shown>, id: Id, u: Url) {
    exists x | x in shown :: Shows(x.message, id, u)
  }

  /** The load awaits storing it, has collected it, or has returned it. */
  ghost predicate InLoad(f: Frame, id: Id, u: Url) {
    || (f.phase.Storing? && Shows(f.phase.image, id, u))
    || InList(f.shown, id, u)
    || (f.phase.Done? && InList(f.phase.result.shown, id, u))
  }

  /** Somewhere an image message of id `id` carries the URL `u`. */
  ghost predicate Carried(s: System, id: Id, u: Url) {
    InCache(s.core, id, u) || exists load | load in s.loads :: InLoad(s.loads[load], id, u)
  }

  ghost predicate Held(s: System, id: Id, u: Url) { id in s.core.objectUrls && s.core.objectUrls[id] == u }

  /** The step finishes the picture of message `id`: the URL it creates is `u`, and it is held under `id`. */
  ghost predicate Makes(s: System, step: Step, d: System, id: Id, u: Url) {
    && step.Downloaded? && step.load in s.loads
    && s.loads[step.load].next < |s.loads[step.load].page|
    && s.loads[step.load].page[s.loads[step.load].next].facts.id == id
    && u == s.core.createdUrls && d.core.createdUrls == u + 1 && Held(d, id, u)
  }

  // ---------------------------------------------------------------- one step

  lemma CollectCarries(f: Frame, message: ChatMessage, currentUserId: Id, id: Id, u: Url)
    requires f.next < |f.page| && InLoad(Collect(f, message, currentUserId), id, u)
    ensures Shows(message, id, u) || InLoad(f, id, u)
  {
    var g := Collect(f, message, currentUserId);
    if x :| x in g.shown && Shows(x.message, id, u) {
      if x in f.shown { assert InList(f.shown, id, u); }
    }
  }

  lemma CacheCarries(c: Core, conversationId: Id, m: Fingerprint, message: ChatMessage, id: Id, u: Url)
    requires InCache(Cache(c, conversationId, m, message), id, u)
    ensures Shows(message, id, u) || InCache(c, id, u)
  {
    var d := Cache(c, conversationId, m, message);
    var k :| k in d.decryptedMessages && Shows(d.decryptedMessages[k].message, id, u);
    if k != m.id { assert Shows(c.decryptedMessages[k].message, id, u); }
  }

  lemma DroppedCarries(c: Core, d: Core, id: Id, u: Url)
    requires PlaintextOnlyDropped(c, d) && InCache(d, id, u)
    ensures InCache(c, id, u)
  {
    var k :| k in d.decryptedMessages && Shows(d.decryptedMessages[k].message, id, u);
    assert Shows(c.decryptedMessages[k].message, id, u);
  }

  /** The stretch shows nothing that was not there before it. */
  ghost predicate CarriesNothingNew(c: Core, f: Frame, r: (Core, Frame), id: Id, u: Url) {
    InCache(r.0, id, u) || InLoad(r.1, id, u) ==> InCache(c, id, u) || InLoad(f, id, u)
  }

  lemma AdvanceCarries(f: Frame, id: Id, u: Url)
    requires InLoad(Advance(f), id, u)
    ensures InLoad(f, id, u)
  {
  }

  lemma ScanCarries(c: Core, f: Frame, now: Instant, currentUserId: Id, id: Id, u: Url)
    requires Sound(c) && f.next < |f.page| && f.phase.Scanning?
    ensures CarriesNothingNew(c, f, ScanItem(c, f, now, currentUserId), id, u)
  {
    var m := f.page[f.next];
    var r := ScanItem(c, f, now, currentUserId);
    if !Aborted(c, f) && m.facts.expiresAt <= now {
      ExpireIfDueKeeps(c, m.facts.id, now);
      if InCache(r.0, id, u) { DroppedCarries(c, r.0, id, u); }
    } else if !Aborted(c, f) && CacheHit(c, f.conversationId, m.facts) {
      var message := c.decryptedMessages[m.facts.id].message.(deliveryStatus := OwnDeliveryStatus(m, currentUserId));
      if InCache(r.0, id, u) { CacheCarries(c, f.conversationId, m.facts, message, id, u); }
      if InLoad(r.1, id, u) { CollectCarries(f, message, currentUserId, id, u); }
      if Shows(message, id, u) { assert Shows(c.decryptedMessages[m.facts.id].message, id, u); }
    }
  }

  lemma DecryptCarries(c: Core, f: Frame, now: Instant, w: World, id: Id, u: Url)
    requires Sound(c) && f.next < |f.page| && f.phase.Decrypting?
    ensures CarriesNothingNew(c, f, AfterDecrypt(c, f, now, w.currentUserId, w.crypto), id, u)
  {
    var m := f.page[f.next];
    var content := w.crypto(f.conversationId, m.facts);
    var r := AfterDecrypt(c, f, now, w.currentUserId, w.crypto);
    if !Aborted(c, f) && m.facts.expiresAt <= now {
      ExpireIfDueKeeps(c, m.facts.id, now);
      if InCache(r.0, id, u) { DroppedCarries(c, r.0, id, u); }
    } else if !Aborted(c, f) && ContentKey(content) == KeyOf(m.facts) {
      match RememberAuthenticatedMessage(c, f.conversationId, m.facts, now)
      case Err(_) =>
      case Ok(known) =>
        assert known.decryptedMessages == c.decryptedMessages;
        if content.TextContent? {
          var message := TextChatMessage(m, content.text, w.currentUserId);
          if InCache(r.0, id, u) { CacheCarries(known, f.conversationId, m.facts, message, id, u); }
          if InLoad(r.1, id, u) { CollectCarries(f, message, w.currentUserId, id, u); }
        }
    }
  }

  lemma StoreCarries(c: Core, f: Frame, currentUserId: Id, id: Id, u: Url)
    requires f.next < |f.page| && f.phase.Storing?
    ensures CarriesNothingNew(c, f, StoreImage(c, f, currentUserId), id, u)
  {
    var r := StoreImage(c, f, currentUserId);
    if InCache(r.0, id, u) { CacheCarries(c, f.conversationId, f.page[f.next].facts, f.phase.image, id, u); }
    if InLoad(r.1, id, u) { CollectCarries(f, f.phase.image, currentUserId, id, u); }
  }

  lemma FinishCarries(c: Core, f: Frame, now: Instant, id: Id, u: Url)
    requires Sound(c) && f.phase.Scanning?
    ensures CarriesNothingNew(c, f, Finish(c, f, now), id, u)
  {
    var r := Finish(c, f, now);
    if !Aborted(c, f) {
      ExpireDeadKeeps(c, f.shown, now);
      if InCache(r.0, id, u) {
        var swept := ExpireDead(c, f.shown, now);
        DroppedCarries(swept, r.0, id, u);
        DroppedCarries(c, swept, id, u);
      }
      LiveIsSublist(f.shown, now);
      if InList(r.1.phase.result.shown, id, u) {
        var x :| x in Live(f.shown, now) && Shows(x.message, id, u);
        assert x in f.shown;
      }
    }
  }

  /** A download is the only stretch that makes something new, and it makes it for the item it is at. */
  lemma DownloadCarries(c: Core, f: Frame, now: Instant, currentUserId: Id, id: Id, u: Url)
    requires f.next < |f.page| && f.phase.Downloading?
    ensures var (d, g) := AfterDownload(c, f, now, currentUserId);
            var makes := id == f.page[f.next].facts.id && u == c.createdUrls && d.createdUrls == u + 1
                         && id in d.objectUrls && d.objectUrls[id] == u;
            && d.decryptedMessages == c.decryptedMessages
            && (InLoad(g, id, u) ==> InLoad(f, id, u) || makes)
            && (id in d.objectUrls && d.objectUrls[id] == u ==> (id in c.objectUrls && c.objectUrls[id] == u) || makes)
            && c.createdUrls <= d.createdUrls
  {
  }

  lemma DownloadStepCarries(s: System, step: Step, d: System, w: World, id: Id, u: Url)
    requires Enabled(s, step) && step.Downloaded? && Injective(s.core.objectUrls) && d == Apply(s, step, w)
    ensures InCache(d.core, id, u) ==> InCache(s.core, id, u)
    ensures InLoad(d.loads[step.load], id, u) ==> InLoad(s.loads[step.load], id, u) || Makes(s, step, d, id, u)
    ensures Held(d, id, u) ==> Held(s, id, u) || Makes(s, step, d, id, u)
    ensures s.core.createdUrls <= d.core.createdUrls
  {
    DownloadCarries(s.core, s.loads[step.load], s.clock, w.currentUserId, id, u);
  }

  lemma LoadStepCarries(s: System, step: Step, d: System, w: World, id: Id, u: Url)
    requires Inv(s, w) && Enabled(s, step) && d == Apply(s, step, w)
    requires step.Scan? || step.Decrypted? || step.Stored? || step.Finished?
    ensures CarriesNothingNew(s.core, s.loads[step.load], (d.core, d.loads[step.load]), id, u)
  {
    match step
    case Scan(load) => ScanCarries(s.core, s.loads[load], s.clock, w.currentUserId, id, u);
    case Decrypted(load) => DecryptCarries(s.core, s.loads[load], s.clock, w, id, u);
    case Stored(load) => StoreCarries(s.core, s.loads[load], w.currentUserId, id, u);
    case Finished(load) => FinishCarries(s.core, s.loads[load], s.clock, id, u);
  }

  lemma OtherStepCarries(s: System, step: Step, d: System, w: World, id: Id, u: Url)
    requires Inv(s, w) && Enabled(s, step) && d == Apply(s, step, w)
    requires step.Tick? || step.Start? || step.AbortLoad? || step.RejectAwait? || step.Fire? || step.CloseController?
    ensures Carried(d, id, u) ==> Carried(s, id, u)
  {
    if step.Fire? { FireKeeps(s.core, step.timer, s.clock); }
    if InCache(d.core, id, u) { DroppedCarries(s.core, d.core, id, u); }
    if load :| load in d.loads && InLoad(d.loads[load], id, u) {
      assert load in s.loads && InLoad(s.loads[load], id, u);
    }
  }

  /** What a step carries was carried before, or the step has just made it. */
  lemma StepCarries(s: System, step: Step, d: System, w: World, id: Id, u: Url)
    requires Inv(s, w) && Enabled(s, step) && d == Apply(s, step, w) && Carried(d, id, u)
    ensures Carried(s, id, u) || Makes(s, step, d, id, u)
  {
    match step
    case Downloaded(load) =>
      DownloadStepCarries(s, step, d, w, id, u);
      FromLoads(s, d, load, id, u);
    case Scan(load) =>
      LoadStepCarries(s, step, d, w, id, u);
      FromLoads(s, d, load, id, u);
    case Decrypted(load) =>
      LoadStepCarries(s, step, d, w, id, u);
      FromLoads(s, d, load, id, u);
    case Stored(load) =>
      LoadStepCarries(s, step, d, w, id, u);
      FromLoads(s, d, load, id, u);
    case Finished(load) =>
      LoadStepCarries(s, step, d, w, id, u);
      FromLoads(s, d, load, id, u);
    case _ => OtherStepCarries(s, step, d, w, id, u);
  }

  /** When only one load has moved, whatever is carried was carried, or is in the cache or in that load. */
  lemma FromLoads(s: System, d: System, load: LoadId, id: Id, u: Url)
    requires load in s.loads && load in d.loads && d.loads == s.loads[load := d.loads[load]] && Carried(d, id, u)
    ensures Carried(s, id, u) || InCache(d.core, id, u) || InLoad(d.loads[load], id, u)
  {
    if !InCache(d.core, id, u) {
      var l :| l in d.loads && InLoad(d.loads[l], id, u);
      if l != load { assert InLoad(s.loads[l], id, u); }
    }
  }

  /** No URL is created, and none is held that was not. */
  ghost predicate HoldsNothingNew(c: Core, d: Core) {
    d.createdUrls == c.createdUrls && forall id | id in d.objectUrls :: id in c.objectUrls && d.objectUrls[id] == c.objectUrls[id]
  }

  lemma ExpireHolds(c: Core, id: Id, expectedKey: Option<Key>)
    ensures HoldsNothingNew(c, ExpireMessage(c, id, expectedKey))
  {
    if !SupersededTimer(c, id, expectedKey) {
      var released := ForgetPlaintext(RevokeObjectUrl(CancelTimer(c, id), id), id);
      ReleasedHolds(c, id);
      assert ExpireMessage(c, id, expectedKey).objectUrls == released.objectUrls;
      assert ExpireMessage(c, id, expectedKey).createdUrls == released.createdUrls;
    }
  }

  lemma ReleasedHolds(c: Core, id: Id)
    ensures HoldsNothingNew(c, ForgetPlaintext(RevokeObjectUrl(CancelTimer(c, id), id), id))
  {
  }

  lemma {:induction false} ExpireDeadHolds(c: Core, shown: seq<Shown>, now: Instant)
    ensures HoldsNothingNew(c, ExpireDead(c, shown, now))
    decreases |shown|
  {
    if shown != [] {
      if shown[0].message.expiresAt > now {
        ExpireDeadHolds(c, shown[1..], now);
      } else {
        var d := ExpireMessageIfDue(c, shown[0].message.id, now);
        ExpireHolds(c, shown[0].message.id, Lookup(c.authenticatedKeysByMessageId, shown[0].message.id));
        assert HoldsNothingNew(c, d);
        ExpireDeadHolds(d, shown[1..], now);
      }
    }
  }

  lemma LoadStepHolds(s: System, step: Step, w: World)
    requires Inv(s, w) && Enabled(s, step)
    requires step.Scan? || step.Decrypted? || step.Stored? || step.Finished?
    ensures HoldsNothingNew(s.core, Apply(s, step, w).core)
  {
    match step
    case Scan(load) => ScanHolds(s.core, s.loads[load], s.clock, w.currentUserId);
    case Decrypted(load) => DecryptHolds(s.core, s.loads[load], s.clock, w);
    case Stored(load) =>
    case Finished(load) => FinishHolds(s.core, s.loads[load], s.clock);
  }

  lemma ScanHolds(c: Core, f: Frame, now: Instant, currentUserId: Id)
    requires f.next < |f.page|
    ensures HoldsNothingNew(c, ScanItem(c, f, now, currentUserId).0)
  {
    var id := f.page[f.next].facts.id;
    ExpireHolds(c, id, Lookup(c.authenticatedKeysByMessageId, id));
  }

  lemma DecryptHolds(c: Core, f: Frame, now: Instant, w: World)
    requires f.next < |f.page|
    ensures HoldsNothingNew(c, AfterDecrypt(c, f, now, w.currentUserId, w.crypto).0)
  {
    var m := f.page[f.next].facts;
    if Aborted(c, f) {
    } else if m.expiresAt <= now {
      ExpireHolds(c, m.id, Lookup(c.authenticatedKeysByMessageId, m.id));
    } else {
      RememberHolds(c, f.conversationId, m, now);
    }
  }

  lemma RememberHolds(c: Core, conversationId: Id, m: Fingerprint, now: Instant)
    ensures match RememberAuthenticatedMessage(c, conversationId, m, now)
            case Err(_) => true
            case Ok(d) => d.objectUrls == c.objectUrls && d.createdUrls == c.createdUrls
  {
  }

  lemma FinishHolds(c: Core, f: Frame, now: Instant)
    ensures HoldsNothingNew(c, Finish(c, f, now).0)
  {
    ExpireDeadHolds(c, f.shown, now);
  }

  lemma OtherStepHolds(s: System, step: Step, w: World)
    requires Inv(s, w) && Enabled(s, step)
    requires step.Tick? || step.Start? || step.AbortLoad? || step.RejectAwait? || step.Fire? || step.CloseController?
    ensures HoldsNothingNew(s.core, Apply(s, step, w).core)
  {
    if step.Fire? {
      var t := step.timer;
      ExpireHolds(s.core.(timers := s.core.timers - {t}), s.core.timers[t].messageId, Some(s.core.timers[t].authenticatedKey));
    }
  }

  /** What a step holds was held before, or the step has just made it. */
  lemma StepHolds(s: System, step: Step, d: System, w: World, id: Id, u: Url)
    requires Inv(s, w) && Enabled(s, step) && d == Apply(s, step, w)
    ensures Held(d, id, u) ==> Held(s, id, u) || Makes(s, step, d, id, u)
    ensures s.core.createdUrls <= d.core.createdUrls
  {
    if step.Downloaded? { DownloadStepCarries(s, step, d, w, id, u); }
    else if step.Scan? || step.Decrypted? || step.Stored? || step.Finished? { LoadStepHolds(s, step, w); }
    else { OtherStepHolds(s, step, w); }
  }

  // ---------------------------------------------------------------- theorems over whole runs

  /** Step `k` of the run made this picture for this message. */
  ghost predicate MadeAt(states: seq<System>, steps: seq<Step>, k: nat, id: Id, u: Url) {
    k < |steps| && k + 1 < |states| && Makes(states[k], steps[k], states[k + 1], id, u)
  }

  /** Every image message, awaiting its store, cached, collected or returned, carries a URL that an earlier
      download made for that very message; and so does every URL held under an id. */
  lemma {:induction false} PicturesAreMade(states: seq<System>, steps: seq<Step>, i: nat, id: Id, u: Url, w: World)
    returns (k: nat)
    requires Run(states, steps, w) && i < |states| && (Carried(states[i], id, u) || Held(states[i], id, u))
    ensures k < i && MadeAt(states, steps, k, id, u)
  {
    if i == 0 {
      assert false;
    } else {
      RunKeeps(states, steps, i - 1, w);
      if Carried(states[i], id, u) { StepCarries(states[i - 1], steps[i - 1], states[i], w, id, u); }
      else { StepHolds(states[i - 1], steps[i - 1], states[i], w, id, u); }
      k := i - 1;
      if !Makes(states[i - 1], steps[i - 1], states[i], id, u) {
        k := PicturesAreMade(states, steps, i - 1, id, u, w);
      }
    }
  }

  lemma {:induction false} UrlsGrow(states: seq<System>, steps: seq<Step>, i: nat, j: nat, w: World)
    requires Run(states, steps, w) && i <= j < |states|
    ensures states[i].core.createdUrls <= states[j].core.createdUrls
    decreases j - i
  {
    if i < j {
      UrlsGrow(states, steps, i, j - 1, w);
      RunKeeps(states, steps, j - 1, w);
      StepHolds(states[j - 1], steps[j - 1], states[j], w, "", 0);
    }
  }

  /** No URL shows two messages: whatever carries or holds it, in any two states of a run and in any loads,
      does so for one message id. */
  lemma OnePictureOneMessage(states: seq<System>, steps: seq<Step>, i: nat, j: nat, a: Id, b: Id, u: Url, w: World)
    requires Run(states, steps, w) && i < |states| && j < |states|
    requires Carried(states[i], a, u) || Held(states[i], a, u)
    requires Carried(states[j], b, u) || Held(states[j], b, u)
    ensures a == b
  {
    var k := PicturesAreMade(states, steps, i, a, u, w);
    var l := PicturesAreMade(states, steps, j, b, u, w);
    if k < l { UrlsGrow(states, steps, k + 1, l, w); }
    if l < k { UrlsGrow(states, steps, l + 1, k, w); }
  }

  /** For a load that has returned: each of its image messages carries a picture made for it, no two of them
      the same one, and if the URL is still held then under the message's own id. */
  lemma ReturnedPictures(states: seq<System>, steps: seq<Step>, i: nat, load: LoadId, w: World)
    requires Run(states, steps, w) && i < |states| && load in states[i].loads && states[i].loads[load].phase.Done?
    ensures var shown := states[i].loads[load].phase.result.shown;
            && (forall k | 0 <= k < |shown| && shown[k].message.ImageMessage? ::
                  && (exists n: nat :: n < i && MadeAt(states, steps, n, shown[k].message.id, shown[k].message.url))
                  && forall id | Held(states[i], id, shown[k].message.url) :: id == shown[k].message.id)
            && forall k, l | 0 <= k < l < |shown| && shown[k].message.ImageMessage? && shown[l].message.ImageMessage? ::
                 shown[k].message.url == shown[l].message.url ==> shown[k].message.id == shown[l].message.id
  {
    var shown := states[i].loads[load].phase.result.shown;
    forall k | 0 <= k < |shown| && shown[k].message.ImageMessage?
      ensures Carried(states[i], shown[k].message.id, shown[k].message.url)
    {
      assert shown[k] in shown && Shows(shown[k].message, shown[k].message.id, shown[k].message.url);
      assert InLoad(states[i].loads[load], shown[k].message.id, shown[k].message.url);
    }
    forall k | 0 <= k < |shown| && shown[k].message.ImageMessage?
      ensures exists n: nat :: n < i && MadeAt(states, steps, n, shown[k].message.id, shown[k].message.url)
      ensures forall id | Held(states[i], id, shown[k].message.url) :: id == shown[k].message.id
    {
      var n := PicturesAreMade(states, steps, i, shown[k].message.id, shown[k].message.url, w);
      forall id | Held(states[i], id, shown[k].message.url) ensures id == shown[k].message.id {
        OnePictureOneMessage(states, steps, i, i, id, shown[k].message.id, shown[k].message.url, w);
      }
    }
    forall k, l | 0 <= k < l < |shown| && shown[k].message.ImageMessage? && shown[l].message.ImageMessage?
                  && shown[k].message.url == shown[l].message.url
      ensures shown[k].message.id == shown[l].message.id
    {
      OnePictureOneMessage(states, steps, i, i, shown[k].message.id, shown[l].message.id, shown[k].message.url, w);
    }
  }
}
