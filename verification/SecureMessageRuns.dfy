/**
 All interleavings: any number of loads, timers and closes over one controller.
 A step is one synchronous stretch between two awaits, a timer callback, or the clock moving on.
*/
module SecureMessageRuns {
  import opened Wrappers
  import opened SecureMessages
  import opened SecureMessageInvariants

  type LoadId = nat

  datatype System = System(clock: Instant, core: Core, loads: map<LoadId, Frame>)

  datatype Step =
    | Tick(to: Instant)
    | Start(load: LoadId, conversationId: Id, page: seq<Encrypted>)
    | Scan(load: LoadId)
    | Decrypted(load: LoadId)
    | Downloaded(load: LoadId)
    | Stored(load: LoadId)
    | Finished(load: LoadId)
    | AbortLoad(load: LoadId)
    | RejectAwait(load: LoadId)
    | Fire(timer: TimerId)
    | CloseController

  /** The user the controller acts for, and what decryption yields. */
  datatype World = World(currentUserId: Id, crypto: Crypto)

  predicate Running(s: System, load: LoadId) {
    load in s.loads && s.loads[load].next < |s.loads[load].page|
  }

  predicate Enabled(s: System, step: Step) {
    match step
    case Tick(to) => s.clock <= to
    case Start(load, _, page) => load !in s.loads && StrictlyIncreasing(page)
    case Scan(load) => Running(s, load) && s.loads[load].phase.Scanning?
    case Decrypted(load) => Running(s, load) && s.loads[load].phase.Decrypting?
    case Downloaded(load) => Running(s, load) && s.loads[load].phase.Downloading?
    case Stored(load) => Running(s, load) && s.loads[load].phase.Storing?
    case Finished(load) =>
      load in s.loads && s.loads[load].phase.Scanning? && s.loads[load].next == |s.loads[load].page|
    case AbortLoad(load) => load in s.loads
    case RejectAwait(load) =>
      load in s.loads && (s.loads[load].phase.Decrypting? || s.loads[load].phase.Downloading?)
    case Fire(t) => t in s.core.timers && s.core.timers[t].deadline <= s.clock
    case CloseController => true
  }

  function With(s: System, load: LoadId, r: (Core, Frame)): System {
    s.(core := r.0, loads := s.loads[load := r.1])
  }

  function NewFrame(c: Core, conversationId: Id, page: seq<Encrypted>): Frame {
    Frame(conversationId, page, 0, [], [], false, if c.closed then Failed(ABORTED) else Scanning)
  }

  function Apply(s: System, step: Step, w: World): System
    requires Enabled(s, step) && Injective(s.core.objectUrls)
  {
    match step
    case Tick(to) => s.(clock := to)
    case Start(load, conversationId, page) =>
      s.(loads := s.loads[load := NewFrame(s.core, conversationId, page)])
    case Scan(load) => With(s, load, ScanItem(s.core, s.loads[load], s.clock, w.currentUserId))
    case Decrypted(load) =>
      With(s, load, AfterDecrypt(s.core, s.loads[load], s.clock, w.currentUserId, w.crypto))
    case Downloaded(load) => With(s, load, AfterDownload(s.core, s.loads[load], s.clock, w.currentUserId))
    case Stored(load) => With(s, load, StoreImage(s.core, s.loads[load], w.currentUserId))
    case Finished(load) => With(s, load, Finish(s.core, s.loads[load], s.clock))
    case AbortLoad(load) => s.(loads := s.loads[load := s.loads[load].(aborted := true)])
    case RejectAwait(load) => s.(loads := s.loads[load := Fail(s.loads[load], AWAIT_FAILED)])
    case Fire(t) => s.(core := FireTimer(s.core, t))
    case CloseController => s.(core := Close(s.core))
  }

  // ------------------------------------------------------------ what a load in flight knows

  /** A collected message is what decryption shows; unexpired and open, it is still registered. */
  ghost predicate ShownSound(c: Core, f: Frame, x: Shown, now: Instant, w: World) {
    && x.origin < |f.page|
    && var m := f.page[x.origin];
       && Faithful(x.message, f.conversationId, m.facts, w.crypto)
       && x.message.deliveryStatus == OwnDeliveryStatus(m, w.currentUserId)
       && (!c.closed && m.facts.expiresAt > now ==> Registered(c, f.conversationId, m.facts))
  }

  ghost predicate Ascending(shown: seq<Shown>) {
    forall i, j | 0 <= i < j < |shown| :: shown[i].origin < shown[j].origin
  }

  function Origins(shown: seq<Shown>): set<nat> {
    set x | x in shown :: x.origin
  }

  /** Nothing unexpired among the first `upTo` messages of the page was left out. */
  ghost predicate Complete(page: seq<Encrypted>, upTo: nat, shown: seq<Shown>, now: Instant)
    requires upTo <= |page|
  {
    forall o | 0 <= o < upTo && page[o].facts.expiresAt > now :: o in Origins(shown)
  }

  /** The item awaiting its picture was registered before the await. */
  ghost predicate PictureSound(c: Core, f: Frame, now: Instant, w: World) {
    && f.next < |f.page|
    && var m := f.page[f.next];
       && w.crypto(f.conversationId, m.facts).ImageContent? && Bound(f.conversationId, m.facts, w.crypto)
       && (!c.closed && m.facts.expiresAt > now ==> Registered(c, f.conversationId, m.facts))
       && (f.phase.Storing? ==>
             && Faithful(f.phase.image, f.conversationId, m.facts, w.crypto)
             && f.phase.image.deliveryStatus == OwnDeliveryStatus(m, w.currentUserId))
  }

  /** The user's own message is read, delivered or sent as its first receipt says; another's has no status. */
  ghost predicate StatusOf(status: Option<DeliveryStatus>, m: Encrypted, currentUserId: Id) {
    if m.facts.senderUserId != currentUserId then status == None
    else if m.receipts != [] && m.receipts[0] == READ then status == Some(Read)
    else if m.receipts != [] && m.receipts[0] == DELIVERED then status == Some(Delivered)
    else status == Some(Sent)
  }

  /** Each shown message is an unexpired one of the page, as direct decryption and its receipts make it. */
  ghost predicate ShowsDecrypted(f: Frame, r: Loaded, w: World) {
    forall i | 0 <= i < |r.shown| ::
      && r.shown[i].origin < |f.page|
      && var (m, message) := (f.page[r.shown[i].origin], r.shown[i].message);
         && m.facts.expiresAt > r.asOf && StatusOf(message.deliveryStatus, m, w.currentUserId)
         && Faithful(message, f.conversationId, m.facts, w.crypto)
  }

  /** Page order, and no id or authenticated key twice. */
  ghost predicate OrderedAndDistinct(page: seq<Encrypted>, shown: seq<Shown>)
    requires forall x | x in shown :: x.origin < |page|
  {
    forall i, j | 0 <= i < j < |shown| ::
      var a, b := page[shown[i].origin].facts, page[shown[j].origin].facts;
      a.serverSequence < b.serverSequence && a.id != b.id && KeyOf(a) != KeyOf(b)
  }

  /** The result shows exactly the unexpired messages of the page, in page order, with distinct ids and
      distinct authenticated keys, each one as direct decryption builds it. */
  ghost predicate ResultSound(f: Frame, r: Loaded, w: World) {
    && r.unreadCount == 0
    && Complete(f.page, |f.page|, r.shown, r.asOf)
    && ShowsDecrypted(f, r, w)
    && OrderedAndDistinct(f.page, r.shown)
    && r.lastActivityAt == (if r.shown == [] then None else Some(r.shown[|r.shown| - 1].message.sentAt))
  }

  ghost predicate FrameSound(c: Core, f: Frame, now: Instant, w: World) {
    && StrictlyIncreasing(f.page)
    && f.next <= |f.page|
    && match f.phase
       case Failed(_) => true
       case Done(r) => ResultSound(f, r, w)
       case _ =>
         && Ascending(f.shown)
         && Complete(f.page, f.next, f.shown, now)
         && (forall x | x in f.shown :: x.origin < f.next && ShownSound(c, f, x, now, w))
         && (f.phase.Downloading? || f.phase.Storing? ==> PictureSound(c, f, now, w))
  }

  ghost predicate Inv(s: System, w: World) {
    && Sound(s.core)
    && CacheSound(s.core, s.clock, w.crypto)
    && (forall load | load in s.loads :: FrameSound(s.core, s.loads[load], s.clock, w))
  }

  // ------------------------------------------------------------ frames survive others' steps

  /** A load's knowledge survives any step that keeps undue records, and the passing of time. */
  lemma FrameStable(c: Core, d: Core, f: Frame, now: Instant, later: Instant, w: World)
    requires FrameSound(c, f, now, w) && now <= later
    requires Bijection(d) && RecordsKept(c, d, now)
    ensures FrameSound(d, f, later, w)
  {
    if f.phase.Failed? || f.phase.Done? { return; }
    forall x | x in f.shown ensures ShownSound(d, f, x, later, w) {
      var m := f.page[x.origin].facts;
      if !d.closed && m.expiresAt > later {
        RegisteredKept(c, d, now, f.conversationId, m);
      }
    }
    if f.phase.Downloading? || f.phase.Storing? {
      var m := f.page[f.next].facts;
      if !d.closed && m.expiresAt > later {
        RegisteredKept(c, d, now, f.conversationId, m);
      }
    }
  }

  lemma CacheStable(c: Core, d: Core, now: Instant, later: Instant, crypto: Crypto)
    requires CacheSound(c, now, crypto) && now <= later
    requires Bijection(d) && RecordsKept(c, d, now)
    requires PlaintextOnlyDropped(c, d)
    ensures CacheSound(d, later, crypto)
  {
    forall id | id in d.decryptedMessages && !d.closed && d.decryptedMessages[id].fingerprint.expiresAt > later
      ensures Registered(d, d.decryptedMessages[id].conversationId, d.decryptedMessages[id].fingerprint)
    {
      RegisteredKept(c, d, now, c.decryptedMessages[id].conversationId, c.decryptedMessages[id].fingerprint);
    }
  }

  // ------------------------------------------------------------ the segments of load

  /** What one segment of one load owes to the rest of the system. */
  ghost predicate SegmentKeeps(c: Core, r: (Core, Frame), now: Instant, w: World) {
    Sound(r.0) && CacheSound(r.0, now, w.crypto) && RecordsKept(c, r.0, now) && FrameSound(r.0, r.1, now, w)
  }

  lemma CollectKeeps(c: Core, f: Frame, message: ChatMessage, now: Instant, w: World)
    requires FrameSound(c, f, now, w) && f.next < |f.page| && !f.phase.Failed? && !f.phase.Done?
    requires ShownSound(c, f, Shown(f.next, message), now, w)
    ensures FrameSound(c, Collect(f, message, w.currentUserId), now, w)
  {
    var g := Collect(f, message, w.currentUserId);
    forall x | x in g.shown ensures x.origin < g.next && ShownSound(c, g, x, now, w) {
      if x in f.shown { assert ShownSound(c, f, x, now, w); } else { assert x == Shown(f.next, message); }
    }
    assert Shown(f.next, message) in g.shown;
    forall o | 0 <= o < g.next && g.page[o].facts.expiresAt > now ensures o in Origins(g.shown) {
      if o < f.next {
        var x :| x in f.shown && x.origin == o;
        assert x in g.shown;
      }
    }
  }

  lemma CacheWriteKeeps(c: Core, conversationId: Id, m: Fingerprint, message: ChatMessage, now: Instant, w: World)
    requires Sound(c) && CacheSound(c, now, w.crypto)
    requires Faithful(message, conversationId, m, w.crypto)
    requires !c.closed && m.expiresAt > now ==> Registered(c, conversationId, m)
    ensures var d := Cache(c, conversationId, m, message);
            Sound(d) && CacheSound(d, now, w.crypto) && RecordsKept(c, d, now)
  {
    var d := Cache(c, conversationId, m, message);
    forall id | id in d.decryptedMessages && !d.closed && d.decryptedMessages[id].fingerprint.expiresAt > now
      ensures Registered(d, d.decryptedMessages[id].conversationId, d.decryptedMessages[id].fingerprint)
    {
      if id != m.id {
        assert Registered(c, c.decryptedMessages[id].conversationId, c.decryptedMessages[id].fingerprint);
      }
    }
  }

  /** Pushing a message and caching it, for the item at `next`. */
  lemma ShowAndCache(c: Core, f: Frame, message: ChatMessage, now: Instant, w: World)
    requires Sound(c) && CacheSound(c, now, w.crypto) && FrameSound(c, f, now, w)
    requires f.next < |f.page| && !f.phase.Failed? && !f.phase.Done?
    requires ShownSound(c, f, Shown(f.next, message), now, w)
    ensures SegmentKeeps(c, (Cache(c, f.conversationId, f.page[f.next].facts, message),
                             Collect(f, message, w.currentUserId)), now, w)
  {
    var m := f.page[f.next].facts;
    var d := Cache(c, f.conversationId, m, message);
    CacheWriteKeeps(c, f.conversationId, m, message, now, w);
    CollectKeeps(c, f, message, now, w);
    FrameStable(c, d, Collect(f, message, w.currentUserId), now, now, w);
  }

  lemma ExpireItemKeeps(c: Core, f: Frame, id: Id, now: Instant, w: World)
    requires Sound(c) && CacheSound(c, now, w.crypto) && FrameSound(c, f, now, w)
    requires f.next < |f.page| && !f.phase.Failed? && !f.phase.Done?
    requires f.page[f.next].facts.expiresAt <= now
    ensures SegmentKeeps(c, (ExpireMessageIfDue(c, id, now), Advance(f)), now, w)
  {
    var d := ExpireMessageIfDue(c, id, now);
    ExpireIfDueKeeps(c, id, now);
    CacheStable(c, d, now, now, w.crypto);
    FrameStable(c, d, Advance(f), now, now, w);
  }

  lemma ScanKeeps(c: Core, f: Frame, now: Instant, w: World)
    requires Sound(c) && CacheSound(c, now, w.crypto) && FrameSound(c, f, now, w)
    requires f.next < |f.page| && f.phase.Scanning?
    ensures SegmentKeeps(c, ScanItem(c, f, now, w.currentUserId), now, w)
  {
    var m := f.page[f.next];
    if Aborted(c, f) {
    } else if m.facts.expiresAt <= now {
      ExpireItemKeeps(c, f, m.facts.id, now, w);
    } else if CacheHit(c, f.conversationId, m.facts) {
      var message := c.decryptedMessages[m.facts.id].message.(deliveryStatus := OwnDeliveryStatus(m, w.currentUserId));
      ShowAndCache(c, f, message, now, w);
    }
  }

  ghost predicate Remembered(c: Core, d: Core, f: Frame, now: Instant, w: World) {
    && Sound(d) && CacheSound(d, now, w.crypto) && RecordsKept(c, d, now) && FrameSound(d, f, now, w)
    && f.next < |f.page| && Registered(d, f.conversationId, f.page[f.next].facts) && d.closed == c.closed
  }

  lemma RegisterIsRemembered(c: Core, f: Frame, now: Instant, w: World)
    requires Sound(c) && CacheSound(c, now, w.crypto) && FrameSound(c, f, now, w) && !c.closed && f.next < |f.page|
    requires var m := f.page[f.next].facts;
             m.expiresAt > now && !Conflicts(c, f.conversationId, m) && KeyOf(m) !in c.authenticatedMessages
    ensures Remembered(c, Register(c, f.conversationId, f.page[f.next].facts, now), f, now, w)
  {
    var m := f.page[f.next].facts;
    var d := Register(c, f.conversationId, m, now);
    RegisterKeeps(c, f.conversationId, m, now);
    CacheStable(c, d, now, now, w.crypto);
    FrameStable(c, d, f, now, now, w);
  }

  lemma KnownIsRemembered(c: Core, f: Frame, now: Instant, w: World)
    requires Sound(c) && CacheSound(c, now, w.crypto) && FrameSound(c, f, now, w) && f.next < |f.page|
    requires var m := f.page[f.next].facts;
             !Conflicts(c, f.conversationId, m) && KeyOf(m) in c.authenticatedMessages
    ensures Remembered(c, c, f, now, w)
  {
    var m := f.page[f.next].facts;
    assert c.authenticatedMessages[KeyOf(m)] == RecordOf(f.conversationId, m);
    assert c.authenticatedKeysByMessageId[m.id] == KeyOf(m);
  }

  lemma RememberKeeps(c: Core, f: Frame, now: Instant, w: World)
    requires Sound(c) && CacheSound(c, now, w.crypto) && FrameSound(c, f, now, w) && !c.closed
    requires f.next < |f.page|
    ensures match RememberAuthenticatedMessage(c, f.conversationId, f.page[f.next].facts, now)
            case Err(_) => true
            case Ok(d) => Remembered(c, d, f, now, w)
  {
    var m := f.page[f.next].facts;
    if m.expiresAt > now && !Conflicts(c, f.conversationId, m) {
      if KeyOf(m) in c.authenticatedMessages {
        KnownIsRemembered(c, f, now, w);
      } else {
        RegisterIsRemembered(c, f, now, w);
      }
    }
  }

  lemma SegmentVia(c: Core, via: Core, r: (Core, Frame), now: Instant, w: World)
    requires RecordsKept(c, via, now) && SegmentKeeps(via, r, now, w)
    ensures SegmentKeeps(c, r, now, w)
  {
  }

  lemma AwaitPictureKeeps(c: Core, f: Frame, now: Instant, w: World)
    requires Sound(c) && CacheSound(c, now, w.crypto) && FrameSound(c, f, now, w) && f.phase.Decrypting?
    requires f.next < |f.page| && w.crypto(f.conversationId, f.page[f.next].facts).ImageContent?
    requires Registered(c, f.conversationId, f.page[f.next].facts) && Bound(f.conversationId, f.page[f.next].facts, w.crypto)
    ensures SegmentKeeps(c, (c, f.(phase := Downloading)), now, w)
  {
    var g := f.(phase := Downloading);
    forall x | x in g.shown ensures x.origin < g.next && ShownSound(c, g, x, now, w) {
      assert ShownSound(c, f, x, now, w);
    }
    assert PictureSound(c, g, now, w);
  }

  /** The part of DecryptKeeps after the message was authenticated. */
  lemma RememberedKeeps(c: Core, known: Core, f: Frame, now: Instant, w: World)
    requires Remembered(c, known, f, now, w) && f.phase.Decrypting? && Bound(f.conversationId, f.page[f.next].facts, w.crypto)
    ensures match w.crypto(f.conversationId, f.page[f.next].facts)
            case TextContent(_, _, text) =>
              var message := TextChatMessage(f.page[f.next], text, w.currentUserId);
              SegmentKeeps(c, (Cache(known, f.conversationId, f.page[f.next].facts, message),
                               Collect(f, message, w.currentUserId)), now, w)
            case ImageContent(_, _, _) => SegmentKeeps(c, (known, f.(phase := Downloading)), now, w)
  {
    var m := f.page[f.next];
    match w.crypto(f.conversationId, m.facts)
    case TextContent(_, _, text) =>
      var message := TextChatMessage(m, text, w.currentUserId);
      ShowAndCache(known, f, message, now, w);
      SegmentVia(c, known, (Cache(known, f.conversationId, m.facts, message),
                            Collect(f, message, w.currentUserId)), now, w);
    case ImageContent(_, _, _) =>
      AwaitPictureKeeps(known, f, now, w);
      SegmentVia(c, known, (known, f.(phase := Downloading)), now, w);
  }

  lemma DecryptKeeps(c: Core, f: Frame, now: Instant, w: World)
    requires Sound(c) && CacheSound(c, now, w.crypto) && FrameSound(c, f, now, w)
    requires f.next < |f.page| && f.phase.Decrypting?
    ensures SegmentKeeps(c, AfterDecrypt(c, f, now, w.currentUserId, w.crypto), now, w)
  {
    var m := f.page[f.next];
    if Aborted(c, f) {
    } else if m.facts.expiresAt <= now {
      ExpireItemKeeps(c, f, m.facts.id, now, w);
    } else if ContentKey(w.crypto(f.conversationId, m.facts)) == KeyOf(m.facts) {
      RememberKeeps(c, f, now, w);
      match RememberAuthenticatedMessage(c, f.conversationId, m.facts, now)
      case Err(_) =>
      case Ok(known) => AcceptedKeeps(c, known, f, now, w);
    }
  }

  /** The message is on record: text is cached and collected, a picture fails without an attachment. */
  lemma AcceptedKeeps(c: Core, known: Core, f: Frame, now: Instant, w: World)
    requires Remembered(c, known, f, now, w) && f.phase.Decrypting?
    requires ContentKey(w.crypto(f.conversationId, f.page[f.next].facts)) == KeyOf(f.page[f.next].facts)
    ensures var (m, content) := (f.page[f.next], w.crypto(f.conversationId, f.page[f.next].facts));
            SegmentKeeps(c, if content.TextContent? then
                              var message := TextChatMessage(m, content.text, w.currentUserId);
                              (Cache(known, f.conversationId, m.facts, message), Collect(f, message, w.currentUserId))
                            else if m.facts.attachment == None then (known, Fail(f, IMAGE_ATTACHMENT_MISSING))
                            else (known, f.(phase := Downloading)), now, w)
  {
    if Bound(f.conversationId, f.page[f.next].facts, w.crypto) { RememberedKeeps(c, known, f, now, w); }
  }

  lemma ReplaceUrlKeeps(c: Core, id: Id, now: Instant, crypto: Crypto)
    requires Sound(c) && CacheSound(c, now, crypto) && !c.closed && id in c.authenticatedKeysByMessageId
    ensures var d := CreateObjectUrl(RevokeObjectUrl(c, id), id);
            Sound(d) && CacheSound(d, now, crypto) && RecordsKept(c, d, now)
  {
    RevokeKeeps(c, id);
    CreateUrlKeeps(RevokeObjectUrl(c, id), id);
    CacheStable(c, CreateObjectUrl(RevokeObjectUrl(c, id), id), now, now, crypto);
  }

  lemma AwaitStoreKeeps(c: Core, f: Frame, image: ChatMessage, now: Instant, w: World)
    requires FrameSound(c, f, now, w) && f.phase.Downloading?
    requires Faithful(image, f.conversationId, f.page[f.next].facts, w.crypto)
    requires image.deliveryStatus == OwnDeliveryStatus(f.page[f.next], w.currentUserId)
    ensures FrameSound(c, f.(phase := Storing(image)), now, w)
  {
    var g := f.(phase := Storing(image));
    forall x | x in g.shown ensures x.origin < g.next && ShownSound(c, g, x, now, w) {
      assert ShownSound(c, f, x, now, w);
    }
  }

  lemma DownloadKeeps(c: Core, f: Frame, now: Instant, w: World)
    requires Sound(c) && CacheSound(c, now, w.crypto) && FrameSound(c, f, now, w)
    requires f.next < |f.page| && f.phase.Downloading?
    ensures SegmentKeeps(c, AfterDownload(c, f, now, w.currentUserId), now, w)
  {
    var m := f.page[f.next].facts;
    if !Aborted(c, f) && m.expiresAt > now {
      var d := CreateObjectUrl(RevokeObjectUrl(c, m.id), m.id);
      ReplaceUrlKeeps(c, m.id, now, w.crypto);
      FrameStable(c, d, f, now, now, w);
      AwaitStoreKeeps(d, f, AfterDownload(c, f, now, w.currentUserId).1.phase.image, now, w);
    }
  }

  lemma StoreKeeps(c: Core, f: Frame, now: Instant, w: World)
    requires Sound(c) && CacheSound(c, now, w.crypto) && FrameSound(c, f, now, w)
    requires f.next < |f.page| && f.phase.Storing?
    ensures SegmentKeeps(c, StoreImage(c, f, w.currentUserId), now, w)
  {
    ShowAndCache(c, f, f.phase.image, now, w);
  }

  // ------------------------------------------------------------ the end of load

  lemma LiveIsSublist(shown: seq<Shown>, now: Instant)
    ensures forall x | x in Live(shown, now) :: x in shown && x.message.expiresAt > now
    ensures forall x | x in shown && x.message.expiresAt > now :: x in Live(shown, now)
  {
    if shown != [] {
      LiveIsSublist(shown[1..], now);
      assert shown == [shown[0]] + shown[1..];
    }
  }

  lemma LiveIsAscending(shown: seq<Shown>, now: Instant)
    requires Ascending(shown)
    ensures Ascending(Live(shown, now))
  {
    if shown != [] {
      LiveIsAscending(shown[1..], now);
      LiveIsSublist(shown[1..], now);
      forall x | x in Live(shown[1..], now) ensures shown[0].origin < x.origin {
        var i :| 0 <= i < |shown[1..]| && shown[1..][i] == x;
      }
    }
  }

  /** Two unexpired collected messages hold different records, so they differ in id and in key. */
  lemma LiveAreDistinct(c: Core, f: Frame, a: Shown, b: Shown, now: Instant, w: World)
    requires Bijection(c) && !c.closed && StrictlyIncreasing(f.page)
    requires ShownSound(c, f, a, now, w) && ShownSound(c, f, b, now, w)
    requires a.origin < b.origin && a.message.expiresAt > now && b.message.expiresAt > now
    ensures var p, q := f.page[a.origin].facts, f.page[b.origin].facts;
            p.serverSequence < q.serverSequence && p.id != q.id && KeyOf(p) != KeyOf(q)
  {
    var p, q := f.page[a.origin].facts, f.page[b.origin].facts;
    assert p.serverSequence < q.serverSequence;
    assert c.authenticatedMessages[KeyOf(p)] == RecordOf(f.conversationId, p);
    assert c.authenticatedMessages[KeyOf(q)] == RecordOf(f.conversationId, q);
  }

  lemma LiveIsComplete(c: Core, f: Frame, now: Instant, w: World)
    requires FrameSound(c, f, now, w) && f.phase.Scanning?
    ensures Complete(f.page, f.next, Live(f.shown, now), now)
  {
    LiveIsSublist(f.shown, now);
    forall o | 0 <= o < f.next && f.page[o].facts.expiresAt > now ensures o in Origins(Live(f.shown, now)) {
      var x :| x in f.shown && x.origin == o;
      assert ShownSound(c, f, x, now, w);
    }
  }

  lemma LiveIsOrdered(c: Core, f: Frame, now: Instant, w: World)
    requires Bijection(c) && !c.closed && FrameSound(c, f, now, w) && f.phase.Scanning?
    ensures forall x | x in Live(f.shown, now) :: x.origin < |f.page|
    ensures OrderedAndDistinct(f.page, Live(f.shown, now))
  {
    var live := Live(f.shown, now);
    LiveIsSublist(f.shown, now);
    LiveIsAscending(f.shown, now);
    forall x | x in live ensures x.origin < |f.page| { assert x in f.shown; }
    forall i, j | 0 <= i < j < |live|
      ensures var a, b := f.page[live[i].origin].facts, f.page[live[j].origin].facts;
              a.serverSequence < b.serverSequence && a.id != b.id && KeyOf(a) != KeyOf(b)
    {
      assert live[i] in live && live[j] in live;
      LiveAreDistinct(c, f, live[i], live[j], now, w);
    }
  }

  lemma OwnStatus(m: Encrypted, currentUserId: Id)
    ensures StatusOf(OwnDeliveryStatus(m, currentUserId), m, currentUserId)
  {
  }

  lemma LiveShowDecrypted(c: Core, f: Frame, r: Loaded, now: Instant, w: World)
    requires FrameSound(c, f, now, w) && f.phase.Scanning? && r.shown == Live(f.shown, now) && r.asOf == now
    ensures ShowsDecrypted(f, r, w)
  {
    LiveIsSublist(f.shown, now);
    forall i | 0 <= i < |r.shown|
      ensures r.shown[i].origin < |f.page|
      ensures var (m, message) := (f.page[r.shown[i].origin], r.shown[i].message);
              && m.facts.expiresAt > now && StatusOf(message.deliveryStatus, m, w.currentUserId)
              && Faithful(message, f.conversationId, m.facts, w.crypto)
    {
      assert r.shown[i] in r.shown;
      assert ShownSound(c, f, r.shown[i], now, w);
      OwnStatus(f.page[r.shown[i].origin], w.currentUserId);
    }
  }

  lemma LiveResult(c: Core, f: Frame, r: Loaded, now: Instant, w: World)
    requires Sound(c) && FrameSound(c, f, now, w) && !Aborted(c, f) && f.phase.Scanning? && f.next == |f.page|
    requires r == Loaded(Live(f.shown, now), 0, r.lastActivityAt, now)
    requires r.lastActivityAt == if r.shown == [] then None else Some(r.shown[|r.shown| - 1].message.sentAt)
    ensures ResultSound(f, r, w)
  {
    LiveIsComplete(c, f, now, w);
    LiveIsOrdered(c, f, now, w);
    LiveShowDecrypted(c, f, r, now, w);
  }

  lemma FinishResult(c: Core, f: Frame, now: Instant, w: World)
    requires Sound(c) && FrameSound(c, f, now, w) && !Aborted(c, f) && f.phase.Scanning? && f.next == |f.page|
    ensures Finish(c, f, now).1.phase.Done? && ResultSound(f, Finish(c, f, now).1.phase.result, w)
  {
    LiveResult(c, f, Finish(c, f, now).1.phase.result, now, w);
  }

  lemma LiveAreRegistered(c: Core, d: Core, f: Frame, now: Instant, w: World)
    requires Bijection(d) && RecordsKept(c, d, now) && !d.closed && !c.closed
    requires FrameSound(c, f, now, w) && f.phase.Scanning?
    ensures IdsOf(Live(f.shown, now)) <= d.authenticatedKeysByMessageId.Keys
  {
    LiveIsSublist(f.shown, now);
    forall x | x in Live(f.shown, now) ensures x.message.id in d.authenticatedKeysByMessageId {
      assert ShownSound(c, f, x, now, w);
      RegisteredKept(c, d, now, f.conversationId, f.page[x.origin].facts);
    }
  }

  lemma FinishKeeps(c: Core, f: Frame, now: Instant, w: World)
    requires Sound(c) && CacheSound(c, now, w.crypto) && FrameSound(c, f, now, w)
    requires f.phase.Scanning? && f.next == |f.page|
    ensures SegmentKeeps(c, Finish(c, f, now), now, w)
  {
    if !Aborted(c, f) {
      FinishResult(c, f, now, w);
      FinishCoreKeeps(c, f, now, w);
    }
  }

  lemma FinishCoreKeeps(c: Core, f: Frame, now: Instant, w: World)
    requires Sound(c) && CacheSound(c, now, w.crypto) && FrameSound(c, f, now, w) && f.phase.Scanning?
    requires !Aborted(c, f)
    ensures var d := Finish(c, f, now).0;
            Sound(d) && CacheSound(d, now, w.crypto) && RecordsKept(c, d, now)
  {
    var swept := ExpireDead(c, f.shown, now);
    ExpireDeadKeeps(c, f.shown, now);
    CacheStable(c, swept, now, now, w.crypto);
    var stale := PreviousIds(swept, f.conversationId) - IdsOf(Live(f.shown, now));
    var dropped := DropStale(swept, stale);
    DropStaleKeeps(swept, stale, now);
    CacheStable(swept, dropped, now, now, w.crypto);
    assert RecordsKept(c, dropped, now);
    LiveAreRegistered(c, dropped, f, now, w);
    ListingKeeps(c, dropped, f.conversationId, IdsOf(Live(f.shown, now)), now, w.crypto);
  }

  lemma ListingKeeps(c: Core, d: Core, conversationId: Id, ids: set<Id>, now: Instant, crypto: Crypto)
    requires Sound(d) && CacheSound(d, now, crypto) && RecordsKept(c, d, now) && !d.closed
    requires ids <= d.authenticatedKeysByMessageId.Keys
    ensures var e := d.(conversationMessageIds := d.conversationMessageIds[conversationId := ids]);
            Sound(e) && CacheSound(e, now, crypto) && RecordsKept(c, e, now)
  {
    var e := d.(conversationMessageIds := d.conversationMessageIds[conversationId := ids]);
    CacheStable(d, e, now, now, crypto);
  }

  // ------------------------------------------------------------ every step keeps the invariant

  ghost predicate Init(s: System) {
    s.core == EMPTY && s.loads == map[]
  }

  lemma SegmentStep(s: System, load: LoadId, r: (Core, Frame), w: World)
    requires Inv(s, w) && SegmentKeeps(s.core, r, s.clock, w)
    ensures Inv(With(s, load, r), w)
  {
    forall other | other in s.loads && other != load
      ensures FrameSound(r.0, s.loads[other], s.clock, w)
    {
      FrameStable(s.core, r.0, s.loads[other], s.clock, s.clock, w);
    }
  }

  lemma CoreStep(s: System, d: Core, w: World)
    requires Inv(s, w) && Sound(d) && RecordsKept(s.core, d, s.clock) && PlaintextOnlyDropped(s.core, d)
    ensures Inv(s.(core := d), w)
  {
    CacheStable(s.core, d, s.clock, s.clock, w.crypto);
    forall load | load in s.loads ensures FrameSound(d, s.loads[load], s.clock, w) {
      FrameStable(s.core, d, s.loads[load], s.clock, s.clock, w);
    }
  }

  lemma ClockStep(s: System, to: Instant, w: World)
    requires Inv(s, w) && s.clock <= to
    ensures Inv(s.(clock := to), w)
  {
    CacheStable(s.core, s.core, s.clock, to, w.crypto);
    forall load | load in s.loads ensures FrameSound(s.core, s.loads[load], to, w) {
      FrameStable(s.core, s.core, s.loads[load], s.clock, to, w);
    }
  }

  lemma LoadStepKeeps(s: System, step: Step, w: World)
    requires Inv(s, w) && Enabled(s, step)
    requires step.Scan? || step.Decrypted? || step.Downloaded? || step.Stored? || step.Finished?
    ensures Inv(Apply(s, step, w), w) && RecordsKept(s.core, Apply(s, step, w).core, s.clock)
    ensures s.clock == Apply(s, step, w).clock
  {
    match step
    case Scan(load) =>
      ScanKeeps(s.core, s.loads[load], s.clock, w);
      SegmentStep(s, load, ScanItem(s.core, s.loads[load], s.clock, w.currentUserId), w);
    case Decrypted(load) =>
      DecryptKeeps(s.core, s.loads[load], s.clock, w);
      SegmentStep(s, load, AfterDecrypt(s.core, s.loads[load], s.clock, w.currentUserId, w.crypto), w);
    case Downloaded(load) =>
      DownloadKeeps(s.core, s.loads[load], s.clock, w);
      SegmentStep(s, load, AfterDownload(s.core, s.loads[load], s.clock, w.currentUserId), w);
    case Stored(load) =>
      StoreKeeps(s.core, s.loads[load], s.clock, w);
      SegmentStep(s, load, StoreImage(s.core, s.loads[load], w.currentUserId), w);
    case Finished(load) =>
      FinishKeeps(s.core, s.loads[load], s.clock, w);
      SegmentStep(s, load, Finish(s.core, s.loads[load], s.clock), w);
  }

  lemma StepKeeps(s: System, step: Step, w: World)
    requires Inv(s, w) && Enabled(s, step)
    ensures Inv(Apply(s, step, w), w) && RecordsKept(s.core, Apply(s, step, w).core, s.clock)
    ensures s.clock <= Apply(s, step, w).clock
  {
    match step
    case Tick(to) => ClockStep(s, to, w);
    case Start(load, conversationId, page) =>
    case AbortLoad(load) => AbortStep(s, load, w);
    case RejectAwait(load) =>
    case Fire(t) =>
      FireKeeps(s.core, t, s.clock);
      CoreStep(s, FireTimer(s.core, t), w);
    case CloseController =>
      CloseKeeps(s.core);
      CoreStep(s, Close(s.core), w);
    case _ => LoadStepKeeps(s, step, w);
  }

  lemma AbortStep(s: System, load: LoadId, w: World)
    requires Inv(s, w) && load in s.loads
    ensures Inv(Apply(s, AbortLoad(load), w), w)
  {
    var f := s.loads[load];
    var g := f.(aborted := true);
    assert FrameSound(s.core, f, s.clock, w);
    if !f.phase.Failed? && !f.phase.Done? {
      forall x | x in g.shown ensures ShownSound(s.core, g, x, s.clock, w) {
        assert ShownSound(s.core, f, x, s.clock, w);
      }
    }
  }

  // ------------------------------------------------------------ theorems over whole runs

  /** `Apply` is defined where no URL is held twice; RunKeeps shows that this is every state of a run. */
  ghost predicate Run(states: seq<System>, steps: seq<Step>, w: World) {
    && |states| == |steps| + 1
    && Init(states[0])
    && forall i | 0 <= i < |steps| ::
         && Enabled(states[i], steps[i])
         && (Injective(states[i].core.objectUrls) ==> states[i + 1] == Apply(states[i], steps[i], w))
  }

  lemma {:induction false} RunKeeps(states: seq<System>, steps: seq<Step>, i: nat, w: World)
    requires Run(states, steps, w) && i < |states|
    ensures Inv(states[i], w)
  {
    if i > 0 {
      RunKeeps(states, steps, i - 1, w);
      StepKeeps(states[i - 1], steps[i - 1], w);
    }
  }

  /** One step of a run: records are kept, the clock does not go back, a closed controller stays so. */
  lemma RunStep(states: seq<System>, steps: seq<Step>, i: nat, w: World)
    requires Run(states, steps, w) && i < |steps|
    ensures RecordsKept(states[i].core, states[i + 1].core, states[i].clock)
    ensures states[i].clock <= states[i + 1].clock
    ensures states[i].core.closed ==>
              states[i + 1].core.closed && states[i + 1].core.createdUrls == states[i].core.createdUrls
  {
    RunKeeps(states, steps, i, w);
    StepKeeps(states[i], steps[i], w);
    if states[i].core.closed {
      ClosedCreatesNothing(states[i], steps[i], w);
    }
  }

  /** The indexes agree, nothing is held for an unregistered message, and no plaintext outlives its record. */
  lemma IndexesAgree(states: seq<System>, steps: seq<Step>, i: nat, w: World)
    requires Run(states, steps, w) && i < |states|
    ensures var s := states[i];
            && Bijection(s.core) && Scheduled(s.core) && Owned(s.core)
            && forall id | id in s.core.decryptedMessages && !s.core.closed
                           && s.core.decryptedMessages[id].message.expiresAt > s.clock ::
                 Registered(s.core, s.core.decryptedMessages[id].conversationId,
                            s.core.decryptedMessages[id].fingerprint)
  {
    RunKeeps(states, steps, i, w);
    var s := states[i];
    forall id | id in s.core.decryptedMessages && !s.core.closed
                && s.core.decryptedMessages[id].message.expiresAt > s.clock
      ensures Registered(s.core, s.core.decryptedMessages[id].conversationId,
                         s.core.decryptedMessages[id].fingerprint)
    {
      assert Faithful(s.core.decryptedMessages[id].message, s.core.decryptedMessages[id].conversationId,
                      s.core.decryptedMessages[id].fingerprint, w.crypto);
    }
  }

  /** Whatever ran in between, a load that returns shows what decrypting each message afresh would show. */
  lemma LoadRefinesDecryption(states: seq<System>, steps: seq<Step>, i: nat, load: LoadId, w: World)
    requires Run(states, steps, w) && i < |states|
    requires load in states[i].loads && states[i].loads[load].phase.Done?
    ensures ResultSound(states[i].loads[load], states[i].loads[load].phase.result, w)
  {
    RunKeeps(states, steps, i, w);
  }

  /** An anti-replay record outlives every step until its own expiry or until close. */
  lemma {:induction false} RecordPersists(states: seq<System>, steps: seq<Step>, i: nat, j: nat, key: Key, w: World)
    requires Run(states, steps, w) && i <= j < |states|
    requires key in states[i].core.authenticatedMessages
    requires states[j].clock < states[i].core.authenticatedMessages[key].expiresAtMs
    requires !states[j].core.closed
    ensures key in states[j].core.authenticatedMessages
    ensures states[j].core.authenticatedMessages[key] == states[i].core.authenticatedMessages[key]
    decreases j - i
  {
    if i < j {
      RunStep(states, steps, j - 1, w);
      RecordPersists(states, steps, i, j - 1, key, w);
    }
  }

  /** Where a load stops: the stretch that meets a conflicting record changes nothing and shows nothing. */
  lemma ReuseFailsTheLoad(c: Core, f: Frame, now: Instant, w: World)
    requires f.next < |f.page| && f.page[f.next].facts.expiresAt > now
    requires Conflicts(c, f.conversationId, f.page[f.next].facts)
    ensures f.phase.Scanning? ==>
              && ScanItem(c, f, now, w.currentUserId).0 == c
              && ScanItem(c, f, now, w.currentUserId).1.shown == f.shown
              && (ScanItem(c, f, now, w.currentUserId).1.phase in {Failed(ABORTED), Decrypting})
    ensures f.phase.Decrypting? ==>
              && AfterDecrypt(c, f, now, w.currentUserId, w.crypto).0 == c
              && AfterDecrypt(c, f, now, w.currentUserId, w.crypto).1.phase.Failed?
  {
  }

  /** `load` returns in step `j` of the run. */
  ghost predicate Returns(states: seq<System>, steps: seq<Step>, j: nat, load: LoadId, w: World) {
    && Run(states, steps, w) && j < |steps| && steps[j] == Finished(load)
    && load in states[j].loads && load in states[j + 1].loads && states[j + 1].loads[load].phase.Done?
  }

  /** When a load returns, every message of its page that has not expired is on record. */
  lemma ReturnedAreRegistered(states: seq<System>, steps: seq<Step>, j: nat, load: LoadId, o: nat, w: World)
    requires Returns(states, steps, j, load, w)
    requires o < |states[j].loads[load].page| && states[j].loads[load].page[o].facts.expiresAt > states[j].clock
    ensures !states[j].core.closed
    ensures Registered(states[j].core, states[j].loads[load].conversationId, states[j].loads[load].page[o].facts)
  {
    RunKeeps(states, steps, j, w);
    var f := states[j].loads[load];
    assert FrameSound(states[j].core, f, states[j].clock, w);
    assert o in Origins(f.shown);
    var x :| x in f.shown && x.origin == o;
    assert ShownSound(states[j].core, f, x, states[j].clock, w);
  }

  /** Until a record expires or the controller closes, no load returns a page on which an unexpired message
      reuses its key or its message id for anything else, whichever of the two came first. */
  lemma ReuseNeverReturns(states: seq<System>, steps: seq<Step>, i: nat, j: nat, t: nat, load: LoadId,
                          key: Key, o: nat, w: World)
    requires Returns(states, steps, j, load, w) && o < |states[j].loads[load].page|
    requires i < |states| && t < |states| && t == (if i <= j then j else i)
    requires key in states[i].core.authenticatedMessages && !states[t].core.closed
    requires var m, record := states[j].loads[load].page[o].facts, states[i].core.authenticatedMessages[key];
             && m.expiresAt > states[t].clock && record.expiresAtMs > states[t].clock
             && (KeyOf(m) == key || m.id == record.messageId)
    ensures var m, record := states[j].loads[load].page[o].facts, states[i].core.authenticatedMessages[key];
            KeyOf(m) == key && record == RecordOf(states[j].loads[load].conversationId, m)
  {
    var m := states[j].loads[load].page[o].facts;
    ClockNeverGoesBack(states, steps, j, t, w);
    ReturnedAreRegistered(states, steps, j, load, o, w);
    RecordPersists(states, steps, j, t, KeyOf(m), w);
    RecordPersists(states, steps, i, t, key, w);
    RunKeeps(states, steps, t, w);
  }

  lemma {:induction false} ClockNeverGoesBack(states: seq<System>, steps: seq<Step>, i: nat, j: nat, w: World)
    requires Run(states, steps, w) && i <= j < |states|
    ensures states[i].clock <= states[j].clock
    decreases j - i
  {
    if i < j {
      ClockNeverGoesBack(states, steps, i, j - 1, w);
      RunStep(states, steps, j - 1, w);
    }
  }

  /** Two loads that return, in any conversations, never show one message id or one authenticated key with
      two contents while both are unexpired and the controller is open. */
  lemma ReturnedLoadsAgree(states: seq<System>, steps: seq<Step>, i: nat, j: nat, first: LoadId, second: LoadId,
                           p: nat, q: nat, w: World)
    requires Returns(states, steps, i, first, w) && Returns(states, steps, j, second, w) && i <= j
    requires p < |states[i].loads[first].page| && q < |states[j].loads[second].page|
    requires var a, b := states[i].loads[first].page[p].facts, states[j].loads[second].page[q].facts;
             && a.expiresAt > states[j].clock && b.expiresAt > states[j].clock
             && (a.id == b.id || KeyOf(a) == KeyOf(b))
    ensures states[i].loads[first].page[p].facts == states[j].loads[second].page[q].facts
    ensures states[i].loads[first].conversationId == states[j].loads[second].conversationId
  {
    ClockNeverGoesBack(states, steps, i, j, w);
    ReturnedAreRegistered(states, steps, i, first, p, w);
    ReturnedAreRegistered(states, steps, j, second, q, w);
    ReuseNeverReturns(states, steps, i, j, j, second, KeyOf(states[i].loads[first].page[p].facts), q, w);
  }

  ghost predicate HoldsAlone(c: Core, id: Id, u: Url) {
    && id in c.objectUrls && c.objectUrls[id] == u
    && forall other | other in c.objectUrls && c.objectUrls[other] == u :: other == id
  }

  /** Every URL is held by one message or was revoked exactly once, and never both. */
  lemma UrlsAreConserved(states: seq<System>, steps: seq<Step>, i: nat, u: Url, w: World)
    requires Run(states, steps, w) && i < |states| && u < states[i].core.createdUrls
    ensures var c := states[i].core;
            if u in c.objectUrls.Values
            then c.revokedUrls[u] == 0 && (exists id :: HoldsAlone(c, id, u))
            else c.revokedUrls[u] == 1
  {
    RunKeeps(states, steps, i, w);
    var c := states[i].core;
    if u in c.objectUrls.Values {
      var id :| id in c.objectUrls && c.objectUrls[id] == u;
      assert HoldsAlone(c, id, u);
    }
  }

  /** After close, with loads still in flight: all stays empty, no URL is created, all are revoked. */
  lemma {:induction false} ClosedForGood(states: seq<System>, steps: seq<Step>, i: nat, j: nat, w: World)
    requires Run(states, steps, w) && i <= j < |states| && states[i].core.closed
    ensures states[j].core.closed && EmptyOnceClosed(states[j].core)
    ensures states[j].core.createdUrls == states[i].core.createdUrls
    ensures forall u: Url | u < states[j].core.createdUrls :: states[j].core.revokedUrls[u] == 1
    decreases j - i
  {
    if i < j {
      ClosedForGood(states, steps, i, j - 1, w);
      RunStep(states, steps, j - 1, w);
    }
    RunEmptyOnceClosed(states, steps, j, w);
  }

  lemma RunEmptyOnceClosed(states: seq<System>, steps: seq<Step>, j: nat, w: World)
    requires Run(states, steps, w) && j < |states| && states[j].core.closed
    ensures EmptyOnceClosed(states[j].core)
    ensures forall u: Url | u < states[j].core.createdUrls :: states[j].core.revokedUrls[u] == 1
  {
    RunKeeps(states, steps, j, w);
  }

  lemma ClosedCreatesNothing(s: System, step: Step, w: World)
    requires Inv(s, w) && Enabled(s, step) && s.core.closed
    ensures Apply(s, step, w).core.createdUrls == s.core.createdUrls
  {
    match step {
      case Finished(load) =>
      case Fire(t) =>
      case _ =>
    }
  }

  // ------------------------------------------------------------ read receipts

  /** The collected messages of other users that the page does not yet report as read, in page order. */
  function ToRead(page: seq<Encrypted>, shown: seq<Shown>, currentUserId: Id): seq<Id>
    requires forall k | 0 <= k < |shown| :: shown[k].origin < |page|
  {
    if shown == [] then []
    else
      var last := page[shown[|shown| - 1].origin];
      ToRead(page, shown[..|shown| - 1], currentUserId)
      + (if last.facts.senderUserId != currentUserId && (last.receipts == [] || last.receipts[0] != READ)
         then [last.facts.id] else [])
  }

  ghost predicate ReceiptsSound(f: Frame, currentUserId: Id) {
    && (forall k | 0 <= k < |f.shown| :: f.shown[k].origin < |f.page|)
    && f.receiptsToRead == ToRead(f.page, f.shown, currentUserId)
  }

  lemma CollectOwes(f: Frame, message: ChatMessage, currentUserId: Id)
    requires ReceiptsSound(f, currentUserId) && f.next < |f.page|
    ensures ReceiptsSound(Collect(f, message, currentUserId), currentUserId)
  {
    var g := Collect(f, message, currentUserId);
    assert g.shown[..|g.shown| - 1] == f.shown;
  }

  lemma ScanOwes(c: Core, f: Frame, now: Instant, currentUserId: Id)
    requires ReceiptsSound(f, currentUserId) && f.next < |f.page|
    ensures ReceiptsSound(ScanItem(c, f, now, currentUserId).1, currentUserId)
  {
    if CacheHit(c, f.conversationId, f.page[f.next].facts) {
      var m := f.page[f.next];
      var message := c.decryptedMessages[m.facts.id].message.(deliveryStatus := OwnDeliveryStatus(m, currentUserId));
      CollectOwes(f, message, currentUserId);
    }
  }

  lemma DecryptOwes(c: Core, f: Frame, now: Instant, w: World)
    requires ReceiptsSound(f, w.currentUserId) && f.next < |f.page|
    ensures ReceiptsSound(AfterDecrypt(c, f, now, w.currentUserId, w.crypto).1, w.currentUserId)
  {
    match w.crypto(f.conversationId, f.page[f.next].facts)
    case TextContent(_, _, text) =>
      CollectOwes(f, TextChatMessage(f.page[f.next], text, w.currentUserId), w.currentUserId);
    case ImageContent(_, _, _) =>
  }

  lemma SegmentOwes(s: System, step: Step, w: World, load: LoadId)
    requires Enabled(s, step) && Injective(s.core.objectUrls) && load in s.loads
    requires ReceiptsSound(s.loads[load], w.currentUserId)
    ensures load in Apply(s, step, w).loads && ReceiptsSound(Apply(s, step, w).loads[load], w.currentUserId)
  {
    if step == Scan(load) {
      ScanOwes(s.core, s.loads[load], s.clock, w.currentUserId);
    } else if step == Decrypted(load) {
      DecryptOwes(s.core, s.loads[load], s.clock, w);
    } else if step == Stored(load) {
      CollectOwes(s.loads[load], s.loads[load].phase.image, w.currentUserId);
    }
  }

  /** A load confirms as read exactly the messages it has decrypted, or taken from the cache, and collected. */
  lemma {:induction false} ReceiptsFollowDecryption(states: seq<System>, steps: seq<Step>, i: nat, load: LoadId, w: World)
    requires Run(states, steps, w) && i < |states| && load in states[i].loads
    ensures ReceiptsSound(states[i].loads[load], w.currentUserId)
  {
    if i > 0 {
      RunKeeps(states, steps, i - 1, w);
      if load in states[i - 1].loads {
        ReceiptsFollowDecryption(states, steps, i - 1, load, w);
        SegmentOwes(states[i - 1], steps[i - 1], w, load);
      }
    }
  }
}
