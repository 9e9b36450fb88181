/**
 The browser's secure message controller as a state machine over values: the six maps
 it mutates, the part of the browser platform it drives (object URLs and timers), and
 the synchronous stretches of `load` between two awaits.
 Source: apps/web/src/secureMessageController.ts.
*/
module SecureMessages {
  import opened Arithmetic
  import opened Wrappers

  type Id = string
  type Key = string
  type Url = nat // serial number of the URL.createObjectURL call
  type TimerId = nat
  type Instant = int // milliseconds

  datatype Kind = TEXT | IMAGE
  datatype ReceiptStatus = SENT | DELIVERED | READ
  datatype DeliveryStatus = Sent | Delivered | Read

  datatype AttachmentFacts = AttachmentFacts(
    declaredMimeType: string,
    plaintextByteSize: nat,
    ciphertextByteSize: nat,
    ciphertextSha256: string,
    cipherSuite: string)

  /** The tuple of fields that the message fingerprint serialises. */
  datatype Fingerprint = Fingerprint(
    id: Id,
    senderUserId: Id,
    senderDeviceId: Id,
    clientMessageId: Id,
    serverSequence: nat,
    kind: Kind,
    createdAt: Instant,
    expiresAt: Instant,
    protocolVersion: string,
    cipherSuite: string,
    ciphertext: string,
    attachment: Option<AttachmentFacts>)

  /** A transport message: the fingerprinted facts plus the parts outside the fingerprint. */
  datatype Encrypted = Encrypted(facts: Fingerprint, downloadUrl: string, receipts: seq<ReceiptStatus>)

  datatype Content =
    | TextContent(senderDeviceId: Id, clientMessageId: Id, text: string)
    | ImageContent(senderDeviceId: Id, clientMessageId: Id, mediaEncryptionInfo: string)

  /** Decryption depends on the conversation and the fingerprinted fields only. */
  type Crypto = (Id, Fingerprint) -> Content

  datatype ChatMessage =
    | TextMessage(id: Id, senderId: Id, sentAt: Instant, expiresAt: Instant,
                  deliveryStatus: Option<DeliveryStatus>, text: string)
    | ImageMessage(id: Id, senderId: Id, sentAt: Instant, expiresAt: Instant,
                   deliveryStatus: Option<DeliveryStatus>, url: Url)

  datatype CacheEntry = CacheEntry(conversationId: Id, fingerprint: Fingerprint, message: ChatMessage)
  datatype Record = Record(messageId: Id, conversationId: Id, fingerprint: Fingerprint, expiresAtMs: Instant)
  datatype Expiry = Expiry(authenticatedKey: Key, timer: TimerId)
  datatype Timer = Timer(messageId: Id, authenticatedKey: Key, deadline: Instant)

  /** The controller's fields, followed by the platform resources it holds. */
  datatype Core = Core(
    closed: bool,
    objectUrls: map<Id, Url>,
    conversationMessageIds: map<Id, set<Id>>,
    decryptedMessages: map<Id, CacheEntry>,
    authenticatedMessages: map<Key, Record>,
    authenticatedKeysByMessageId: map<Id, Key>,
    messageExpiryTimers: map<Id, Expiry>,
    createdUrls: nat,
    revokedUrls: multiset<Url>,
    timers: map<TimerId, Timer>,
    startedTimers: nat)

  const EMPTY := Core(false, map[], map[], map[], map[], map[], map[], 0, multiset{}, map[], 0)

  datatype LoadError =
    | ABORTED
    | AUTHENTICATED_MESSAGE_BINDING_INVALID
    | MESSAGE_REPLAY_OR_REWRITE_DETECTED
    | IMAGE_ATTACHMENT_MISSING
    | MESSAGE_EXPIRED
    | AWAIT_FAILED // a rejected promise: network, decryption or download

  // ---------------------------------------------------------------- pure helpers

  function AuthenticatedMessageKey(senderDeviceId: Id, clientMessageId: Id): Key {
    senderDeviceId + ":" + clientMessageId
  }

  function KeyOf(m: Fingerprint): Key {
    AuthenticatedMessageKey(m.senderDeviceId, m.clientMessageId)
  }

  function ContentKey(c: Content): Key {
    AuthenticatedMessageKey(c.senderDeviceId, c.clientMessageId)
  }

  function RecordOf(conversationId: Id, m: Fingerprint): Record {
    Record(m.id, conversationId, m, m.expiresAt)
  }

  function ReceiptDeliveryStatus(receipts: seq<ReceiptStatus>): DeliveryStatus {
    if receipts == [] then Sent
    else match receipts[0]
      case READ => Read
      case DELIVERED => Delivered
      case SENT => Sent
  }

  function OwnDeliveryStatus(m: Encrypted, currentUserId: Id): Option<DeliveryStatus> {
    if m.facts.senderUserId != currentUserId then None
    else Some(ReceiptDeliveryStatus(m.receipts))
  }

  function TextChatMessage(m: Encrypted, text: string, currentUserId: Id): ChatMessage {
    TextMessage(m.facts.id, m.facts.senderUserId, m.facts.createdAt, m.facts.expiresAt,
                OwnDeliveryStatus(m, currentUserId), text)
  }

  predicate OwesReadReceipt(m: Encrypted, currentUserId: Id) {
    m.facts.senderUserId != currentUserId && (m.receipts == [] || m.receipts[0] != READ)
  }

  // ---------------------------------------------------------------- map operations

  function Lookup<K, V>(m: map<K, V>, k: K): Option<V> {
    if k in m then Some(m[k]) else None
  }

  function RevokeObjectUrl(c: Core, messageId: Id): Core {
    if messageId !in c.objectUrls then c
    else c.(objectUrls := c.objectUrls - {messageId},
            revokedUrls := c.revokedUrls + multiset{c.objectUrls[messageId]})
  }

  function CreateObjectUrl(c: Core, messageId: Id): Core {
    c.(objectUrls := c.objectUrls[messageId := c.createdUrls], createdUrls := c.createdUrls + 1)
  }

  function ForgetPlaintext(c: Core, messageId: Id): Core {
    c.(decryptedMessages := c.decryptedMessages - {messageId})
  }

  function WithoutMessage(ids: map<Id, set<Id>>, messageId: Id): map<Id, set<Id>> {
    map k | k in ids :: ids[k] - {messageId}
  }

  function CancelTimer(c: Core, messageId: Id): Core {
    if messageId !in c.messageExpiryTimers then c
    else c.(timers := c.timers - {c.messageExpiryTimers[messageId].timer},
            messageExpiryTimers := c.messageExpiryTimers - {messageId})
  }

  function ForgetRegistration(c: Core, messageId: Id, key: Key): Core {
    var records :=
      if key in c.authenticatedMessages && c.authenticatedMessages[key].messageId == messageId
      then c.authenticatedMessages - {key} else c.authenticatedMessages;
    var keys :=
      if messageId in c.authenticatedKeysByMessageId && c.authenticatedKeysByMessageId[messageId] == key
      then c.authenticatedKeysByMessageId - {messageId} else c.authenticatedKeysByMessageId;
    c.(authenticatedMessages := records, authenticatedKeysByMessageId := keys)
  }

  /** The key that expireMessage works with: the caller's, else the timer's, else the index's. */
  function ExpiryKey(c: Core, messageId: Id, expectedKey: Option<Key>): Option<Key> {
    if expectedKey.Some? then expectedKey
    else if messageId in c.messageExpiryTimers then Some(c.messageExpiryTimers[messageId].authenticatedKey)
    else Lookup(c.authenticatedKeysByMessageId, messageId)
  }

  predicate SupersededTimer(c: Core, messageId: Id, expectedKey: Option<Key>) {
    && expectedKey.Some?
    && messageId in c.messageExpiryTimers
    && c.messageExpiryTimers[messageId].authenticatedKey != expectedKey.value
  }

  function ExpireMessage(c: Core, messageId: Id, expectedKey: Option<Key>): Core {
    if SupersededTimer(c, messageId, expectedKey) then c
    else
      var released := ForgetPlaintext(RevokeObjectUrl(CancelTimer(c, messageId), messageId), messageId);
      var unlisted := released.(conversationMessageIds := WithoutMessage(c.conversationMessageIds, messageId));
      match ExpiryKey(c, messageId, expectedKey)
      case None => unlisted
      case Some(key) => ForgetRegistration(unlisted, messageId, key)
  }

  /** An unauthenticated past expiry must not erase a record that is not yet due. */
  function ExpireMessageIfDue(c: Core, messageId: Id, now: Instant): Core {
    var key := Lookup(c.authenticatedKeysByMessageId, messageId);
    if key.Some? && key.value in c.authenticatedMessages
       && c.authenticatedMessages[key.value].expiresAtMs > now
    then c
    else ExpireMessage(c, messageId, key)
  }

  predicate MatchesAuthenticatedMessage(c: Core, conversationId: Id, m: Fingerprint) {
    && KeyOf(m) in c.authenticatedMessages
    && c.authenticatedMessages[KeyOf(m)] == RecordOf(conversationId, m)
    && m.id in c.authenticatedKeysByMessageId
    && c.authenticatedKeysByMessageId[m.id] == KeyOf(m)
  }

  /** Some record already uses the key, or the id, for something else. */
  predicate Conflicts(c: Core, conversationId: Id, m: Fingerprint) {
    || (m.id in c.authenticatedKeysByMessageId && c.authenticatedKeysByMessageId[m.id] != KeyOf(m))
    || (KeyOf(m) in c.authenticatedMessages
        && c.authenticatedMessages[KeyOf(m)] != RecordOf(conversationId, m))
  }

  function Register(c: Core, conversationId: Id, m: Fingerprint, now: Instant): Core {
    var timer := Timer(m.id, KeyOf(m), now + Max(0, m.expiresAt - now));
    c.(authenticatedMessages := c.authenticatedMessages[KeyOf(m) := RecordOf(conversationId, m)],
       authenticatedKeysByMessageId := c.authenticatedKeysByMessageId[m.id := KeyOf(m)],
       messageExpiryTimers := c.messageExpiryTimers[m.id := Expiry(KeyOf(m), c.startedTimers)],
       timers := c.timers[c.startedTimers := timer],
       startedTimers := c.startedTimers + 1)
  }

  function RememberAuthenticatedMessage(c: Core, conversationId: Id, m: Fingerprint, now: Instant)
    : Result<Core, LoadError>
  {
    if m.expiresAt <= now then Err(MESSAGE_EXPIRED)
    else if Conflicts(c, conversationId, m) then Err(MESSAGE_REPLAY_OR_REWRITE_DETECTED)
    else if KeyOf(m) in c.authenticatedMessages then Ok(c)
    else Ok(Register(c, conversationId, m, now))
  }

  predicate Injective<K, V(==)>(m: map<K, V>) {
    forall a, b | a in m && b in m && a != b :: m[a] != m[b]
  }

  function UrlsOf(held: map<Id, Url>, ids: set<Id>): set<Url> {
    set id | id in held && id in ids :: held[id]
  }

  function TimersOf(expiries: map<Id, Expiry>, ids: set<Id>): set<TimerId> {
    set id | id in expiries && id in ids :: expiries[id].timer
  }

  /** close(): abort, revoke every URL, cancel every registered timer, empty the maps. */
  function Close(c: Core): Core
    requires Injective(c.objectUrls)
  {
    Core(true, map[], map[], map[], map[], map[], map[],
         c.createdUrls, c.revokedUrls + multiset(UrlsOf(c.objectUrls, c.objectUrls.Keys)),
         c.timers - TimersOf(c.messageExpiryTimers, c.messageExpiryTimers.Keys), c.startedTimers)
  }

  /** The platform runs a due timer: it leaves the schedule, then its callback runs. */
  function FireTimer(c: Core, t: TimerId): Core
    requires t in c.timers
  {
    ExpireMessage(c.(timers := c.timers - {t}), c.timers[t].messageId, Some(c.timers[t].authenticatedKey))
  }

  // ---------------------------------------------------------------- one load in flight

  /** A message already collected, with the page index it came from. */
  datatype Shown = Shown(origin: nat, message: ChatMessage)

  /** What load returns; `asOf` is the clock its last filter read. */
  datatype Loaded = Loaded(shown: seq<Shown>, unreadCount: nat, lastActivityAt: Option<Instant>, asOf: Instant)

  datatype Phase =
    | Scanning
    | Decrypting
    | Downloading
    | Storing(image: ChatMessage)
    | Done(result: Loaded)
    | Failed(error: LoadError)

  datatype Frame = Frame(
    conversationId: Id,
    page: seq<Encrypted>,
    next: nat,
    shown: seq<Shown>,
    receiptsToRead: seq<Id>,
    aborted: bool,
    phase: Phase)

  /** The operation signal: the controller's lifetime or the caller's own signal. */
  predicate Aborted(c: Core, f: Frame) { c.closed || f.aborted }

  function Fail(f: Frame, e: LoadError): Frame { f.(phase := Failed(e)) }

  function Advance(f: Frame): Frame { f.(next := f.next + 1, phase := Scanning) }

  function Collect(f: Frame, message: ChatMessage, currentUserId: Id): Frame
    requires f.next < |f.page|
  {
    var m := f.page[f.next];
    var receipts := if OwesReadReceipt(m, currentUserId) then f.receiptsToRead + [m.facts.id] else f.receiptsToRead;
    Advance(f.(shown := f.shown + [Shown(f.next, message)], receiptsToRead := receipts))
  }

  function Cache(c: Core, conversationId: Id, m: Fingerprint, message: ChatMessage): Core {
    c.(decryptedMessages := c.decryptedMessages[m.id := CacheEntry(conversationId, m, message)])
  }

  predicate CacheHit(c: Core, conversationId: Id, m: Fingerprint) {
    && m.id in c.decryptedMessages
    && c.decryptedMessages[m.id].conversationId == conversationId
    && c.decryptedMessages[m.id].fingerprint == m
    && MatchesAuthenticatedMessage(c, conversationId, m)
  }

  /** From the loop head to the decryption await, for the item at `next`. */
  function ScanItem(c: Core, f: Frame, now: Instant, currentUserId: Id): (Core, Frame)
    requires f.next < |f.page|
  {
    var m := f.page[f.next];
    if Aborted(c, f) then (c, Fail(f, ABORTED))
    else if m.facts.expiresAt <= now then (ExpireMessageIfDue(c, m.facts.id, now), Advance(f))
    else if CacheHit(c, f.conversationId, m.facts) then
      var message := c.decryptedMessages[m.facts.id].message.(deliveryStatus := OwnDeliveryStatus(m, currentUserId));
      (Cache(c, f.conversationId, m.facts, message), Collect(f, message, currentUserId))
    else (c, f.(phase := Decrypting))
  }

  /** From the decryption await to the next await, when decryption succeeded. */
  function AfterDecrypt(c: Core, f: Frame, now: Instant, currentUserId: Id, crypto: Crypto): (Core, Frame)
    requires f.next < |f.page|
  {
    var m := f.page[f.next];
    var content := crypto(f.conversationId, m.facts);
    if Aborted(c, f) then (c, Fail(f, ABORTED))
    else if m.facts.expiresAt <= now then (ExpireMessageIfDue(c, m.facts.id, now), Advance(f))
    else if ContentKey(content) != KeyOf(m.facts) then (c, Fail(f, AUTHENTICATED_MESSAGE_BINDING_INVALID))
    else match RememberAuthenticatedMessage(c, f.conversationId, m.facts, now)
      case Err(e) => (c, Fail(f, e))
      case Ok(known) =>
        if content.TextContent? then
          var message := TextChatMessage(m, content.text, currentUserId);
          (Cache(known, f.conversationId, m.facts, message), Collect(f, message, currentUserId))
        else if m.facts.attachment == None then (known, Fail(f, IMAGE_ATTACHMENT_MISSING))
        else (known, f.(phase := Downloading))
  }

  /** The end of imageChatMessage: the picture is decrypted, its URL replaces any older one. */
  function AfterDownload(c: Core, f: Frame, now: Instant, currentUserId: Id): (Core, Frame)
    requires f.next < |f.page|
  {
    var m := f.page[f.next];
    if Aborted(c, f) then (c, Fail(f, ABORTED))
    else if m.facts.expiresAt <= now then (c, Fail(f, MESSAGE_EXPIRED))
    else
      var image := ImageMessage(m.facts.id, m.facts.senderUserId, m.facts.createdAt, m.facts.expiresAt,
                                OwnDeliveryStatus(m, currentUserId), c.createdUrls);
      (CreateObjectUrl(RevokeObjectUrl(c, m.facts.id), m.facts.id), f.(phase := Storing(image)))
  }

  /** The cache write after the image await: nothing is checked again here. */
  function StoreImage(c: Core, f: Frame, currentUserId: Id): (Core, Frame)
    requires f.next < |f.page| && f.phase.Storing?
  {
    (Cache(c, f.conversationId, f.page[f.next].facts, f.phase.image), Collect(f, f.phase.image, currentUserId))
  }

  function Live(shown: seq<Shown>, now: Instant): seq<Shown> {
    if shown == [] then []
    else if shown[0].message.expiresAt > now then [shown[0]] + Live(shown[1..], now)
    else Live(shown[1..], now)
  }

  /** The filter's side effect: every collected message that has expired is dropped if due. */
  function ExpireDead(c: Core, shown: seq<Shown>, now: Instant): Core
    decreases |shown|
  {
    if shown == [] then c
    else if shown[0].message.expiresAt > now then ExpireDead(c, shown[1..], now)
    else ExpireDead(ExpireMessageIfDue(c, shown[0].message.id, now), shown[1..], now)
  }

  function IdsOf(shown: seq<Shown>): set<Id> {
    set s | s in shown :: s.message.id
  }

  /** Release what the conversation showed before and does not show now. */
  function DropStale(c: Core, stale: set<Id>): Core {
    c.(objectUrls := c.objectUrls - stale,
       revokedUrls := c.revokedUrls + multiset(UrlsOf(c.objectUrls, stale)),
       decryptedMessages := c.decryptedMessages - stale)
  }

  function PreviousIds(c: Core, conversationId: Id): set<Id> {
    if conversationId in c.conversationMessageIds then c.conversationMessageIds[conversationId] else {}
  }

  /** The conversation now lists exactly `ids`: whatever else it listed is released. */
  function ShowOnly(c: Core, conversationId: Id, ids: set<Id>): Core {
    var dropped := DropStale(c, PreviousIds(c, conversationId) - ids);
    dropped.(conversationMessageIds := dropped.conversationMessageIds[conversationId := ids])
  }

  /** From the receipts await to the return of load. */
  function Finish(c: Core, f: Frame, now: Instant): (Core, Frame) {
    if Aborted(c, f) then (c, Fail(f, ABORTED))
    else
      var live := Live(f.shown, now);
      var last := if live == [] then None else Some(live[|live| - 1].message.sentAt);
      (ShowOnly(ExpireDead(c, f.shown, now), f.conversationId, IdsOf(live)), f.(phase := Done(Loaded(live, 0, last, now))))
  }

  // ---------------------------------------------------------------- page order

  predicate StrictlyIncreasing(page: seq<Encrypted>) {
    forall i, j | 0 <= i < j < |page| :: page[i].facts.serverSequence < page[j].facts.serverSequence
  }
}
