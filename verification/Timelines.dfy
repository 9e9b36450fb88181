/**
 Histories whose periods follow each other without gap or overlap: published terms and investigation keys.
 Sources: apps/api/src/cli/publish-terms.ts, apps/api/src/auth/auth.service.ts (currentTermsInTransaction),
 apps/api/src/cli/register-investigation-key.ts.
*/
module Timelines {
  import opened Wrappers

  type Instant = int

  /** From its start, inclusive, to its end, exclusive; no end yet for the open one. */
  datatype Period = Period(from: Instant, until: Option<Instant>)

  predicate Covers(p: Period, at: Instant) { p.from <= at && (p.until == None || p.until.value > at) }

  /** Each period ends where the next one starts, and the last one is open. */
  predicate Tiles(ps: seq<Period>) {
    && (forall k | 0 <= k < |ps| - 1 :: ps[k].until == Some(ps[k + 1].from) && ps[k].from < ps[k + 1].from)
    && (ps != [] ==> ps[|ps| - 1].until == None)
  }

  lemma {:induction false} Ordered(ps: seq<Period>, i: nat, j: nat)
    requires Tiles(ps) && i < j < |ps|
    ensures ps[i].from < ps[j].from && ps[i].until.Some? && ps[i].until.value <= ps[j].from
    decreases j
  {
    if i < j - 1 {
      Ordered(ps, i, j - 1);
      assert ps[j - 1].from < ps[j - 1 + 1].from;
    } else {
      assert ps[i].until == Some(ps[i + 1].from);
    }
  }

  /** No instant lies in two periods. */
  lemma AtMostOne(ps: seq<Period>, i: nat, j: nat, at: Instant)
    requires Tiles(ps) && i < |ps| && j < |ps| && Covers(ps[i], at) && Covers(ps[j], at)
    ensures i == j
  {
    if i < j { Ordered(ps, i, j); }
    if j < i { Ordered(ps, j, i); }
  }

  /** Every instant from the first start on lies in some period. */
  lemma {:induction false} AtLeastOne(ps: seq<Period>, n: nat, at: Instant) returns (k: nat)
    requires Tiles(ps) && 0 < n <= |ps| && ps[0].from <= at && (n < |ps| ==> at < ps[n].from)
    ensures k < n && Covers(ps[k], at)
    decreases n
  {
    k := n - 1;
    if at < ps[n - 1].from {
      k := AtLeastOne(ps, n - 1, at);
    } else if n < |ps| {
      assert ps[n - 1].until == Some(ps[n - 1 + 1].from);
    }
  }

  /** The next period closes the last one. */
  function Extended(ps: seq<Period>, from: Instant): seq<Period> {
    if ps == [] then [Period(from, None)]
    else ps[..|ps| - 1] + [ps[|ps| - 1].(until := Some(from)), Period(from, None)]
  }

  /** Extending keeps the tiling, changes nothing before the new start, and covers what follows it. */
  lemma ExtendedTiles(ps: seq<Period>, from: Instant)
    requires Tiles(ps) && (ps != [] ==> ps[|ps| - 1].from < from)
    ensures var after := Extended(ps, from);
            && Tiles(after) && |after| == |ps| + 1
            && (forall k, at | 0 <= k < |ps| && at < from :: Covers(after[k], at) == Covers(ps[k], at))
            && (forall at | from <= at :: Covers(after[|ps|], at))
  {
    var after := Extended(ps, from);
    forall k | 0 <= k < |after| - 1
      ensures after[k].until == Some(after[k + 1].from) && after[k].from < after[k + 1].from
    {
      if k < |ps| - 1 { assert ps[k].until == Some(ps[k + 1].from) && ps[k].from < ps[k + 1].from; }
    }
  }

  // ---------------------------------------------------------------- terms

  /** The content stands for its hash. */
  datatype Terms = Terms(
    version: string,
    content: string,
    contentType: string,
    createdAt: Instant,
    effectiveAt: Instant,
    retiredAt: Option<Instant>)

  datatype Publication = Publication(version: string, content: string, contentType: string, effectiveAt: Instant)

  datatype PublicationError =
    | VERSION_TAKEN | CONTENT_TAKEN | NOT_LATER
    | MORE_THAN_ONE_OPEN_OR_OVERLAPPING | OPEN_IS_NOT_LATEST | OVERLAPS_RETIREMENT | RETIREMENT_NOT_LATER

  function TermsPeriods(rows: seq<Terms>): (ps: seq<Period>)
    ensures |ps| == |rows| && forall k | 0 <= k < |ps| :: ps[k] == Period(rows[k].effectiveAt, rows[k].retiredAt)
  {
    seq(|rows|, k requires 0 <= k < |rows| => Period(rows[k].effectiveAt, rows[k].retiredAt))
  }

  predicate InForce(t: Terms, at: Instant) { Covers(Period(t.effectiveAt, t.retiredAt), at) }

  function OpenTerms(rows: seq<Terms>): set<nat> { set k: nat | k < |rows| && rows[k].retiredAt == None }

  function TermsInForce(rows: seq<Terms>, at: Instant): set<nat> { set k: nat | k < |rows| && InForce(rows[k], at) }

  /** ORDER BY effective_at DESC, created_at DESC */
  predicate NotBefore(a: Terms, b: Terms) {
    a.effectiveAt > b.effectiveAt || (a.effectiveAt == b.effectiveAt && a.createdAt >= b.createdAt)
  }

  /** findFirst among the first `n` rows, of those in force at an instant or of all of them. */
  function First(rows: seq<Terms>, at: Option<Instant>, n: nat): (k: Option<nat>)
    requires n <= |rows|
    ensures k.Some? ==> k.value < n && (at == None || InForce(rows[k.value], at.value))
  {
    if n == 0 then None
    else
      var best := First(rows, at, n - 1);
      if (at == None || InForce(rows[n - 1], at.value)) && (best == None || !NotBefore(rows[best.value], rows[n - 1]))
      then Some(n - 1) else best
  }

  function Latest(rows: seq<Terms>): (k: Option<nat>)
    ensures k.Some? ==> k.value < |rows|
  {
    First(rows, None, |rows|)
  }

  /** The first refusal that the publication meets. */
  function PublicationRefusal(rows: seq<Terms>, p: Publication): Option<PublicationError> {
    var open, latest := OpenTerms(rows), Latest(rows);
    if exists t | t in rows :: t.content == p.content then Some(CONTENT_TAKEN)
    else if |open| > 1 || |TermsInForce(rows, p.effectiveAt)| > 1 then Some(MORE_THAN_ONE_OPEN_OR_OVERLAPPING)
    else if latest.Some? && p.effectiveAt <= rows[latest.value].effectiveAt then Some(NOT_LATER)
    else if latest.Some? && open != {} && latest.value !in open then Some(OPEN_IS_NOT_LATEST)
    else if latest.Some? && rows[latest.value].retiredAt.Some? && rows[latest.value].retiredAt.value > p.effectiveAt
    then Some(OVERLAPS_RETIREMENT)
    else if exists k | k in open :: p.effectiveAt <= rows[k].effectiveAt then Some(RETIREMENT_NOT_LATER)
    else None
  }

  predicate SamePublication(t: Terms, p: Publication) {
    t.content == p.content && t.contentType == p.contentType && t.effectiveAt == p.effectiveAt
  }

  /** The open row is retired when the new one takes effect. */
  function Retire(rows: seq<Terms>, at: Instant): (after: seq<Terms>)
    ensures |after| == |rows|
    ensures forall k | 0 <= k < |rows| ::
              after[k] == if rows[k].retiredAt == None then rows[k].(retiredAt := Some(at)) else rows[k]
  {
    seq(|rows|, k requires 0 <= k < |rows| =>
      if rows[k].retiredAt == None then rows[k].(retiredAt := Some(at)) else rows[k])
  }

  function Publish(rows: seq<Terms>, p: Publication, now: Instant): Result<seq<Terms>, PublicationError> {
    if exists t | t in rows :: t.version == p.version then
      if forall t | t in rows && t.version == p.version :: SamePublication(t, p) then Ok(rows) else Err(VERSION_TAKEN)
    else match PublicationRefusal(rows, p)
      case Some(e) => Err(e)
      case None =>
        Ok(Retire(rows, p.effectiveAt) + [Terms(p.version, p.content, p.contentType, now, p.effectiveAt, None)])
  }

  ghost predicate TermsSound(rows: seq<Terms>) {
    && Tiles(TermsPeriods(rows))
    && (forall i, j | 0 <= i < j < |rows| :: rows[i].version != rows[j].version && rows[i].content != rows[j].content)
  }

  lemma {:induction false} LastIsFirst(rows: seq<Terms>, n: nat)
    requires Tiles(TermsPeriods(rows)) && n <= |rows|
    ensures First(rows, None, n) == if n == 0 then None else Some(n - 1)
  {
    if n > 1 {
      LastIsFirst(rows, n - 1);
      Ordered(TermsPeriods(rows), n - 2, n - 1);
    }
  }

  lemma OpenIsLast(rows: seq<Terms>)
    requires Tiles(TermsPeriods(rows))
    ensures OpenTerms(rows) == if rows == [] then {} else {|rows| - 1}
  {
    var ps := TermsPeriods(rows);
    forall k: nat | k < |rows| - 1 ensures rows[k].retiredAt.Some? { Ordered(ps, k, |rows| - 1); }
    if rows != [] { assert ps[|ps| - 1].until == None; }
  }

  /** The index that the registration query answers with, if any. */
  function CurrentTerms(rows: seq<Terms>, at: Instant): (k: Option<nat>)
    ensures k.Some? ==> k.value in TermsInForce(rows, at)
  {
    First(rows, Some(at), |rows|)
  }

  lemma RetireIsOneUpdate(rows: seq<Terms>, at: Instant)
    requires Tiles(TermsPeriods(rows))
    ensures Retire(rows, at)
            == if rows == [] then [] else rows[|rows| - 1 := rows[|rows| - 1].(retiredAt := Some(at))]
  {
    OpenIsLast(rows);
    forall k: nat | k < |rows| - 1 ensures rows[k].retiredAt.Some? { assert k !in OpenTerms(rows); }
    if rows != [] { assert |rows| - 1 in OpenTerms(rows); }
  }

  /** At every instant the registration query selects the only version in force; before the first one none. */
  lemma UniqueVersionInForce(rows: seq<Terms>, at: Instant)
    requires TermsSound(rows)
    ensures TermsInForce(rows, at) == match CurrentTerms(rows, at) case None => {} case Some(k) => {k}
    ensures CurrentTerms(rows, at).Some? <==> rows != [] && rows[0].effectiveAt <= at
  {
    if rows != [] && rows[0].effectiveAt <= at {
      var k := SomeVersionInForce(rows, at);
      FirstFindsOne(rows, at, |rows|, k);
    } else {
      NoVersionInForce(rows, at);
    }
  }

  lemma SomeVersionInForce(rows: seq<Terms>, at: Instant) returns (k: nat)
    requires Tiles(TermsPeriods(rows)) && rows != [] && rows[0].effectiveAt <= at
    ensures k < |rows| && TermsInForce(rows, at) == {k}
  {
    var ps := TermsPeriods(rows);
    k := AtLeastOne(ps, |ps|, at);
    forall i: nat | i < |rows| && InForce(rows[i], at) ensures i == k { AtMostOne(ps, i, k, at); }
  }

  lemma NoVersionInForce(rows: seq<Terms>, at: Instant)
    requires Tiles(TermsPeriods(rows)) && (rows != [] ==> at < rows[0].effectiveAt)
    ensures TermsInForce(rows, at) == {}
  {
    forall i: nat | i < |rows| ensures !InForce(rows[i], at) {
      if i > 0 { Ordered(TermsPeriods(rows), 0, i); }
    }
  }

  lemma {:induction false} FirstFindsOne(rows: seq<Terms>, at: Instant, n: nat, k: nat)
    requires k < n <= |rows| && InForce(rows[k], at)
    ensures First(rows, Some(at), n).Some?
    decreases n
  {
    if k < n - 1 { FirstFindsOne(rows, at, n - 1, k); }
  }

  /** On a sound history the only refusals are a taken version, a taken content and a date that is not later. */
  lemma OnlyThreeRefusals(rows: seq<Terms>, p: Publication, now: Instant)
    requires TermsSound(rows)
    ensures Publish(rows, p, now).Err? ==> Publish(rows, p, now).error in {VERSION_TAKEN, CONTENT_TAKEN, NOT_LATER}
    ensures PublicationRefusal(rows, p) == None <==>
              (forall t | t in rows :: t.content != p.content)
              && (rows == [] || rows[|rows| - 1].effectiveAt < p.effectiveAt)
  {
    UniqueVersionInForce(rows, p.effectiveAt);
    OpenIsLast(rows);
    LastIsFirst(rows, |rows|);
  }

  lemma PublishExtends(rows: seq<Terms>, p: Publication, now: Instant)
    requires TermsSound(rows) && Publish(rows, p, now).Ok? && Publish(rows, p, now).value != rows
    ensures TermsPeriods(Publish(rows, p, now).value) == Extended(TermsPeriods(rows), p.effectiveAt)
  {
    OpenIsLast(rows);
    var after := Publish(rows, p, now).value;
    forall k: nat | k < |rows| - 1 ensures after[k] == rows[k] {
      assert k !in OpenTerms(rows);
    }
    if rows != [] { assert |rows| - 1 in OpenTerms(rows); }
  }

  lemma PublicationChangesNothingBefore(rows: seq<Terms>, p: Publication, now: Instant, at: Instant)
    requires TermsSound(rows) && Publish(rows, p, now).Ok? && Publish(rows, p, now).value != rows && at < p.effectiveAt
    ensures TermsInForce(Publish(rows, p, now).value, at) == TermsInForce(rows, at)
  {
    var after := Publish(rows, p, now).value;
    OnlyThreeRefusals(rows, p, now);
    PublishExtends(rows, p, now);
    var ps, qs := TermsPeriods(rows), TermsPeriods(after);
    ExtendedTiles(ps, p.effectiveAt);
    forall k: nat | k < |after| ensures k in TermsInForce(after, at) <==> k in TermsInForce(rows, at) {
      if k < |rows| { assert Covers(qs[k], at) == Covers(ps[k], at); }
    }
  }

  lemma PublicationIsSound(rows: seq<Terms>, p: Publication, now: Instant)
    requires TermsSound(rows) && Publish(rows, p, now).Ok? && Publish(rows, p, now).value != rows
    ensures TermsSound(Publish(rows, p, now).value)
    ensures |Publish(rows, p, now).value| == |rows| + 1 && Publish(rows, p, now).value[|rows|].effectiveAt == p.effectiveAt
  {
    OnlyThreeRefusals(rows, p, now);
    PublishExtends(rows, p, now);
    ExtendedTiles(TermsPeriods(rows), p.effectiveAt);
  }

  /** The last row of a tiling history is the only one in force from its date on. */
  lemma LastIsInForce(rows: seq<Terms>, at: Instant)
    requires Tiles(TermsPeriods(rows)) && rows != [] && rows[|rows| - 1].effectiveAt <= at
    ensures TermsInForce(rows, at) == {|rows| - 1}
  {
    var ps, last := TermsPeriods(rows), |rows| - 1;
    assert ps[last].until == None;
    forall k | k in TermsInForce(rows, at) ensures k == last { AtMostOne(ps, k, last, at); }
    assert last in TermsInForce(rows, at);
  }

  /** A publication keeps the history sound and changes nothing before its own effective date. */
  lemma PublishKeeps(rows: seq<Terms>, p: Publication, now: Instant)
    requires TermsSound(rows) && Publish(rows, p, now).Ok?
    ensures var after := Publish(rows, p, now).value;
            && TermsSound(after)
            && (after == rows || |after| == |rows| + 1)
            && (forall at | after != rows && at < p.effectiveAt :: TermsInForce(after, at) == TermsInForce(rows, at))
            && (forall at | after != rows && p.effectiveAt <= at :: TermsInForce(after, at) == {|rows|})
  {
    var after := Publish(rows, p, now).value;
    if after != rows {
      PublicationIsSound(rows, p, now);
      forall at | at < p.effectiveAt ensures TermsInForce(after, at) == TermsInForce(rows, at) {
        PublicationChangesNothingBefore(rows, p, now, at);
      }
      forall at | p.effectiveAt <= at ensures TermsInForce(after, at) == {|rows|} {
        LastIsInForce(after, at);
      }
    }
  }

  predicate VersionKnown(rows: seq<Terms>, version: string) { exists t | t in rows :: t.version == version }

  predicate SameStored(rows: seq<Terms>, p: Publication) {
    exists t | t in rows ::
      t.version == p.version && t.content == p.content && t.contentType == p.contentType && t.effectiveAt == p.effectiveAt
  }

  lemma KnownVersionIsOne(rows: seq<Terms>, p: Publication)
    requires TermsSound(rows) && VersionKnown(rows, p.version)
    ensures SameStored(rows, p) <==> forall t | t in rows && t.version == p.version :: SamePublication(t, p)
  {
    var t :| t in rows && t.version == p.version;
    forall u | u in rows && u.version == p.version ensures u == t {
      var i, j :| 0 <= i < |rows| && 0 <= j < |rows| && rows[i] == t && rows[j] == u;
      assert i == j;
    }
  }

  /** What the command does, row by row. A known version is accepted exactly as it is stored. A new one needs
      new content and a later date; it ends the newest row at its own date and is added as it was given. */
  lemma PublishDecides(rows: seq<Terms>, p: Publication, now: Instant)
    requires TermsSound(rows)
    ensures var (known, used) := (VersionKnown(rows, p.version), exists t | t in rows :: t.content == p.content);
            var later := rows == [] || rows[|rows| - 1].effectiveAt < p.effectiveAt;
            match Publish(rows, p, now)
            case Err(e) =>
              && (e == VERSION_TAKEN <==> known && !SameStored(rows, p)) && (e == CONTENT_TAKEN <==> !known && used)
              && (e == NOT_LATER <==> !known && !used && !later) && e in {VERSION_TAKEN, CONTENT_TAKEN, NOT_LATER}
            case Ok(after) =>
              if known then SameStored(rows, p) && after == rows
              else
                var row := Terms(p.version, p.content, p.contentType, now, p.effectiveAt, None);
                !used && later
                && after == if rows == [] then [row]
                            else rows[|rows| - 1 := rows[|rows| - 1].(retiredAt := Some(p.effectiveAt))] + [row]
  {
    if VersionKnown(rows, p.version) {
      KnownVersionIsOne(rows, p);
    } else {
      OnlyThreeRefusals(rows, p, now);
      RetireIsOneUpdate(rows, p.effectiveAt);
    }
  }

  /** Publishing exactly the same again is accepted and changes nothing. */
  lemma RepublicationChangesNothing(rows: seq<Terms>, p: Publication, now: Instant, again: Instant)
    requires TermsSound(rows) && Publish(rows, p, now).Ok?
    ensures Publish(Publish(rows, p, now).value, p, again) == Publish(rows, p, now)
  {
    PublishKeeps(rows, p, now);
    var after := Publish(rows, p, now).value;
    if after != rows {
      assert after[|rows|] in after && after[|rows|].version == p.version;
      forall t | t in after && t.version == p.version ensures SamePublication(t, p) {
        var k :| 0 <= k < |after| && after[k] == t;
        assert k == |rows|;
      }
    }
  }

  /** Publications at the given instants; a refused one leaves the history as it was. */
  function PublishAll(rows: seq<Terms>, ps: seq<(Publication, Instant)>): seq<Terms>
    decreases |ps|
  {
    if ps == [] then rows
    else
      var after := match Publish(rows, ps[0].0, ps[0].1) case Ok(d) => d case Err(_) => rows;
      PublishAll(after, ps[1..])
  }

  lemma {:induction false} HistoryTiles(rows: seq<Terms>, ps: seq<(Publication, Instant)>)
    requires TermsSound(rows)
    ensures TermsSound(PublishAll(rows, ps))
    decreases |ps|
  {
    if ps != [] {
      var (p, now) := ps[0];
      if Publish(rows, p, now).Ok? { PublishKeeps(rows, p, now); }
      var after := match Publish(rows, p, now) case Ok(d) => d case Err(_) => rows;
      HistoryTiles(after, ps[1..]);
    }
  }

  /** So over every sequence of publications there is exactly one version in force from the first date on. */
  lemma OneVersionAtEveryRegistration(ps: seq<(Publication, Instant)>, at: Instant)
    ensures var rows := PublishAll([], ps);
            |TermsInForce(rows, at)| == (if rows != [] && rows[0].effectiveAt <= at then 1 else 0)
            && (CurrentTerms(rows, at).Some? ==> TermsInForce(rows, at) == {CurrentTerms(rows, at).value})
  {
    HistoryTiles([], ps);
    UniqueVersionInForce(PublishAll([], ps), at);
  }

  // ---------------------------------------------------------------- investigation keys

  datatype Key = Key(
    version: nat,
    algorithm: string,
    publicKey: string,
    fingerprint: string,
    activatedAt: Instant,
    retiredAt: Option<Instant>)

  datatype KeyInput = KeyInput(version: nat, algorithm: string, publicKey: string, fingerprint: string)

  datatype KeyError =
    | KEY_VERSION_TAKEN | KEY_RETIRED | FINGERPRINT_TAKEN | VERSION_NOT_GREATER | ACTIVATION_NOT_LATER
    | MORE_THAN_ONE_KEY | ROTATION_SCHEDULED | ROTATION_INCOMPATIBLE | RETIREMENT_SCHEDULED | UNRETIRED_NOT_ACTIVE

  function KeyPeriods(rows: seq<Key>): (ps: seq<Period>)
    ensures |ps| == |rows| && forall k | 0 <= k < |ps| :: ps[k] == Period(rows[k].activatedAt, rows[k].retiredAt)
  {
    seq(|rows|, k requires 0 <= k < |rows| => Period(rows[k].activatedAt, rows[k].retiredAt))
  }

  predicate KeyActive(k: Key, at: Instant) { Covers(Period(k.activatedAt, k.retiredAt), at) }

  function ActiveKeys(rows: seq<Key>, at: Instant): set<nat> { set k: nat | k < |rows| && KeyActive(rows[k], at) }

  function UnretiredKeys(rows: seq<Key>): set<nat> { set k: nat | k < |rows| && rows[k].retiredAt == None }

  predicate SameKey(k: Key, input: KeyInput) {
    k.algorithm == input.algorithm && k.fingerprint == input.fingerprint && k.publicKey == input.publicKey
  }

  function RotationRefusal(rows: seq<Key>, input: KeyInput, now: Instant): Option<KeyError> {
    var active, unretired := ActiveKeys(rows, now), UnretiredKeys(rows);
    if exists k | k in rows :: k.fingerprint == input.fingerprint then Some(FINGERPRINT_TAKEN)
    else if exists k | k in rows :: input.version <= k.version then Some(VERSION_NOT_GREATER)
    else if |active| > 1 || |unretired| > 1 then Some(MORE_THAN_ONE_KEY)
    else if exists k | k in unretired :: rows[k].activatedAt > now then Some(ROTATION_SCHEDULED)
    else if active != {} && unretired != {} && active != unretired then Some(ROTATION_INCOMPATIBLE)
    else if exists k | k in active :: rows[k].retiredAt.Some? then Some(RETIREMENT_SCHEDULED)
    else if exists k | k in active :: now <= rows[k].activatedAt then Some(ACTIVATION_NOT_LATER)
    else if active == {} && unretired != {} then Some(UNRETIRED_NOT_ACTIVE)
    else None
  }

  function RetireKey(rows: seq<Key>, at: Instant): (after: seq<Key>)
    ensures |after| == |rows|
    ensures forall k | 0 <= k < |rows| ::
              after[k] == if rows[k].retiredAt == None then rows[k].(retiredAt := Some(at)) else rows[k]
  {
    seq(|rows|, k requires 0 <= k < |rows| =>
      if rows[k].retiredAt == None then rows[k].(retiredAt := Some(at)) else rows[k])
  }

  function Rotate(rows: seq<Key>, input: KeyInput, now: Instant): Result<seq<Key>, KeyError> {
    if exists k | k in rows :: k.version == input.version then
      if exists k | k in rows :: k.version == input.version && !SameKey(k, input) then Err(KEY_VERSION_TAKEN)
      else if exists k | k in rows :: k.version == input.version && !KeyActive(k, now) then Err(KEY_RETIRED)
      else Ok(rows)
    else match RotationRefusal(rows, input, now)
      case Some(e) => Err(e)
      case None =>
        Ok(RetireKey(rows, now)
           + [Key(input.version, input.algorithm, input.publicKey, input.fingerprint, now, None)])
  }

  /** The periods tile, versions strictly increase, and nothing was activated after the clock. */
  ghost predicate KeysSound(rows: seq<Key>, clock: Instant) {
    && Tiles(KeyPeriods(rows))
    && (forall i, j | 0 <= i < j < |rows| :: rows[i].version < rows[j].version && rows[i].fingerprint != rows[j].fingerprint)
    && (rows != [] ==> rows[|rows| - 1].activatedAt <= clock)
  }

  lemma LastKeyIsActive(rows: seq<Key>, now: Instant)
    requires KeysSound(rows, now)
    ensures var last: set<nat> := if rows == [] then {} else {|rows| - 1};
            ActiveKeys(rows, now) == last && UnretiredKeys(rows) == last
  {
    var ps := KeyPeriods(rows);
    forall k: nat | k < |rows| - 1 ensures rows[k].retiredAt.Some? && !KeyActive(rows[k], now) {
      Ordered(ps, k, |rows| - 1);
    }
    if rows != [] { assert ps[|ps| - 1].until == None; }
  }

  lemma RetireKeyIsOneUpdate(rows: seq<Key>, now: Instant)
    requires KeysSound(rows, now)
    ensures RetireKey(rows, now)
            == if rows == [] then [] else rows[|rows| - 1 := rows[|rows| - 1].(retiredAt := Some(now))]
  {
    LastKeyIsActive(rows, now);
    forall k: nat | k < |rows| - 1 ensures rows[k].retiredAt.Some? { assert k !in UnretiredKeys(rows); }
    if rows != [] { assert |rows| - 1 in UnretiredKeys(rows); }
  }

  /** Reachable refusals of a rotation, and when it goes ahead: a new fingerprint, a greater version and a
      clock past the last activation. */
  lemma RotationGoesAhead(rows: seq<Key>, input: KeyInput, now: Instant)
    requires KeysSound(rows, now)
    ensures RotationRefusal(rows, input, now) == None <==>
              (forall k | k in rows :: k.fingerprint != input.fingerprint && k.version < input.version)
              && (rows == [] || rows[|rows| - 1].activatedAt < now)
    ensures RotationRefusal(rows, input, now).Some? ==>
              RotationRefusal(rows, input, now).value in {FINGERPRINT_TAKEN, VERSION_NOT_GREATER, ACTIVATION_NOT_LATER}
  {
    LastKeyIsActive(rows, now);
    if rows != [] { assert |rows| - 1 in ActiveKeys(rows, now); }
  }

  predicate KeyKnown(rows: seq<Key>, version: nat) { exists k | k in rows :: k.version == version }

  /** The version is the last one and is stored as given. */
  predicate NewestIs(rows: seq<Key>, input: KeyInput) {
    && rows != []
    && var k := rows[|rows| - 1];
       k.version == input.version && k.algorithm == input.algorithm && k.publicKey == input.publicKey
       && k.fingerprint == input.fingerprint
  }

  /** What the command does, row by row. A known version is accepted only as the newest key, exactly as it is
      stored; any other new version retires the newest key now and is added as it was given. */
  lemma RotateDecides(rows: seq<Key>, input: KeyInput, now: Instant)
    requires KeysSound(rows, now)
    ensures var (known, used) := (KeyKnown(rows, input.version), exists k | k in rows :: k.fingerprint == input.fingerprint);
            var smaller := exists k | k in rows :: input.version <= k.version;
            match Rotate(rows, input, now)
            case Err(e) =>
              && (e in {KEY_VERSION_TAKEN, KEY_RETIRED} <==> known && !NewestIs(rows, input))
              && (e == KEY_VERSION_TAKEN <==> exists k | k in rows ::
                    k.version == input.version
                    && (k.algorithm != input.algorithm || k.publicKey != input.publicKey || k.fingerprint != input.fingerprint))
              && (e == FINGERPRINT_TAKEN <==> !known && used) && (e == VERSION_NOT_GREATER <==> !known && !used && smaller)
              && (e == ACTIVATION_NOT_LATER <==> !known && !used && !smaller && rows != [] && now <= rows[|rows| - 1].activatedAt)
              && e in {KEY_VERSION_TAKEN, KEY_RETIRED, FINGERPRINT_TAKEN, VERSION_NOT_GREATER, ACTIVATION_NOT_LATER}
            case Ok(after) =>
              if known then NewestIs(rows, input) && after == rows
              else
                var row := Key(input.version, input.algorithm, input.publicKey, input.fingerprint, now, None);
                !used && !smaller && (rows != [] ==> rows[|rows| - 1].activatedAt < now)
                && after == if rows == [] then [row]
                            else rows[|rows| - 1 := rows[|rows| - 1].(retiredAt := Some(now))] + [row]
  {
    if KeyKnown(rows, input.version) {
      KnownKeyIsOne(rows, input, now);
    } else {
      NewKeyDecides(rows, input, now);
    }
  }

  lemma NewKeyDecides(rows: seq<Key>, input: KeyInput, now: Instant)
    requires KeysSound(rows, now)
    ensures var used := exists k | k in rows :: k.fingerprint == input.fingerprint;
            var smaller := exists k | k in rows :: input.version <= k.version;
            var refusal := RotationRefusal(rows, input, now);
            && (refusal == Some(FINGERPRINT_TAKEN) <==> used) && (refusal == Some(VERSION_NOT_GREATER) <==> !used && smaller)
            && (refusal == Some(ACTIVATION_NOT_LATER) <==> !used && !smaller && rows != [] && now <= rows[|rows| - 1].activatedAt)
            && (refusal == None || refusal.value in {FINGERPRINT_TAKEN, VERSION_NOT_GREATER, ACTIVATION_NOT_LATER})
    ensures RetireKey(rows, now)
            == if rows == [] then [] else rows[|rows| - 1 := rows[|rows| - 1].(retiredAt := Some(now))]
  {
    LastKeyIsActive(rows, now);
    RotationGoesAhead(rows, input, now);
    RetireKeyIsOneUpdate(rows, now);
  }

  lemma KnownKeyIsOne(rows: seq<Key>, input: KeyInput, now: Instant)
    requires KeysSound(rows, now) && KeyKnown(rows, input.version)
    ensures NewestIs(rows, input) <==>
              forall k | k in rows && k.version == input.version :: SameKey(k, input) && KeyActive(k, now)
  {
    LastKeyIsActive(rows, now);
    var i :| 0 <= i < |rows| && rows[i].version == input.version;
    assert i in ActiveKeys(rows, now) <==> i == |rows| - 1;
    forall k | k in rows && k.version == input.version ensures k == rows[i] {
      var j :| 0 <= j < |rows| && rows[j] == k;
      assert i == j;
    }
    assert rows[i] in rows;
  }

  lemma RotationChangesNothingBefore(rows: seq<Key>, input: KeyInput, now: Instant, at: Instant)
    requires KeysSound(rows, now) && Rotate(rows, input, now).Ok? && at < now
    ensures ActiveKeys(Rotate(rows, input, now).value, at) == ActiveKeys(rows, at)
  {
    var after := Rotate(rows, input, now).value;
    if after != rows {
      RotationGoesAhead(rows, input, now);
      RotateExtends(rows, input, now);
      var ps, qs := KeyPeriods(rows), KeyPeriods(after);
      ExtendedTiles(ps, now);
      forall k: nat | k < |after| ensures k in ActiveKeys(after, at) <==> k in ActiveKeys(rows, at) {
        if k < |rows| { assert Covers(qs[k], at) == Covers(ps[k], at); }
      }
    }
  }

  lemma RotationIsSound(rows: seq<Key>, input: KeyInput, now: Instant)
    requires KeysSound(rows, now) && Rotate(rows, input, now).Ok?
    ensures KeysSound(Rotate(rows, input, now).value, now)
  {
    var after := Rotate(rows, input, now).value;
    if after != rows {
      RotationGoesAhead(rows, input, now);
      RotateExtends(rows, input, now);
      ExtendedTiles(KeyPeriods(rows), now);
      assert forall k | 0 <= k < |rows| :: after[k].version == rows[k].version && after[k].fingerprint == rows[k].fingerprint;
    }
  }

  /** A rotation keeps the history sound, never reactivates a key, and changes nothing before it. */
  lemma RotateKeeps(rows: seq<Key>, input: KeyInput, now: Instant)
    requires KeysSound(rows, now) && Rotate(rows, input, now).Ok?
    ensures var after := Rotate(rows, input, now).value;
            && KeysSound(after, now) && |ActiveKeys(after, now)| == 1
            && (after != rows ==> ActiveKeys(after, now) == {|rows|} && after[|rows|].version == input.version)
            && (forall at | at < now :: ActiveKeys(after, at) == ActiveKeys(rows, at))
  {
    var after := Rotate(rows, input, now).value;
    forall at | at < now ensures ActiveKeys(after, at) == ActiveKeys(rows, at) {
      RotationChangesNothingBefore(rows, input, now, at);
    }
    RotationIsSound(rows, input, now);
    LastKeyIsActive(after, now);
  }

  lemma RotateExtends(rows: seq<Key>, input: KeyInput, now: Instant)
    requires KeysSound(rows, now) && Rotate(rows, input, now).Ok? && Rotate(rows, input, now).value != rows
    ensures KeyPeriods(Rotate(rows, input, now).value) == Extended(KeyPeriods(rows), now)
  {
    LastKeyIsActive(rows, now);
    var after := Rotate(rows, input, now).value;
    forall k: nat | k < |rows| - 1 ensures after[k] == rows[k] {
      assert k !in UnretiredKeys(rows);
    }
    if rows != [] { assert |rows| - 1 in UnretiredKeys(rows); }
  }

  /** A retired key is refused. */
  lemma RetiredKeyStaysRetired(rows: seq<Key>, input: KeyInput, now: Instant, k: nat)
    requires KeysSound(rows, now) && k < |rows| && rows[k].retiredAt.Some? && rows[k].version == input.version
    ensures Rotate(rows, input, now).Err?
  {
    LastKeyIsActive(rows, now);
    assert k !in UnretiredKeys(rows) && k !in ActiveKeys(rows, now);
    assert rows[k] in rows;
  }

  /** What is stored after one try: a refused rotation leaves the history as it was. */
  function AfterRotation(rows: seq<Key>, input: KeyInput, now: Instant): seq<Key> {
    match Rotate(rows, input, now)
    case Ok(after) => after
    case Err(_) => rows
  }

  /** Rotations at the given instants, in order. */
  function RotateAll(rows: seq<Key>, inputs: seq<(KeyInput, Instant)>): seq<Key>
    decreases |inputs|
  {
    if inputs == [] then rows
    else RotateAll(AfterRotation(rows, inputs[0].0, inputs[0].1), inputs[1..])
  }

  predicate Increasing(inputs: seq<(KeyInput, Instant)>, clock: Instant)
    decreases |inputs|
  {
    inputs == [] || (clock <= inputs[0].1 && Increasing(inputs[1..], inputs[0].1))
  }

  /** The instant of the last input. */
  function LastInstant(inputs: seq<(KeyInput, Instant)>, clock: Instant): Instant {
    if inputs == [] then clock else inputs[|inputs| - 1].1
  }

  lemma OneRotation(rows: seq<Key>, input: KeyInput, now: Instant, clock: Instant)
    requires KeysSound(rows, clock) && clock <= now
    ensures KeysSound(AfterRotation(rows, input, now), now)
    ensures forall k | 0 <= k < |rows| && rows[k].retiredAt.Some? ::
              k < |AfterRotation(rows, input, now)| && AfterRotation(rows, input, now)[k] == rows[k]
  {
    if Rotate(rows, input, now).Ok? { RotationIsSound(rows, input, now); }
  }

  /** The history is sound at the clock of the last rotation that was tried. */
  lemma {:induction false} RotationsTile(rows: seq<Key>, inputs: seq<(KeyInput, Instant)>, clock: Instant)
    requires KeysSound(rows, clock) && Increasing(inputs, clock)
    ensures KeysSound(RotateAll(rows, inputs), LastInstant(inputs, clock))
    ensures clock <= LastInstant(inputs, clock)
    decreases |inputs|
  {
    if inputs != [] {
      OneRotation(rows, inputs[0].0, inputs[0].1, clock);
      var (input, now) := inputs[0];
      assert LastInstant(inputs, clock) == LastInstant(inputs[1..], now);
      RotationsTile(AfterRotation(rows, input, now), inputs[1..], now);
    }
  }

  /** So over every sequence of rotations there is exactly one active key at each instant from the first
      activation on, the newest one activated by then, and none before. */
  lemma OneKeyAtEveryInstant(inputs: seq<(KeyInput, Instant)>, clock: Instant, at: Instant)
    requires Increasing(inputs, clock)
    ensures var rows := RotateAll([], inputs);
            && |ActiveKeys(rows, at)| == (if rows != [] && rows[0].activatedAt <= at then 1 else 0)
            && forall k | k in ActiveKeys(rows, at) ::
                 forall j | 0 <= j < |rows| :: rows[j].activatedAt <= at <==> j <= k
  {
    var rows := RotateAll([], inputs);
    RotationsTile([], inputs, clock);
    var ps := KeyPeriods(rows);
    if rows != [] && rows[0].activatedAt <= at {
      var k := AtLeastOne(ps, |ps|, at);
      forall i | i in ActiveKeys(rows, at) ensures i == k { AtMostOne(ps, i, k, at); }
      assert ActiveKeys(rows, at) == {k};
      NewestByThen(ps, k, at);
    } else {
      forall i: nat | i < |rows| ensures !KeyActive(rows[i], at) {
        if i > 0 { Ordered(ps, 0, i); }
      }
      assert ActiveKeys(rows, at) == {};
    }
  }

  lemma NewestByThen(ps: seq<Period>, k: nat, at: Instant)
    requires Tiles(ps) && k < |ps| && Covers(ps[k], at)
    ensures forall j | 0 <= j < |ps| :: ps[j].from <= at <==> j <= k
  {
    forall j | 0 <= j < |ps| ensures ps[j].from <= at <==> j <= k {
      if j < k { Ordered(ps, j, k); }
      if k < j { Ordered(ps, k, j); }
    }
  }

  /** No rotation touches a row that is retired. */
  lemma {:induction false} RetiredRowPersists(rows: seq<Key>, inputs: seq<(KeyInput, Instant)>, clock: Instant, k: nat)
    requires KeysSound(rows, clock) && Increasing(inputs, clock) && k < |rows| && rows[k].retiredAt.Some?
    ensures k < |RotateAll(rows, inputs)| && RotateAll(rows, inputs)[k] == rows[k]
    decreases |inputs|
  {
    if inputs != [] {
      OneRotation(rows, inputs[0].0, inputs[0].1, clock);
      RetiredRowPersists(AfterRotation(rows, inputs[0].0, inputs[0].1), inputs[1..], inputs[0].1, k);
    }
  }

  lemma RetirementIsPast(rows: seq<Key>, clock: Instant, k: nat)
    requires KeysSound(rows, clock) && k < |rows| && rows[k].retiredAt.Some?
    ensures rows[k].retiredAt.value <= clock
  {
    var ps := KeyPeriods(rows);
    assert ps[|ps| - 1].until == None;
    Ordered(ps, k, |rows| - 1);
  }

  /** Once retired, whatever rotations follow: the key is active at no instant again, and the command refuses it. */
  lemma {:induction false} RetiredForEver(rows: seq<Key>, inputs: seq<(KeyInput, Instant)>, clock: Instant, k: nat,
                       input: KeyInput, now: Instant)
    requires KeysSound(rows, clock) && Increasing(inputs, clock) && k < |rows| && rows[k].retiredAt.Some?
    requires LastInstant(inputs, clock) <= now && input.version == rows[k].version
    ensures Rotate(RotateAll(rows, inputs), input, now).Err?
    ensures forall at | clock <= at :: k !in ActiveKeys(RotateAll(rows, inputs), at)
  {
    RotationsTile(rows, inputs, clock);
    RetiredRowPersists(rows, inputs, clock, k);
    RetirementIsPast(rows, clock, k);
    RetiredKeyStaysRetired(RotateAll(rows, inputs), input, now, k);
  }

  /** The clock is part of the condition: after a rotation at `now`, no other key can follow it at `now`. */
  lemma SecondRotationIsRefused(rows: seq<Key>, first: KeyInput, second: KeyInput, now: Instant)
    requires KeysSound(rows, now) && Rotate(rows, first, now).Ok? && Rotate(rows, first, now).value != rows
    requires forall k | k in Rotate(rows, first, now).value ::
               k.fingerprint != second.fingerprint && k.version < second.version
    ensures Rotate(Rotate(rows, first, now).value, second, now) == Err(ACTIVATION_NOT_LATER)
  {
    var after := Rotate(rows, first, now).value;
    RotationIsSound(rows, first, now);
    RotationGoesAhead(after, second, now);
    LastKeyIsActive(after, now);
    assert |after| - 1 in ActiveKeys(after, now) && after[|after| - 1].activatedAt == now;
  }

  /** Two keys registered at one instant: the second is refused although its version and fingerprint are new. */
  lemma SecondRotationExample()
    ensures var first, second := KeyInput(1, "RSA", "a", "fa"), KeyInput(2, "RSA", "b", "fb");
            Rotate([], first, 9).Ok? && Rotate(Rotate([], first, 9).value, second, 9) == Err(ACTIVATION_NOT_LATER)
  {
    var first, second := KeyInput(1, "RSA", "a", "fa"), KeyInput(2, "RSA", "b", "fb");
    RotationGoesAhead([], first, 9);
    SecondRotationIsRefused([], first, second, 9);
  }
}
