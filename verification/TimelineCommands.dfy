/**
 The two operator commands and the registration query, over the rows of their tables in order of creation.
 Sources: apps/api/src/cli/publish-terms.ts, apps/api/src/cli/register-investigation-key.ts,
 apps/api/src/auth/auth.service.ts (currentTermsInTransaction).
*/
module TimelineCommands {
  import opened Wrappers
  import opened Timelines

  class TermsTable {
    var rows: seq<Terms>

    ghost predicate Valid()
      reads this
    {
      TermsSound(rows)
    }

    constructor ()
      ensures Valid() && rows == []
    {
      rows := [];
    }

    /** Whether a document was created; publishing the same again creates nothing. */
    method PublishTerms(p: Publication, now: Instant) returns (r: Result<bool, PublicationError>)
      requires Valid()
      modifies this
      ensures Valid()
      ensures match Publish(old(rows), p, now)
              case Ok(after) => rows == after && r == Ok(after != old(rows))
              case Err(e) => rows == old(rows) && r == Err(e)
    {
      var i := 0;
      while i < |rows|
        invariant i <= |rows| && forall k | 0 <= k < i :: rows[k].version != p.version
      {
        if rows[i].version == p.version {
          assert rows[i] in rows;
          if !SamePublication(rows[i], p) { return Err(VERSION_TAKEN); }
          return Ok(false);
        }
        i := i + 1;
      }
      var refusal := RefusalOf(p);
      if refusal.Some? { return Err(refusal.value); }
      PublishKeeps(rows, p, now);
      RetireIsOneUpdate(rows, p.effectiveAt);
      OpenIsLast(rows);
      var open := OpenTerms(rows);
      if open != {} {
        var k :| k in open;
        rows := rows[k := rows[k].(retiredAt := Some(p.effectiveAt))];
      }
      rows := rows + [Terms(p.version, p.content, p.contentType, now, p.effectiveAt, None)];
      return Ok(true);
    }

    /** The checks on the history, in the order they are made. */
    method RefusalOf(p: Publication) returns (refusal: Option<PublicationError>)
      ensures refusal == PublicationRefusal(rows, p)
    {
      if exists t | t in rows :: t.content == p.content { return Some(CONTENT_TAKEN); }
      var latest := LatestTerms();
      var open, overlapping := OpenTerms(rows), TermsInForce(rows, p.effectiveAt);
      if |open| > 1 || |overlapping| > 1 { return Some(MORE_THAN_ONE_OPEN_OR_OVERLAPPING); }
      if latest.Some? {
        var last := rows[latest.value];
        if p.effectiveAt <= last.effectiveAt { return Some(NOT_LATER); }
        if open != {} && latest.value !in open { return Some(OPEN_IS_NOT_LATEST); }
        if last.retiredAt.Some? && last.retiredAt.value > p.effectiveAt { return Some(OVERLAPS_RETIREMENT); }
      }
      if exists k | k in open :: p.effectiveAt <= rows[k].effectiveAt { return Some(RETIREMENT_NOT_LATER); }
      return None;
    }

    /** findFirst over the whole table, newest effective date first. */
    method LatestTerms() returns (best: Option<nat>)
      ensures best == Latest(rows)
    {
      best := None;
      var i := 0;
      while i < |rows|
        invariant i <= |rows| && best == First(rows, None, i)
      {
        if best == None || !NotBefore(rows[best.value], rows[i]) { best := Some(i); }
        i := i + 1;
      }
    }

    /** The version that a registration at `now` must accept, and no other one is in force. */
    method CurrentTermsInTransaction(now: Instant) returns (terms: Option<Terms>)
      requires Valid()
      ensures terms == None <==> TermsInForce(rows, now) == {}
      ensures terms.Some? ==>
                exists k | k in TermsInForce(rows, now) :: TermsInForce(rows, now) == {k} && terms.value == rows[k]
    {
      var best: Option<nat> := None;
      var i := 0;
      while i < |rows|
        invariant i <= |rows| && best == First(rows, Some(now), i)
      {
        if InForce(rows[i], now) && (best == None || !NotBefore(rows[best.value], rows[i])) { best := Some(i); }
        i := i + 1;
      }
      UniqueVersionInForce(rows, now);
      terms := if best == None then None else Some(rows[best.value]);
    }
  }

  class KeyTable {
    var rows: seq<Key>

    constructor ()
      ensures rows == []
    {
      rows := [];
    }

    /** Whether a key was created. */
    method RegisterKey(input: KeyInput, now: Instant) returns (r: Result<bool, KeyError>)
      requires KeysSound(rows, now)
      modifies this
      ensures KeysSound(rows, now)
      ensures match Rotate(old(rows), input, now)
              case Ok(after) => rows == after && r == Ok(after != old(rows))
              case Err(e) => rows == old(rows) && r == Err(e)
    {
      var i := 0;
      while i < |rows|
        invariant i <= |rows| && forall k | 0 <= k < i :: rows[k].version != input.version
      {
        if rows[i].version == input.version {
          assert rows[i] in rows;
          if !SameKey(rows[i], input) { return Err(KEY_VERSION_TAKEN); }
          if !KeyActive(rows[i], now) { return Err(KEY_RETIRED); }
          return Ok(false);
        }
        i := i + 1;
      }
      var refusal := RotationRefusal(rows, input, now);
      if refusal.Some? { return Err(refusal.value); }
      RotationIsSound(rows, input, now);
      Activate(input, now);
      return Ok(true);
    }

    /** Retires the active key, if there is one, and creates the new one. */
    method Activate(input: KeyInput, now: Instant)
      requires KeysSound(rows, now)
      modifies this
      ensures rows == RetireKey(old(rows), now)
                      + [Key(input.version, input.algorithm, input.publicKey, input.fingerprint, now, None)]
    {
      RetireKeyIsOneUpdate(rows, now);
      LastKeyIsActive(rows, now);
      var active := ActiveKeys(rows, now);
      if active != {} {
        var k :| k in active;
        rows := rows[k := rows[k].(retiredAt := Some(now))];
      }
      rows := rows + [Key(input.version, input.algorithm, input.publicKey, input.fingerprint, now, None)];
    }
  }
}
