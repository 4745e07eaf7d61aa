/**
 * The credential cache of the Lambda runtime emulator's core package: a table
 * from an opaque token to a credential record, and a two-state service gate
 * (UNBLOCKED / BLOCKED) that holds readers back while the credentials are
 * being rotated.
 *
 * The locks are abstracted away. The service mutex, which BlockService leaves
 * held until UnblockService releases it, is kept as the ghost field
 * `gateHeld`; the content mutex, which only makes each call atomic, is not
 * modelled, since in a sequential model every call is atomic. The wall clock
 * becomes the parameter `now`, in nanoseconds (the unit of a Go duration).
 */
module Core {

  /** One minute in nanoseconds, the unit of a Go `time.Duration`. */
  const Minute: int := 60 * 1_000_000_000

  /** How long after it is written a credential record expires. */
  const CredentialsLifetime: int := 16 * Minute

  /** A credential record; `expiration` is an absolute time in nanoseconds. */
  datatype Credentials = Credentials(awsKey: string, awsSecret: string, awsSession: string, expiration: int)

  /** The state of the service gate. A fresh service is Unblocked. */
  datatype ServiceState = Unblocked | Blocked

  /** The errors the service returns. */
  datatype Error =
    | CredentialsNotFound           // no record is stored for the token asked for
    | CredentialsCount(count: nat)  // a rotation found `count` records, not exactly one

  datatype Result<T> = Ok(value: T) | Err(error: Error)

  /** The result of an operation that returns only an error or nothing. */
  datatype Outcome = Pass | Fail(error: Error)

  /** The credential table, keyed by token. */
  type Table = map<string, Credentials>

  /** The record written for the given fields at time `now`. */
  function NewCredentials(awsKey: string, awsSecret: string, awsSession: string, now: int): (c: Credentials)
    ensures c.awsKey == awsKey && c.awsSecret == awsSecret && c.awsSession == awsSession
    ensures c.expiration - now == CredentialsLifetime
    ensures now < c.expiration
  {
    Credentials(awsKey, awsSecret, awsSession, now + CredentialsLifetime)
  }

  /** The table after `c` is stored under `token`, replacing any earlier record. */
  function Stored(table: Table, token: string, c: Credentials): (t: Table)
    ensures t.Keys == table.Keys + {token}
    ensures t[token] == c
    ensures forall other :: other in table && other != token ==> t[other] == table[other]
    ensures |table| <= |t| <= |table| + 1
  {
    table[token := c]
  }

  /** Looking a token up: its record, or CredentialsNotFound. */
  function Lookup(table: Table, token: string): (r: Result<Credentials>)
    ensures r.Ok? <==> token in table
    ensures r.Ok? ==> r.value == table[token]
    ensures r.Err? ==> r.error == CredentialsNotFound
  {
    if token in table then Ok(table[token]) else Err(CredentialsNotFound)
  }

  /**
   * A rotation: when the table holds exactly one token, that token's record is
   * replaced by `c`; otherwise the table is left alone and the error carries
   * the number of tokens found.
   */
  function Rotated(table: Table, c: Credentials): (r: Result<Table>)
    ensures r.Err? <==> |table| != 1
    ensures r.Err? ==> r.error == CredentialsCount(|table|)
    ensures r.Ok? ==> r.value.Keys == table.Keys && |r.value| == 1
    ensures r.Ok? ==> forall token :: token in r.value ==> r.value[token] == c
  {
    if |table| != 1 then Err(CredentialsCount(|table|))
    else Ok(map token | token in table :: c)
  }

  /** A table with a single entry has the key found in it as its only key. */
  lemma SoleKey(table: Table, token: string)
    requires |table| == 1 && token in table
    ensures table.Keys == {token}
  {
    assert |table.Keys - {token}| == 0;
  }

  /** On a one-token table, a rotation is a store under that token. */
  lemma RotatedIsStoredUnderSoleKey(table: Table, token: string, c: Credentials)
    requires |table| == 1 && token in table
    ensures Rotated(table, c) == Ok(Stored(table, token, c))
  {
    SoleKey(table, token);
    var rotated, stored := Rotated(table, c).value, Stored(table, token, c);
    assert rotated.Keys == stored.Keys;
    assert forall k :: k in rotated ==> rotated[k] == stored[k];
    assert rotated == stored;
  }

  /** Storing twice under one token leaves one entry, holding the second record. */
  lemma StoredTwice(table: Table, token: string, c1: Credentials, c2: Credentials)
    ensures Stored(Stored(table, token, c1), token, c2) == Stored(table, token, c2)
  {
  }

  /** A successful rotation leaves a table that can be rotated again, to the same effect as rotating the original. */
  lemma RotatedTwice(table: Table, c1: Credentials, c2: Credentials)
    requires Rotated(table, c1).Ok?
    ensures Rotated(Rotated(table, c1).value, c2) == Rotated(table, c2)
  {
  }

  /**
   * The token a `for key := range table` loop leaves in its variable: the last
   * key visited, in an order the model leaves open, or the empty string when
   * the table is empty.
   */
  method LastRangeKey(table: Table) returns (token: string)
    ensures table == map[] ==> token == ""
    ensures table != map[] ==> token in table
  {
    token := "";
    var unvisited := table.Keys;
    while unvisited != {}
      invariant unvisited <= table.Keys
      invariant unvisited == table.Keys ==> token == ""
      invariant unvisited != table.Keys ==> token in table
      decreases unvisited
    {
      var key :| key in unvisited;
      token := key;
      unvisited := unvisited - {key};
    }
  }

  class CredentialsService {
    var credentials: Table
    var currentState: ServiceState
    /** Whether the service mutex is held between calls (by BlockService). */
    ghost var gateHeld: bool

    /** The gate is held across calls exactly while the service is blocked. */
    ghost predicate Valid()
      reads this
    {
      gateHeld <==> currentState == Blocked
    }

    /** A new service: an empty table, Unblocked, gate free. */
    constructor ()
      ensures Valid()
      ensures credentials == map[] && currentState == Unblocked && !gateHeld
    {
      credentials := map[];
      currentState := Unblocked;
      gateHeld := false;
    }

    /** Stores a record for `token` that expires 16 minutes after `now`. Never blocks on the gate. */
    method SetCredentials(token: string, awsKey: string, awsSecret: string, awsSession: string, now: int)
      requires Valid()
      modifies this`credentials
      ensures Valid()
      ensures credentials == Stored(old(credentials), token, NewCredentials(awsKey, awsSecret, awsSession, now))
      ensures currentState == old(currentState) && gateHeld == old(gateHeld)
    {
      credentials := credentials[token := NewCredentials(awsKey, awsSecret, awsSession, now)];
    }

    /**
     * Returns the record stored for `token`, or CredentialsNotFound. The call
     * first takes the gate and gives it back on return; in a sequential model
     * it can proceed only when the gate is not held, that is, when the service
     * is Unblocked.
     */
    method GetCredentials(token: string) returns (r: Result<Credentials>)
      requires Valid() && !gateHeld
      ensures r == Lookup(credentials, token)
      ensures currentState == Unblocked
    {
      if token in credentials {
        r := Ok(credentials[token]);
      } else {
        r := Err(CredentialsNotFound);
      }
    }

    /** Blocks readers: takes the gate and keeps it. A no-op when already Blocked. */
    method BlockService()
      requires Valid()
      modifies this`currentState, this`gateHeld
      ensures Valid()
      ensures currentState == Blocked && gateHeld
      ensures credentials == old(credentials)
      ensures old(currentState) == Blocked ==> unchanged(this)
    {
      if currentState == Blocked {
        return;
      }
      // Taking the gate: it is free, so a single thread does not wait here.
      assert !gateHeld;
      gateHeld := true;
      currentState := Blocked;
    }

    /** Lets readers through again: releases the gate. A no-op when already Unblocked. */
    method UnblockService()
      requires Valid()
      modifies this`currentState, this`gateHeld
      ensures Valid()
      ensures currentState == Unblocked && !gateHeld
      ensures credentials == old(credentials)
      ensures old(currentState) == Unblocked ==> unchanged(this)
    {
      if currentState == Unblocked {
        return;
      }
      currentState := Unblocked;
      // Releasing the gate: it is held, so this is never a double release.
      assert gateHeld;
      gateHeld := false;
    }

    /**
     * Rotates the credentials of the one token in the table. Fails with the
     * number of tokens, changing nothing, when there is not exactly one.
     */
    method UpdateCredentials(awsKey: string, awsSecret: string, awsSession: string, now: int) returns (outcome: Outcome)
      requires Valid()
      modifies this`credentials
      ensures Valid()
      ensures var r := Rotated(old(credentials), NewCredentials(awsKey, awsSecret, awsSession, now));
        && (r.Ok? ==> outcome == Pass && credentials == r.value)
        && (r.Err? ==> outcome == Fail(r.error) && credentials == old(credentials))
      ensures currentState == old(currentState) && gateHeld == old(gateHeld)
    {
      var mapSize := |credentials|;
      if mapSize != 1 {
        return Fail(CredentialsCount(mapSize));
      }
      var token := LastRangeKey(credentials);
      RotatedIsStoredUnderSoleKey(credentials, token, NewCredentials(awsKey, awsSecret, awsSession, now));
      SetCredentials(token, awsKey, awsSecret, awsSession, now);
      return Pass;
    }
  }

  /**
   * A rotation as a caller runs it: store, read, block, update, unblock, read.
   * The second read sees the rotated record.
   */
  method RotationScenario(now: int, later: int) returns (before: Result<Credentials>, after: Result<Credentials>)
    ensures before == Ok(Credentials("AK", "SK", "ST", now + CredentialsLifetime))
    ensures after == Ok(Credentials("AK2", "SK2", "ST2", later + CredentialsLifetime))
  {
    var service := new CredentialsService();
    service.SetCredentials("tok1", "AK", "SK", "ST", now);
    before := service.GetCredentials("tok1");
    service.BlockService();
    var outcome := service.UpdateCredentials("AK2", "SK2", "ST2", later);
    assert outcome == Pass;
    service.UnblockService();
    after := service.GetCredentials("tok1");
  }
}
