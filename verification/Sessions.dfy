/** Refresh-token sessions in Redis: key strings, single operations with their failures, and the scan
    that revokes everything a user holds. */
module Sessions {
  import opened Wrappers

  const SESSION_PREFIX := "session:"

  function UserPrefix(userId: string): string {
    SESSION_PREFIX + userId + ":"
  }

  function SessionKey(userId: string, sessionId: string): string {
    UserPrefix(userId) + sessionId
  }

  predicate NoColon(s: string) {
    ':' !in s
  }

  /** The SCAN pattern `session:<user>:*`. */
  predicate Matches(userId: string, key: string) {
    UserPrefix(userId) <= key
  }

  /** What follows the last colon. */
  function IdOfKey(key: string): string {
    if key == "" || key[|key| - 1] == ':' then "" else IdOfKey(key[..|key| - 1]) + [key[|key| - 1]]
  }

  lemma {:induction false} IdOfSessionKey(userId: string, sessionId: string)
    requires NoColon(sessionId)
    ensures IdOfKey(SessionKey(userId, sessionId)) == sessionId
  {
    var key := SessionKey(userId, sessionId);
    if sessionId == "" {
      assert key == UserPrefix(userId);
    } else {
      var front := sessionId[..|sessionId| - 1];
      assert key[..|key| - 1] == SessionKey(userId, front);
      assert sessionId[|sessionId| - 1] in sessionId;
      IdOfSessionKey(userId, front);
    }
  }

  function BeforeColon(s: string): string {
    if s == "" || s[0] == ':' then "" else [s[0]] + BeforeColon(s[1..])
  }

  lemma {:induction false} BeforeColonOf(a: string, b: string)
    requires NoColon(a)
    ensures BeforeColon(a + ":" + b) == a
  {
    if a == "" {
      assert a + ":" + b == ":" + b;
    } else {
      assert (a + ":" + b)[1..] == a[1..] + ":" + b;
      BeforeColonOf(a[1..], b);
    }
  }

  /** User ids hold no colon, so a user's pattern matches that user's keys and nobody else's. */
  lemma PatternIsPerUser(userId: string, owner: string, sessionId: string)
    requires NoColon(userId) && NoColon(owner)
    ensures Matches(userId, SessionKey(owner, sessionId)) <==> userId == owner
  {
    var key := SessionKey(owner, sessionId);
    var n := |SESSION_PREFIX|;
    assert key[n..] == owner + ":" + sessionId;
    BeforeColonOf(owner, sessionId);
    if Matches(userId, key) {
      var rest := key[|UserPrefix(userId)|..];
      assert key == UserPrefix(userId) + rest;
      assert key[n..] == userId + ":" + rest;
      BeforeColonOf(userId, rest);
    }
  }

  /** Distinct (user, session id) pairs have distinct keys. */
  lemma SessionKeysDiffer(userA: string, idA: string, userB: string, idB: string)
    requires NoColon(userA) && NoColon(userB) && NoColon(idA) && NoColon(idB)
    requires SessionKey(userA, idA) == SessionKey(userB, idB)
    ensures userA == userB && idA == idB
  {
    IdOfSessionKey(userA, idA);
    IdOfSessionKey(userB, idB);
    assert Matches(userA, SessionKey(userA, idA));
    PatternIsPerUser(userA, userB, idB);
  }

  /** How a Redis call ends: it works, it fails having done nothing, or it fails after taking effect. */
  datatype Fault = Works | Lost | Late

  /** The user's keys are of the form the service writes: what follows the prefix is a hash. */
  ghost predicate OwnKeysWellFormed(userId: string, keys: set<string>) {
    forall key :: key in keys && Matches(userId, key) ==> NoColon(key[|UserPrefix(userId)|..])
  }

  lemma KeyFromId(userId: string, key: string)
    requires Matches(userId, key) && NoColon(key[|UserPrefix(userId)|..])
    ensures SessionKey(userId, IdOfKey(key)) == key
  {
    var id := key[|UserPrefix(userId)|..];
    assert key == SessionKey(userId, id);
    IdOfSessionKey(userId, id);
  }

  /** The keys `revokeAllSessions` is after: the user's, except the excluded session. */
  ghost function Doomed(userId: string, keys: set<string>, excluded: Option<string>): set<string> {
    set key | key in keys && Matches(userId, key) && Some(IdOfKey(key)) != excluded
  }

  /** What SCAN guarantees while the key space is still: every matching key turns up, possibly more than
      once, and nothing else does. */
  ghost predicate ScanCovers(pages: seq<seq<string>>, userId: string, keys: set<string>) {
    && (forall p, k :: 0 <= p < |pages| && 0 <= k < |pages[p]| ==> pages[p][k] in keys && Matches(userId, pages[p][k]))
    && (forall key :: key in keys && Matches(userId, key) ==> exists p :: 0 <= p < |pages| && key in pages[p])
  }

  // ----- the operations on one session, and what any list of them can do

  datatype StoreOp =
    | Put(userId: string, hash: string, fault: Fault)
    | Take(userId: string, hash: string, fault: Fault)
    | Drop(userId: string, hash: string, fault: Fault)
  {
    function Key(): string { SessionKey(userId, hash) }
  }

  /** The keys an operation leaves, and whether it answers that it did its work. */
  function Performed(keys: set<string>, op: StoreOp): (set<string>, bool) {
    match op
    case Put(_, _, fault) => (if fault == Lost then keys else keys + {op.Key()}, fault == Works)
    case Take(_, _, fault) => (if fault == Lost then keys else keys - {op.Key()}, fault == Works && op.Key() in keys)
    case Drop(_, _, fault) => (if fault == Lost then keys else keys - {op.Key()}, fault == Works)
  }

  function After(keys: set<string>, ops: seq<StoreOp>): set<string> {
    if |ops| == 0 then keys else Performed(After(keys, ops[..|ops| - 1]), ops[|ops| - 1]).0
  }

  /** How many consumes of `key` were told they removed it. */
  function Wins(keys: set<string>, ops: seq<StoreOp>, key: string): nat {
    if |ops| == 0 then 0
    else
      var front, op := ops[..|ops| - 1], ops[|ops| - 1];
      Wins(keys, front, key) + if op.Take? && op.Key() == key && Performed(After(keys, front), op).1 then 1 else 0
  }

  predicate NeverRecorded(ops: seq<StoreOp>, key: string) {
    forall k :: 0 <= k < |ops| ==> !(ops[k].Put? && ops[k].Key() == key)
  }

  /** Between two recordings of a session at most one consume of it wins, however the calls interleave and
      fail, and none when the session was not there. */
  lemma {:induction false} OneWinPerRecording(keys: set<string>, ops: seq<StoreOp>, key: string)
    requires NeverRecorded(ops, key)
    ensures Wins(keys, ops, key) + (if key in After(keys, ops) then 1 else 0) <= if key in keys then 1 else 0
  {
    if |ops| > 0 {
      var front := ops[..|ops| - 1];
      forall k | 0 <= k < |front| ensures !(front[k].Put? && front[k].Key() == key) {
        assert front[k] == ops[k];
      }
      OneWinPerRecording(keys, front, key);
    }
  }

  /** A session once recorded is there for the first consume of it to win, whatever happens to the sessions of
      other users and other tokens in between. */
  lemma {:induction false} RecordedIsThere(keys: set<string>, userId: string, hash: string, ops: seq<StoreOp>)
    requires NoColon(userId) && NoColon(hash)
    requires forall k :: 0 <= k < |ops| ==>
               NoColon(ops[k].userId) && NoColon(ops[k].hash) && (ops[k].userId != userId || ops[k].hash != hash)
    ensures var recorded := Performed(keys, Put(userId, hash, Works)).0;
            Performed(After(recorded, ops), Take(userId, hash, Works)).1
  {
    if |ops| > 0 {
      var front, op := ops[..|ops| - 1], ops[|ops| - 1];
      RecordedIsThere(keys, userId, hash, front);
      if op.Key() == SessionKey(userId, hash) { SessionKeysDiffer(op.userId, op.hash, userId, hash); }
    }
  }

  class SessionStore {
    var keys: set<string>
    var blacklist: set<string>

    /** recordSession: best effort, never an error for the caller. */
    method RecordSession(userId: string, hash: string, fault: Fault) returns (recorded: bool)
      modifies this`keys
      ensures (keys, recorded) == Performed(old(keys), Put(userId, hash, fault))
    {
      if fault != Lost {
        keys := keys + {SessionKey(userId, hash)};
      }
      recorded := fault == Works;
    }

    /** consumeSession: GETDEL, so only a call that itself removed the key may go on. */
    method ConsumeSession(userId: string, hash: string, fault: Fault) returns (consumed: bool)
      modifies this`keys
      ensures (keys, consumed) == Performed(old(keys), Take(userId, hash, fault))
    {
      var raw := SessionKey(userId, hash) in keys;
      if fault != Lost {
        keys := keys - {SessionKey(userId, hash)};
      }
      consumed := fault == Works && raw;
    }

    /** deleteSession and revokeSession. */
    method DeleteSession(userId: string, hash: string, fault: Fault)
      modifies this`keys
      ensures keys == Performed(old(keys), Drop(userId, hash, fault)).0
    {
      if fault != Lost {
        keys := keys - {SessionKey(userId, hash)};
      }
    }

    /** The refresh handler, run by itself, for a token whose signature verifies: `minted` is the hash of the new
        token. The old session goes even when the refresh then fails. */
    method Refresh(userId: string, hash: string, minted: string, active: bool, consume: Fault, check: Fault, blacklisting: Fault, record: Fault)
      returns (answered: bool)
      requires NoColon(userId) && NoColon(hash) && NoColon(minted) && minted != hash
      modifies this
      ensures answered <==> consume == Works && SessionKey(userId, hash) in old(keys) && check == Works && hash !in old(blacklist) && active
      ensures consume != Lost ==> SessionKey(userId, hash) !in keys
      ensures forall key :: key != SessionKey(userId, hash) && key != SessionKey(userId, minted) ==> (key in keys <==> key in old(keys))
      ensures answered && record != Lost ==> SessionKey(userId, minted) in keys
      ensures !answered ==> keys <= old(keys) && blacklist == old(blacklist)
      ensures answered ==> blacklist == if blacklisting == Lost then old(blacklist) else old(blacklist) + {hash}
    {
      if SessionKey(userId, minted) == SessionKey(userId, hash) { SessionKeysDiffer(userId, minted, userId, hash); }
      var consumed := ConsumeSession(userId, hash, consume);
      if !consumed { return false; }
      if check != Works || hash in blacklist { return false; }
      if !active { return false; }
      if blacklisting != Lost {
        blacklist := blacklist + {hash};
      }
      var recorded := RecordSession(userId, minted, record);
      answered := true;
    }

    /** The logout handler: neither step waits for the other to work. */
    method Logout(userId: string, hash: string, blacklisting: Fault, delete: Fault)
      modifies this
      ensures blacklisting != Lost ==> hash in blacklist
      ensures delete != Lost ==> SessionKey(userId, hash) !in keys
      ensures keys <= old(keys) <= keys + {SessionKey(userId, hash)}
      ensures old(blacklist) <= blacklist <= old(blacklist) + {hash}
    {
      if blacklisting != Lost {
        blacklist := blacklist + {hash};
      }
      DeleteSession(userId, hash, delete);
    }

    /** listSessions: the cursor loop collects every page, then each key becomes a session id. */
    method ListSessions(userId: string, pages: seq<seq<string>>, fault: Fault) returns (ids: seq<string>)
      ensures fault != Works ==> ids == []
      ensures fault == Works ==>
                forall id :: id in ids <==> exists p, k :: 0 <= p < |pages| && 0 <= k < |pages[p]| && id == IdOfKey(pages[p][k])
    {
      ids := [];
      if fault != Works {
        return;
      }
      var found: seq<string> := [];
      for p := 0 to |pages|
        invariant forall key :: key in found <==> exists q :: 0 <= q < p && key in pages[q]
      {
        found := found + pages[p];
      }
      for k := 0 to |found|
        invariant |ids| == k
        invariant forall j :: 0 <= j < k ==> ids[j] == IdOfKey(found[j])
      {
        ids := ids + [IdOfKey(found[k])];
      }
      forall p, k | 0 <= p < |pages| && 0 <= k < |pages[p]|
        ensures IdOfKey(pages[p][k]) in ids
      {
        assert pages[p][k] in found;
        var j :| 0 <= j < |found| && found[j] == pages[p][k];
        assert ids[j] == IdOfKey(pages[p][k]);
      }
      forall id | id in ids
        ensures exists p, k :: 0 <= p < |pages| && 0 <= k < |pages[p]| && id == IdOfKey(pages[p][k])
      {
        var j :| 0 <= j < |ids| && ids[j] == id;
        assert found[j] in found;
        var p :| 0 <= p < |pages| && found[j] in pages[p];
        var k :| 0 <= k < |pages[p]| && pages[p][k] == found[j];
      }
    }

    /** revokeAllSessions: exactly the user's sessions other than the excluded one go, except those whose
        deletion was lost; nobody else's key is touched, however often SCAN repeats a key. A failed scan
        revokes nothing. */
    method RevokeAllSessions(userId: string, excluded: Option<string>, pages: seq<seq<string>>, scan: Fault, lost: set<string>)
      requires OwnKeysWellFormed(userId, keys)
      requires ScanCovers(pages, userId, keys)
      modifies this`keys
      ensures keys == if scan == Works then old(keys) - (Doomed(userId, old(keys), excluded) - lost) else old(keys)
      ensures scan == Works && excluded == None && lost == {} ==> forall key :: key in keys ==> !Matches(userId, key)
    {
      var ids := ListSessions(userId, pages, scan);
      ghost var before := keys;
      if scan == Works {
        TargetsAreDoomed(userId, before, pages, ids, excluded, lost);
      }
      for k := 0 to |ids|
        invariant keys == before - Targets(userId, ids[..k], excluded, lost)
      {
        assert ids[..k + 1][..k] == ids[..k];
        if Some(ids[k]) != excluded {
          DeleteSession(userId, ids[k], if SessionKey(userId, ids[k]) in lost then Lost else Works);
        }
      }
      assert ids[..|ids|] == ids;
    }

    /** The keys deleted for a list of ids. */
    ghost function Targets(userId: string, ids: seq<string>, excluded: Option<string>, lost: set<string>): set<string> {
      if |ids| == 0 then {}
      else
        var key := SessionKey(userId, ids[|ids| - 1]);
        Targets(userId, ids[..|ids| - 1], excluded, lost) + if Some(ids[|ids| - 1]) != excluded && key !in lost then {key} else {}
    }

    lemma {:induction false} TargetsAre(userId: string, ids: seq<string>, excluded: Option<string>, lost: set<string>, key: string)
      ensures key in Targets(userId, ids, excluded, lost) <==>
                key !in lost && exists j :: 0 <= j < |ids| && Some(ids[j]) != excluded && key == SessionKey(userId, ids[j])
    {
      if |ids| > 0 {
        TargetsAre(userId, ids[..|ids| - 1], excluded, lost, key);
      }
    }

    lemma TargetsAreDoomed(userId: string, keys: set<string>, pages: seq<seq<string>>, ids: seq<string>, excluded: Option<string>, lost: set<string>)
      requires OwnKeysWellFormed(userId, keys)
      requires ScanCovers(pages, userId, keys)
      requires forall id :: id in ids <==> exists p, k :: 0 <= p < |pages| && 0 <= k < |pages[p]| && id == IdOfKey(pages[p][k])
      ensures Targets(userId, ids, excluded, lost) == Doomed(userId, keys, excluded) - lost
    {
      ListedKeys(userId, keys, pages, ids);
      forall key
        ensures key in Targets(userId, ids, excluded, lost) <==> key in Doomed(userId, keys, excluded) - lost
      {
        TargetsAre(userId, ids, excluded, lost, key);
        if key in Doomed(userId, keys, excluded) - lost {
          KeyFromId(userId, key);
          var j :| 0 <= j < |ids| && ids[j] == IdOfKey(key);
        }
      }
    }

    /** The ids listed are those of the user's keys, and each leads back to its key. */
    lemma ListedKeys(userId: string, keys: set<string>, pages: seq<seq<string>>, ids: seq<string>)
      requires OwnKeysWellFormed(userId, keys)
      requires ScanCovers(pages, userId, keys)
      requires forall id :: id in ids <==> exists p, k :: 0 <= p < |pages| && 0 <= k < |pages[p]| && id == IdOfKey(pages[p][k])
      ensures forall key :: key in keys && Matches(userId, key) ==> IdOfKey(key) in ids
      ensures forall id :: id in ids ==>
                var key := SessionKey(userId, id); key in keys && Matches(userId, key) && IdOfKey(key) == id
    {
      forall key | key in keys && Matches(userId, key) ensures IdOfKey(key) in ids {
        var p :| 0 <= p < |pages| && key in pages[p];
        var k :| 0 <= k < |pages[p]| && pages[p][k] == key;
      }
      forall id | id in ids
        ensures var key := SessionKey(userId, id); key in keys && Matches(userId, key) && IdOfKey(key) == id
      {
        var p, k :| 0 <= p < |pages| && 0 <= k < |pages[p]| && id == IdOfKey(pages[p][k]);
        KeyFromId(userId, pages[p][k]);
      }
    }
  }
}
