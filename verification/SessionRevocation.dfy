/** revokeAllSessions as a process beside everybody else's calls: a cursor loop of SCAN pages, then one DEL per
    session found. Password change ends with it. */
module SessionRevocation {
  import opened Wrappers
  import opened Sessions
  import opened SessionProtocol
  import opened SessionRetirement

  /** `steady` is what SCAN promises to return: the keys that matched all the while since the scan began. */
  datatype Revocation =
    | Scanning(user: string, spared: Option<string>, steady: set<string>, found: seq<string>)
    | Deleting(user: string, spared: Option<string>, ids: seq<string>, next: nat)

  datatype Watched = Watched(s: State, revocations: map<CallId, Revocation>)

  const WATCHED_START := Watched(START, map[])

  datatype WatchedAction =
    | Other(action: Action)
    | BeginRevoke(r: CallId, user: string, spared: Option<string>)
    | ScanPage(r: CallId, page: seq<string>)
    | EndScan(r: CallId, ids: seq<string>)              // the ids in whatever order they are sorted
    | FailScan(r: CallId)                               // any failure while listing leaves an empty list
    | DeleteNext(r: CallId, fault: Fault)

  /** The keys in Redis that match a user's pattern. */
  function PatternKeys(s: State, user: string): set<string> {
    set t | t in s.live && t < |s.issued| && Matches(user, KeyOf(s.issued, t)) :: KeyOf(s.issued, t)
  }

  /** What a DEL of `key` leaves. */
  function Without(s: State, key: string): set<TokenId> {
    set t | t in s.live && !(t < |s.issued| && KeyOf(s.issued, t) == key)
  }

  function DoBeginRevoke(w: Watched, r: CallId, user: string, spared: Option<string>): Watched {
    if r in w.revocations then w
    else w.(revocations := w.revocations[r := Scanning(user, spared, PatternKeys(w.s, user), [])])
  }

  function DoScanPage(w: Watched, r: CallId, page: seq<string>): Watched {
    if r !in w.revocations || !w.revocations[r].Scanning? then w
    else
      var v := w.revocations[r];
      if exists k :: 0 <= k < |page| && page[k] !in PatternKeys(w.s, v.user) then w
      else w.(revocations := w.revocations[r := v.(found := v.found + page)])
  }

  /** The ids are those of the keys found. */
  predicate IdsOf(ids: seq<string>, found: seq<string>) {
    && (forall k :: 0 <= k < |found| ==> IdOfKey(found[k]) in ids)
    && (forall j :: 0 <= j < |ids| ==> exists k :: 0 <= k < |found| && IdOfKey(found[k]) == ids[j])
  }

  /** The cursor comes back to 0, which it does not before every steady key has been returned. */
  function DoEndScan(w: Watched, r: CallId, ids: seq<string>): Watched {
    if r !in w.revocations || !w.revocations[r].Scanning? then w
    else
      var v := w.revocations[r];
      if (exists key :: key in v.steady && key !in v.found) || !IdsOf(ids, v.found) then w
      else w.(revocations := w.revocations[r := Deleting(v.user, v.spared, ids, 0)])
  }

  function DoFailScan(w: Watched, r: CallId): Watched {
    if r !in w.revocations || !w.revocations[r].Scanning? then w
    else w.(revocations := w.revocations[r := Deleting(w.revocations[r].user, w.revocations[r].spared, [], 0)])
  }

  function DoDeleteNext(w: Watched, r: CallId, fault: Fault): Watched {
    if r !in w.revocations || !w.revocations[r].Deleting? || w.revocations[r].next >= |w.revocations[r].ids| then w
    else
      var v := w.revocations[r];
      var id := v.ids[v.next];
      Watched(if Some(id) == v.spared || fault == Lost then w.s else w.s.(live := Without(w.s, SessionKey(v.user, id))),
              w.revocations[r := v.(next := v.next + 1)])
  }

  /** A scan keeps promising only the keys that still match. */
  function Observe(v: Revocation, s: State): Revocation {
    if v.Scanning? then v.(steady := v.steady * PatternKeys(s, v.user)) else v
  }

  function Step(w: Watched, a: WatchedAction): Watched {
    match a
    case Other(action) => w.(s := Apply(w.s, action))
    case BeginRevoke(r, user, spared) => DoBeginRevoke(w, r, user, spared)
    case ScanPage(r, page) => DoScanPage(w, r, page)
    case EndScan(r, ids) => DoEndScan(w, r, ids)
    case FailScan(r) => DoFailScan(w, r)
    case DeleteNext(r, fault) => DoDeleteNext(w, r, fault)
  }

  function WatchedApply(w: Watched, a: WatchedAction): Watched {
    var n := Step(w, a);
    n.(revocations := map r | r in n.revocations :: Observe(n.revocations[r], n.s))
  }

  function WatchedRun(w: Watched, actions: seq<WatchedAction>): Watched {
    if |actions| == 0 then w else WatchedApply(WatchedRun(w, actions[..|actions| - 1]), actions[|actions| - 1])
  }

  /** The revocation has deleted all it found. */
  predicate Done(w: Watched, r: CallId) {
    r in w.revocations && w.revocations[r].Deleting? && w.revocations[r].next == |w.revocations[r].ids|
  }

  // ----- the protocol's invariant survives revocations

  lemma StepIs(w: Watched, a: WatchedAction)
    ensures var s' := WatchedApply(w, a).s;
            if a.Other? then s' == Apply(w.s, a.action) else s' == w.s.(live := s'.live) && s'.live <= w.s.live
  {
  }

  lemma WatchedStepKeepsInv(w: Watched, a: WatchedAction)
    requires Inv(w.s)
    ensures Inv(WatchedApply(w, a).s)
  {
    StepIs(w, a);
    if a.Other? { StepKeepsInv(w.s, a.action); } else { ShrinkingLiveKeepsInv(w.s, WatchedApply(w, a).s.live); }
  }

  lemma {:induction false} WatchedRunKeepsInv(w: Watched, actions: seq<WatchedAction>)
    requires Inv(w.s)
    ensures Inv(WatchedRun(w, actions).s)
  {
    if |actions| > 0 {
      WatchedRunKeepsInv(w, actions[..|actions| - 1]);
      WatchedStepKeepsInv(WatchedRun(w, actions[..|actions| - 1]), actions[|actions| - 1]);
    }
  }

  lemma WatchedStepStaysUnredeemable(w: Watched, a: WatchedAction, t: TokenId)
    requires Inv(w.s) && t < |w.s.issued| && !Redeemable(w.s, t)
    ensures var s' := WatchedApply(w, a).s;
            Extends(w.s.issued, s'.issued) && !Redeemable(s', t) && Times(s'.redeemed, t) == Times(w.s.redeemed, t)
  {
    StepIs(w, a);
    if a.Other? {
      StepStaysUnredeemable(w.s, a.action, t);
      RedemptionStep(w.s, a.action, t);
      StepKeepsIssued(w.s, a.action);
    } else {
      StaysUnredeemable(w.s, WatchedApply(w, a).s, 0, t);
    }
  }

  lemma {:induction false} WatchedUnredeemable(w: Watched, after: seq<WatchedAction>, t: TokenId)
    requires Inv(w.s) && t < |w.s.issued| && !Redeemable(w.s, t)
    ensures var s' := WatchedRun(w, after).s;
            t < |s'.issued| && !Redeemable(s', t) && Times(s'.redeemed, t) == Times(w.s.redeemed, t)
  {
    if |after| > 0 {
      var front := after[..|after| - 1];
      WatchedUnredeemable(w, front, t);
      WatchedRunKeepsInv(w, front);
      WatchedStepStaysUnredeemable(WatchedRun(w, front), after[|after| - 1], t);
    }
  }

  // ----- while the user signs in and refreshes nothing

  predicate Owns(issued: seq<Issue>, t: TokenId, user: string) {
    t < |issued| && issued[t].user == user
  }

  predicate Concerns(issued: seq<Issue>, c: Call, user: string) {
    if c.SigningIn? then Owns(issued, c.minted, user) else Owns(issued, c.token, user)
  }

  /** No sign-in and no refresh of the user is under way. */
  ghost predicate Quiet(s: State, user: string) {
    forall c :: c in s.calls ==> !Concerns(s.issued, s.calls[c], user)
  }

  /** The action starts no sign-in and no refresh of the user. */
  predicate LeavesAlone(s: State, a: Action, user: string) {
    && !(a.SignIn? && a.user == user)
    && !(a.BeginRefresh? && Owns(s.issued, a.token, user))
  }

  lemma FreshHasOwner(s: State, c: Call, user: string)
    requires IssuedWell(s.issued, s.signIns) && CallWell(s.issued, c) && FreshOf(c).Some?
    ensures Owns(s.issued, c.minted, user) <==> Owns(s.issued, c.token, user)
  {
  }

  /** A step concerns one call. */
  lemma QuietIf(s: State, s': State, call: CallId, user: string)
    requires CallsWell(s.issued, s.calls) && Quiet(s, user) && Extends(s.issued, s'.issued)
    requires forall c :: c in s'.calls && c != call ==> c in s.calls && s'.calls[c] == s.calls[c]
    requires call in s'.calls ==> !Concerns(s'.issued, s'.calls[call], user)
    ensures Quiet(s', user)
  {
    forall c | c in s'.calls ensures !Concerns(s'.issued, s'.calls[c], user) {
      if c != call { assert CallWell(s.issued, s.calls[c]) && !Concerns(s.issued, s.calls[c], user); }
    }
  }

  lemma QuietConsume(s: State, call: CallId, fault: Fault, user: string)
    requires Inv(s) && Quiet(s, user)
    ensures Quiet(DoConsume(s, call, fault), user)
  {
    if call in s.calls { assert !Concerns(s.issued, s.calls[call], user); }
    QuietIf(s, DoConsume(s, call, fault), call, user);
  }

  lemma QuietCheck(s: State, call: CallId, fault: Fault, user: string)
    requires Inv(s) && Quiet(s, user)
    ensures Quiet(DoCheckBlacklist(s, call, fault), user)
  {
    if call in s.calls { assert !Concerns(s.issued, s.calls[call], user); }
    QuietIf(s, DoCheckBlacklist(s, call, fault), call, user);
  }

  lemma QuietBlacklistOld(s: State, call: CallId, fault: Fault, user: string)
    requires Inv(s) && Quiet(s, user)
    ensures Quiet(DoBlacklistOld(s, call, fault), user)
  {
    if call in s.calls { assert !Concerns(s.issued, s.calls[call], user); }
    QuietIf(s, DoBlacklistOld(s, call, fault), call, user);
  }

  lemma QuietReissue(s: State, call: CallId, hash: string, active: bool, user: string)
    requires Inv(s) && Quiet(s, user)
    ensures Quiet(DoReissue(s, call, hash, active), user)
  {
    if call in s.calls { assert CallWell(s.issued, s.calls[call]) && !Concerns(s.issued, s.calls[call], user); }
    QuietIf(s, DoReissue(s, call, hash, active), call, user);
  }

  lemma QuietCalls(s: State, a: Action, user: string)
    requires Inv(s) && Quiet(s, user) && LeavesAlone(s, a, user)
    ensures Quiet(Apply(s, a), user)
  {
    match a
    case SignIn(call, _, _) => QuietIf(s, Apply(s, a), call, user);
    case BeginRefresh(call, _) => QuietIf(s, Apply(s, a), call, user);
    case RecordSignIn(call, _) => QuietIf(s, Apply(s, a), call, user);
    case RecordRefresh(call, _) => QuietIf(s, Apply(s, a), call, user);
    case ForgetSession(_) =>
    case BlacklistAdd(_) =>
    case Expire(_) =>
    case BlacklistDrop(_) =>
    case Reissue(call, hash, active) => QuietReissue(s, call, hash, active, user);
    case Consume(call, fault) => QuietConsume(s, call, fault, user);
    case CheckBlacklist(call, fault) => QuietCheck(s, call, fault, user);
    case BlacklistOld(call, fault) => QuietBlacklistOld(s, call, fault, user);
  }

  /** Nothing of a quiet user's is recorded. */
  lemma QuietSessions(s: State, a: Action, user: string)
    requires Inv(s) && Quiet(s, user) && LeavesAlone(s, a, user)
    ensures SessionsOf(Apply(s, a), user) <= SessionsOf(s, user)
  {
    var s' := Apply(s, a);
    StepKeepsIssued(s, a);
    forall t | t in SessionsOf(s', user) ensures t in SessionsOf(s, user) {
      if a.RecordSignIn? || a.RecordRefresh? {
        RecordedIsForeign(s, a, user, t);
      } else {
        OnlyRecordsAdd(s, a);
      }
    }
  }

  lemma OnlyRecordsAdd(s: State, a: Action)
    requires LiveWell(s.issued, s.live) && !a.RecordSignIn? && !a.RecordRefresh?
    ensures Apply(s, a).live <= s.live
  {
  }

  lemma RecordedIsForeign(s: State, a: Action, user: string, t: TokenId)
    requires Inv(s) && Quiet(s, user) && (a.RecordSignIn? || a.RecordRefresh?)
    ensures t in Apply(s, a).live && t !in s.live ==> !Owns(s.issued, t, user)
  {
    if a.call in s.calls {
      var c := s.calls[a.call];
      assert CallWell(s.issued, c) && !Concerns(s.issued, c, user);
      if FreshOf(c).Some? { FreshHasOwner(s, c, user); }
    }
  }

  lemma QuietHoldsNothing(s: State, user: string, t: TokenId)
    requires Inv(s) && Quiet(s, user) && Owns(s.issued, t, user)
    ensures !SomeHolds(s, t) && !SomePastCheck(s, t)
  {
    forall c | c in s.calls ensures !Holds(s.calls[c], t) && !PastCheck(s, s.calls[c], t) {
      assert CallWell(s.issued, s.calls[c]) && !Concerns(s.issued, s.calls[c], user);
      if FreshOf(s.calls[c]).Some? { FreshHasOwner(s, s.calls[c], user); }
    }
  }

  lemma PatternKeysAre(s: State, user: string, key: string)
    requires Inv(s) && NoColon(user)
    ensures key in PatternKeys(s, user) <==> exists t :: t in SessionsOf(s, user) && KeyOf(s.issued, t) == key
  {
    forall t | t in s.live && t < |s.issued| ensures Matches(user, KeyOf(s.issued, t)) <==> s.issued[t].user == user {
      PatternIsPerUser(user, s.issued[t].user, s.issued[t].hash);
    }
    if key in PatternKeys(s, user) {
      var t :| t in s.live && t < |s.issued| && Matches(user, KeyOf(s.issued, t)) && KeyOf(s.issued, t) == key;
      assert t in SessionsOf(s, user);
    }
  }

  /** What is left of a user's sessions matches fewer keys. */
  lemma FewerKeys(s: State, s': State, user: string)
    requires Inv(s) && Inv(s') && NoColon(user)
    requires Extends(s.issued, s'.issued) && SessionsOf(s', user) <= SessionsOf(s, user)
    ensures PatternKeys(s', user) <= PatternKeys(s, user)
  {
    forall key | key in PatternKeys(s', user) ensures key in PatternKeys(s, user) {
      PatternKeysAre(s', user, key);
      PatternKeysAre(s, user, key);
      var t :| t in SessionsOf(s', user) && KeyOf(s'.issued, t) == key;
      assert t in SessionsOf(s, user) && KeyOf(s.issued, t) == key;
    }
  }

  // ----- one revocation

  /** Every key of the user left is spared or still to be deleted. */
  ghost predicate Pending(keys: set<string>, v: Revocation, user: string, spared: Option<string>) {
    && v.user == user && v.spared == spared
    && match v
       case Scanning(_, _, steady, _) => keys <= steady
       case Deleting(_, _, ids, next) =>
         next <= |ids| && forall key :: key in keys ==> Some(IdOfKey(key)) == spared || IdOfKey(key) in ids[next..]
  }

  ghost predicate UnderWay(w: Watched, r: CallId, user: string, spared: Option<string>) {
    Quiet(w.s, user) && r in w.revocations && Pending(PatternKeys(w.s, user), w.revocations[r], user, spared)
  }

  /** The step disturbs neither the user's revocation nor lets the user in again. */
  predicate Calm(w: Watched, a: WatchedAction, r: CallId, user: string) {
    && (a.Other? ==> LeavesAlone(w.s, a.action, user))
    && a != FailScan(r)
    && !(a.DeleteNext? && a.r == r && a.fault == Lost)
  }

  lemma OtherKeepsUnderWay(w: Watched, a: WatchedAction, r: CallId, user: string, spared: Option<string>)
    requires Inv(w.s) && NoColon(user) && UnderWay(w, r, user, spared) && Calm(w, a, r, user)
    requires a.Other? || a.r != r
    ensures UnderWay(WatchedApply(w, a), r, user, spared)
  {
    var n := WatchedApply(w, a);
    StepIs(w, a);
    WatchedStepKeepsInv(w, a);
    if a.Other? {
      QuietCalls(w.s, a.action, user);
      QuietSessions(w.s, a.action, user);
      StepKeepsIssued(w.s, a.action);
    }
    FewerKeys(w.s, n.s, user);
    assert n.revocations[r] == Observe(w.revocations[r], n.s);
  }

  lemma ScanKeepsUnderWay(w: Watched, a: WatchedAction, r: CallId, user: string, spared: Option<string>)
    requires Inv(w.s) && UnderWay(w, r, user, spared)
    requires (a.BeginRevoke? || a.ScanPage? || a.EndScan?) && a.r == r
    ensures UnderWay(WatchedApply(w, a), r, user, spared)
  {
    var n := WatchedApply(w, a);
    assert n.s == w.s;
    var v, v' := w.revocations[r], Step(w, a).revocations[r];
    assert n.revocations[r] == Observe(v', n.s);
    if a.EndScan? && v != v' {
      forall key | key in PatternKeys(w.s, user) ensures IdOfKey(key) in a.ids[0..] {
        assert key in v.found;
        var k :| 0 <= k < |v.found| && v.found[k] == key;
        assert IdOfKey(v.found[k]) in a.ids && a.ids[0..] == a.ids;
      }
    }
  }

  lemma DeleteKeepsUnderWay(w: Watched, r: CallId, fault: Fault, user: string, spared: Option<string>)
    requires Inv(w.s) && NoColon(user) && UnderWay(w, r, user, spared) && fault != Lost
    ensures UnderWay(WatchedApply(w, DeleteNext(r, fault)), r, user, spared)
  {
    var n := WatchedApply(w, DeleteNext(r, fault));
    var v := w.revocations[r];
    assert n.revocations[r] == Observe(Step(w, DeleteNext(r, fault)).revocations[r], n.s);
    WatchedStepKeepsInv(w, DeleteNext(r, fault));
    FewerKeys(w.s, n.s, user);
    if v.Deleting? && v.next < |v.ids| {
      forall key | key in PatternKeys(n.s, user)
        ensures Some(IdOfKey(key)) == spared || IdOfKey(key) in v.ids[v.next + 1..]
      {
        assert v.ids[v.next..] == [v.ids[v.next]] + v.ids[v.next + 1..];
        if IdOfKey(key) == v.ids[v.next] && Some(IdOfKey(key)) != spared { DeletedKeyIsGone(w.s, user, key); }
      }
    }
  }

  lemma DeletedKeyIsGone(s: State, user: string, key: string)
    requires Inv(s) && NoColon(user)
    ensures key in PatternKeys(s, user) ==> SessionKey(user, IdOfKey(key)) == key
    ensures key !in PatternKeys(s.(live := Without(s, key)), user)
  {
    if key in PatternKeys(s, user) {
      PatternKeysAre(s, user, key);
      var t :| t in SessionsOf(s, user) && KeyOf(s.issued, t) == key;
      IdOfSessionKey(user, s.issued[t].hash);
    }
  }

  lemma StepKeepsUnderWay(w: Watched, a: WatchedAction, r: CallId, user: string, spared: Option<string>)
    requires Inv(w.s) && NoColon(user) && UnderWay(w, r, user, spared) && Calm(w, a, r, user)
    ensures UnderWay(WatchedApply(w, a), r, user, spared)
  {
    if a.Other? || a.r != r {
      OtherKeepsUnderWay(w, a, r, user, spared);
    } else if a.DeleteNext? {
      DeleteKeepsUnderWay(w, r, a.fault, user, spared);
    } else {
      ScanKeepsUnderWay(w, a, r, user, spared);
    }
  }

  /** Every action meets Calm in the state it is taken in. */
  ghost predicate CalmThroughout(w: Watched, during: seq<WatchedAction>, r: CallId, user: string) {
    forall k :: 0 <= k < |during| ==> Calm(WatchedRun(w, during[..k]), during[k], r, user)
  }

  lemma CalmPrefix(w: Watched, during: seq<WatchedAction>, front: seq<WatchedAction>, r: CallId, user: string)
    requires |during| > 0 && front == during[..|during| - 1] && CalmThroughout(w, during, r, user)
    ensures CalmThroughout(w, front, r, user) && Calm(WatchedRun(w, front), during[|during| - 1], r, user)
  {
    forall k | 0 <= k < |front| ensures Calm(WatchedRun(w, front[..k]), front[k], r, user) {
      assert front[..k] == during[..k];
    }
  }

  /** While the revocation runs, nothing of the user's is redeemed either. */
  lemma QuietRedeemsNothing(w: Watched, a: WatchedAction, user: string, t: TokenId)
    requires Inv(w.s) && Quiet(w.s, user) && Owns(w.s.issued, t, user)
    ensures Owns(WatchedApply(w, a).s.issued, t, user) && Times(WatchedApply(w, a).s.redeemed, t) == Times(w.s.redeemed, t)
  {
    StepIs(w, a);
    QuietHoldsNothing(w.s, user, t);
    if a.Other? {
      RedemptionStep(w.s, a.action, t);
      StepKeepsIssued(w.s, a.action);
    }
  }

  lemma {:induction false} RevocationRuns(w: Watched, during: seq<WatchedAction>, r: CallId, user: string, spared: Option<string>, t: TokenId)
    requires Inv(w.s) && NoColon(user) && UnderWay(w, r, user, spared) && CalmThroughout(w, during, r, user)
    requires Owns(w.s.issued, t, user)
    ensures var e := WatchedRun(w, during);
            && Inv(e.s) && UnderWay(e, r, user, spared)
            && Owns(e.s.issued, t, user) && Times(e.s.redeemed, t) == Times(w.s.redeemed, t)
  {
    if |during| > 0 {
      var front := during[..|during| - 1];
      CalmPrefix(w, during, front, r, user);
      RevocationRuns(w, front, r, user, spared, t);
      var m := WatchedRun(w, front);
      WatchedStepKeepsInv(m, during[|during| - 1]);
      StepKeepsUnderWay(m, during[|during| - 1], r, user, spared);
      QuietRedeemsNothing(m, during[|during| - 1], user, t);
    }
  }

  lemma RevocationBegins(w: Watched, r: CallId, user: string, spared: Option<string>)
    requires Inv(w.s) && Quiet(w.s, user) && r !in w.revocations
    ensures var n := WatchedApply(w, BeginRevoke(r, user, spared)); n.s == w.s && UnderWay(n, r, user, spared)
  {
  }

  /** A revocation that loses nothing, while no sign-in or refresh of the user is under way or begins, leaves no
      session of the user but the spared one, whatever the others do meanwhile and in however many pages SCAN
      answers. */
  lemma RevocationLeavesOnlySpared(before: seq<WatchedAction>, r: CallId, user: string, spared: Option<string>,
                                   during: seq<WatchedAction>, t: TokenId)
    requires var w := WatchedRun(WATCHED_START, before);
             NoColon(user) && Quiet(w.s, user) && r !in w.revocations && Owns(w.s.issued, t, user)
    requires var w := WatchedApply(WatchedRun(WATCHED_START, before), BeginRevoke(r, user, spared));
             CalmThroughout(w, during, r, user) && Done(WatchedRun(w, during), r)
    ensures var w := WatchedApply(WatchedRun(WATCHED_START, before), BeginRevoke(r, user, spared));
            var s := WatchedRun(w, during).s;
            && Owns(s.issued, t, user)
            && Times(s.redeemed, t) == Times(WatchedRun(WATCHED_START, before).s.redeemed, t)
            && (t in s.live ==> Some(s.issued[t].hash) == spared)
            && !SomeHolds(s, t) && !SomePastCheck(s, t)
  {
    var w0 := WatchedRun(WATCHED_START, before);
    WatchedRunKeepsInv(WATCHED_START, before);
    RevocationBegins(w0, r, user, spared);
    var w := WatchedApply(w0, BeginRevoke(r, user, spared));
    RevocationRuns(w, during, r, user, spared, t);
    var e := WatchedRun(w, during);
    QuietHoldsNothing(e.s, user, t);
    if t in e.s.live {
      var key := KeyOf(e.s.issued, t);
      PatternKeysAre(e.s, user, key);
      assert t in SessionsOf(e.s, user);
      IdOfSessionKey(user, e.s.issued[t].hash);
    }
  }

  /** changePassword: once its revocation is done, no refresh token the user had before is ever redeemed. */
  lemma PasswordChangeRetiresTokens(before: seq<WatchedAction>, r: CallId, user: string, during: seq<WatchedAction>,
                                    after: seq<WatchedAction>, t: TokenId)
    requires var w := WatchedRun(WATCHED_START, before);
             NoColon(user) && Quiet(w.s, user) && r !in w.revocations && Owns(w.s.issued, t, user)
    requires var w := WatchedApply(WatchedRun(WATCHED_START, before), BeginRevoke(r, user, None));
             CalmThroughout(w, during, r, user) && Done(WatchedRun(w, during), r)
    ensures var w := WatchedApply(WatchedRun(WATCHED_START, before), BeginRevoke(r, user, None));
            Times(WatchedRun(WatchedRun(w, during), after).s.redeemed, t) == Times(WatchedRun(WATCHED_START, before).s.redeemed, t)
  {
    RevocationLeavesOnlySpared(before, r, user, None, during, t);
    var w := WatchedApply(WatchedRun(WATCHED_START, before), BeginRevoke(r, user, None));
    WatchedRunKeepsInv(WATCHED_START, before);
    WatchedStepKeepsInv(WatchedRun(WATCHED_START, before), BeginRevoke(r, user, None));
    WatchedRunKeepsInv(w, during);
    WatchedUnredeemable(WatchedRun(w, during), after, t);
  }

  // ----- what overlapping calls cost

  /** With no session of a user left, a token of the user that is neither expired nor blacklisted can still be
      redeemed exactly when some call has it in its hands. */
  lemma LeftoverIff(s: State, user: string, t: TokenId)
    requires Inv(s) && SessionsOf(s, user) == {} && Owns(s.issued, t, user)
    requires t !in s.expired && t !in s.blacklist
    ensures CanBeRedeemed(s, t) <==> SomeHolds(s, t)
  {
    RedeemableIff(s, t);
    assert t !in SessionsOf(s, user);
    if SomePastCheck(s, t) {
      var c :| c in s.calls && PastCheck(s, s.calls[c], t);
      assert Holds(s.calls[c], t);
    }
  }

  const LATE_SIGN_IN := [Other(SignIn(1, "u", "f")), BeginRevoke(9, "u", None), EndScan(9, [])]

  const SIGNED := START.(issued := [Issue("u", "f", 0)], signIns := ["u"], calls := map[1 := SigningIn(0)])

  lemma LateSignInRuns()
    ensures WatchedRun(WATCHED_START, LATE_SIGN_IN) == Watched(SIGNED, map[9 := Deleting("u", None, [], 0)])
  {
    var a := LATE_SIGN_IN;
    assert a[..2][..1] == a[..1] && a[..1][..0] == [];
    assert WatchedRun(WATCHED_START, a[..1]) == Watched(SIGNED, map[]);
    assert PatternKeys(SIGNED, "u") == {};
    var scanning := Scanning("u", None, {}, []);
    assert Step(Watched(SIGNED, map[]), a[1]) == Watched(SIGNED, map[9 := scanning]);
    assert Observe(scanning, SIGNED) == scanning;
    assert WatchedApply(Watched(SIGNED, map[]), a[1]) == Watched(SIGNED, map[9 := Scanning("u", None, {}, [])]);
    assert WatchedApply(Watched(SIGNED, map[9 := Scanning("u", None, {}, [])]), a[2]) == Watched(SIGNED, map[9 := Deleting("u", None, [], 0)]);
  }

  /** A sign-in that has signed its token but not recorded it survives a whole revocation. */
  lemma LateSignInSurvives()
    ensures var w := WatchedRun(WATCHED_START, LATE_SIGN_IN);
            Done(w, 9) && SessionsOf(w.s, "u") == {} && Owns(w.s.issued, 0, "u") && CanBeRedeemed(w.s, 0)
  {
    LateSignInRuns();
    WatchedRunKeepsInv(WATCHED_START, LATE_SIGN_IN);
    assert Holds(SIGNED.calls[1], 0);
    LeftoverIff(SIGNED, "u", 0);
  }
}
