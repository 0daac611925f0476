/** Which refresh tokens can still be redeemed, told from the state alone; logout. */
module SessionRetirement {
  import opened Wrappers
  import opened Sessions
  import opened SessionProtocol

  /** The call has passed the blacklist check for `t`. */
  predicate PastCheck(s: State, c: Call, t: TokenId) {
    || ((c.Blacklisting? || c.Recording?) && c.token == t)
    || (c == Loading(t) && t !in s.expired)
  }

  /** The call has `t` in its hands: taken out of Redis, or signed and not yet recorded. */
  predicate Holds(c: Call, t: TokenId) {
    Carried(c) == Some(t) || FreshOf(c) == Some(t)
  }

  ghost predicate SomePastCheck(s: State, t: TokenId) {
    exists c :: c in s.calls && PastCheck(s, s.calls[c], t)
  }

  ghost predicate SomeHolds(s: State, t: TokenId) {
    exists c :: c in s.calls && Holds(s.calls[c], t)
  }

  /** Either a refresh of `t` is past the check, or `t` is neither expired nor blacklisted and somewhere to be had. */
  ghost predicate Redeemable(s: State, t: TokenId) {
    SomePastCheck(s, t) || (t !in s.expired && t !in s.blacklist && (t in s.live || SomeHolds(s, t)))
  }

  function Times(redeemed: seq<TokenId>, t: TokenId): nat {
    multiset(redeemed)[t]
  }

  /** Some continuation redeems `t`. */
  ghost predicate CanBeRedeemed(s: State, t: TokenId) {
    exists after :: RedeemedIn(s, after, t)
  }

  ghost predicate RedeemedIn(s: State, after: seq<Action>, t: TokenId) {
    Times(Run(s, after).redeemed, t) > Times(s.redeemed, t)
  }

  // ----- a token that is not redeemable stays so

  /** A step that signs nothing and concerns one call and at most one session. */
  lemma StaysUnredeemable(s: State, s': State, call: CallId, t: TokenId)
    requires s.expired <= s'.expired
    requires t in s.blacklist ==> t in s'.blacklist || t in s'.expired
    requires forall c :: c in s'.calls && c != call ==> c in s.calls && s'.calls[c] == s.calls[c]
    requires t in s'.live && t !in s.live ==> call in s.calls && Holds(s.calls[call], t)
    requires call in s'.calls && Holds(s'.calls[call], t) ==> t in s.live || (call in s.calls && Holds(s.calls[call], t))
    requires call in s'.calls && PastCheck(s', s'.calls[call], t) ==>
               call in s.calls && (PastCheck(s, s.calls[call], t) || (s.calls[call] == Checking(t) && t !in s.blacklist && t !in s.expired))
    ensures Redeemable(s', t) ==> Redeemable(s, t)
  {
    if SomePastCheck(s', t) {
      var c :| c in s'.calls && PastCheck(s', s'.calls[c], t);
      if c != call { assert PastCheck(s, s.calls[c], t); }
    } else if SomeHolds(s', t) {
      var c :| c in s'.calls && Holds(s'.calls[c], t);
      if c != call { assert Holds(s.calls[c], t); }
    }
  }

  lemma ConsumeStaysUnredeemable(s: State, call: CallId, fault: Fault, t: TokenId)
    requires Inv(s) && t < |s.issued| && !Redeemable(s, t)
    ensures !Redeemable(DoConsume(s, call, fault), t)
  {
    StaysUnredeemable(s, DoConsume(s, call, fault), call, t);
  }

  lemma CheckStaysUnredeemable(s: State, call: CallId, fault: Fault, t: TokenId)
    requires Inv(s) && t < |s.issued| && !Redeemable(s, t)
    ensures !Redeemable(DoCheckBlacklist(s, call, fault), t)
  {
    var s' := DoCheckBlacklist(s, call, fault);
    if s' != s && call in s'.calls {
      var token := s.calls[call].token;
      assert s.calls[call] == Checking(token) && s'.calls == s.calls[call := Loading(token)] && token !in s.blacklist;
    }
    StaysUnredeemable(s, s', call, t);
  }

  lemma ReissueStaysUnredeemable(s: State, call: CallId, hash: string, active: bool, t: TokenId)
    requires Inv(s) && t < |s.issued| && !Redeemable(s, t)
    ensures !Redeemable(DoReissue(s, call, hash, active), t)
  {
    StaysUnredeemable(s, DoReissue(s, call, hash, active), call, t);
  }

  lemma RecordStaysUnredeemable(s: State, a: Action, t: TokenId)
    requires Inv(s) && t < |s.issued| && !Redeemable(s, t) && (a.RecordSignIn? || a.RecordRefresh?)
    ensures !Redeemable(Apply(s, a), t)
  {
    if a.call in s.calls { assert CallWell(s.issued, s.calls[a.call]); }
    StaysUnredeemable(s, Apply(s, a), a.call, t);
  }

  lemma BeginStaysUnredeemable(s: State, a: Action, t: TokenId)
    requires Inv(s) && t < |s.issued| && !Redeemable(s, t) && (a.SignIn? || a.BeginRefresh? || a.BlacklistOld?)
    ensures !Redeemable(Apply(s, a), t)
  {
    StaysUnredeemable(s, Apply(s, a), a.call, t);
  }

  lemma KeyStaysUnredeemable(s: State, a: Action, t: TokenId)
    requires !Redeemable(s, t) && (a.ForgetSession? || a.BlacklistAdd? || a.Expire? || a.BlacklistDrop?)
    ensures !Redeemable(Apply(s, a), t)
  {
    StaysUnredeemable(s, Apply(s, a), 0, t);
  }

  lemma StepStaysUnredeemable(s: State, a: Action, t: TokenId)
    requires Inv(s) && t < |s.issued| && !Redeemable(s, t)
    ensures !Redeemable(Apply(s, a), t)
  {
    match a
    case Consume(call, fault) => ConsumeStaysUnredeemable(s, call, fault, t);
    case CheckBlacklist(call, fault) => CheckStaysUnredeemable(s, call, fault, t);
    case Reissue(call, hash, active) => ReissueStaysUnredeemable(s, call, hash, active, t);
    case RecordSignIn(_, _) => RecordStaysUnredeemable(s, a, t);
    case RecordRefresh(_, _) => RecordStaysUnredeemable(s, a, t);
    case SignIn(_, _, _) => BeginStaysUnredeemable(s, a, t);
    case BeginRefresh(_, _) => BeginStaysUnredeemable(s, a, t);
    case BlacklistOld(_, _) => BeginStaysUnredeemable(s, a, t);
    case _ => KeyStaysUnredeemable(s, a, t);
  }

  /** Only a token past the check is ever redeemed. */
  lemma RedemptionStep(s: State, a: Action, t: TokenId)
    requires !SomePastCheck(s, t)
    ensures Times(Apply(s, a).redeemed, t) == Times(s.redeemed, t)
  {
    if a.RecordRefresh? && Apply(s, a) != s {
      assert Apply(s, a).redeemed == s.redeemed + [s.calls[a.call].token];
      assert PastCheck(s, s.calls[a.call], s.calls[a.call].token);
    }
  }

  lemma StepKeepsIssued(s: State, a: Action)
    ensures Extends(s.issued, Apply(s, a).issued)
  {
  }

  lemma {:induction false} UnredeemableForGood(s: State, after: seq<Action>, t: TokenId)
    requires Inv(s) && t < |s.issued| && !Redeemable(s, t)
    ensures var e := Run(s, after);
            && t < |e.issued| && e.issued[t] == s.issued[t]
            && !Redeemable(e, t) && Times(e.redeemed, t) == Times(s.redeemed, t)
  {
    if |after| > 0 {
      var front := after[..|after| - 1];
      UnredeemableForGood(s, front, t);
      RunKeepsInv(s, front);
      StepStaysUnredeemable(Run(s, front), after[|after| - 1], t);
      RedemptionStep(Run(s, front), after[|after| - 1], t);
      StepKeepsIssued(Run(s, front), after[|after| - 1]);
    }
  }

  // ----- a token that is redeemable can be redeemed

  lemma {:induction false} RunConcat(s: State, a: seq<Action>, b: seq<Action>)
    ensures Run(s, a + b) == Run(Run(s, a), b)
  {
    if |b| == 0 {
      assert a + b == a;
    } else {
      assert (a + b)[..|a + b| - 1] == a + b[..|b| - 1];
      RunConcat(s, a, b[..|b| - 1]);
    }
  }

  lemma RunOne(s: State, a: Action)
    ensures Run(s, [a]) == Apply(s, a)
  {
    assert Run(s, []) == s;
  }

  /** What can be redeemed after a step can be redeemed before it. */
  lemma StepBack(s: State, a: Action, t: TokenId)
    requires CanBeRedeemed(Apply(s, a), t) && Times(Apply(s, a).redeemed, t) >= Times(s.redeemed, t)
    ensures CanBeRedeemed(s, t)
  {
    var after :| RedeemedIn(Apply(s, a), after, t);
    RunOne(s, a);
    RunConcat(s, [a], after);
    assert RedeemedIn(s, [a] + after, t);
  }

  lemma RecordingIsRedeemed(s: State, call: CallId, t: TokenId)
    requires Inv(s) && call in s.calls && s.calls[call].Recording? && s.calls[call].token == t
    ensures CanBeRedeemed(s, t)
  {
    assert CallWell(s.issued, s.calls[call]);
    var a := RecordRefresh(call, Works);
    RunOne(s, a);
    assert Apply(s, a).redeemed == s.redeemed + [t];
    assert RedeemedIn(s, [a], t);
  }

  lemma BlacklistingIsRedeemed(s: State, call: CallId, t: TokenId)
    requires Inv(s) && call in s.calls && s.calls[call].Blacklisting? && s.calls[call].token == t
    ensures CanBeRedeemed(s, t)
  {
    var a := BlacklistOld(call, Works);
    StepKeepsInv(s, a);
    RecordingIsRedeemed(Apply(s, a), call, t);
    StepBack(s, a, t);
  }

  /** A hash longer than every hash so far. */
  function LongHash(issued: seq<Issue>): (h: string)
    ensures NoColon(h) && forall t :: 0 <= t < |issued| ==> |issued[t].hash| < |h|
  {
    if |issued| == 0 then "f"
    else
      var rest := LongHash(issued[..|issued| - 1]);
      rest + seq(|issued[|issued| - 1].hash|, _ => 'f')
  }

  lemma LoadingIsRedeemed(s: State, call: CallId, t: TokenId)
    requires Inv(s) && call in s.calls && s.calls[call] == Loading(t) && t !in s.expired
    ensures CanBeRedeemed(s, t)
  {
    assert CallWell(s.issued, s.calls[call]);
    var a := Reissue(call, LongHash(s.issued), true);
    StepKeepsInv(s, a);
    BlacklistingIsRedeemed(Apply(s, a), call, t);
    StepBack(s, a, t);
  }

  lemma CheckingIsRedeemed(s: State, call: CallId, t: TokenId)
    requires Inv(s) && call in s.calls && s.calls[call] == Checking(t) && t !in s.expired && t !in s.blacklist
    ensures CanBeRedeemed(s, t)
  {
    var a := CheckBlacklist(call, Works);
    StepKeepsInv(s, a);
    LoadingIsRedeemed(Apply(s, a), call, t);
    StepBack(s, a, t);
  }

  lemma {:induction false} FreeCall(ids: set<CallId>) returns (call: CallId)
    ensures forall c :: c in ids ==> c < call
    decreases |ids|
  {
    if ids == {} {
      call := 0;
    } else {
      var c :| c in ids;
      var rest := FreeCall(ids - {c});
      assert forall d :: d in ids ==> d == c || d in ids - {c};
      call := if c < rest then rest else c + 1;
    }
  }

  lemma LiveIsRedeemed(s: State, t: TokenId)
    requires Inv(s) && t in s.live && t !in s.expired && t !in s.blacklist
    ensures CanBeRedeemed(s, t)
  {
    var call := FreeCall(s.calls.Keys);
    assert call !in s.calls;
    var a, b := BeginRefresh(call, t), Consume(call, Works);
    var s1 := Apply(s, a);
    var s2 := Apply(s1, b);
    StepKeepsInv(s, a);
    StepKeepsInv(s1, b);
    CheckingIsRedeemed(s2, call, t);
    StepBack(s1, b, t);
    StepBack(s, a, t);
  }

  lemma HeldIsRedeemed(s: State, call: CallId, t: TokenId)
    requires Inv(s) && call in s.calls && Holds(s.calls[call], t) && t !in s.expired && t !in s.blacklist
    ensures CanBeRedeemed(s, t)
  {
    assert CallWell(s.issued, s.calls[call]);
    match s.calls[call]
    case SigningIn(_) =>
      StepKeepsInv(s, RecordSignIn(call, Works));
      LiveIsRedeemed(Apply(s, RecordSignIn(call, Works)), t);
      StepBack(s, RecordSignIn(call, Works), t);
    case Checking(_) => CheckingIsRedeemed(s, call, t);
    case Loading(_) => LoadingIsRedeemed(s, call, t);
    case Blacklisting(token, _) =>
      if token == t { BlacklistingIsRedeemed(s, call, t); } else { FreshIsRedeemed(s, call, t); }
    case Recording(token, _) =>
      if token == t { RecordingIsRedeemed(s, call, t); } else { RecordedIsRedeemed(s, call, t); }
  }

  lemma RecordedIsRedeemed(s: State, call: CallId, t: TokenId)
    requires Inv(s) && call in s.calls && s.calls[call].Recording? && s.calls[call].minted == t && t !in s.expired && t !in s.blacklist
    ensures CanBeRedeemed(s, t)
  {
    assert CallWell(s.issued, s.calls[call]);
    var a := RecordRefresh(call, Works);
    StepKeepsInv(s, a);
    LiveIsRedeemed(Apply(s, a), t);
    assert Apply(s, a).redeemed == s.redeemed + [s.calls[call].token];
    StepBack(s, a, t);
  }

  lemma FreshIsRedeemed(s: State, call: CallId, t: TokenId)
    requires Inv(s) && call in s.calls && s.calls[call].Blacklisting? && s.calls[call].minted == t && s.calls[call].token != t
    requires t !in s.expired && t !in s.blacklist
    ensures CanBeRedeemed(s, t)
  {
    var a := BlacklistOld(call, Works);
    StepKeepsInv(s, a);
    RecordedIsRedeemed(Apply(s, a), call, t);
    StepBack(s, a, t);
  }

  lemma PastCheckIsRedeemed(s: State, call: CallId, t: TokenId)
    requires Inv(s) && call in s.calls && PastCheck(s, s.calls[call], t)
    ensures CanBeRedeemed(s, t)
  {
    match s.calls[call]
    case Loading(_) => LoadingIsRedeemed(s, call, t);
    case Blacklisting(_, _) => BlacklistingIsRedeemed(s, call, t);
    case Recording(_, _) => RecordingIsRedeemed(s, call, t);
  }

  /** In every reachable state, an issued token has a continuation that redeems it exactly when a refresh of it
      is past the blacklist check, or it is neither expired nor blacklisted and is live, taken out of Redis by a
      call, or signed by a call and not yet recorded. */
  lemma RedeemableIff(s: State, t: TokenId)
    requires Inv(s) && t < |s.issued|
    ensures CanBeRedeemed(s, t) <==> Redeemable(s, t)
  {
    if Redeemable(s, t) {
      if SomePastCheck(s, t) {
        var c :| c in s.calls && PastCheck(s, s.calls[c], t);
        PastCheckIsRedeemed(s, c, t);
      } else if t in s.live {
        LiveIsRedeemed(s, t);
      } else {
        var c :| c in s.calls && Holds(s.calls[c], t);
        HeldIsRedeemed(s, c, t);
      }
    } else if CanBeRedeemed(s, t) {
      var after :| RedeemedIn(s, after, t);
      UnredeemableForGood(s, after, t);
      assert false;
    }
  }

  // ----- logout

  /** A logged-out token can be redeemed again exactly when a refresh of it was past the check by then; its
      entry outlives its signature, so no time limit is needed, nor that its session was deleted. */
  lemma LogoutWinsIff(before: seq<Action>, t: TokenId)
    requires t < |Run(START, before).issued|
    ensures CanBeRedeemed(Apply(Run(START, before), BlacklistAdd(t)), t) <==> SomePastCheck(Run(START, before), t)
  {
    var s := Run(START, before);
    RunKeepsInv(START, before);
    StepKeepsInv(s, BlacklistAdd(t));
    var s' := Apply(s, BlacklistAdd(t));
    assert s'.calls == s.calls && s'.expired == s.expired;
    assert forall c :: c in s.calls ==> (PastCheck(s', s.calls[c], t) <==> PastCheck(s, s.calls[c], t));
    RedeemableIff(s', t);
  }
}
