/**
 Sign-in, refresh and logout as concurrent calls on one Redis. Every Redis call is one atomic step and may
 fail before or after taking effect; session keys may vanish at any time (logout, revocation, expiry). Each signing
 yields a token whose hash no earlier token has.
 */
module SessionProtocol {
  import opened Wrappers
  import opened Sessions

  type TokenId = nat
  type CallId = nat

  /** A refresh token as signed: its owner, the hash of its text, and the sign-in its chain began with. */
  datatype Issue = Issue(user: string, hash: string, signIn: nat)

  /** A call in progress. The refresh handler's steps come in the order of the constructors. */
  datatype Call =
    | SigningIn(minted: TokenId)                         // signed at sign-in, session not yet recorded
    | Consuming(token: TokenId)                         // refresh: signature verified
    | Checking(token: TokenId)                          // session consumed
    | Loading(token: TokenId)                           // not on the blacklist
    | Blacklisting(token: TokenId, minted: TokenId)      // user loaded, new token signed
    | Recording(token: TokenId, minted: TokenId)         // old token blacklisted or not, new session not yet recorded

  /** `live` holds the tokens whose session key is in Redis, `expired` those whose signature no longer verifies;
      `redeemed` is history: the tokens for which a
      refresh has answered with success. */
  datatype State = State(
    issued: seq<Issue>,
    signIns: seq<string>,
    live: set<TokenId>,
    blacklist: set<TokenId>,
    expired: set<TokenId>,
    calls: map<CallId, Call>,
    redeemed: seq<TokenId>)

  const START := State([], [], {}, {}, {}, map[], [])

  datatype Action =
    | SignIn(call: CallId, user: string, hash: string)
    | RecordSignIn(call: CallId, fault: Fault)
    | BeginRefresh(call: CallId, token: TokenId)
    | Consume(call: CallId, fault: Fault)
    | CheckBlacklist(call: CallId, fault: Fault)
    | Reissue(call: CallId, hash: string, active: bool)
    | BlacklistOld(call: CallId, fault: Fault)
    | RecordRefresh(call: CallId, fault: Fault)
    | ForgetSession(token: TokenId)                     // logout, revocation or expiry of a session
    | BlacklistAdd(token: TokenId)                      // logout
    | Expire(token: TokenId)                            // the token's own lifetime ends
    | BlacklistDrop(token: TokenId)                     // expiry of a blacklist entry

  /** What recordSession leaves. */
  function Recorded(live: set<TokenId>, t: TokenId, fault: Fault): set<TokenId> {
    if fault == Lost then live else live + {t}
  }

  predicate FreshHash(issued: seq<Issue>, hash: string) {
    NoColon(hash) && forall t :: 0 <= t < |issued| ==> issued[t].hash != hash
  }

  function DoSignIn(s: State, call: CallId, user: string, hash: string): State {
    if call in s.calls || !NoColon(user) || !FreshHash(s.issued, hash) then s
    else s.(issued := s.issued + [Issue(user, hash, |s.signIns|)], signIns := s.signIns + [user],
            calls := s.calls[call := SigningIn(|s.issued|)])
  }

  function DoRecordSignIn(s: State, call: CallId, fault: Fault): State {
    if call !in s.calls || !s.calls[call].SigningIn? || s.calls[call].minted >= |s.issued| then s
    else s.(live := Recorded(s.live, s.calls[call].minted, fault), calls := s.calls - {call})
  }

  function DoBeginRefresh(s: State, call: CallId, token: TokenId): State {
    if call in s.calls || token >= |s.issued| || token in s.expired then s else s.(calls := s.calls[call := Consuming(token)])
  }

  function DoConsume(s: State, call: CallId, fault: Fault): State {
    if call !in s.calls || !s.calls[call].Consuming? || s.calls[call].token >= |s.issued| then s
    else
      var token := s.calls[call].token;
      var live := if fault == Lost then s.live else s.live - {token};
      if fault == Works && token in s.live then s.(live := live, calls := s.calls[call := Checking(token)])
      else s.(live := live, calls := s.calls - {call})
  }

  /** The blacklist read is the one Redis call whose failure the handler does not swallow. */
  function DoCheckBlacklist(s: State, call: CallId, fault: Fault): State {
    if call !in s.calls || !s.calls[call].Checking? then s
    else if fault != Works || s.calls[call].token in s.blacklist then s.(calls := s.calls - {call})
    else s.(calls := s.calls[call := Loading(s.calls[call].token)])
  }

  /** The signature is verified once more, then the user is loaded. */
  function DoReissue(s: State, call: CallId, hash: string, active: bool): State {
    if call !in s.calls || !s.calls[call].Loading? || s.calls[call].token >= |s.issued| || !FreshHash(s.issued, hash) then s
    else if !active || s.calls[call].token in s.expired then s.(calls := s.calls - {call})
    else
      var token := s.calls[call].token;
      s.(issued := s.issued + [Issue(s.issued[token].user, hash, s.issued[token].signIn)],
         calls := s.calls[call := Blacklisting(token, |s.issued|)])
  }

  function DoBlacklistOld(s: State, call: CallId, fault: Fault): State {
    if call !in s.calls || !s.calls[call].Blacklisting? then s
    else
      var c := s.calls[call];
      s.(blacklist := if fault == Lost then s.blacklist else s.blacklist + {c.token},
         calls := s.calls[call := Recording(c.token, c.minted)])
  }

  function DoRecordRefresh(s: State, call: CallId, fault: Fault): State {
    if call !in s.calls || !s.calls[call].Recording? || s.calls[call].minted >= |s.issued| then s
    else
      var c := s.calls[call];
      s.(live := Recorded(s.live, c.minted, fault), calls := s.calls - {call}, redeemed := s.redeemed + [c.token])
  }

  /** An entry is written to last as long as the token's signature, rounded up to the next second. */
  function DoBlacklistDrop(s: State, token: TokenId): State {
    if token in s.expired then s.(blacklist := s.blacklist - {token}) else s
  }

  /** One step; an action that is not enabled changes nothing. */
  function Apply(s: State, a: Action): State {
    match a
    case SignIn(call, user, hash) => DoSignIn(s, call, user, hash)
    case RecordSignIn(call, fault) => DoRecordSignIn(s, call, fault)
    case BeginRefresh(call, token) => DoBeginRefresh(s, call, token)
    case Consume(call, fault) => DoConsume(s, call, fault)
    case CheckBlacklist(call, fault) => DoCheckBlacklist(s, call, fault)
    case Reissue(call, hash, active) => DoReissue(s, call, hash, active)
    case BlacklistOld(call, fault) => DoBlacklistOld(s, call, fault)
    case RecordRefresh(call, fault) => DoRecordRefresh(s, call, fault)
    case ForgetSession(token) => s.(live := s.live - {token})
    case BlacklistAdd(token) => s.(blacklist := s.blacklist + {token})
    case Expire(token) => s.(expired := s.expired + {token})
    case BlacklistDrop(token) => DoBlacklistDrop(s, token)
  }

  function Run(s: State, actions: seq<Action>): State {
    if |actions| == 0 then s else Apply(Run(s, actions[..|actions| - 1]), actions[|actions| - 1])
  }

  // ----- the invariant

  /** The token a call has taken out of Redis or is about to put in: it carries that token's chain. */
  function Carried(c: Call): Option<TokenId> {
    match c
    case SigningIn(minted) => Some(minted)
    case Consuming(_) => None
    case Checking(token) => Some(token)
    case Loading(token) => Some(token)
    case Blacklisting(token, _) => Some(token)
    case Recording(token, _) => Some(token)
  }

  function FreshOf(c: Call): Option<TokenId> {
    if c.Blacklisting? || c.Recording? then Some(c.minted) else None
  }

  /** The sign-in whose chain a call carries, or -1. */
  function Chain(issued: seq<Issue>, c: Call): int {
    match Carried(c)
    case None => -1
    case Some(t) => if t < |issued| then issued[t].signIn else -1
  }

  ghost predicate IssuedWell(issued: seq<Issue>, signIns: seq<string>) {
    && (forall t :: 0 <= t < |issued| ==>
          && NoColon(issued[t].user) && NoColon(issued[t].hash)
          && issued[t].signIn < |signIns| && issued[t].user == signIns[issued[t].signIn])
    && (forall t, u :: 0 <= t < u < |issued| ==> issued[t].hash != issued[u].hash)
  }

  ghost predicate LiveWell(issued: seq<Issue>, live: set<TokenId>) {
    forall t :: t in live ==> t < |issued|
  }

  predicate CallWell(issued: seq<Issue>, c: Call) {
    && (Carried(c).Some? ==> Carried(c).value < |issued|)
    && (c.Consuming? ==> c.token < |issued|)
    && (FreshOf(c).Some? ==> c.token < c.minted < |issued| && issued[c.minted].signIn == issued[c.token].signIn)
  }

  ghost predicate CallsWell(issued: seq<Issue>, calls: map<CallId, Call>) {
    forall c :: c in calls ==> CallWell(issued, calls[c])
  }

  /** Each sign-in has at most one carrier, a live session or a call holding its chain. Three parts: */
  ghost predicate OneLive(issued: seq<Issue>, live: set<TokenId>)
    requires LiveWell(issued, live)
  {
    forall t, u :: t in live && u in live && issued[t].signIn == issued[u].signIn ==> t == u
  }

  ghost predicate LiveOrHeld(issued: seq<Issue>, live: set<TokenId>, calls: map<CallId, Call>)
    requires LiveWell(issued, live)
  {
    forall t, c :: t in live && c in calls ==> Chain(issued, calls[c]) != issued[t].signIn
  }

  ghost predicate OneHolder(issued: seq<Issue>, calls: map<CallId, Call>) {
    forall c, d :: c in calls && d in calls && Chain(issued, calls[c]) >= 0 && Chain(issued, calls[c]) == Chain(issued, calls[d]) ==> c == d
  }

  /** A token redeemed is gone for good: issued, not live, in no call's hands, not redeemed again. */
  ghost predicate RedeemedGone(issued: seq<Issue>, live: set<TokenId>, redeemed: seq<TokenId>) {
    && (forall i :: 0 <= i < |redeemed| ==> redeemed[i] < |issued| && redeemed[i] !in live)
    && (forall i, j :: 0 <= i < j < |redeemed| ==> redeemed[i] != redeemed[j])
  }

  ghost predicate NotHeld(calls: map<CallId, Call>, redeemed: seq<TokenId>) {
    forall c, i :: c in calls && 0 <= i < |redeemed| ==> Carried(calls[c]) != Some(redeemed[i]) && FreshOf(calls[c]) != Some(redeemed[i])
  }

  /** A token a refresh has signed has no session until that refresh records it. */
  ghost predicate FreshNotLive(live: set<TokenId>, calls: map<CallId, Call>) {
    forall c :: c in calls && FreshOf(calls[c]).Some? ==> calls[c].minted !in live
  }

  ghost predicate Inv(s: State) {
    && IssuedWell(s.issued, s.signIns) && LiveWell(s.issued, s.live) && CallsWell(s.issued, s.calls)
    && OneLive(s.issued, s.live) && LiveOrHeld(s.issued, s.live, s.calls) && OneHolder(s.issued, s.calls)
    && RedeemedGone(s.issued, s.live, s.redeemed) && NotHeld(s.calls, s.redeemed) && FreshNotLive(s.live, s.calls)
  }

  // ----- signing

  ghost predicate Extends(issued: seq<Issue>, more: seq<Issue>) {
    |issued| <= |more| && forall t :: 0 <= t < |issued| ==> more[t] == issued[t]
  }

  lemma SigningKeepsCalls(s: State, more: seq<Issue>)
    requires CallsWell(s.issued, s.calls) && Extends(s.issued, more)
    ensures CallsWell(more, s.calls)
    ensures forall c :: c in s.calls ==> Chain(more, s.calls[c]) == Chain(s.issued, s.calls[c])
  {
    forall c | c in s.calls ensures CallWell(more, s.calls[c]) && Chain(more, s.calls[c]) == Chain(s.issued, s.calls[c]) {
      assert CallWell(s.issued, s.calls[c]);
    }
  }

  /** What a later list of issues leaves true of the sessions. */
  lemma SigningKeepsLive(s: State, more: seq<Issue>)
    requires Inv(s) && Extends(s.issued, more)
    ensures LiveWell(more, s.live) && OneLive(more, s.live) && RedeemedGone(more, s.live, s.redeemed)
  {
  }

  /** The call that has just signed holds its token; nobody else has heard of it. */
  lemma SignedCall(s: State, more: seq<Issue>, call: CallId, next: Call)
    requires Inv(s) && Extends(s.issued, more) && |more| == |s.issued| + 1 && CallWell(more, next)
    requires Carried(next) == Some(|s.issued|) || (FreshOf(next) == Some(|s.issued|) && call in s.calls && Carried(next) == Carried(s.calls[call]))
    requires FreshOf(next).Some? ==> FreshOf(next) == Some(|s.issued|)
    ensures CallsWell(more, s.calls[call := next])
    ensures NotHeld(s.calls[call := next], s.redeemed) && FreshNotLive(s.live, s.calls[call := next])
  {
    SigningKeepsCalls(s, more);
  }

  /** The chains stay apart when the signing call's chain is new or was its own already. */
  lemma ChainsStayApart(s: State, more: seq<Issue>, call: CallId, next: Call)
    requires Inv(s) && Extends(s.issued, more) && LiveWell(more, s.live)
    requires || Chain(more, next) == |s.signIns|
             || (call in s.calls && Chain(more, next) == Chain(s.issued, s.calls[call]))
    ensures LiveOrHeld(more, s.live, s.calls[call := next]) && OneHolder(more, s.calls[call := next])
  {
    SigningKeepsCalls(s, more);
    forall c | c in s.calls ensures Chain(s.issued, s.calls[c]) < |s.signIns| {
      assert CallWell(s.issued, s.calls[c]);
    }
  }

  lemma SignInKeepsInv(s: State, call: CallId, user: string, hash: string)
    requires Inv(s)
    ensures Inv(DoSignIn(s, call, user, hash))
  {
    var s' := DoSignIn(s, call, user, hash);
    if s' != s {
      SigningKeepsLive(s, s'.issued);
      SignedCall(s, s'.issued, call, SigningIn(|s.issued|));
      ChainsStayApart(s, s'.issued, call, SigningIn(|s.issued|));
    }
  }

  lemma ReissueKeepsInv(s: State, call: CallId, hash: string, active: bool)
    requires Inv(s)
    ensures Inv(DoReissue(s, call, hash, active))
  {
    var s' := DoReissue(s, call, hash, active);
    if s' != s {
      DroppedCallKeepsInv(s, call);
      if call in s'.calls {
        var next := s'.calls[call];
        assert CallWell(s.issued, s.calls[call]);
        SigningKeepsLive(s, s'.issued);
        SignedCall(s, s'.issued, call, next);
        ChainsStayApart(s, s'.issued, call, next);
      }
    }
  }

  // ----- recording and consuming sessions

  lemma RecordKeepsLive(s: State, call: CallId, t: TokenId)
    requires Inv(s)
    requires call in s.calls && t < |s.issued| && Chain(s.issued, s.calls[call]) == s.issued[t].signIn
    ensures LiveWell(s.issued, s.live + {t}) && OneLive(s.issued, s.live + {t})
    ensures LiveOrHeld(s.issued, s.live + {t}, s.calls - {call})
  {
  }

  lemma RecordSignInKeepsInv(s: State, call: CallId, fault: Fault)
    requires Inv(s)
    ensures Inv(DoRecordSignIn(s, call, fault))
  {
    var s' := DoRecordSignIn(s, call, fault);
    if s' != s {
      DroppedCallKeepsInv(s, call);
      var t := s.calls[call].minted;
      RecordKeepsLive(s, call, t);
      RecordedTokenIsNew(s, call, t);
    }
  }

  /** A sign-in's token was redeemed by nobody and is in no refresh's hands. */
  lemma RecordedTokenIsNew(s: State, call: CallId, t: TokenId)
    requires Inv(s) && call in s.calls && s.calls[call] == SigningIn(t)
    ensures t !in s.redeemed && FreshNotLive(s.live + {t}, s.calls - {call})
  {
    assert CallWell(s.issued, s.calls[call]);
    forall c | c in s.calls - {call} && FreshOf(s.calls[c]).Some? ensures s.calls[c].minted != t {
      assert CallWell(s.issued, s.calls[c]);
      assert Chain(s.issued, s.calls[c]) != Chain(s.issued, s.calls[call]);
    }
  }

  lemma RecordRefreshKeepsInv(s: State, call: CallId, fault: Fault)
    requires Inv(s)
    ensures Inv(DoRecordRefresh(s, call, fault))
  {
    var s' := DoRecordRefresh(s, call, fault);
    if s' != s {
      var cl := s.calls[call];
      assert CallWell(s.issued, cl);
      RecordKeepsLive(s, call, cl.minted);
      HolderIsAlone(s, call);
      assert forall c :: c in s'.calls ==> c in s.calls && s'.calls[c] == s.calls[c] && c != call;
    }
  }

  /** No other call, session or redemption knows the tokens in a refresh's hands. */
  lemma HolderIsAlone(s: State, call: CallId)
    requires Inv(s)
    requires call in s.calls && s.calls[call].Recording?
    ensures s.calls[call].token !in s.live && s.calls[call].token !in s.redeemed
    ensures forall c :: c in s.calls && c != call ==>
              && Carried(s.calls[c]) != Some(s.calls[call].token) && FreshOf(s.calls[c]) != Some(s.calls[call].token)
              && Carried(s.calls[c]) != Some(s.calls[call].minted) && FreshOf(s.calls[c]) != Some(s.calls[call].minted)
  {
    assert CallWell(s.issued, s.calls[call]);
    var n := Chain(s.issued, s.calls[call]);
    forall c | c in s.calls && c != call
      ensures && Carried(s.calls[c]) != Some(s.calls[call].token) && FreshOf(s.calls[c]) != Some(s.calls[call].token)
              && Carried(s.calls[c]) != Some(s.calls[call].minted) && FreshOf(s.calls[c]) != Some(s.calls[call].minted)
    {
      assert CallWell(s.issued, s.calls[c]);
      assert Chain(s.issued, s.calls[c]) < 0 || Chain(s.issued, s.calls[c]) != n;
    }
  }

  lemma ConsumeKeepsInv(s: State, call: CallId, fault: Fault)
    requires Inv(s)
    ensures Inv(DoConsume(s, call, fault))
  {
    var s' := DoConsume(s, call, fault);
    if s' != s {
      var t := s.calls[call].token;
      assert s'.live <= s.live;
      if fault == Works && t in s.live {
        assert Chain(s.issued, s'.calls[call]) == s.issued[t].signIn;
      }
    }
  }

  // ----- steps that neither sign a token nor record or consume a session

  lemma ShrinkingLiveKeepsInv(s: State, live: set<TokenId>)
    requires Inv(s) && live <= s.live
    ensures Inv(s.(live := live))
  {
  }

  lemma DroppedCallKeepsInv(s: State, call: CallId)
    requires Inv(s)
    ensures Inv(s.(calls := s.calls - {call}))
  {
  }

  /** A call moves on with the same tokens in its hands. */
  lemma MovedCallKeepsInv(s: State, call: CallId, next: Call)
    requires Inv(s)
    requires if call in s.calls then Carried(next) == Carried(s.calls[call]) && FreshOf(next) == FreshOf(s.calls[call]) && (FreshOf(next).Some? ==> next.token == s.calls[call].token)
             else Carried(next).None? && FreshOf(next).None?
    requires next.Consuming? ==> next.token < |s.issued|
    ensures Inv(s.(calls := s.calls[call := next]))
  {
    var calls := s.calls[call := next];
    assert CallWell(s.issued, next) by {
      if call in s.calls { assert CallWell(s.issued, s.calls[call]); }
    }
    assert Chain(s.issued, next) == if call in s.calls then Chain(s.issued, s.calls[call]) else -1;
  }

  lemma QuietStepKeepsInv(s: State, a: Action)
    requires Inv(s)
    requires a.BeginRefresh? || a.CheckBlacklist? || a.BlacklistOld? || a.ForgetSession? || a.BlacklistAdd? || a.Expire? || a.BlacklistDrop?
    ensures Inv(Apply(s, a))
  {
    match a
    case BeginRefresh(call, token) =>
      if call !in s.calls && token < |s.issued| { MovedCallKeepsInv(s, call, Consuming(token)); }
    case CheckBlacklist(call, fault) =>
      DroppedCallKeepsInv(s, call);
      if call in s.calls && s.calls[call].Checking? { MovedCallKeepsInv(s, call, Loading(s.calls[call].token)); }
    case BlacklistOld(call, fault) =>
      if call in s.calls && s.calls[call].Blacklisting? {
        MovedCallKeepsInv(s, call, Recording(s.calls[call].token, s.calls[call].minted));
      }
    case ForgetSession(token) => ShrinkingLiveKeepsInv(s, s.live - {token});
    case BlacklistAdd(_) =>
    case Expire(_) =>
    case BlacklistDrop(_) =>
  }

  lemma StepKeepsInv(s: State, a: Action)
    requires Inv(s)
    ensures Inv(Apply(s, a))
  {
    match a
    case SignIn(call, user, hash) => SignInKeepsInv(s, call, user, hash);
    case RecordSignIn(call, fault) => RecordSignInKeepsInv(s, call, fault);
    case Consume(call, fault) => ConsumeKeepsInv(s, call, fault);
    case Reissue(call, hash, active) => ReissueKeepsInv(s, call, hash, active);
    case RecordRefresh(call, fault) => RecordRefreshKeepsInv(s, call, fault);
    case _ => QuietStepKeepsInv(s, a);
  }

  lemma {:induction false} RunKeepsInv(s: State, actions: seq<Action>)
    requires Inv(s)
    ensures Inv(Run(s, actions))
  {
    if |actions| > 0 {
      RunKeepsInv(s, actions[..|actions| - 1]);
      StepKeepsInv(Run(s, actions[..|actions| - 1]), actions[|actions| - 1]);
    }
  }

  // ----- what every run keeps

  /** Over every interleaving of sign-ins, refreshes, logouts and revocations, with any Redis call failing,
      no refresh token is redeemed twice; each sign-in has at most one live session, and none while a
      refresh of its chain is between consuming the old session and recording the new one. */
  lemma RefreshTokensAreSingleUse(actions: seq<Action>)
    ensures var s := Run(START, actions);
            && (forall i, j :: 0 <= i < j < |s.redeemed| ==> s.redeemed[i] != s.redeemed[j])
            && LiveWell(s.issued, s.live) && OneLive(s.issued, s.live) && LiveOrHeld(s.issued, s.live, s.calls)
  {
    RunKeepsInv(START, actions);
  }

  function SessionsOf(s: State, user: string): set<TokenId> {
    set t | 0 <= t < |s.issued| && t in s.live && s.issued[t].user == user
  }

  function SignInsOf(s: State, user: string): set<nat> {
    set n | 0 <= n < |s.signIns| && s.signIns[n] == user
  }

  lemma {:induction false} InjectionBound(from: set<TokenId>, to: set<nat>, issued: seq<Issue>)
    requires forall t :: t in from ==> t < |issued| && issued[t].signIn in to
    requires forall t, u :: t in from && u in from && issued[t].signIn == issued[u].signIn ==> t == u
    ensures |from| <= |to|
    decreases |from|
  {
    if from != {} {
      var t :| t in from;
      InjectionBound(from - {t}, to - {issued[t].signIn}, issued);
    }
  }

  /** A user's live sessions never outnumber that user's sign-ins. */
  lemma SessionsBoundedBySignIns(actions: seq<Action>, user: string)
    ensures var s := Run(START, actions); |SessionsOf(s, user)| <= |SignInsOf(s, user)|
  {
    RunKeepsInv(START, actions);
    var s := Run(START, actions);
    InjectionBound(SessionsOf(s, user), SignInsOf(s, user), s.issued);
  }

  // ----- the key strings

  function KeyOf(issued: seq<Issue>, t: TokenId): string
    requires t < |issued|
  {
    SessionKey(issued[t].user, issued[t].hash)
  }

  ghost function KeysOf(issued: seq<Issue>, live: set<TokenId>): set<string>
    requires LiveWell(issued, live)
  {
    set t | t in live :: KeyOf(issued, t)
  }

  /** The set of live tokens is an exact picture of the key strings in Redis: in every reachable state a
      token is live exactly when its key is there, recording and forgetting it act alike on both, and a
      user's SCAN pattern matches exactly that user's sessions. */
  lemma StoreMirrorsKeys(actions: seq<Action>, t: TokenId, user: string)
    requires t < |Run(START, actions).issued| && NoColon(user)
    ensures var s := Run(START, actions); LiveWell(s.issued, s.live + {t}) && LiveWell(s.issued, s.live - {t})
    ensures var s := Run(START, actions); KeyOf(s.issued, t) in KeysOf(s.issued, s.live) <==> t in s.live
    ensures var s := Run(START, actions); KeysOf(s.issued, s.live + {t}) == KeysOf(s.issued, s.live) + {KeyOf(s.issued, t)}
    ensures var s := Run(START, actions); KeysOf(s.issued, s.live - {t}) == KeysOf(s.issued, s.live) - {KeyOf(s.issued, t)}
    ensures var s := Run(START, actions); Matches(user, KeyOf(s.issued, t)) <==> s.issued[t].user == user
  {
    RunKeepsInv(START, actions);
    var s := Run(START, actions);
    forall u | 0 <= u < |s.issued| && KeyOf(s.issued, u) == KeyOf(s.issued, t) ensures u == t {
      SessionKeysDiffer(s.issued[t].user, s.issued[t].hash, s.issued[u].user, s.issued[u].hash);
    }
    PatternIsPerUser(user, s.issued[t].user, s.issued[t].hash);
  }
}
