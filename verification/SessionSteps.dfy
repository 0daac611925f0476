/** A refresh with nothing in between: the protocol's steps do what the handler does in one go. */
module SessionSteps {
  import opened Sessions
  import opened SessionProtocol

  /** The Redis calls of a refresh, each working or not. */
  datatype RefreshFaults = RefreshFaults(consume: Fault, check: Fault, blacklisting: Fault, record: Fault)

  function AfterConsume(s: State, call: CallId, token: TokenId, f: RefreshFaults): State {
    Apply(Apply(s, BeginRefresh(call, token)), Consume(call, f.consume))
  }

  function AfterSignature(s: State, call: CallId, token: TokenId, hash: string, active: bool, f: RefreshFaults): State {
    Apply(Apply(AfterConsume(s, call, token, f), CheckBlacklist(call, f.check)), Reissue(call, hash, active))
  }

  function AfterRefresh(s: State, call: CallId, token: TokenId, hash: string, active: bool, f: RefreshFaults): State {
    Apply(Apply(AfterSignature(s, call, token, hash, active, f), BlacklistOld(call, f.blacklisting)), RecordRefresh(call, f.record))
  }

  /** A refresh is granted exactly when its session is there and taken, the token is not blacklisted, and the
      user is still active. */
  predicate Granted(s: State, token: TokenId, active: bool, f: RefreshFaults) {
    f.consume == Works && token in s.live && f.check == Works && token !in s.blacklist && active
  }

  lemma Consumed(s: State, call: CallId, token: TokenId, f: RefreshFaults)
    requires call !in s.calls && token < |s.issued| && token !in s.expired
    ensures AfterConsume(s, call, token, f) ==
            s.(live := if f.consume == Lost then s.live else s.live - {token},
               calls := if f.consume == Works && token in s.live then s.calls[call := Checking(token)] else s.calls)
  {
  }

  lemma Signed(s: State, call: CallId, token: TokenId, hash: string, active: bool, f: RefreshFaults)
    requires call !in s.calls && token < |s.issued| && token !in s.expired && FreshHash(s.issued, hash)
    ensures var t := AfterSignature(s, call, token, hash, active, f);
            && t.live == (if f.consume == Lost then s.live else s.live - {token})
            && t.blacklist == s.blacklist && t.redeemed == s.redeemed
            && (if Granted(s, token, active, f)
                then && t.issued == s.issued + [Issue(s.issued[token].user, hash, s.issued[token].signIn)]
                     && t.calls == s.calls[call := Blacklisting(token, |s.issued|)]
                else t.issued == s.issued && t.calls == s.calls)
  {
    Consumed(s, call, token, f);
  }

  /** Undisturbed, a refresh redeems its token exactly when it is granted: it then signs one token for the same
      user, blacklists the old one and records the new one, as far as Redis takes it. Refused, it signs nothing,
      and the session it took is gone all the same. */
  lemma UninterruptedRefresh(s: State, call: CallId, token: TokenId, hash: string, active: bool, f: RefreshFaults)
    requires call !in s.calls && token < |s.issued| && token !in s.expired && FreshHash(s.issued, hash)
    ensures var t, left := AfterRefresh(s, call, token, hash, active, f), if f.consume == Lost then s.live else s.live - {token};
            && t.calls == s.calls
            && (if Granted(s, token, active, f)
                then && t.redeemed == s.redeemed + [token]
                     && t.issued == s.issued + [Issue(s.issued[token].user, hash, s.issued[token].signIn)]
                     && t.blacklist == (if f.blacklisting == Lost then s.blacklist else s.blacklist + {token})
                     && t.live == (if f.record == Lost then left else left + {|s.issued|})
                else t.redeemed == s.redeemed && t.issued == s.issued && t.blacklist == s.blacklist && t.live == left)
  {
    Signed(s, call, token, hash, active, f);
  }
}
