/** The refresh allowlist as keys of the cache: each call is one step of the rotation protocol. */
module RefreshAllowlist {
  import opened Base
  import opened KeyStore
  import opened RefreshTokens

  /** `show` renders an identifier; different identifiers look different. */
  ghost predicate Injective(show: Uuid -> string) { forall i, j :: show(i) == show(j) ==> i == j }

  function RefreshKey(jti: Jti, show: Uuid -> string): string { "refresh:" + show(jti) }

  lemma KeysDiffer(i: Jti, j: Jti, show: Uuid -> string)
    requires Injective(show) && RefreshKey(i, show) == RefreshKey(j, show)
    ensures i == j
  {
    assert RefreshKey(i, show)[8..] == show(i) && RefreshKey(j, show)[8..] == show(j);
  }

  /** The allowlisted tokens are those whose key answers. */
  ghost predicate Lists(live: map<string, Uuid>, show: Uuid -> string, allowed: set<Jti>) {
    forall j :: j in allowed <==> RefreshKey(j, show) in live
  }

  lemma OnlyKeyAdded(before: map<string, Uuid>, after: map<string, Uuid>, show: Uuid -> string,
                     allowed: set<Jti>, jti: Jti)
    requires Injective(show) && Lists(before, show, allowed)
    requires after.Keys == before.Keys + {RefreshKey(jti, show)}
    ensures Lists(after, show, allowed + {jti})
  {
    forall j ensures j in allowed + {jti} <==> RefreshKey(j, show) in after {
      if RefreshKey(j, show) == RefreshKey(jti, show) {
        KeysDiffer(j, jti, show);
      }
    }
  }

  lemma OnlyKeyGone(before: map<string, Uuid>, after: map<string, Uuid>, show: Uuid -> string,
                    allowed: set<Jti>, jti: Jti)
    requires Injective(show) && Lists(before, show, allowed)
    requires after.Keys == before.Keys - {RefreshKey(jti, show)}
    ensures Lists(after, show, allowed - {jti})
  {
    forall j ensures j in allowed - {jti} <==> RefreshKey(j, show) in after {
      if RefreshKey(j, show) == RefreshKey(jti, show) {
        KeysDiffer(j, jti, show);
      }
    }
  }

  /** What `allow_refresh` does is the sign-in's or the refresh's allow step. */
  method AllowRefresh(cache: Cache<Uuid>, jti: Jti, user: Uuid, ttl: nat, show: Uuid -> string,
                      ghost s: State, ghost step: Step)
    requires Injective(show) && ttl > 0 && Lists(cache.Live(), show, s.allowed)
    requires Enabled(s, step) && (step.AllowNew? || step.AllowRotated?) && s.tasks[step.t].jti == jti
    modifies cache`entries
    ensures Lists(cache.Live(), show, After(s, step).allowed)
  {
    ghost var before := cache.Live();
    cache.Write(RefreshKey(jti, show), user, ttl);
    OnlyKeyAdded(before, cache.Live(), show, s.allowed, jti);
  }

  /** What `consume_refresh` does is the refresh's first step: it succeeds exactly when the token was
      allowlisted, and then the request goes on. */
  method ConsumeRefresh(cache: Cache<Uuid>, jti: Jti, show: Uuid -> string,
                        ghost s: State, ghost t: Tid, ghost next: Jti) returns (consumed: bool)
    requires Injective(show) && Lists(cache.Live(), show, s.allowed) && Enabled(s, Present(t, jti, next))
    modifies cache`entries
    ensures Lists(cache.Live(), show, After(s, Present(t, jti, next)).allowed)
    ensures consumed <==> jti in s.allowed
    ensures consumed <==> t in After(s, Present(t, jti, next)).tasks
  {
    ghost var before := cache.Live();
    var value := cache.Take(RefreshKey(jti, show));
    consumed := value.Some?;
    OnlyKeyGone(before, cache.Live(), show, s.allowed, jti);
  }

  /** What `revoke_refresh` does is a sign-out's first step or a revocation's drop. */
  method RevokeRefresh(cache: Cache<Uuid>, jti: Jti, show: Uuid -> string, ghost s: State, ghost step: Step)
    requires Injective(show) && Lists(cache.Live(), show, s.allowed)
    requires Enabled(s, step) && ((step.SignOut? && step.jti == jti) || (step.Drop? && step.jti == jti))
    modifies cache`entries
    ensures Lists(cache.Live(), show, After(s, step).allowed)
  {
    ghost var before := cache.Live();
    cache.Remove(RefreshKey(jti, show));
    OnlyKeyGone(before, cache.Live(), show, s.allowed, jti);
  }

  /** As time passes tokens expire, which the protocol allows at any moment. */
  method PassTime(cache: Cache<Uuid>, secs: nat, ghost show: Uuid -> string, ghost allowed: set<Jti>)
    returns (ghost expired: set<Jti>)
    requires Lists(cache.Live(), show, allowed)
    modifies cache`now
    ensures cache.now == old(cache.now) + secs
    ensures expired <= allowed && Lists(cache.Live(), show, allowed - expired)
  {
    cache.Tick(secs);
    expired := set j | j in allowed && RefreshKey(j, show) !in cache.Live();
  }
}
