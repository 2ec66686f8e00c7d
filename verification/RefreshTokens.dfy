/** Refresh-token rotation as an interleaving of atomic steps on two stores: the Redis allowlist
    of refresh jtis and the `auth_sessions` rows. */
module RefreshTokens {
  import opened Base
  import opened Runs

  type Jti = Uuid
  type Sid = Uuid
  type Tid = Uuid

  /** Tokens minted before sessions existed carry the nil session id. */
  const NIL: Sid := Uuid(0)

  datatype Row = Row(user: Uuid, current: Jti, revoked: bool)

  /** Where a request in flight stands between two of its store calls. */
  datatype Task =
    | Starting(sid: Sid, jti: Jti, user: Uuid)       // sign-in: minted, not yet allowlisted
    | StartAllowed(sid: Sid, jti: Jti, user: Uuid)   // sign-in: allowlisted, row not yet inserted
    | Rotating(sid: Sid, jti: Jti)                   // refresh: old jti consumed, new one minted
    | Rotated(sid: Sid, jti: Jti)                    // refresh: row touched, not yet allowlisted
    | SigningOut(sid: Sid)                           // sign-out: jti dropped, row not yet revoked
    | Dropping(jtis: set<Jti>)                       // revocation: rows revoked, jtis to be dropped

  /** `minted` and `lineage` record every refresh token ever minted and its session's order of
      minting; `issued` records the tokens that were handed to a client. */
  datatype State = State(
    allowed: set<Jti>,
    rows: map<Sid, Row>,
    tasks: map<Tid, Task>,
    minted: map<Jti, Sid>,
    lineage: map<Sid, seq<Jti>>,
    issued: set<Jti>)

  datatype Step =
    | SignIn(t: Tid, sid: Sid, jti: Jti, user: Uuid)
    | AllowNew(t: Tid)
    | InsertRow(t: Tid)
    | Present(t: Tid, jti: Jti, next: Jti)
    | Touch(t: Tid)
    | AllowRotated(t: Tid)
    | SignOut(t: Tid, jti: Jti)
    | SignOutRow(t: Tid)
    | Revoke(t: Tid, sid: Sid)
    | RevokeOthers(t: Tid, user: Uuid, keep: Option<Sid>)
    | Drop(t: Tid, jti: Jti)
    | Expire(jti: Jti)
    | Abort(t: Tid)

  // ---- Row steps -----------------------------------------------------------------------

  predicate Live(rows: map<Sid, Row>, sid: Sid) { sid in rows && !rows[sid].revoked }

  /** `UPDATE ... SET current_jti WHERE id = $1 AND revoked_at IS NULL`. */
  function TouchSession(rows: map<Sid, Row>, sid: Sid, jti: Jti): map<Sid, Row> {
    if Live(rows, sid) then rows[sid := rows[sid].(current := jti)] else rows
  }

  function RevokeSession(rows: map<Sid, Row>, sid: Sid): map<Sid, Row> {
    if Live(rows, sid) then rows[sid := rows[sid].(revoked := true)] else rows
  }

  predicate Hit(rows: map<Sid, Row>, user: Uuid, keep: Option<Sid>, sid: Sid) {
    Live(rows, sid) && rows[sid].user == user && keep != Some(sid)
  }

  function RevokeAll(rows: map<Sid, Row>, user: Uuid, keep: Option<Sid>): map<Sid, Row> {
    map sid | sid in rows :: if Hit(rows, user, keep, sid) then rows[sid].(revoked := true) else rows[sid]
  }

  function RevokedJtis(rows: map<Sid, Row>, user: Uuid, keep: Option<Sid>): set<Jti> {
    set sid | sid in rows && Hit(rows, user, keep, sid) :: rows[sid].current
  }

  // ---- Request steps -------------------------------------------------------------------

  function Done(s: State, t: Tid): State { s.(tasks := s.tasks - {t}) }

  function Move(s: State, t: Tid, task: Task): State { s.(tasks := s.tasks[t := task]) }

  /** Mint `jti` for `sid`: a fresh id, appended to the session's lineage. */
  function Mint(s: State, sid: Sid, jti: Jti): State {
    s.(minted := s.minted[jti := sid],
       lineage := s.lineage[sid := (if sid in s.lineage then s.lineage[sid] else []) + [jti]])
  }

  /** Whether `step` can happen in `s`: the request is at the right point and random ids are new. */
  predicate Enabled(s: State, step: Step) {
    match step
    case SignIn(t, sid, jti, _) =>
      t !in s.tasks && sid != NIL && sid !in s.lineage && jti !in s.minted
    case AllowNew(t) => t in s.tasks && s.tasks[t].Starting?
    case InsertRow(t) => t in s.tasks && s.tasks[t].StartAllowed?
    case Present(t, jti, next) => t !in s.tasks && jti in s.minted && next !in s.minted
    case Touch(t) => t in s.tasks && s.tasks[t].Rotating?
    case AllowRotated(t) => t in s.tasks && s.tasks[t].Rotated?
    case SignOut(t, jti) => t !in s.tasks && jti in s.minted
    case SignOutRow(t) => t in s.tasks && s.tasks[t].SigningOut?
    case Revoke(t, _) => t !in s.tasks
    case RevokeOthers(t, _, _) => t !in s.tasks
    case Drop(t, jti) => t in s.tasks && s.tasks[t].Dropping? && jti in s.tasks[t].jtis
    case Expire(_) => true
    case Abort(t) => t in s.tasks
  }

  /** The state after `step`. A refresh whose jti is not allowlisted, or whose row is missing or
      revoked at the touch, ends there with a 401. */
  function After(s: State, step: Step): State
    requires Enabled(s, step)
  {
    match step
    case SignIn(t, sid, jti, user) => Move(Mint(s, sid, jti), t, Starting(sid, jti, user))
    case AllowNew(t) =>
      var k := s.tasks[t];
      Move(s.(allowed := s.allowed + {k.jti}), t, StartAllowed(k.sid, k.jti, k.user))
    case InsertRow(t) =>
      var k := s.tasks[t];
      Done(s.(rows := s.rows[k.sid := Row(k.user, k.jti, false)], issued := s.issued + {k.jti}), t)
    case Present(t, jti, next) =>
      if jti !in s.allowed then s
      else
        var sid := s.minted[jti];
        Move(Mint(s.(allowed := s.allowed - {jti}), sid, next), t, Rotating(sid, next))
    case Touch(t) =>
      var k := s.tasks[t];
      if k.sid == NIL || !Live(s.rows, k.sid) then Done(s, t)
      else Move(s.(rows := TouchSession(s.rows, k.sid, k.jti)), t, Rotated(k.sid, k.jti))
    case AllowRotated(t) =>
      var k := s.tasks[t];
      Done(s.(allowed := s.allowed + {k.jti}, issued := s.issued + {k.jti}), t)
    case SignOut(t, jti) =>
      var s' := s.(allowed := s.allowed - {jti});
      if s.minted[jti] == NIL then s' else Move(s', t, SigningOut(s.minted[jti]))
    case SignOutRow(t) => Done(s.(rows := RevokeSession(s.rows, s.tasks[t].sid)), t)
    case Revoke(t, sid) =>
      if Live(s.rows, sid)
      then Move(s.(rows := RevokeSession(s.rows, sid)), t, Dropping({s.rows[sid].current}))
      else s
    case RevokeOthers(t, user, keep) =>
      Move(s.(rows := RevokeAll(s.rows, user, keep)), t, Dropping(RevokedJtis(s.rows, user, keep)))
    case Drop(t, jti) =>
      Move(s.(allowed := s.allowed - {jti}), t, Dropping(s.tasks[t].jtis - {jti}))
    case Expire(jti) => s.(allowed := s.allowed - {jti})
    case Abort(t) => Done(s, t)
  }

  /** At start there are no sessions; allowlisted tokens, if any, are legacy ones. */
  ghost predicate Init(s: State) {
    && s.rows == map[] && s.tasks == map[] && s.lineage.Keys <= {NIL} && s.issued == {}
    && (forall j :: j in s.allowed ==> j in s.minted)
    && (forall j :: j in s.minted ==> s.minted[j] == NIL)
  }

  // ---- The invariant ---------------------------------------------------------------------

  /** The request holds a jti that is minted and not yet allowlisted. */
  predicate Holds(k: Task) { k.Starting? || k.Rotating? || k.Rotated? }

  predicate Carries(k: Task) { Holds(k) || k.StartAllowed? }

  predicate Starts(k: Task) { k.Starting? || k.StartAllowed? }

  ghost predicate Distinct(xs: seq<Jti>) {
    forall i, j :: 0 <= i < j < |xs| ==> xs[i] != xs[j]
  }

  /** A session's lineage is duplicate-free and lists exactly the tokens minted for it. */
  ghost predicate LineageOk(s: State) {
    && (forall sid :: sid in s.lineage && sid != NIL ==> s.lineage[sid] != [] && Distinct(s.lineage[sid]))
    && (forall sid, j :: sid in s.lineage && sid != NIL && j in s.lineage[sid]
          ==> j in s.minted && s.minted[j] == sid)
    && (forall j :: j in s.minted && s.minted[j] != NIL ==> s.minted[j] in s.lineage)
  }

  /** The newest token of a session. */
  ghost predicate IsNewest(s: State, sid: Sid, j: Jti) {
    sid in s.lineage && s.lineage[sid] != [] && s.lineage[sid][|s.lineage[sid]| - 1] == j
  }

  /** Only the newest token of a session is allowlisted. */
  ghost predicate AllowedOk(s: State) {
    forall j :: j in s.allowed ==> j in s.minted && (s.minted[j] != NIL ==> IsNewest(s, s.minted[j], j))
  }

  ghost predicate IssuedOk(s: State) {
    forall j :: j in s.issued ==> j in s.minted
  }

  /** Only the newest token of a session is held, it is not allowlisted as well, and only one
      request holds it. */
  ghost predicate HeldOk(s: State) {
    && (forall t :: t in s.tasks && Carries(s.tasks[t]) ==>
          s.tasks[t].jti in s.minted && s.minted[s.tasks[t].jti] == s.tasks[t].sid)
    && (forall t :: t in s.tasks && Holds(s.tasks[t]) && s.tasks[t].sid != NIL ==>
          IsNewest(s, s.tasks[t].sid, s.tasks[t].jti))
    && (forall t :: t in s.tasks && Holds(s.tasks[t]) ==> s.tasks[t].jti !in s.allowed)
    && (forall t, u | t in s.tasks && u in s.tasks && Holds(s.tasks[t]) && Holds(s.tasks[u]) ::
          s.tasks[t].jti == s.tasks[u].jti ==> t == u)
  }

  /** A session being started has no row, and nobody else starts it. */
  ghost predicate StartOk(s: State) {
    && (forall t :: t in s.tasks && Starts(s.tasks[t]) ==> s.tasks[t].sid != NIL && s.tasks[t].sid !in s.rows)
    && (forall t, u | t in s.tasks && u in s.tasks && Starts(s.tasks[t]) && Starts(s.tasks[u]) ::
          s.tasks[t].sid == s.tasks[u].sid ==> t == u)
    && (forall sid :: sid in s.rows ==> sid in s.lineage && sid != NIL)
  }

  ghost predicate Inv(s: State) {
    LineageOk(s) && AllowedOk(s) && IssuedOk(s) && HeldOk(s) && StartOk(s)
  }

  lemma InitInv(s: State)
    requires Init(s)
    ensures Inv(s)
  {
  }

  lemma MintKeeps(s: State, sid: Sid, jti: Jti)
    requires LineageOk(s) && jti !in s.minted
    ensures LineageOk(Mint(s, sid, jti)) && IsNewest(Mint(s, sid, jti), sid, jti)
  {
  }

  lemma MintKeepsHeld(s: State, sid: Sid, jti: Jti, t: Tid, k: Task)
    requires HeldOk(s) && AllowedOk(s) && jti !in s.minted && t !in s.tasks
    requires Holds(k) && k.sid == sid && k.jti == jti
    requires forall u :: u in s.tasks && Holds(s.tasks[u]) ==> sid == NIL || s.tasks[u].sid != sid
    ensures HeldOk(Move(Mint(s, sid, jti), t, k))
  {
  }

  lemma MintKeepsAllowed(s: State, sid: Sid, jti: Jti, t: Tid, k: Task)
    requires AllowedOk(s) && jti !in s.minted
    requires forall j :: j in s.allowed && s.minted[j] == sid ==> sid == NIL
    ensures AllowedOk(Move(Mint(s, sid, jti), t, k))
  {
  }

  lemma SignInInv(s: State, t: Tid, sid: Sid, jti: Jti, user: Uuid)
    requires Inv(s) && Enabled(s, SignIn(t, sid, jti, user))
    ensures Inv(After(s, SignIn(t, sid, jti, user)))
  {
    var k := Starting(sid, jti, user);
    MintKeeps(s, sid, jti);
    MintKeepsHeld(s, sid, jti, t, k);
    MintKeepsAllowed(s, sid, jti, t, k);
    SignInStart(s, t, sid, jti, user);
  }

  lemma SignInStart(s: State, t: Tid, sid: Sid, jti: Jti, user: Uuid)
    requires StartOk(s) && HeldOk(s) && LineageOk(s) && Enabled(s, SignIn(t, sid, jti, user))
    ensures StartOk(After(s, SignIn(t, sid, jti, user)))
  {
    forall u | u in s.tasks && Starts(s.tasks[u]) ensures s.tasks[u].sid != sid {
      assert Carries(s.tasks[u]);
    }
  }

  lemma PresentInv(s: State, t: Tid, jti: Jti, next: Jti)
    requires Inv(s) && Enabled(s, Present(t, jti, next))
    ensures Inv(After(s, Present(t, jti, next)))
  {
    if jti in s.allowed {
      var sid, consumed := s.minted[jti], s.(allowed := s.allowed - {jti});
      ConsumeInv(s, jti);
      MintKeeps(consumed, sid, next);
      MintKeepsHeld(consumed, sid, next, t, Rotating(sid, next));
      MintKeepsAllowed(consumed, sid, next, t, Rotating(sid, next));
      OtherTaskStart(consumed, After(s, Present(t, jti, next)), t, Rotating(sid, next));
    }
  }

  /** Once its token is consumed, nothing of the session is allowlisted or held. */
  lemma ConsumeInv(s: State, jti: Jti)
    requires Inv(s) && jti in s.allowed
    ensures Inv(s.(allowed := s.allowed - {jti}))
    ensures var sid := s.minted[jti]; sid != NIL ==>
      && (forall j :: j in s.allowed && s.minted[j] == sid ==> j == jti)
      && (forall u :: u in s.tasks && Holds(s.tasks[u]) ==> s.tasks[u].sid != sid)
  {
    WithdrawInv(s, s.(allowed := s.allowed - {jti}));
  }

  /** A step that only withdraws tokens, ends requests or revokes rows keeps the invariant. */
  ghost predicate Withdraws(s: State, s': State) {
    && s'.minted == s.minted && s'.lineage == s.lineage && s'.issued == s.issued
    && s'.allowed <= s.allowed && s'.rows.Keys == s.rows.Keys
    && (forall t :: t in s'.tasks && Carries(s'.tasks[t]) ==> t in s.tasks && s'.tasks[t] == s.tasks[t])
  }

  lemma WithdrawHeld(s: State, s': State)
    requires HeldOk(s) && Withdraws(s, s')
    ensures HeldOk(s')
  {
  }

  lemma WithdrawStart(s: State, s': State)
    requires StartOk(s) && Withdraws(s, s')
    ensures StartOk(s')
  {
  }

  lemma WithdrawInv(s: State, s': State)
    requires Inv(s) && Withdraws(s, s')
    ensures Inv(s')
  {
    WithdrawHeld(s, s');
    WithdrawStart(s, s');
  }

  /** A request that starts nothing and inserts no row leaves the starting sessions alone. */
  lemma OtherTaskStart(s: State, s': State, t: Tid, k: Task)
    requires StartOk(s) && s'.tasks == s.tasks[t := k] && !Starts(k)
    requires s'.rows.Keys == s.rows.Keys && s.lineage.Keys <= s'.lineage.Keys
    ensures StartOk(s')
  {
  }

  /** The jti a request held becomes allowlisted and the request holds nothing any more. */
  lemma AllowInv(s: State, t: Tid, s': State)
    requires Inv(s) && t in s.tasks && Holds(s.tasks[t])
    requires s'.allowed == s.allowed + {s.tasks[t].jti} && s'.issued <= s.issued + {s.tasks[t].jti}
    requires s'.minted == s.minted && s'.lineage == s.lineage && s'.rows == s.rows
    requires s'.tasks == s.tasks - {t} || (s.tasks[t].Starting?
      && s'.tasks == s.tasks[t := StartAllowed(s.tasks[t].sid, s.tasks[t].jti, s.tasks[t].user)])
    ensures Inv(s')
  {
    AllowHeld(s, t, s');
    AllowStart(s, t, s');
  }

  lemma AllowStart(s: State, t: Tid, s': State)
    requires StartOk(s) && t in s.tasks && Holds(s.tasks[t]) && s'.rows == s.rows && s'.lineage == s.lineage
    requires s'.tasks == s.tasks - {t} || (s.tasks[t].Starting?
      && s'.tasks == s.tasks[t := StartAllowed(s.tasks[t].sid, s.tasks[t].jti, s.tasks[t].user)])
    ensures StartOk(s')
  {
  }

  lemma AllowHeld(s: State, t: Tid, s': State)
    requires HeldOk(s) && t in s.tasks && Holds(s.tasks[t])
    requires s'.allowed == s.allowed + {s.tasks[t].jti} && s'.minted == s.minted && s'.lineage == s.lineage
    requires s'.tasks == s.tasks - {t} || (s.tasks[t].Starting?
      && s'.tasks == s.tasks[t := StartAllowed(s.tasks[t].sid, s.tasks[t].jti, s.tasks[t].user)])
    ensures HeldOk(s')
  {
    forall u | u in s'.tasks && Holds(s'.tasks[u])
      ensures u in s.tasks && s'.tasks[u] == s.tasks[u] && s.tasks[u].jti !in s'.allowed
    {
      assert u != t;
    }
  }

  lemma InsertRowInv(s: State, t: Tid)
    requires Inv(s) && Enabled(s, InsertRow(t))
    ensures Inv(After(s, InsertRow(t)))
  {
    InsertRowStart(s, t);
    InsertRowHeld(s, t);
  }

  lemma InsertRowStart(s: State, t: Tid)
    requires StartOk(s) && HeldOk(s) && LineageOk(s) && Enabled(s, InsertRow(t))
    ensures StartOk(After(s, InsertRow(t)))
  {
    assert Carries(s.tasks[t]);
  }

  lemma InsertRowHeld(s: State, t: Tid)
    requires HeldOk(s) && Enabled(s, InsertRow(t))
    ensures HeldOk(After(s, InsertRow(t)))
  {
  }

  lemma TouchInv(s: State, t: Tid, s': State)
    requires Inv(s) && t in s.tasks && s.tasks[t].Rotating?
    requires s'.allowed == s.allowed && s'.minted == s.minted && s'.lineage == s.lineage
    requires s'.rows.Keys == s.rows.Keys && s'.issued == s.issued
    requires s'.tasks == s.tasks[t := Rotated(s.tasks[t].sid, s.tasks[t].jti)]
    ensures Inv(s')
  {
    var k := Rotated(s.tasks[t].sid, s.tasks[t].jti);
    OtherTaskStart(s, s', t, k);
    TouchHeld(s, t, s');
  }

  lemma TouchHeld(s: State, t: Tid, s': State)
    requires HeldOk(s) && t in s.tasks && s.tasks[t].Rotating?
    requires s'.allowed == s.allowed && s'.minted == s.minted && s'.lineage == s.lineage
    requires s'.tasks == s.tasks[t := Rotated(s.tasks[t].sid, s.tasks[t].jti)]
    ensures HeldOk(s')
  {
  }

  /** The step mints, allowlists and inserts nothing, and rotates no row. */
  predicate IsWithdrawal(s: State, step: Step)
    requires Enabled(s, step)
  {
    && !step.SignIn? && !step.Present? && !step.AllowNew? && !step.AllowRotated? && !step.InsertRow?
    && (step.Touch? ==> !Live(s.rows, s.tasks[step.t].sid))
  }

  lemma WithdrawStep(s: State, step: Step)
    requires Enabled(s, step) && IsWithdrawal(s, step)
    ensures Withdraws(s, After(s, step))
  {
  }

  /** Every step keeps the invariant. */
  lemma StepInv(s: State, step: Step)
    requires Inv(s) && Enabled(s, step)
    ensures Inv(After(s, step))
  {
    match step
    case SignIn(t, sid, jti, user) => SignInInv(s, t, sid, jti, user);
    case Present(t, jti, next) => PresentInv(s, t, jti, next);
    case AllowNew(t) => AllowInv(s, t, After(s, step));
    case AllowRotated(t) => AllowInv(s, t, After(s, step));
    case InsertRow(t) => InsertRowInv(s, t);
    case Touch(t) =>
      if Live(s.rows, s.tasks[t].sid) {
        TouchInv(s, t, After(s, step));
      } else {
        WithdrawStep(s, step);
        WithdrawInv(s, After(s, step));
      }
    case _ =>
      WithdrawStep(s, step);
      WithdrawInv(s, After(s, step));
  }

  // ---- One usable token per session --------------------------------------------------------

  /** `j` can still be turned into a newer token: it is allowlisted, or a request holds it between
      consuming its predecessor (or signing in) and allowlisting it. */
  ghost predicate Active(s: State, j: Jti) {
    j in s.allowed || exists t :: t in s.tasks && Holds(s.tasks[t]) && s.tasks[t].jti == j
  }

  lemma ActiveIsNewest(s: State, j: Jti)
    requires Inv(s) && Active(s, j) && j in s.minted && s.minted[j] != NIL
    ensures IsNewest(s, s.minted[j], j)
  {
    if j !in s.allowed {
      var t :| t in s.tasks && Holds(s.tasks[t]) && s.tasks[t].jti == j;
    }
  }

  // ---- Runs ------------------------------------------------------------------------------

  type History = Run<State, Step>

  ghost predicate IsRun(r: History) {
    && |r.states| == |r.steps| + 1 && Init(r.states[0])
    && forall i :: 0 <= i < |r.steps| ==>
         Enabled(r.states[i], r.steps[i]) && r.states[i + 1] == After(r.states[i], r.steps[i])
  }

  /** The invariant holds throughout every run. */
  lemma {:induction false} RunInv(r: History, i: nat)
    requires IsRun(r) && i < |r.states|
    ensures Inv(r.states[i])
  {
    if i == 0 {
      InitInv(r.states[0]);
    } else {
      RunInv(r, i - 1);
      StepInv(r.states[i - 1], r.steps[i - 1]);
    }
  }

  /** In every reachable state at most one token of a session is allowlisted or held. */
  lemma AtMostOneActive(r: History, i: nat, j1: Jti, j2: Jti)
    requires IsRun(r) && i < |r.states| && Active(r.states[i], j1) && Active(r.states[i], j2)
    requires j1 in r.states[i].minted && j2 in r.states[i].minted
    requires r.states[i].minted[j1] == r.states[i].minted[j2] != NIL
    ensures j1 == j2
  {
    RunInv(r, i);
    ActiveIsNewest(r.states[i], j1);
    ActiveIsNewest(r.states[i], j2);
  }

  /** Histories only grow: what was minted stays minted and lineages are extended at the end. */
  ghost predicate Extends(s: State, s': State) {
    && (forall j :: j in s.minted ==> j in s'.minted && s'.minted[j] == s.minted[j])
    && (forall sid :: sid in s.lineage ==> sid in s'.lineage && Grows(s.lineage[sid], s'.lineage[sid]))
  }

  /** `ys` is `xs` with perhaps more at its end. */
  ghost predicate Grows(xs: seq<Jti>, ys: seq<Jti>) {
    |xs| <= |ys| && forall i :: 0 <= i < |xs| ==> xs[i] == ys[i]
  }

  lemma StepExtends(s: State, step: Step)
    requires Enabled(s, step)
    ensures Extends(s, After(s, step))
  {
  }

  lemma ExtendsOnce(r: History, k: nat)
    requires IsRun(r) && k < |r.steps|
    ensures Extends(r.states[k], r.states[k + 1])
  {
    StepExtends(r.states[k], r.steps[k]);
  }

  lemma ExtendsOn(a: State, b: State, c: State)
    requires Extends(a, b) && Extends(b, c)
    ensures Extends(a, c)
  {
    forall sid | sid in a.lineage ensures sid in c.lineage && Grows(a.lineage[sid], c.lineage[sid]) {
      assert Grows(a.lineage[sid], b.lineage[sid]) && Grows(b.lineage[sid], c.lineage[sid]);
    }
  }

  lemma {:induction false} ChainExtends(states: seq<State>, i: nat, k: nat)
    requires i <= k < |states| && forall m :: 0 <= m < |states| - 1 ==> Extends(states[m], states[m + 1])
    ensures Extends(states[i], states[k])
    decreases k
  {
    if i == k {
    } else {
      ChainExtends(states, i, k - 1);
      assert Extends(states[k - 1], states[k - 1 + 1]);
      ExtendsOn(states[i], states[k - 1], states[k]);
    }
  }

  lemma RunExtends(r: History, i: nat, k: nat)
    requires IsRun(r) && i <= k < |r.states|
    ensures Extends(r.states[i], r.states[k])
  {
    forall m | 0 <= m < |r.states| - 1 ensures Extends(r.states[m], r.states[m + 1]) {
      ExtendsOnce(r, m);
    }
    ChainExtends(r.states, i, k);
  }

  /** Step `i` is a refresh that gets past the allowlist with `jti`. */
  ghost predicate Consumes(r: History, i: nat, jti: Jti)
    requires IsRun(r) && i < |r.steps|
  {
    r.steps[i].Present? && r.steps[i].jti == jti && jti in r.states[i].allowed
  }

  /** A refresh extends its session's chain: the consumed token was its newest, the minted one is
      appended right after it. */
  lemma RotationAppends(r: History, i: nat, jti: Jti)
    requires IsRun(r) && i < |r.steps| && Consumes(r, i, jti) && r.states[i].minted[jti] != NIL
    ensures var s, s', sid := r.states[i], r.states[i + 1], r.states[i].minted[jti];
      IsNewest(s, sid, jti) && s'.lineage[sid] == s.lineage[sid] + [r.steps[i].next]
  {
    RunInv(r, i);
  }

  /** No token is consumed twice, so every token has at most one successor. */
  lemma ConsumedOnce(r: History, i: nat, k: nat, jti: Jti)
    requires IsRun(r) && i < k < |r.steps|
    requires Consumes(r, i, jti) && r.states[i].minted[jti] != NIL
    ensures !Consumes(r, k, jti)
  {
    var sid := r.states[i].minted[jti];
    RotationAppends(r, i, jti);
    RunExtends(r, i, i + 1);
    RunExtends(r, i + 1, k);
    RunInv(r, k);
    PassedOver(r.states[i + 1].lineage[sid], r.states[k].lineage[sid], jti);
  }

  lemma PassedOver(early: seq<Jti>, late: seq<Jti>, j: Jti)
    requires Grows(early, late) && Distinct(late) && |early| >= 2 && early[|early| - 2] == j
    ensures late[|late| - 1] != j
  {
    assert late[|early| - 2] == j;
  }

  // ---- Revocation ------------------------------------------------------------------------

  ghost predicate IsRevoked(s: State, sid: Sid) { sid in s.rows && s.rows[sid].revoked }

  /** A refresh that touched the row before it was revoked still holds `j`. */
  ghost predicate IsStray(s: State, sid: Sid, j: Jti) {
    exists t :: t in s.tasks && s.tasks[t] == Rotated(sid, j)
  }

  lemma AtMostOneStray(s: State, sid: Sid, j1: Jti, j2: Jti)
    requires Inv(s) && sid != NIL && IsStray(s, sid, j1) && IsStray(s, sid, j2)
    ensures j1 == j2
  {
    var t1 :| t1 in s.tasks && s.tasks[t1] == Rotated(sid, j1);
    var t2 :| t2 in s.tasks && s.tasks[t2] == Rotated(sid, j2);
    assert IsNewest(s, sid, s.tasks[t1].jti) && IsNewest(s, sid, s.tasks[t2].jti);
  }

  ghost predicate Of(s: State, j: Jti, sid: Sid) { j in s.minted && s.minted[j] == sid }

  /** A token of the session is allowlisted. */
  ghost predicate Usable(s: State, sid: Sid, j: Jti) { j in s.allowed && Of(s, j, sid) }

  /** From `s` to the later `s'` the revoked session gained nothing but what strays of `s` bring:
      no new stray, no other allowlisted token, no other token handed out. */
  ghost predicate Frozen(s: State, s': State, sid: Sid) {
    && IsRevoked(s', sid)
    && (forall j :: IsStray(s', sid, j) ==> IsStray(s, sid, j))
    && (forall j :: j in s'.allowed && Of(s', j, sid) ==> j in s.allowed || IsStray(s, sid, j))
    && (forall j :: j in s'.issued && Of(s', j, sid) ==> j in s.issued || IsStray(s, sid, j))
  }

  lemma StepFreezes(s: State, step: Step, sid: Sid)
    requires Inv(s) && Enabled(s, step) && IsRevoked(s, sid)
    ensures Frozen(s, After(s, step), sid)
  {
    StepStrays(s, step, sid);
    StepAllows(s, step, sid);
    RevokedRowStays(s, step, sid);
  }

  lemma StepStrays(s: State, step: Step, sid: Sid)
    requires Enabled(s, step) && IsRevoked(s, sid)
    ensures forall j :: IsStray(After(s, step), sid, j) ==> IsStray(s, sid, j)
  {
    var s' := After(s, step);
    forall j | IsStray(s', sid, j) ensures IsStray(s, sid, j) {
      var t :| t in s'.tasks && s'.tasks[t] == Rotated(sid, j);
      assert t in s.tasks && s.tasks[t] == Rotated(sid, j);
    }
  }

  lemma StepAllows(s: State, step: Step, sid: Sid)
    requires Inv(s) && Enabled(s, step) && IsRevoked(s, sid)
    ensures var s' := After(s, step);
      forall j :: Of(s', j, sid) ==>
        && (j in s'.allowed ==> j in s.allowed || IsStray(s, sid, j))
        && (j in s'.issued ==> j in s.issued || IsStray(s, sid, j))
  {
    var s' := After(s, step);
    forall j | Of(s', j, sid)
      ensures j in s'.allowed ==> j in s.allowed || IsStray(s, sid, j)
      ensures j in s'.issued ==> j in s.issued || IsStray(s, sid, j)
    {
      if step.AllowRotated? && s.tasks[step.t].jti == j {
        assert s.tasks[step.t] == Rotated(sid, j);
      }
    }
  }

  /** Throughout the rest of a run, a revoked session stays revoked and frozen. */
  lemma {:induction false} RevokedStaysFrozen(r: History, i: nat, k: nat, sid: Sid)
    requires IsRun(r) && i <= k < |r.states| && IsRevoked(r.states[i], sid)
    ensures Frozen(r.states[i], r.states[k], sid)
    decreases k
  {
    if i == k {
    } else {
      RevokedStaysFrozen(r, i, k - 1, sid);
      FreezeOnce(r, k - 1, sid);
      FrozenComposes(r.states[i], r.states[k - 1], r.states[k], sid);
    }
  }

  lemma FreezeOnce(r: History, k: nat, sid: Sid)
    requires IsRun(r) && k < |r.steps| && IsRevoked(r.states[k], sid)
    ensures Frozen(r.states[k], r.states[k + 1], sid) && Extends(r.states[k], r.states[k + 1])
    ensures AllowedOk(r.states[k]) && IssuedOk(r.states[k])
  {
    RunInv(r, k);
    StepFreezes(r.states[k], r.steps[k], sid);
    StepExtends(r.states[k], r.steps[k]);
  }

  lemma FrozenComposes(a: State, b: State, c: State, sid: Sid)
    requires Frozen(a, b, sid) && Frozen(b, c, sid)
    requires AllowedOk(b) && IssuedOk(b) && Extends(b, c)
    ensures Frozen(a, c, sid)
  {
  }

  /** Tokens allowlisted or handed out after a revocation: at most one in the whole rest of the run,
      and a refresh already past its touch held it when the row was revoked. */
  lemma AtMostOneTokenAfterRevocation(r: History, i: nat, k1: nat, k2: nat, sid: Sid, j1: Jti, j2: Jti)
    requires IsRun(r) && i <= k1 < |r.states| && i <= k2 < |r.states| && IsRevoked(r.states[i], sid)
    requires Of(r.states[k1], j1, sid) && Of(r.states[k2], j2, sid)
    requires j1 in r.states[k1].allowed + r.states[k1].issued && j1 !in r.states[i].allowed + r.states[i].issued
    requires j2 in r.states[k2].allowed + r.states[k2].issued && j2 !in r.states[i].allowed + r.states[i].issued
    ensures j1 == j2 && IsStray(r.states[i], sid, j1)
  {
    RunInv(r, i);
    RevokedStaysFrozen(r, i, k1, sid);
    RevokedStaysFrozen(r, i, k2, sid);
    AtMostOneStray(r.states[i], sid, j1, j2);
  }

  // ---- Complete revocation -----------------------------------------------------------------

  /** The token a session was started with. */
  ghost predicate IsFirst(s: State, sid: Sid, j: Jti) {
    sid in s.lineage && s.lineage[sid] != [] && s.lineage[sid][0] == j
  }

  /** The allowlisted token of a session is the one its row names, or the first one while there is
      no row. */
  ghost predicate AllowedIsCurrent(s: State) {
    forall j :: j in s.allowed && j in s.minted && s.minted[j] != NIL ==>
      if s.minted[j] in s.rows then s.rows[s.minted[j]].current == j else IsFirst(s, s.minted[j], j)
  }

  /** A refresh past its touch holds the token the row names. */
  ghost predicate RotatedIsCurrent(s: State) {
    forall t :: t in s.tasks && s.tasks[t].Rotated? ==>
      s.tasks[t].sid in s.rows && s.rows[s.tasks[t].sid].current == s.tasks[t].jti
  }

  /** A sign-in holds the first token of its session. */
  ghost predicate StartsFirst(s: State) {
    forall t :: t in s.tasks && Starts(s.tasks[t]) ==> IsFirst(s, s.tasks[t].sid, s.tasks[t].jti)
  }

  ghost predicate CurrentOk(s: State) { AllowedIsCurrent(s) && RotatedIsCurrent(s) && StartsFirst(s) }

  lemma WithdrawCurrent(s: State, s': State)
    requires CurrentOk(s) && Withdraws(s, s')
    requires forall sid :: sid in s.rows ==> s'.rows[sid].current == s.rows[sid].current
    ensures CurrentOk(s')
  {
  }

  lemma WithdrawKeepsRows(s: State, step: Step)
    requires Enabled(s, step) && IsWithdrawal(s, step)
    ensures After(s, step).rows.Keys == s.rows.Keys
    ensures forall sid :: sid in s.rows ==> After(s, step).rows[sid].current == s.rows[sid].current
  {
  }

  lemma StepCurrent(s: State, step: Step)
    requires Inv(s) && CurrentOk(s) && Enabled(s, step)
    ensures CurrentOk(After(s, step))
  {
    if IsWithdrawal(s, step) {
      WithdrawStep(s, step);
      WithdrawKeepsRows(s, step);
      WithdrawCurrent(s, After(s, step));
    } else {
      StepAllowedCurrent(s, step);
      StepRotatedCurrent(s, step);
      StepStartsFirst(s, step);
    }
  }

  lemma StepAllowedCurrent(s: State, step: Step)
    requires Inv(s) && CurrentOk(s) && Enabled(s, step) && !IsWithdrawal(s, step)
    ensures AllowedIsCurrent(After(s, step))
  {
    if step.Present? || step.SignIn? {
      MintAllowedCurrent(s, step);
    }
  }

  /** A step that mints allowlists nothing and changes no row. */
  lemma MintAllowedCurrent(s: State, step: Step)
    requires LineageOk(s) && AllowedIsCurrent(s) && AllowedOk(s) && Enabled(s, step) && (step.Present? || step.SignIn?)
    ensures AllowedIsCurrent(After(s, step))
  {
    var s' := After(s, step);
    StepExtends(s, step);
    forall j | j in s'.allowed && s.minted[j] != NIL && s.minted[j] !in s.rows
      ensures IsFirst(s', s.minted[j], j)
    {
      assert Grows(s.lineage[s.minted[j]], s'.lineage[s.minted[j]]);
    }
  }

  lemma StepRotatedCurrent(s: State, step: Step)
    requires HeldOk(s) && StartOk(s) && RotatedIsCurrent(s) && Enabled(s, step) && !IsWithdrawal(s, step)
    ensures RotatedIsCurrent(After(s, step))
  {
  }

  lemma StepStartsFirst(s: State, step: Step)
    requires LineageOk(s) && StartOk(s) && StartsFirst(s) && Enabled(s, step) && !IsWithdrawal(s, step)
    ensures StartsFirst(After(s, step))
  {
  }

  lemma {:induction false} RunCurrent(r: History, i: nat)
    requires IsRun(r) && i < |r.states|
    ensures CurrentOk(r.states[i])
  {
    if i == 0 {
    } else {
      RunCurrent(r, i - 1);
      RunInv(r, i - 1);
      StepCurrent(r.states[i - 1], r.steps[i - 1]);
    }
  }

  lemma RevokedRowStays(s: State, step: Step, sid: Sid)
    requires Inv(s) && Enabled(s, step) && IsRevoked(s, sid)
    ensures sid in After(s, step).rows && After(s, step).rows[sid] == s.rows[sid]
  {
  }

  lemma {:induction false} RunRowStays(r: History, i: nat, k: nat, sid: Sid)
    requires IsRun(r) && i <= k < |r.states| && IsRevoked(r.states[i], sid)
    ensures sid in r.states[k].rows && r.states[k].rows[sid] == r.states[i].rows[sid]
    decreases k
  {
    if i == k {
    } else {
      RunRowStays(r, i, k - 1, sid);
      assert IsRevoked(r.states[k - 1], sid);
      RowStaysOnce(r, k - 1, sid);
    }
  }

  lemma RowStaysOnce(r: History, k: nat, sid: Sid)
    requires IsRun(r) && k < |r.steps| && IsRevoked(r.states[k], sid)
    ensures sid in r.states[k + 1].rows && r.states[k + 1].rows[sid] == r.states[k].rows[sid]
  {
    RunInv(r, k);
    RevokedRowStays(r.states[k], r.steps[k], sid);
  }

  /** Step `i` revokes the row of `sid`, alone or with others. */
  ghost predicate RevokesAt(r: History, i: nat, sid: Sid)
    requires IsRun(r) && i < |r.steps|
  {
    Live(r.states[i].rows, sid) && IsRevoked(r.states[i + 1], sid)
      && (r.steps[i].Revoke? || r.steps[i].RevokeOthers?)
  }

  /** The sessions a revocation is meant for: the named live one, or all live ones of the user but the
      kept one. */
  ghost predicate IsMeant(s: State, step: Step, sid: Sid) {
    && sid in s.rows && !s.rows[sid].revoked
    && ((step.Revoke? && step.sid == sid)
        || (step.RevokeOthers? && s.rows[sid].user == step.user && step.keep != Some(sid)))
  }

  /** A revocation revokes the rows of exactly those sessions, keeps every other row, and queues exactly
      the tokens these rows name for dropping. */
  lemma RevocationHits(s: State, step: Step)
    requires Enabled(s, step) && (step.Revoke? || step.RevokeOthers?)
    ensures var s' := After(s, step);
      && s'.rows.Keys == s.rows.Keys && s'.allowed == s.allowed
      && (forall sid :: sid in s.rows ==>
            s'.rows[sid] == if IsMeant(s, step, sid) then s.rows[sid].(revoked := true) else s.rows[sid])
      && (if step.t in s'.tasks then s'.tasks[step.t].Dropping? else !exists sid :: IsMeant(s, step, sid))
      && (step.t in s'.tasks ==> forall j ::
            j in s'.tasks[step.t].jtis <==> exists sid :: IsMeant(s, step, sid) && s.rows[sid].current == j)
  {
    var s' := After(s, step);
    if step.t in s'.tasks {
      forall j ensures j in s'.tasks[step.t].jtis <==> exists sid :: IsMeant(s, step, sid) && s.rows[sid].current == j {
        QueuedIff(s, step, j);
      }
    }
  }

  lemma RevokedIsQueued(s: State, step: Step, sid: Sid)
    requires Enabled(s, step) && (step.Revoke? || step.RevokeOthers?)
    requires Live(s.rows, sid) && IsRevoked(After(s, step), sid)
    ensures var s' := After(s, step);
      step.t in s'.tasks && s'.tasks[step.t].Dropping? && s.rows[sid].current in s'.tasks[step.t].jtis
  {
    RevocationHits(s, step);
    assert IsMeant(s, step, sid);
  }

  lemma QueuedIff(s: State, step: Step, j: Jti)
    requires Enabled(s, step) && (step.Revoke? || step.RevokeOthers?) && step.t in After(s, step).tasks
    ensures j in After(s, step).tasks[step.t].jtis
       <==> exists sid :: IsMeant(s, step, sid) && s.rows[sid].current == j
  {
    if step.Revoke? {
      assert IsMeant(s, step, step.sid);
    } else {
      forall sid ensures IsMeant(s, step, sid) <==> sid in s.rows && Hit(s.rows, step.user, step.keep, sid) {
      }
    }
  }

  /** A revocation that finds no refresh between its touch and its allow, and whose drop of the row's
      token has run, leaves the session without an allowlisted token for the rest of the run. */
  lemma RevocationCompletes(r: History, i: nat, d: nat, k: nat, sid: Sid, j: Jti)
    requires IsRun(r) && i < d < k < |r.states| && RevokesAt(r, i, sid)
    requires !exists x :: IsStray(r.states[i], sid, x)
    requires r.steps[d].Drop? && r.steps[d].jti == r.states[i].rows[sid].current
    requires j in r.states[k].allowed
    ensures !Of(r.states[k], j, sid)
  {
    NoNewStray(r.states[i], r.steps[i], sid);
    RevokedStaysFrozen(r, i + 1, d + 1, sid);
    RevokedStaysFrozen(r, d + 1, k, sid);
    RunRowStays(r, i + 1, d, sid);
    if Of(r.states[k], j, sid) {
      StillMinted(r, d + 1, k, j, sid);
      DropEmpties(r, d, sid, j);
    }
  }

  /** Dropping the token a revoked row names leaves nothing of its session allowlisted. */
  lemma DropEmpties(r: History, d: nat, sid: Sid, j: Jti)
    requires IsRun(r) && d < |r.steps| && IsRevoked(r.states[d], sid)
    requires r.steps[d].Drop? && r.steps[d].jti == r.states[d].rows[sid].current
    ensures !Usable(r.states[d + 1], sid, j)
  {
    RunInv(r, d);
    RunCurrent(r, d);
  }

  lemma NoNewStray(s: State, step: Step, sid: Sid)
    requires Enabled(s, step) && (step.Revoke? || step.RevokeOthers?) && !exists x :: IsStray(s, sid, x)
    ensures !exists x :: IsStray(After(s, step), sid, x)
    ensures forall i :: i in s.rows ==> i in After(s, step).rows && After(s, step).rows[i].current == s.rows[i].current
  {
    if x :| IsStray(After(s, step), sid, x) {
      var t :| t in After(s, step).tasks && After(s, step).tasks[t] == Rotated(sid, x);
      assert IsStray(s, sid, x);
    }
  }

  /** An allowlisted token was minted for the session it is minted for later. */
  lemma StillMinted(r: History, i: nat, k: nat, j: Jti, sid: Sid)
    requires IsRun(r) && i <= k < |r.states| && Of(r.states[k], j, sid) && j in r.states[i].allowed
    ensures Of(r.states[i], j, sid)
  {
    RunInv(r, i);
    RunExtends(r, i, k);
  }

  /** `r'` continues `r`. */
  ghost predicate Continues(r: History, r': History) {
    IsRun(r) && IsRun(r') && Prolongs(r, r')
  }

  lemma Continue(r: History, step: Step) returns (r': History)
    requires IsRun(r) && Enabled(Now(r), step)
    ensures Continues(r, r') && Now(r') == After(Now(r), step) && r'.steps == r.steps + [step]
  {
    r' := Run(r.states + [After(Now(r), step)], r.steps + [step]);
  }

  /** The run up to and including its first `n` states. */
  ghost function Until(r: History, n: nat): (p: History)
    requires IsRun(r) && 0 < n <= |r.states|
    ensures IsRun(p) && |p.states| == n && Now(p) == r.states[n - 1]
  {
    Run(r.states[..n], r.steps[..n - 1])
  }

  /** A refresh past its touch when the row is revoked can outlive the revocation: the row's token is
      dropped, and then the refresh allowlists it. */
  lemma StrayReturns(r: History, i: nat, sid: Sid, j: Jti) returns (r': History)
    requires IsRun(r) && i < |r.steps| && RevokesAt(r, i, sid) && IsStray(r.states[i], sid, j)
    ensures Continues(Until(r, i + 2), r') && DropsAt(r', i + 1, r.states[i].rows[sid].current)
    ensures Usable(Now(r'), sid, j)
  {
    var s, step := r.states[i], r.steps[i];
    var u :| u in s.tasks && s.tasks[u] == Rotated(sid, j);
    RunInv(r, i);
    RunCurrent(r, i);
    RevokedIsQueued(s, step, sid);
    r' := DropThenAllow(Until(r, i + 2), step.t, u, sid, j);
  }

  lemma DropThenAllow(r: History, t: Tid, u: Tid, sid: Sid, j: Jti) returns (r': History)
    requires IsRun(r) && Of(Now(r), j, sid) && u in Now(r).tasks && Now(r).tasks[u] == Rotated(sid, j)
    requires t in Now(r).tasks && Now(r).tasks[t].Dropping? && j in Now(r).tasks[t].jtis
    ensures Continues(r, r') && DropsAt(r', |r.steps|, j)
    ensures Usable(Now(r'), sid, j)
  {
    r' := Continue(r, Drop(t, j));
    assert r'.steps[|r.steps|] == Drop(t, j);
    r' := Continue(r', AllowRotated(u));
  }

  /** Step `d` drops `j` from the allowlist. */
  ghost predicate DropsAt(r: History, d: nat, j: Jti) {
    d < |r.steps| && r.steps[d].Drop? && r.steps[d].jti == j
  }

  /** Whatever happens after step `i`, once the token the row named is dropped, no token of the
      session is allowlisted. */
  ghost predicate IsComplete(r: History, i: nat, sid: Sid)
    requires IsRun(r) && i < |r.steps| && sid in r.states[i].rows
  {
    forall r', d, j
      | Continues(Until(r, i + 2), r') && i < d && DropsAt(r', d, r.states[i].rows[sid].current)
      :: !Usable(Now(r'), sid, j)
  }

  /** In every run a revocation is complete exactly when it finds no refresh of its session between
      that refresh's touch and its allow. */
  lemma CompleteIffNoStray(r: History, i: nat, sid: Sid)
    requires IsRun(r) && i < |r.steps| && RevokesAt(r, i, sid)
    ensures IsComplete(r, i, sid) <==> !exists j :: IsStray(r.states[i], sid, j)
  {
    if j :| IsStray(r.states[i], sid, j) {
      var r' := StrayReturns(r, i, sid, j);
      assert DropsAt(r', i + 1, r.states[i].rows[sid].current);
    } else {
      forall r', d, j
        | Continues(Until(r, i + 2), r') && i < d && DropsAt(r', d, r.states[i].rows[sid].current)
        ensures !Usable(Now(r'), sid, j)
      {
        SamePast(r, i, r');
        if j in Now(r').allowed {
          RevocationCompletes(r', i, d, |r'.states| - 1, sid, j);
        }
      }
    }
  }

  lemma SamePast(r: History, i: nat, r': History)
    requires IsRun(r) && i < |r.steps| && Continues(Until(r, i + 2), r')
    ensures i < |r'.steps| && r'.steps[i] == r.steps[i]
    ensures r'.states[i] == r.states[i] && r'.states[i + 1] == r.states[i + 1]
  {
    var p := Until(r, i + 2);
    assert p.steps[i] == r.steps[i] && p.states[i] == r.states[i] && p.states[i + 1] == r.states[i + 1];
  }

  lemma RunSignIn(t: Tid, sid: Sid, j: Jti, user: Uuid) returns (r: History)
    requires sid != NIL
    ensures IsRun(r)
    ensures Now(r) == State({j}, map[sid := Row(user, j, false)], map[], map[j := sid], map[sid := [j]], {j})
  {
    r := Run([State({}, map[], map[], map[], map[], {})], []);
    r := Continue(r, SignIn(t, sid, j, user));
    r := Continue(r, AllowNew(t));
    r := Continue(r, InsertRow(t));
    assert [] + [j] == [j] && Now(r).tasks == map[] && Now(r).lineage == map[sid := [j]];
  }

  /** A revocation can meet such a refresh: sign in, refresh up to the touch, revoke. */
  lemma StrayHappens(user: Uuid, sid: Sid, t: Tid, u: Tid, j: Jti, j': Jti) returns (r: History, i: nat)
    requires sid != NIL && t != u && j != j'
    ensures IsRun(r) && i < |r.steps| && RevokesAt(r, i, sid) && IsStray(r.states[i], sid, j')
  {
    r := RunSignIn(t, sid, j, user);
    r := Continue(r, Present(t, j, j'));
    r := Continue(r, Touch(t));
    i := |r.steps|;
    assert Now(r).tasks[t] == Rotated(sid, j');
    r := Continue(r, Revoke(u, sid));
  }

  // ---- Sessions that stay ----------------------------------------------------------------------

  /** A row names a token of its own session. */
  ghost predicate RowsOk(s: State) { forall sid :: sid in s.rows ==> Of(s, s.rows[sid].current, sid) }

  /** What a revocation has yet to drop belongs to sessions whose rows are revoked. */
  ghost predicate DropsOk(s: State) {
    forall t, j | t in s.tasks && s.tasks[t].Dropping? && j in s.tasks[t].jtis ::
      j in s.minted && (s.minted[j] != NIL ==> IsRevoked(s, s.minted[j]))
  }

  lemma StepRows(s: State, step: Step)
    requires HeldOk(s) && RowsOk(s) && Enabled(s, step)
    ensures RowsOk(After(s, step))
  {
  }

  /** Nothing is queued for dropping that was not before, but for what request `t` queues. */
  ghost predicate QueuesOnly(s: State, s': State, t: Tid) {
    forall u | u in s'.tasks && s'.tasks[u].Dropping? && u != t ::
      u in s.tasks && s.tasks[u].Dropping? && s'.tasks[u].jtis <= s.tasks[u].jtis
  }

  /** Tokens stay minted and rows stay revoked. */
  ghost predicate Lasting(s: State, s': State) {
    && (forall j :: j in s.minted ==> j in s'.minted && s'.minted[j] == s.minted[j])
    && (forall sid :: IsRevoked(s, sid) ==> IsRevoked(s', sid))
  }

  ghost predicate DropOk(s: State, t: Tid) {
    t in s.tasks && s.tasks[t].Dropping? ==>
      forall j :: j in s.tasks[t].jtis ==> j in s.minted && (s.minted[j] != NIL ==> IsRevoked(s, s.minted[j]))
  }

  lemma KeepDrops(s: State, s': State, t: Tid)
    requires DropsOk(s) && QueuesOnly(s, s', t) && Lasting(s, s') && DropOk(s', t)
    ensures DropsOk(s')
  {
  }

  lemma StepLasting(s: State, step: Step)
    requires Inv(s) && Enabled(s, step)
    ensures Lasting(s, After(s, step))
  {
    StepExtends(s, step);
    forall sid | IsRevoked(s, sid) ensures IsRevoked(After(s, step), sid) {
      RevokedRowStays(s, step, sid);
    }
  }

  lemma StepQueues(s: State, step: Step, t: Tid)
    requires Enabled(s, step) && ((step.Revoke? || step.RevokeOthers?) ==> step.t == t)
    ensures QueuesOnly(s, After(s, step), t)
  {
  }

  /** What a revocation queues belongs to the rows it revokes. */
  lemma RevocationDrops(s: State, step: Step)
    requires RowsOk(s) && Enabled(s, step) && (step.Revoke? || step.RevokeOthers?)
    ensures DropOk(After(s, step), step.t)
  {
    var s' := After(s, step);
    RevocationHits(s, step);
    if step.t in s'.tasks {
      forall j | j in s'.tasks[step.t].jtis ensures j in s'.minted && IsRevoked(s', s'.minted[j]) {
        var sid :| IsMeant(s, step, sid) && s.rows[sid].current == j;
        assert Of(s, j, sid);
      }
    }
  }

  /** A request that only drops what it queued stays right about it. */
  lemma OtherDrops(s: State, step: Step, t: Tid)
    requires DropsOk(s) && Enabled(s, step) && !step.Revoke? && !step.RevokeOthers? && Lasting(s, After(s, step))
    ensures DropOk(After(s, step), t)
  {
    StepQueuesAll(s, step);
  }

  lemma StepQueuesAll(s: State, step: Step)
    requires Enabled(s, step) && !step.Revoke? && !step.RevokeOthers?
    ensures var s' := After(s, step);
      forall u | u in s'.tasks && s'.tasks[u].Dropping? ::
        u in s.tasks && s.tasks[u].Dropping? && s'.tasks[u].jtis <= s.tasks[u].jtis
  {
  }

  lemma StepDrops(s: State, step: Step, t: Tid)
    requires Inv(s) && RowsOk(s) && DropsOk(s) && Enabled(s, step)
    requires (step.Revoke? || step.RevokeOthers?) ==> step.t == t
    ensures DropsOk(After(s, step))
  {
    StepLasting(s, step);
    StepQueues(s, step, t);
    if step.Revoke? || step.RevokeOthers? {
      RevocationDrops(s, step);
    } else {
      OtherDrops(s, step, t);
    }
    KeepDrops(s, After(s, step), t);
  }

  lemma {:induction false} RunDrops(r: History, i: nat)
    requires IsRun(r) && i < |r.states|
    ensures RowsOk(r.states[i]) && DropsOk(r.states[i])
  {
    if i == 0 {
    } else {
      RunDrops(r, i - 1);
      RunInv(r, i - 1);
      StepRows(r.states[i - 1], r.steps[i - 1]);
      var step := r.steps[i - 1];
      StepDrops(r.states[i - 1], step, if step.Revoke? || step.RevokeOthers? then step.t else NIL);
    }
  }

  /** In every run, what a revocation drops belongs to a session whose row is revoked: a session that
      was kept loses nothing to it. */
  lemma DropsOnlyRevoked(r: History, i: nat, sid: Sid)
    requires IsRun(r) && i < |r.steps| && r.steps[i].Drop? && Of(r.states[i], r.steps[i].jti, sid) && sid != NIL
    ensures IsRevoked(r.states[i], sid)
  {
    RunDrops(r, i);
  }

  /** So as long as its row is live, an allowlisted token of a session leaves the allowlist only by
      being presented, by a sign-out with it, or by running out of time. */
  lemma LiveTokenLeaves(r: History, i: nat, sid: Sid, j: Jti)
    requires IsRun(r) && i < |r.steps| && Live(r.states[i].rows, sid) && sid != NIL
    requires Usable(r.states[i], sid, j) && j !in r.states[i + 1].allowed
    ensures var step := r.steps[i];
      (step.Present? && step.jti == j) || (step.SignOut? && step.jti == j) || step == Expire(j)
  {
    if r.steps[i].Drop? && r.steps[i].jti == j {
      DropsOnlyRevoked(r, i, sid);
    }
  }

  // ---- Sign-out ------------------------------------------------------------------------------

  /** Whatever follows, no token of the session is allowlisted. */
  ghost predicate StaysOut(r: History, sid: Sid)
    requires IsRun(r)
  {
    forall r', j | Continues(r, r') :: !Usable(Now(r'), sid, j)
  }

  /** Step `i` is a sign-out getting to the row of its session, revoked already or not. */
  ghost predicate SignsOutAt(r: History, i: nat, sid: Sid)
    requires IsRun(r) && i < |r.steps|
  {
    && r.steps[i].SignOutRow? && r.states[i].tasks[r.steps[i].t] == SigningOut(sid)
    && sid in r.states[i].rows
  }

  lemma SignOutRowFacts(s: State, t: Tid, sid: Sid)
    requires Enabled(s, SignOutRow(t)) && s.tasks[t] == SigningOut(sid) && sid in s.rows
    ensures var s' := After(s, SignOutRow(t));
      && IsRevoked(s', sid)
      && (forall j :: Usable(s', sid, j) <==> Usable(s, sid, j))
      && (forall j :: IsStray(s', sid, j) <==> IsStray(s, sid, j))
  {
    var s' := After(s, SignOutRow(t));
    forall j | IsStray(s, sid, j) ensures IsStray(s', sid, j) {
      var u :| u in s.tasks && s.tasks[u] == Rotated(sid, j);
      assert u in s'.tasks;
    }
  }

  /** In every run a sign-out is complete exactly when, as it gets to the row, no token of the session
      is allowlisted and no refresh is between its touch and its allow. */
  lemma SignOutCompleteIff(r: History, i: nat, sid: Sid)
    requires IsRun(r) && i < |r.steps| && SignsOutAt(r, i, sid)
    ensures StaysOut(Until(r, i + 2), sid)
       <==> forall j :: !Usable(r.states[i], sid, j) && !IsStray(r.states[i], sid, j)
  {
    var p := Until(r, i + 2);
    SignOutRowFacts(r.states[i], r.steps[i].t, sid);
    if j :| Usable(r.states[i], sid, j) {
      assert Continues(p, p) && Usable(Now(p), sid, j);
    } else if j :| IsStray(r.states[i], sid, j) {
      var r' := StrayAllowed(p, sid, j);
    } else {
      forall r', j | Continues(p, r') ensures !Usable(Now(r'), sid, j) {
        assert r'.states[i + 1] == Now(p);
        assert forall x :: !Usable(Now(p), sid, x) && !IsStray(Now(p), sid, x);
        SignedOutStays(r', i + 1, sid, j);
      }
    }
  }

  lemma StrayAllowed(r: History, sid: Sid, j: Jti) returns (r': History)
    requires IsRun(r) && IsStray(Now(r), sid, j)
    ensures Continues(r, r') && Usable(Now(r'), sid, j)
  {
    var u :| u in Now(r).tasks && Now(r).tasks[u] == Rotated(sid, j);
    RunInv(r, |r.states| - 1);
    assert Carries(Now(r).tasks[u]);
    r' := Continue(r, AllowRotated(u));
  }

  lemma SignedOutStays(r: History, i: nat, sid: Sid, j: Jti)
    requires IsRun(r) && i < |r.states| && IsRevoked(r.states[i], sid)
    requires forall x :: !Usable(r.states[i], sid, x) && !IsStray(r.states[i], sid, x)
    ensures !Usable(Now(r), sid, j)
  {
    var k := |r.states| - 1;
    RevokedStaysFrozen(r, i, k, sid);
    if Usable(Now(r), sid, j) {
      assert !Usable(r.states[i], sid, j) && !IsStray(r.states[i], sid, j);
      StillMinted(r, i, k, j, sid);
    }
  }

  /** The session has no allowlisted token and no request holds one. */
  ghost predicate Quiet(s: State, sid: Sid) {
    && sid in s.lineage && (forall j :: !Usable(s, sid, j))
    && (forall t :: t in s.tasks && Holds(s.tasks[t]) ==> s.tasks[t].sid != sid)
  }

  lemma StepQuiet(s: State, step: Step, sid: Sid)
    requires Inv(s) && Enabled(s, step) && sid != NIL && Quiet(s, sid)
    ensures Quiet(After(s, step), sid)
  {
    QuietTasks(s, step, sid);
    QuietAllowed(s, step, sid);
    StepExtends(s, step);
  }

  lemma QuietAllowed(s: State, step: Step, sid: Sid)
    requires AllowedOk(s) && HeldOk(s) && Enabled(s, step) && Quiet(s, sid)
    ensures forall j :: !Usable(After(s, step), sid, j)
  {
    forall j ensures !Usable(After(s, step), sid, j) {
      assert !Usable(s, sid, j);
    }
  }

  lemma QuietTasks(s: State, step: Step, sid: Sid)
    requires AllowedOk(s) && Enabled(s, step) && sid != NIL && Quiet(s, sid)
    ensures var s' := After(s, step);
      forall t :: t in s'.tasks && Holds(s'.tasks[t]) ==> s'.tasks[t].sid != sid
  {
    if step.Present? {
      assert !Usable(s, sid, step.jti);
    }
  }

  lemma {:induction false} RunQuiet(r: History, i: nat, k: nat, sid: Sid)
    requires IsRun(r) && i <= k < |r.states| && sid != NIL && Quiet(r.states[i], sid)
    ensures Quiet(r.states[k], sid)
    decreases k
  {
    if i == k {
    } else {
      RunQuiet(r, i, k - 1, sid);
      RunInv(r, k - 1);
      StepQuiet(r.states[k - 1], r.steps[k - 1], sid);
    }
  }

  /** A sign-out with the allowlisted token ends the session with its first step: no token of the
      session is ever allowlisted again, whatever happens to the row. */
  lemma SignOutEndsSession(r: History, i: nat, k: nat, sid: Sid, j: Jti, x: Jti)
    requires IsRun(r) && i < k < |r.states| && sid != NIL
    requires r.steps[i].SignOut? && r.steps[i].jti == j && Usable(r.states[i], sid, j)
    ensures !Usable(r.states[k], sid, x)
  {
    RunInv(r, i);
    ConsumeInv(r.states[i], j);
    SignOutQuiet(r.states[i], r.steps[i], sid);
    RunQuiet(r, i + 1, k, sid);
  }

  lemma SignOutQuiet(s: State, step: Step, sid: Sid)
    requires LineageOk(s) && Enabled(s, step) && step.SignOut? && sid != NIL && Of(s, step.jti, sid)
    requires forall j :: Usable(s, sid, j) ==> j == step.jti
    requires forall u :: u in s.tasks && Holds(s.tasks[u]) ==> s.tasks[u].sid != sid
    ensures Quiet(After(s, step), sid)
  {
    forall j ensures !Usable(After(s, step), sid, j) {
      assert Usable(s, sid, j) ==> j == step.jti;
    }
  }

  /** One with an older token of the session revokes the row and leaves the allowlisted token alone. */
  lemma StaleSignOut(r: History, t: Tid, sid: Sid, past: Jti, j: Jti) returns (r': History)
    requires IsRun(r) && t !in Now(r).tasks && sid in Now(r).rows
    requires Of(Now(r), past, sid) && past != j && Usable(Now(r), sid, j)
    ensures Continues(r, r') && r'.steps == r.steps + [SignOut(t, past), SignOutRow(t)]
    ensures IsRevoked(Now(r'), sid) && Usable(Now(r'), sid, j)
  {
    RunInv(r, |r.states| - 1);
    r' := Continue(r, SignOut(t, past));
    r' := Continue(r', SignOutRow(t));
  }

  /** Such an older token exists after every refresh. */
  lemma StaleSignOutHappens(user: Uuid, sid: Sid, t: Tid, j: Jti, j': Jti) returns (r: History)
    requires sid != NIL && j != j'
    ensures IsRun(r) && t !in Now(r).tasks && sid in Now(r).rows && Of(Now(r), j, sid) && Usable(Now(r), sid, j')
  {
    r := RunSignIn(t, sid, j, user);
    r := Continue(r, Present(t, j, j'));
    r := Continue(r, Touch(t));
    r := Continue(r, AllowRotated(t));
  }

  // ---- Late refreshes ------------------------------------------------------------------------

  /** A token a request holds was never handed out. */
  ghost predicate HeldUnissued(s: State) {
    forall t :: t in s.tasks && Holds(s.tasks[t]) && s.tasks[t].sid != NIL ==> s.tasks[t].jti !in s.issued
  }

  /** A refresh holds a later token than its session's first. */
  ghost predicate RotatedLater(s: State) {
    forall t :: t in s.tasks && (s.tasks[t].Rotating? || s.tasks[t].Rotated?) && s.tasks[t].sid != NIL ==>
      s.tasks[t].sid in s.lineage && |s.lineage[s.tasks[t].sid]| >= 2
  }

  ghost predicate Unissued(s: State) { HeldUnissued(s) && RotatedLater(s) }

  lemma WithdrawUnissued(s: State, s': State)
    requires Unissued(s) && Withdraws(s, s')
    ensures Unissued(s')
  {
  }

  lemma FirstIsNotNewest(xs: seq<Jti>)
    requires |xs| >= 2 && Distinct(xs)
    ensures xs[0] != xs[|xs| - 1]
  {
  }

  /** What a sign-in hands out is not what another request holds. */
  lemma StartsOther(s: State, t: Tid, u: Tid)
    requires Inv(s) && StartsFirst(s) && RotatedLater(s) && t != u
    requires t in s.tasks && Holds(s.tasks[t]) && s.tasks[t].sid != NIL && u in s.tasks && s.tasks[u].StartAllowed?
    ensures s.tasks[t].jti != s.tasks[u].jti
  {
    if s.tasks[t].sid == s.tasks[u].sid && !s.tasks[t].Starting? {
      FirstIsNotNewest(s.lineage[s.tasks[t].sid]);
    }
  }

  lemma StepHeldUnissued(s: State, step: Step)
    requires Inv(s) && StartsFirst(s) && Unissued(s) && Enabled(s, step) && !IsWithdrawal(s, step)
    ensures HeldUnissued(After(s, step))
  {
    if step.InsertRow? {
      forall t | t in s.tasks && t != step.t && Holds(s.tasks[t]) && s.tasks[t].sid != NIL
        ensures s.tasks[t].jti != s.tasks[step.t].jti
      {
        StartsOther(s, t, step.t);
      }
    }
  }

  lemma MintLonger(s: State, sid: Sid, jti: Jti)
    ensures sid in s.lineage && s.lineage[sid] != [] ==> |Mint(s, sid, jti).lineage[sid]| >= 2
    ensures forall x :: x in s.lineage ==>
      x in Mint(s, sid, jti).lineage && |s.lineage[x]| <= |Mint(s, sid, jti).lineage[x]|
  {
  }

  lemma PresentRotatedLater(s: State, t: Tid, jti: Jti, next: Jti)
    requires LineageOk(s) && RotatedLater(s) && Enabled(s, Present(t, jti, next)) && jti in s.allowed
    ensures RotatedLater(After(s, Present(t, jti, next)))
  {
    var sid, consumed := s.minted[jti], s.(allowed := s.allowed - {jti});
    var minted := Mint(consumed, sid, next);
    MintLonger(consumed, sid, next);
    MoveLater(s, Move(minted, t, Rotating(sid, next)), t, Rotating(sid, next));
  }

  lemma MoveLater(s: State, s': State, t: Tid, k: Task)
    requires RotatedLater(s) && s'.tasks == s.tasks[t := k] && (k.Rotating? || k.Rotated?)
    requires forall x :: x in s.lineage ==> x in s'.lineage && |s.lineage[x]| <= |s'.lineage[x]|
    requires k.sid != NIL ==> k.sid in s'.lineage && |s'.lineage[k.sid]| >= 2
    ensures RotatedLater(s')
  {
  }

  lemma OtherRotatedLater(s: State, step: Step)
    requires RotatedLater(s) && Enabled(s, step) && !IsWithdrawal(s, step) && !step.Present?
    ensures RotatedLater(After(s, step))
  {
  }

  lemma StepRotatedLater(s: State, step: Step)
    requires LineageOk(s) && RotatedLater(s) && Enabled(s, step) && !IsWithdrawal(s, step)
    ensures RotatedLater(After(s, step))
  {
    if step.Present? {
      if step.jti in s.allowed { PresentRotatedLater(s, step.t, step.jti, step.next); }
    } else {
      OtherRotatedLater(s, step);
    }
  }

  lemma StepUnissued(s: State, step: Step)
    requires Inv(s) && StartsFirst(s) && Unissued(s) && Enabled(s, step)
    ensures Unissued(After(s, step))
  {
    if IsWithdrawal(s, step) {
      WithdrawStep(s, step);
      WithdrawUnissued(s, After(s, step));
    } else {
      StepHeldUnissued(s, step);
      StepRotatedLater(s, step);
    }
  }

  lemma {:induction false} RunUnissued(r: History, i: nat)
    requires IsRun(r) && i < |r.states|
    ensures Unissued(r.states[i])
  {
    if i == 0 {
    } else {
      RunUnissued(r, i - 1);
      RunInv(r, i - 1);
      RunCurrent(r, i - 1);
      StepUnissued(r.states[i - 1], r.steps[i - 1]);
    }
  }

  /** A refresh that has not touched its row when the row is revoked is never answered with its token,
      nor is that token ever allowlisted. */
  lemma LateRefreshRejected(r: History, i: nat, k: nat, sid: Sid, t: Tid, j: Jti)
    requires IsRun(r) && i <= k < |r.states| && IsRevoked(r.states[i], sid)
    requires t in r.states[i].tasks && r.states[i].tasks[t] == Rotating(sid, j)
    ensures j !in r.states[k].allowed + r.states[k].issued
  {
    RunInv(r, i);
    RunUnissued(r, i);
    RunExtends(r, i, k);
    RevokedStaysFrozen(r, i, k, sid);
    HolderIsNoStray(r.states[i], sid, t, j);
    assert Of(r.states[k], j, sid);
  }

  lemma HolderIsNoStray(s: State, sid: Sid, t: Tid, j: Jti)
    requires HeldOk(s) && t in s.tasks && s.tasks[t] == Rotating(sid, j)
    ensures !IsStray(s, sid, j)
  {
    forall u | u in s.tasks && u != t && Holds(s.tasks[u]) ensures s.tasks[u].jti != j {
      assert Holds(s.tasks[t]) && s.tasks[t].jti == j;
    }
  }
}
