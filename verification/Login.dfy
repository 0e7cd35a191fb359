/** Password, second-factor and backup-code login of backend/api/auth.py over the user and
    token tables of backend/db/sqlite_manager.py. One endpoint call is one atomic step; hashing,
    one-time codes and fresh random tokens are given by the call. Times are microseconds. */
module Login {
  import opened IsoTime
  import opened Wrappers

  const LOCK: nat := 900000000
  const PARTIAL_LIFE: nat := 300000000
  const WEEK: nat := 604800000000
  const MAX_FAILURES: nat := 10

  datatype User = User(active: bool, failed: nat, lockedUntil: Option<int>,
                       totpSecret: bool, totpConfirmed: bool, backupCodes: Option<seq<string>>)

  datatype Partial = Partial(user: int, createdAt: int)

  // A row of the refresh token table; the expiry is stored as text.
  datatype TokenRow = TokenRow(user: int, expiresAt: string, revoked: bool)

  datatype State = State(users: map<int, User>, partials: map<string, Partial>, tokens: map<string, TokenRow>)

  datatype Event =
    | PasswordLogin(user: int, passwordOk: bool, now: nat, partial: string, token: string)
    | TwoFactorLogin(partial: string, codeOk: bool, now: nat, token: string)
    | BackupCodeLogin(partial: string, accepts: string -> bool, now: nat, token: string)
    | Refresh(token: string, now: nat)
    | Logout(token: string)
    | SetupTotp(user: int)
    | ConfirmTotp(user: int, codeOk: bool, codes: seq<string>)

  datatype Answer = Pair(user: int) | Needs2fa(partial: string) | Access(user: int) | Refused | Locked | BadRequest | Fine

  // ---- the database operations ----

  function AfterLoginFailure(st: State, user: int, now: nat): State
    requires user in st.users
  {
    var u := st.users[user];
    var attempts := u.failed + 1;
    var locked := if attempts >= MAX_FAILURES then Some(now + LOCK) else u.lockedUntil;
    st.(users := st.users[user := u.(failed := attempts, lockedUntil := locked)])
  }

  function AfterLoginSuccess(st: State, user: int): State {
    if user in st.users
    then st.(users := st.users[user := st.users[user].(failed := 0, lockedUntil := None)])
    else st
  }

  function AfterStoreToken(st: State, user: int, token: string, now: nat): State {
    st.(tokens := st.tokens[token := TokenRow(user, Iso(now + WEEK), false)])
  }

  predicate ValidToken(st: State, token: string, now: nat) {
    token in st.tokens && !st.tokens[token].revoked && TextLess(Iso(now), st.tokens[token].expiresAt)
  }

  function AfterRevoke(st: State, token: string): State {
    if token in st.tokens then st.(tokens := st.tokens[token := st.tokens[token].(revoked := true)]) else st
  }

  // The first stored code the given code verifies against.
  function FirstAccepted(codes: seq<string>, accepts: string -> bool): (i: Option<nat>)
    ensures i.Some? ==> i.value < |codes| && accepts(codes[i.value]) && forall j | 0 <= j < i.value :: !accepts(codes[j])
    ensures i.None? ==> forall j | 0 <= j < |codes| :: !accepts(codes[j])
  {
    if codes == [] then None
    else if accepts(codes[0]) then Some(0)
    else
      var rest := FirstAccepted(codes[1..], accepts);
      if rest.Some? then Some(rest.value + 1) else None
  }

  function AfterConsumeCode(st: State, user: int, accepts: string -> bool): (State, bool) {
    if user !in st.users || st.users[user].backupCodes.None? then (st, false)
    else
      var codes := st.users[user].backupCodes.value;
      var i := FirstAccepted(codes, accepts);
      if i.None? then (st, false)
      else
        var left := codes[..i.value] + codes[i.value + 1..];
        (st.(users := st.users[user := st.users[user].(backupCodes := Some(left))]), true)
  }

  // ---- the endpoints ----

  // Success recorded, refresh token stored.
  function AfterIssue(st: State, user: int, token: string, now: nat): State {
    AfterStoreToken(AfterLoginSuccess(st, user), user, token, now)
  }

  function AfterConsumePartial(st: State, partial: string, now: nat): (State, Option<int>) {
    if partial !in st.partials then (st, None)
    else
      var p := st.partials[partial];
      (st.(partials := st.partials - {partial}), if now - p.createdAt > PARTIAL_LIFE then None else Some(p.user))
  }

  function AfterPasswordLogin(st: State, user: int, passwordOk: bool, now: nat, partial: string, token: string): (State, Answer) {
    if user !in st.users then (st, Refused)
    else
      var u := st.users[user];
      if u.lockedUntil.Some? && u.lockedUntil.value > now then (st, Locked)
      else if !u.active then (st, Refused)
      else if !passwordOk then (AfterLoginFailure(st, user, now), Refused)
      else if !u.totpConfirmed then (AfterIssue(st, user, token, now), Pair(user))
      else (st.(partials := st.partials[partial := Partial(user, now)]), Needs2fa(partial))
  }

  function AfterTwoFactorLogin(st: State, partial: string, codeOk: bool, now: nat, token: string): (State, Answer) {
    var (st1, user) := AfterConsumePartial(st, partial, now);
    if user.None? || user.value !in st1.users then (st1, Refused)
    else
      var u := st1.users[user.value];
      if u.totpSecret && u.totpConfirmed && !codeOk then (st1, Refused)
      else (AfterIssue(st1, user.value, token, now), Pair(user.value))
  }

  function AfterBackupCodeLogin(st: State, partial: string, accepts: string -> bool, now: nat, token: string): (State, Answer) {
    var (st1, user) := AfterConsumePartial(st, partial, now);
    if user.None? then (st1, Refused)
    else
      var (st2, consumed) := AfterConsumeCode(st1, user.value, accepts);
      if !consumed then (st2, Refused)
      else (AfterIssue(st2, user.value, token, now), Pair(user.value))
  }

  function AfterSetupTotp(st: State, user: int): (State, Answer) {
    if user !in st.users then (st, Refused)
    else (st.(users := st.users[user := st.users[user].(totpSecret := true, totpConfirmed := false)]), Fine)
  }

  function AfterConfirmTotp(st: State, user: int, codeOk: bool, codes: seq<string>): (State, Answer) {
    if user !in st.users || !st.users[user].totpSecret || !codeOk then (st, BadRequest)
    else (st.(users := st.users[user := st.users[user].(totpConfirmed := true, backupCodes := Some(codes))]), Fine)
  }

  function Call(st: State, e: Event): (State, Answer) {
    match e
    case PasswordLogin(user, passwordOk, now, partial, token) => AfterPasswordLogin(st, user, passwordOk, now, partial, token)
    case TwoFactorLogin(partial, codeOk, now, token) => AfterTwoFactorLogin(st, partial, codeOk, now, token)
    case BackupCodeLogin(partial, accepts, now, token) => AfterBackupCodeLogin(st, partial, accepts, now, token)
    case Refresh(token, now) =>
      if ValidToken(st, token, now) && st.tokens[token].user in st.users && st.users[st.tokens[token].user].active
      then (st, Access(st.tokens[token].user))
      else (st, Refused)
    case Logout(token) => (AfterRevoke(st, token), Fine)
    case SetupTotp(user) => AfterSetupTotp(st, user)
    case ConfirmTotp(user, codeOk, codes) => AfterConfirmTotp(st, user, codeOk, codes)
  }

  function Step(st: State, e: Event): State {
    Call(st, e).0
  }

  function Run(users: map<int, User>, trace: seq<Event>): State {
    if trace == [] then State(users, map[], map[]) else Step(Run(users, trace[..|trace| - 1]), trace[|trace| - 1])
  }

  // No failures and no lock, as users are created.
  predicate AreNew(users: map<int, User>) {
    forall u | u in users :: users[u].failed == 0 && users[u].lockedUntil == None
  }

  // ---- what a client sees: the calls and their answers ----

  datatype Exchange = Exchange(call: Event, answer: Answer)

  function Talk(users: map<int, User>, trace: seq<Event>): (h: seq<Exchange>)
    ensures |h| == |trace|
  {
    if trace == [] then []
    else
      var before, e := trace[..|trace| - 1], trace[|trace| - 1];
      Talk(users, before) + [Exchange(e, Call(Run(users, before), e).1)]
  }

  // Everything below is read off the talk alone, newest exchange first.

  // A wrong password of an active user whose account was not locked.
  predicate IsFailure(users: map<int, User>, x: Exchange, user: int) {
    && x.call.PasswordLogin? && x.call.user == user && !x.call.passwordOk && x.answer == Refused
    && user in users && users[user].active
  }

  // Wrong passwords since the last pair.
  function Failures(users: map<int, User>, h: seq<Exchange>, user: int): nat {
    if h == [] || h[|h| - 1].answer == Pair(user) then 0
    else Failures(users, h[..|h| - 1], user) + (if IsFailure(users, h[|h| - 1], user) then 1 else 0)
  }

  // When the newest of them came.
  function LastFailure(users: map<int, User>, h: seq<Exchange>, user: int): Option<int> {
    if h == [] || h[|h| - 1].answer == Pair(user) then None
    else if IsFailure(users, h[|h| - 1], user) then Some(h[|h| - 1].call.now)
    else LastFailure(users, h[..|h| - 1], user)
  }

  // Ten wrong passwords or more, the newest less than 15 minutes ago.
  predicate IsLocked(users: map<int, User>, h: seq<Exchange>, user: int, now: int) {
    Failures(users, h, user) >= 10 && LastFailure(users, h, user).Some? &&
    now < LastFailure(users, h, user).value + 900000000
  }

  predicate HasSecret(users: map<int, User>, h: seq<Exchange>, user: int)
    requires user in users
  {
    if h == [] then users[user].totpSecret
    else h[|h| - 1].call == SetupTotp(user) || HasSecret(users, h[..|h| - 1], user)
  }

  // A second factor confirmed and no other set up since.
  predicate HasConfirmed(users: map<int, User>, h: seq<Exchange>, user: int)
    requires user in users
  {
    if h == [] then users[user].totpConfirmed
    else
      var x := h[|h| - 1];
      if x.call.ConfirmTotp? && x.call.user == user && x.answer == Fine then true
      else x.call != SetupTotp(user) && HasConfirmed(users, h[..|h| - 1], user)
  }

  predicate IsGuarded(users: map<int, User>, h: seq<Exchange>, user: int)
    requires user in users
  {
    HasSecret(users, h, user) && HasConfirmed(users, h, user)
  }

  // The backup codes stored at the last confirmation.
  function StoredCodes(users: map<int, User>, h: seq<Exchange>, user: int): Option<seq<string>>
    requires user in users
  {
    if h == [] then users[user].backupCodes
    else
      var x := h[|h| - 1];
      if x.call.ConfirmTotp? && x.call.user == user && x.answer == Fine then Some(x.call.codes)
      else StoredCodes(users, h[..|h| - 1], user)
  }

  predicate SpendsCode(x: Exchange, user: int) {
    x.call.BackupCodeLogin? && x.answer == Pair(user)
  }

  // Those of them not used since: each use takes out the first that accepts.
  function CodesLeft(users: map<int, User>, h: seq<Exchange>, user: int): (left: seq<string>)
    requires user in users
  {
    if h == [] then (if users[user].backupCodes.Some? then users[user].backupCodes.value else [])
    else
      var x := h[|h| - 1];
      if x.call.ConfirmTotp? && x.call.user == user && x.answer == Fine then x.call.codes
      else
        var left := CodesLeft(users, h[..|h| - 1], user);
        if !SpendsCode(x, user) then left
        else
          var i := FirstAccepted(left, x.call.accepts);
          if i.None? then left else left[..i.value] + left[i.value + 1..]
  }

  // Those used since, in order of use.
  function CodesUsed(users: map<int, User>, h: seq<Exchange>, user: int): (used: seq<string>)
    requires user in users
  {
    if h == [] then []
    else
      var x := h[|h| - 1];
      if x.call.ConfirmTotp? && x.call.user == user && x.answer == Fine then []
      else
        var left, used := CodesLeft(users, h[..|h| - 1], user), CodesUsed(users, h[..|h| - 1], user);
        if !SpendsCode(x, user) then used
        else
          var i := FirstAccepted(left, x.call.accepts);
          if i.None? then used else used + [left[i.value]]
  }

  predicate Presents(e: Event, partial: string) {
    (e.TwoFactorLogin? || e.BackupCodeLogin?) && e.partial == partial
  }

  // Whose password made the partial token, and when, if no call has presented it since.
  function Holder(h: seq<Exchange>, partial: string): Option<Partial> {
    if h == [] then None
    else
      var x := h[|h| - 1];
      if x.call.PasswordLogin? && x.answer == Needs2fa(partial) then Some(Partial(x.call.user, x.call.now))
      else if Presents(x.call, partial) then None
      else Holder(h[..|h| - 1], partial)
  }

  // At most 300 seconds old.
  predicate IsLive(h: seq<Exchange>, partial: string, now: int) {
    Holder(h, partial).Some? && now - Holder(h, partial).value.createdAt <= 300000000
  }

  // The call gave out a pair with this refresh token.
  predicate GivesToken(x: Exchange, token: string) {
    x.answer.Pair? && (x.call.PasswordLogin? || x.call.TwoFactorLogin? || x.call.BackupCodeLogin?) && x.call.token == token
  }

  // To whom the refresh token was given, and when.
  function Given(h: seq<Exchange>, token: string): Option<Partial> {
    if h == [] then None
    else if GivesToken(h[|h| - 1], token) then Some(Partial(h[|h| - 1].answer.user, h[|h| - 1].call.now))
    else Given(h[..|h| - 1], token)
  }

  // A logout has named it since.
  predicate IsRevoked(h: seq<Exchange>, token: string) {
    h != [] && !GivesToken(h[|h| - 1], token) &&
    (h[|h| - 1].call == Logout(token) || IsRevoked(h[..|h| - 1], token))
  }

  // Given, not revoked, and less than seven days old.
  predicate IsGood(h: seq<Exchange>, token: string, now: int) {
    Given(h, token).Some? && !IsRevoked(h, token) && now < Given(h, token).value.createdAt + 604800000000
  }

  /** What each endpoint promises to answer after a talk. */
  ghost function Promised(users: map<int, User>, h: seq<Exchange>, e: Event): Answer {
    match e
    case PasswordLogin(user, passwordOk, now, partial, _) =>
      if user in users && IsLocked(users, h, user, now) then Locked
      else if user !in users || !users[user].active || !passwordOk then Refused
      else if HasConfirmed(users, h, user) then Needs2fa(partial)
      else Pair(user)
    case TwoFactorLogin(partial, codeOk, now, _) =>
      if IsLive(h, partial, now) && Holder(h, partial).value.user in users &&
         (codeOk || !IsGuarded(users, h, Holder(h, partial).value.user))
      then Pair(Holder(h, partial).value.user)
      else Refused
    case BackupCodeLogin(partial, accepts, now, _) =>
      if IsLive(h, partial, now) && Holder(h, partial).value.user in users &&
         (exists code | code in CodesLeft(users, h, Holder(h, partial).value.user) :: accepts(code))
      then Pair(Holder(h, partial).value.user)
      else Refused
    case Refresh(token, now) =>
      if IsGood(h, token, now) && Given(h, token).value.user in users && users[Given(h, token).value.user].active
      then Access(Given(h, token).value.user)
      else Refused
    case Logout(_) => Fine
    case SetupTotp(user) => if user in users then Fine else Refused
    case ConfirmTotp(user, codeOk, _) => if user in users && HasSecret(users, h, user) && codeOk then Fine else BadRequest
  }

  // ---- the tables hold what the talk tells ----

  ghost predicate UserShown(users: map<int, User>, st: State, h: seq<Exchange>, user: int) {
    && (user in st.users <==> user in users)
    && (user in users ==>
          var u := st.users[user];
          && u.active == users[user].active
          && u.totpSecret == HasSecret(users, h, user)
          && u.totpConfirmed == HasConfirmed(users, h, user)
          && u.backupCodes.Some? == StoredCodes(users, h, user).Some?
          && CodesLeft(users, h, user) == if u.backupCodes.Some? then u.backupCodes.value else [])
  }

  ghost predicate LockShown(users: map<int, User>, st: State, h: seq<Exchange>, user: int) {
    user in st.users ==>
      var n, last := Failures(users, h, user), LastFailure(users, h, user);
      && user in users && st.users[user].active == users[user].active
      && st.users[user].failed == n
      && (n > 0 ==> last.Some?)
      && st.users[user].lockedUntil == if n >= 10 then Some(last.value + 900000000) else None
  }

  ghost predicate PartialShown(st: State, h: seq<Exchange>, partial: string) {
    Holder(h, partial) == if partial in st.partials then Some(st.partials[partial]) else None
  }

  ghost predicate TokenShown(st: State, h: seq<Exchange>, token: string) {
    match Given(h, token)
    case None => token !in st.tokens
    case Some(to) =>
      to.createdAt >= 0 && token in st.tokens &&
      st.tokens[token] == TokenRow(to.user, Iso(to.createdAt + 604800000000), IsRevoked(h, token))
  }

  function Said(st: State, h: seq<Exchange>, e: Event): (h': seq<Exchange>)
    ensures |h'| == |h| + 1 && h'[|h|] == Exchange(e, Call(st, e).1) && h'[..|h|] == h
  {
    h + [Exchange(e, Call(st, e).1)]
  }

  lemma StepShowsUser(users: map<int, User>, st: State, h: seq<Exchange>, e: Event, user: int)
    requires UserShown(users, st, h, user)
    ensures UserShown(users, Step(st, e), Said(st, h, e), user)
  {
    hide Iso, ValidToken;
  }

  lemma StepShowsLock(users: map<int, User>, st: State, h: seq<Exchange>, e: Event, user: int)
    requires LockShown(users, st, h, user)
    ensures LockShown(users, Step(st, e), Said(st, h, e), user)
  {
    hide Iso, ValidToken;
  }

  lemma StepShowsPartial(st: State, h: seq<Exchange>, e: Event, partial: string)
    requires PartialShown(st, h, partial)
    ensures PartialShown(Step(st, e), Said(st, h, e), partial)
  {
    hide Iso, ValidToken;
  }

  lemma StepShowsToken(st: State, h: seq<Exchange>, e: Event, token: string)
    requires TokenShown(st, h, token)
    ensures TokenShown(Step(st, e), Said(st, h, e), token)
  {
    hide Iso, ValidToken;
  }

  lemma {:induction false} UserOverRuns(users: map<int, User>, trace: seq<Event>, user: int)
    ensures UserShown(users, Run(users, trace), Talk(users, trace), user)
  {
    if trace != [] {
      hide UserShown, Step, Call;
      var before, e := trace[..|trace| - 1], trace[|trace| - 1];
      UserOverRuns(users, before, user);
      StepShowsUser(users, Run(users, before), Talk(users, before), e, user);
    }
  }

  lemma {:induction false} LockOverRuns(users: map<int, User>, trace: seq<Event>, user: int)
    requires AreNew(users)
    ensures LockShown(users, Run(users, trace), Talk(users, trace), user)
  {
    if trace != [] {
      hide LockShown, Step, Call;
      var before, e := trace[..|trace| - 1], trace[|trace| - 1];
      LockOverRuns(users, before, user);
      StepShowsLock(users, Run(users, before), Talk(users, before), e, user);
    }
  }

  lemma {:induction false} PartialOverRuns(users: map<int, User>, trace: seq<Event>, partial: string)
    ensures PartialShown(Run(users, trace), Talk(users, trace), partial)
  {
    if trace != [] {
      hide PartialShown, Step, Call;
      var before, e := trace[..|trace| - 1], trace[|trace| - 1];
      PartialOverRuns(users, before, partial);
      StepShowsPartial(Run(users, before), Talk(users, before), e, partial);
    }
  }

  lemma {:induction false} TokenOverRuns(users: map<int, User>, trace: seq<Event>, token: string)
    ensures TokenShown(Run(users, trace), Talk(users, trace), token)
  {
    if trace != [] {
      hide TokenShown, Step, Call, Iso;
      var before, e := trace[..|trace| - 1], trace[|trace| - 1];
      TokenOverRuns(users, before, token);
      StepShowsToken(Run(users, before), Talk(users, before), e, token);
    }
  }

  // ---- refresh tokens ----

  lemma ValidIff(st: State, h: seq<Exchange>, token: string, now: nat)
    requires TokenShown(st, h, token) && now < MAX_INSTANT
    requires Given(h, token).Some? ==> Given(h, token).value.createdAt + 604800000000 < MAX_INSTANT
    ensures ValidToken(st, token, now) <==> IsGood(h, token, now)
  {
    hide Iso, TextLess, Given, IsRevoked;
    if Given(h, token).Some? {
      IsoOrder(now, Given(h, token).value.createdAt + 604800000000);
    }
  }

  /** A refresh token validates, by comparing timestamps as text, if and only if it was given out,
      has not been revoked since, and is less than seven days old. */
  lemma RefreshValidIff(users: map<int, User>, trace: seq<Event>, token: string, now: nat)
    requires now < MAX_INSTANT
    requires var given := Given(Talk(users, trace), token);
             given.Some? ==> given.value.createdAt + 604800000000 < MAX_INSTANT
    ensures ValidToken(Run(users, trace), token, now) <==> IsGood(Talk(users, trace), token, now)
  {
    hide *;
    TokenOverRuns(users, trace, token);
    ValidIff(Run(users, trace), Talk(users, trace), token, now);
  }

  // ---- every answer is the one promised ----

  lemma PasswordAnswer(users: map<int, User>, trace: seq<Event>, e: Event)
    requires AreNew(users) && e.PasswordLogin?
    ensures Call(Run(users, trace), e).1 == Promised(users, Talk(users, trace), e)
  {
    hide Run, Talk, HasSecret, HasConfirmed, Failures, LastFailure, StoredCodes, CodesLeft, Iso;
    UserOverRuns(users, trace, e.user);
    LockOverRuns(users, trace, e.user);
  }

  /** A live partial token answers with a pair for its owner if and only if the one-time code is
      right or no confirmed second factor asks for one; any other call is refused. */
  lemma TwoFactorAnswer(users: map<int, User>, trace: seq<Event>, e: Event)
    requires e.TwoFactorLogin?
    ensures Call(Run(users, trace), e).1 == Promised(users, Talk(users, trace), e)
  {
    hide Run, Talk, HasSecret, HasConfirmed, Holder, StoredCodes, CodesLeft, Iso;
    PartialOverRuns(users, trace, e.partial);
    if Holder(Talk(users, trace), e.partial).Some? {
      UserOverRuns(users, trace, Holder(Talk(users, trace), e.partial).value.user);
    }
  }

  lemma BackupAnswer(users: map<int, User>, trace: seq<Event>, e: Event)
    requires e.BackupCodeLogin?
    ensures Call(Run(users, trace), e).1 == Promised(users, Talk(users, trace), e)
  {
    hide Run, Talk, HasSecret, HasConfirmed, Holder, StoredCodes, CodesLeft, Iso;
    PartialOverRuns(users, trace, e.partial);
    if Holder(Talk(users, trace), e.partial).Some? {
      UserOverRuns(users, trace, Holder(Talk(users, trace), e.partial).value.user);
    }
  }

  lemma RefreshAnswer(users: map<int, User>, trace: seq<Event>, token: string, now: nat)
    requires now < MAX_INSTANT
    requires var given := Given(Talk(users, trace), token);
             given.Some? ==> given.value.createdAt + 604800000000 < MAX_INSTANT
    ensures Call(Run(users, trace), Event.Refresh(token, now)).1 == Promised(users, Talk(users, trace), Event.Refresh(token, now))
  {
    hide Run, Talk, HasSecret, HasConfirmed, Given, IsRevoked, StoredCodes, CodesLeft, Iso, TextLess;
    TokenOverRuns(users, trace, token);
    RefreshValidIff(users, trace, token, now);
    if Given(Talk(users, trace), token).Some? {
      UserOverRuns(users, trace, Given(Talk(users, trace), token).value.user);
    }
  }

  /** Over every run, from users without failures, each endpoint answers exactly what the talk so
      far promises. */
  lemma AnswersExact(users: map<int, User>, trace: seq<Event>, e: Event)
    requires AreNew(users)
    requires e.Refresh? ==>
               var given := Given(Talk(users, trace), e.token);
               e.now < MAX_INSTANT && (given.Some? ==> given.value.createdAt + 604800000000 < MAX_INSTANT)
    ensures Call(Run(users, trace), e).1 == Promised(users, Talk(users, trace), e)
  {
    hide Run, Talk, HasSecret, HasConfirmed, Given, StoredCodes, CodesLeft;
    match e
    case PasswordLogin(_, _, _, _, _) => PasswordAnswer(users, trace, e);
    case TwoFactorLogin(_, _, _, _) => TwoFactorAnswer(users, trace, e);
    case BackupCodeLogin(_, _, _, _) => BackupAnswer(users, trace, e);
    case Refresh(token, now) => RefreshAnswer(users, trace, token, now);
    case Logout(_) =>
    case SetupTotp(user) => UserOverRuns(users, trace, user);
    case ConfirmTotp(user, _, _) => UserOverRuns(users, trace, user);
  }

  // ---- what the promises amount to ----

  lemma {:induction false} TalkAt(users: map<int, User>, trace: seq<Event>, i: nat)
    requires i < |trace|
    ensures Talk(users, trace)[..i] == Talk(users, trace[..i])
    ensures Talk(users, trace)[i] == Exchange(trace[i], Call(Run(users, trace[..i]), trace[i]).1)
  {
    hide Call, Run;
    var before := trace[..|trace| - 1];
    if i < |before| {
      TalkAt(users, before, i);
      assert before[..i] == trace[..i];
    }
  }

  // From the tenth failure on, the next one comes at least 15 minutes after the last.
  ghost predicate Spaced(users: map<int, User>, h: seq<Exchange>, user: int) {
    forall j | 0 <= j < |h| && IsFailure(users, h[j], user) && Failures(users, h[..j], user) >= 10 ::
      LastFailure(users, h[..j], user).Some? && h[j].call.now >= LastFailure(users, h[..j], user).value + 900000000
  }

  /** Over every run the failure counter is the number of wrong passwords since the last
      pair, and from the tenth on consecutive failures are 15 minutes apart. */
  lemma LockoutOverRuns(users: map<int, User>, trace: seq<Event>, user: int)
    requires AreNew(users)
    ensures Spaced(users, Talk(users, trace), user)
    ensures var st := Run(users, trace);
            user in st.users ==> st.users[user].failed == Failures(users, Talk(users, trace), user)
  {
    hide Run, Talk, Failures, LastFailure, Promised;
    LockOverRuns(users, trace, user);
    var h := Talk(users, trace);
    forall j | 0 <= j < |h| && IsFailure(users, h[j], user) && Failures(users, h[..j], user) >= 10
      ensures LastFailure(users, h[..j], user).Some? && h[j].call.now >= LastFailure(users, h[..j], user).value + 900000000
    {
      TalkAt(users, trace, j);
      LockOverRuns(users, trace[..j], user);
      UserOverRuns(users, trace[..j], user);
      FailureWasOpen(users, trace[..j], trace[j]);
    }
  }

  lemma FailureWasOpen(users: map<int, User>, trace: seq<Event>, e: Event)
    requires AreNew(users) && e.PasswordLogin? && e.user in users && Call(Run(users, trace), e).1 == Refused
    ensures !IsLocked(users, Talk(users, trace), e.user, e.now)
  {
    hide Run, Talk, HasSecret, HasConfirmed, Failures, LastFailure, Call;
    PasswordAnswer(users, trace, e);
  }

  // ---- every second-factor login spends a partial token of its own ----

  lemma {:induction false} HolderMadeIt(h: seq<Exchange>, partial: string) returns (k: nat)
    requires Holder(h, partial).Some?
    ensures k < |h| && h[k].answer == Needs2fa(partial) && h[k].call.PasswordLogin?
    ensures Holder(h, partial) == Some(Partial(h[k].call.user, h[k].call.now))
    ensures forall j | k < j < |h| :: !Presents(h[j].call, partial)
  {
    var x := h[|h| - 1];
    if x.call.PasswordLogin? && x.answer == Needs2fa(partial) {
      k := |h| - 1;
    } else {
      k := HolderMadeIt(h[..|h| - 1], partial);
    }
  }

  // Random tokens are never drawn twice.
  ghost predicate Fresh(h: seq<Exchange>) {
    forall j, k | 0 <= j < k < |h| && h[j].answer.Needs2fa? && h[k].answer.Needs2fa? :: h[j].answer != h[k].answer
  }

  // The exchange gave a pair for the partial token.
  predicate Spends(x: Exchange, partial: string) {
    Presents(x.call, partial) && x.answer.Pair?
  }

  // The k-th exchange made the token for this user by a right password at this moment.
  predicate MadeAt(h: seq<Exchange>, k: int, partial: string, user: int, at: int) {
    && 0 <= k < |h| && h[k].answer == Needs2fa(partial)
    && h[k].call.PasswordLogin? && h[k].call.passwordOk && h[k].call.user == user && h[k].call.now == at
  }

  lemma SpentWasMade(users: map<int, User>, trace: seq<Event>, i: nat, partial: string) returns (k: nat, at: int)
    requires i < |trace| && Spends(Talk(users, trace)[i], partial)
    ensures var h := Talk(users, trace);
            && k < i && MadeAt(h, k, partial, h[i].answer.user, at) && h[i].call.now - at <= 300000000
            && forall j | k < j < i :: !Presents(h[j].call, partial)
  {
    hide Run, Talk, Holder, HasSecret, HasConfirmed, CodesLeft, Call, FirstAccepted;
    var h := Talk(users, trace);
    TalkAt(users, trace, i);
    if trace[i].TwoFactorLogin? {
      TwoFactorAnswer(users, trace[..i], trace[i]);
    } else {
      BackupAnswer(users, trace[..i], trace[i]);
    }
    k := HolderMadeIt(h[..i], partial);
    at := Holder(h[..i], partial).value.createdAt;
    TalkAt(users, trace, k);
    RightPassword(Run(users, trace[..k]), trace[k]);
    forall j | k < j < i
      ensures !Presents(h[j].call, partial)
    {
      assert h[..i][j] == h[j];
    }
  }

  lemma RightPassword(st: State, e: Event)
    requires e.PasswordLogin? && Call(st, e).1.Needs2fa?
    ensures e.passwordOk
  {
  }

  /** Login conservation: each pair issued by the second-factor or backup-code endpoint spends a
      partial token that a right password made for that user at most 300 seconds before, and that
      no call has presented since; with tokens never drawn twice, no other pair has spent it. */
  lemma EachPairSpendsItsOwnPartial(users: map<int, User>, trace: seq<Event>, i: nat, partial: string)
    requires i < |trace| && Spends(Talk(users, trace)[i], partial)
    ensures var h := Talk(users, trace);
            exists k, at :: k < i && MadeAt(h, k, partial, h[i].answer.user, at) && h[i].call.now - at <= 300000000 &&
                            forall j | k < j < i :: !Presents(h[j].call, partial)
    ensures var h := Talk(users, trace);
            Fresh(h) ==> forall j | 0 <= j < |h| && j != i :: !Spends(h[j], partial)
  {
    hide Talk;
    var h := Talk(users, trace);
    var k, at := SpentWasMade(users, trace, i, partial);
    if Fresh(h) {
      forall j | 0 <= j < |h| && j != i
        ensures !Spends(h[j], partial)
      {
        if Spends(h[j], partial) {
          var k', at' := SpentWasMade(users, trace, j, partial);
          assert false;
        }
      }
    }
  }

  // ---- backup codes ----

  lemma RemoveOne(codes: seq<string>, i: nat)
    requires i < |codes|
    ensures multiset(codes[..i] + codes[i + 1..]) + multiset{codes[i]} == multiset(codes)
  {
    assert codes == codes[..i] + [codes[i]] + codes[i + 1..];
  }

  lemma {:induction false} CodesConserved(users: map<int, User>, h: seq<Exchange>, user: int)
    requires user in users && StoredCodes(users, h, user).Some?
    ensures multiset(CodesLeft(users, h, user)) + multiset(CodesUsed(users, h, user)) ==
            multiset(StoredCodes(users, h, user).value)
  {
    if h != [] {
      var x, before := h[|h| - 1], h[..|h| - 1];
      if !(x.call.ConfirmTotp? && x.call.user == user && x.answer == Fine) {
        CodesConserved(users, before, user);
        if SpendsCode(x, user) {
          var left, used := CodesLeft(users, before, user), CodesUsed(users, before, user);
          var i := FirstAccepted(left, x.call.accepts);
          if i.Some? {
            RemoveOne(left, i.value);
            assert multiset(used + [left[i.value]]) == multiset(used) + multiset{left[i.value]};
          }
        }
      }
    }
  }

  /** Over every run, the backup codes in the table and those used since the last confirmation are
      together exactly the codes stored then: none is lost, none is used twice. */
  lemma BackupCodesConserved(users: map<int, User>, trace: seq<Event>, user: int)
    requires user in users && StoredCodes(users, Talk(users, trace), user).Some?
    ensures var st := Run(users, trace);
            && user in st.users && st.users[user].backupCodes.Some?
            && var left, used, stored := st.users[user].backupCodes.value, CodesUsed(users, Talk(users, trace), user),
                                         StoredCodes(users, Talk(users, trace), user).value;
            && multiset(left) + multiset(used) == multiset(stored) && |left| + |used| == |stored|
  {
    hide Run, Talk, CodesLeft, CodesUsed, StoredCodes, HasSecret, HasConfirmed;
    UserOverRuns(users, trace, user);
    CodesConserved(users, Talk(users, trace), user);
    var left, used := Run(users, trace).users[user].backupCodes.value, CodesUsed(users, Talk(users, trace), user);
    assert |multiset(left) + multiset(used)| == |left| + |used|;
  }

  // ---- the second factor ----

  // A right one-time code or a stored backup code.
  ghost predicate ShowsFactor(users: map<int, User>, h: seq<Exchange>, e: Event, user: int)
    requires user in users
  {
    || (e.TwoFactorLogin? && e.codeOk)
    || (e.BackupCodeLogin? && exists code | code in CodesLeft(users, h, user) :: e.accepts(code))
  }

  /** From a user's confirmation until the next set-up, every pair issued to that user answers a
      call with a right one-time code, or with a backup code that one of the stored codes accepts. */
  lemma SecondFactorRequired(users: map<int, User>, trace: seq<Event>, i: nat, user: int)
    requires i < |trace| && Talk(users, trace)[i].answer == Pair(user)
    requires user in users && IsGuarded(users, Talk(users, trace)[..i], user)
    ensures ShowsFactor(users, Talk(users, trace)[..i], trace[i], user)
  {
    TalkAt(users, trace, i);
    GuardedPair(users, trace[..i], trace[i], user);
  }

  lemma GuardedPair(users: map<int, User>, trace: seq<Event>, e: Event, user: int)
    requires user in users && IsGuarded(users, Talk(users, trace), user) && Call(Run(users, trace), e).1 == Pair(user)
    ensures ShowsFactor(users, Talk(users, trace), e, user)
  {
    hide Run, Talk, HasSecret, HasConfirmed, StoredCodes, CodesLeft, Holder, Iso, ValidToken;
    UserOverRuns(users, trace, user);
    if e.TwoFactorLogin? {
      TwoFactorAnswer(users, trace, e);
    } else if e.BackupCodeLogin? {
      BackupAnswer(users, trace, e);
    }
  }

  /** A set-up ends that: until it is confirmed the password alone gives a pair. */
  lemma SetupSuspendsFactor(st: State, user: int, now: nat, partial: string, token: string)
    requires user in st.users && st.users[user].active
    requires st.users[user].lockedUntil.Some? ==> st.users[user].lockedUntil.value <= now
    ensures Call(Step(st, SetupTotp(user)), PasswordLogin(user, true, now, partial, token)).1 == Pair(user)
  {
  }

  // ---- the endpoints as the source runs them ----

  class AuthService {
    var users: map<int, User>
    var partials: map<string, Partial>
    var tokens: map<string, TokenRow>

    ghost function Current(): State
      reads this
    {
      State(users, partials, tokens)
    }

    constructor (users: map<int, User>)
      ensures Current() == State(users, map[], map[])
    {
      this.users := users;
      partials, tokens := map[], map[];
    }

    method RecordLoginFailure(user: int, now: nat) returns (attempts: nat)
      requires user in users
      modifies this
      ensures Current() == AfterLoginFailure(old(Current()), user, now)
      ensures attempts == users[user].failed
    {
      users := users[user := users[user].(failed := users[user].failed + 1)];
      attempts := users[user].failed;
      if attempts >= MAX_FAILURES {
        users := users[user := users[user].(lockedUntil := Some(now + LOCK))];
      }
    }

    method RecordLoginSuccess(user: int)
      modifies this
      ensures Current() == AfterLoginSuccess(old(Current()), user)
    {
      if user in users {
        users := users[user := users[user].(failed := 0, lockedUntil := None)];
      }
    }

    method StoreRefreshToken(user: int, token: string, now: nat)
      modifies this
      ensures Current() == AfterStoreToken(old(Current()), user, token, now)
    {
      tokens := tokens[token := TokenRow(user, Iso(now + WEEK), false)];
    }

    method IssuePair(user: int, token: string, now: nat)
      modifies this
      ensures Current() == AfterIssue(old(Current()), user, token, now)
    {
      RecordLoginSuccess(user);
      StoreRefreshToken(user, token, now);
    }

    method ConsumePartialToken(partial: string, now: nat) returns (user: Option<int>)
      modifies this
      ensures (Current(), user) == AfterConsumePartial(old(Current()), partial, now)
    {
      if partial !in partials {
        return None;
      }
      var data := partials[partial];
      partials := partials - {partial};
      if now - data.createdAt > PARTIAL_LIFE {
        return None;
      }
      return Some(data.user);
    }

    /** The loop over the stored hashes: the first that accepts the code is removed. */
    method ConsumeBackupCode(user: int, accepts: string -> bool) returns (consumed: bool)
      modifies this
      ensures (Current(), consumed) == AfterConsumeCode(old(Current()), user, accepts)
    {
      if user !in users || users[user].backupCodes.None? {
        return false;
      }
      var codes := users[user].backupCodes.value;
      for i := 0 to |codes|
        invariant Current() == old(Current())
        invariant forall j | 0 <= j < i :: !accepts(codes[j])
      {
        if accepts(codes[i]) {
          users := users[user := users[user].(backupCodes := Some(codes[..i] + codes[i + 1..]))];
          return true;
        }
      }
      return false;
    }

    method PasswordLogin(user: int, passwordOk: bool, now: nat, partial: string, token: string) returns (answer: Answer)
      modifies this
      ensures (Current(), answer) == AfterPasswordLogin(old(Current()), user, passwordOk, now, partial, token)
    {
      if user !in users {
        return Refused;
      }
      var u := users[user];
      if u.lockedUntil.Some? && u.lockedUntil.value > now {
        return Locked;
      }
      if !u.active {
        return Refused;
      }
      if !passwordOk {
        var attempts := RecordLoginFailure(user, now);
        return Refused;
      }
      if !u.totpConfirmed {
        IssuePair(user, token, now);
        return Pair(user);
      }
      partials := partials[partial := Partial(user, now)];
      return Needs2fa(partial);
    }

    method TwoFactorLogin(partial: string, codeOk: bool, now: nat, token: string) returns (answer: Answer)
      modifies this
      ensures (Current(), answer) == AfterTwoFactorLogin(old(Current()), partial, codeOk, now, token)
    {
      var user := ConsumePartialToken(partial, now);
      if user.None? || user.value !in users {
        return Refused;
      }
      var u := users[user.value];
      if !u.totpSecret || !u.totpConfirmed {
        IssuePair(user.value, token, now);
        return Pair(user.value);
      }
      if !codeOk {
        return Refused;
      }
      IssuePair(user.value, token, now);
      return Pair(user.value);
    }

    method BackupCodeLogin(partial: string, accepts: string -> bool, now: nat, token: string) returns (answer: Answer)
      modifies this
      ensures (Current(), answer) == AfterBackupCodeLogin(old(Current()), partial, accepts, now, token)
    {
      var user := ConsumePartialToken(partial, now);
      if user.None? {
        return Refused;
      }
      var consumed := ConsumeBackupCode(user.value, accepts);
      if !consumed {
        return Refused;
      }
      IssuePair(user.value, token, now);
      return Pair(user.value);
    }

    method RefreshAccess(token: string, now: nat) returns (answer: Answer)
      ensures (Current(), answer) == Call(Current(), Event.Refresh(token, now))
    {
      if token !in tokens || tokens[token].revoked || !TextLess(Iso(now), tokens[token].expiresAt) {
        return Refused;
      }
      var user := tokens[token].user;
      if user !in users || !users[user].active {
        return Refused;
      }
      return Access(user);
    }

    method RevokeRefreshToken(token: string)
      modifies this
      ensures Current() == AfterRevoke(old(Current()), token)
    {
      if token in tokens {
        tokens := tokens[token := tokens[token].(revoked := true)];
      }
    }

    method ConfirmTotp(user: int, codeOk: bool, codes: seq<string>) returns (answer: Answer)
      modifies this
      ensures (Current(), answer) == AfterConfirmTotp(old(Current()), user, codeOk, codes)
    {
      if user !in users || !users[user].totpSecret || !codeOk {
        return BadRequest;
      }
      users := users[user := users[user].(totpConfirmed := true, backupCodes := Some(codes))];
      return Fine;
    }

    method SetupTotp(user: int) returns (answer: Answer)
      modifies this
      ensures (Current(), answer) == AfterSetupTotp(old(Current()), user)
    {
      if user !in users {
        return Refused;
      }
      users := users[user := users[user].(totpSecret := true, totpConfirmed := false)];
      return Fine;
    }

    /** Every endpoint call changes the tables and answers as the transition system does. */
    method Deliver(e: Event) returns (answer: Answer)
      modifies this
      ensures (Current(), answer) == Call(old(Current()), e)
    {
      hide AfterPasswordLogin, AfterTwoFactorLogin, AfterBackupCodeLogin, AfterSetupTotp, AfterConfirmTotp, AfterRevoke;
      match e
      case PasswordLogin(user, passwordOk, now, partial, token) => answer := PasswordLogin(user, passwordOk, now, partial, token);
      case TwoFactorLogin(partial, codeOk, now, token) => answer := TwoFactorLogin(partial, codeOk, now, token);
      case BackupCodeLogin(partial, accepts, now, token) => answer := BackupCodeLogin(partial, accepts, now, token);
      case Refresh(token, now) => answer := RefreshAccess(token, now);
      case Logout(token) =>
        RevokeRefreshToken(token);
        answer := Fine;
      case SetupTotp(user) => answer := SetupTotp(user);
      case ConfirmTotp(user, codeOk, codes) => answer := ConfirmTotp(user, codeOk, codes);
    }
  }
}
