/** Accounts, the two scripts that change them, and which session tokens stay accepted. */
module Sessions {
  import opened Values
  import opened PodScoping

  datatype User = User(id: Id, password: string, firstName: string, lastName: string, role: Role,
                       isActive: bool, tenantId: Tenant, authVersion: int)

  /** A session token: whom it names, and the account version it was minted with, 1 if it carries none. */
  datatype Token = Token(id: Id, tenantId: Option<Tenant>, authVersion: Option<int>)

  function VersionOf(token: Token): int {
    if token.authVersion.Some? then token.authVersion.value else 1
  }

  /** The session check: the account exists, is active, has not moved tenant, and is at the token's version. */
  predicate Accepts(dbUser: Option<User>, token: Token) {
    && token.id != ""
    && dbUser.Some?
    && dbUser.value.isActive
    && !(Given(token.tenantId) && token.tenantId.value != dbUser.value.tenantId)
    && VersionOf(token) == dbUser.value.authVersion
  }

  /** What `upsertUser` is asked for. The email address is already trimmed and in lower case. */
  datatype UserInput = UserInput(email: string, password: Option<string>, firstName: Option<string>,
                                 lastName: Option<string>, role: Option<Role>, isActive: Option<bool>)

  datatype DirectorInput = DirectorInput(email: string, password: string, firstName: string, lastName: string)

  datatype Outcome = Created | Updated(sessionsRevoked: bool) | Refused

  /** Whether the input changes a field that governs access. A given password always does. */
  predicate Revokes(existing: User, input: UserInput) {
    || Given(input.password)
    || (input.role.Some? && input.role.value != existing.role)
    || (input.isActive.Some? && input.isActive.value != existing.isActive)
  }

  predicate AsksForSomething(input: UserInput) {
    Given(input.password) || Given(input.firstName) || Given(input.lastName) || input.role.Some? || input.isActive.Some?
  }

  type Accounts = map<string, User>

  function Find(users: Accounts, email: string): Option<User> {
    if email in users then Some(users[email]) else None
  }

  /** The row after an update: the given fields replaced, and the version moved if access changed. */
  function UpdatedUser(u: User, input: UserInput, passwordHash: string): User {
    User(u.id,
         if Given(input.password) then passwordHash else u.password,
         if Given(input.firstName) then input.firstName.value else u.firstName,
         if Given(input.lastName) then input.lastName.value else u.lastName,
         if input.role.Some? then input.role.value else u.role,
         if input.isActive.Some? then input.isActive.value else u.isActive,
         u.tenantId,
         if Revokes(u, input) then u.authVersion + 1 else u.authVersion)
  }

  function PromotedUser(u: User, passwordHash: string): User {
    u.(password := passwordHash, role := Director, isActive := true, authVersion := u.authVersion + 1)
  }

  /** The stored row after an edit, field by field. The version moves by one if a password was given or the
      stored role or active state is another than before. */
  predicate EditedAs(was: User, now: User, input: UserInput, passwordHash: string) {
    && now.id == was.id && now.tenantId == was.tenantId
    && (if input.password == None || input.password.value == "" then now.password == was.password else now.password == passwordHash)
    && (if input.firstName == None || input.firstName.value == "" then now.firstName == was.firstName else Some(now.firstName) == input.firstName)
    && (if input.lastName == None || input.lastName.value == "" then now.lastName == was.lastName else Some(now.lastName) == input.lastName)
    && (if input.role == None then now.role == was.role else Some(now.role) == input.role)
    && (if input.isActive == None then now.isActive == was.isActive else Some(now.isActive) == input.isActive)
    && (if (input.password == None || input.password.value == "") && now.role == was.role && now.isActive == was.isActive
        then now.authVersion == was.authVersion else now.authVersion == was.authVersion + 1)
  }

  lemma UpdateEdits(u: User, now: User, input: UserInput, passwordHash: string)
    ensures EditedAs(u, now, input, passwordHash) <==> now == UpdatedUser(u, input, passwordHash)
    ensures now == UpdatedUser(u, input, passwordHash) ==> (now.authVersion != u.authVersion <==> Revokes(u, input))
  {
    assert now == User(now.id, now.password, now.firstName, now.lastName, now.role, now.isActive, now.tenantId, now.authVersion);
  }

  /** The fields an edit replaces, and how many it does. */
  method FieldsGiven(existing: User, input: UserInput, passwordHash: string) returns (user: User, fields: nat)
    ensures user == UpdatedUser(existing, input, passwordHash).(authVersion := existing.authVersion)
    ensures fields == 0 <==> !AsksForSomething(input)
  {
    user, fields := existing, 0;
    if Given(input.password) { user, fields := user.(password := passwordHash), fields + 1; }
    if Given(input.firstName) { user, fields := user.(firstName := input.firstName.value), fields + 1; }
    if Given(input.lastName) { user, fields := user.(lastName := input.lastName.value), fields + 1; }
    if input.role.Some? { user, fields := user.(role := input.role.value), fields + 1; }
    if input.isActive.Some? { user, fields := user.(isActive := input.isActive.value), fields + 1; }
  }

  class AccountStore {
    var users: Accounts

    /** `passwordHash` stands for the salted hash of the given password, `newId` for the id of a new row. */
    method UpsertUser(input: UserInput, tenantId: Tenant, passwordHash: string, newId: Id) returns (outcome: Outcome)
      modifies this
      ensures input.email !in old(users) ==>
                if Given(input.password) && Given(input.firstName) && Given(input.lastName) && input.role.Some?
                then outcome == Created
                     && users == old(users)[input.email := User(newId, passwordHash, input.firstName.value,
                          input.lastName.value, input.role.value, input.isActive != Some(false), tenantId, 1)]
                else outcome == Refused && users == old(users)
      ensures input.email in old(users) && !AsksForSomething(input) ==> outcome == Refused && users == old(users)
      ensures input.email in old(users) && AsksForSomething(input) ==>
                && outcome == Updated(Revokes(old(users)[input.email], input))
                && users == old(users)[input.email := UpdatedUser(old(users)[input.email], input, passwordHash)]
      // an edit is refused exactly if it gives nothing
      ensures input.email in old(users) ==>
                (outcome == Refused <==>
                   && (input.password == None || input.password.value == "") && input.role == None && input.isActive == None
                   && (input.firstName == None || input.firstName.value == "")
                   && (input.lastName == None || input.lastName.value == ""))
      // an update writes what was given to this account, and sessions end exactly if the version moves
      ensures outcome.Updated? ==>
                && input.email in old(users) && input.email in users
                && EditedAs(old(users)[input.email], users[input.email], input, passwordHash)
                && (outcome.sessionsRevoked <==> users[input.email].authVersion != old(users)[input.email].authVersion)
      ensures users - {input.email} == old(users) - {input.email}
    {
      if input.email !in users {
        if !Given(input.password) || !Given(input.firstName) || !Given(input.lastName) || input.role == None {
          return Refused;
        }
        users := users[input.email := User(newId, passwordHash, input.firstName.value, input.lastName.value,
                                           input.role.value, if input.isActive.Some? then input.isActive.value else true,
                                           tenantId, 1)];
        return Created;
      }
      var existing := users[input.email];
      var user, fields := FieldsGiven(existing, input, passwordHash);
      if fields == 0 { return Refused; }
      var revokes := Given(input.password)
        || (input.role.Some? && input.role.value != existing.role)
        || (input.isActive.Some? && input.isActive.value != existing.isActive);
      if revokes { user := user.(authVersion := user.authVersion + 1); }
      assert revokes == Revokes(existing, input) && user == UpdatedUser(existing, input, passwordHash);
      UpdateEdits(existing, user, input, passwordHash);
      hide EditedAs, UpdatedUser, Revokes;
      users := users[input.email := user];
      outcome := Updated(revokes);
    }

    method UpsertDirector(input: DirectorInput, tenantId: Tenant, passwordHash: string, newId: Id) returns (outcome: Outcome)
      modifies this
      ensures input.email in old(users) ==>
                && outcome == Updated(true)
                && users == old(users)[input.email := PromotedUser(old(users)[input.email], passwordHash)]
                && var was, now := old(users)[input.email], users[input.email];
                   && now == User(was.id, passwordHash, was.firstName, was.lastName, Director, true, was.tenantId, was.authVersion + 1)
      ensures input.email !in old(users) ==>
                && outcome == Created
                && users == old(users)[input.email := User(newId, passwordHash,
                     if input.firstName == "" then "Admin" else input.firstName, input.lastName, Director, true, tenantId, 1)]
    {
      if input.email in users {
        var u := users[input.email];
        users := users[input.email := u.(password := passwordHash, role := Director, isActive := true,
                                         authVersion := u.authVersion + 1)];
        return Updated(true);
      }
      users := users[input.email := User(newId, passwordHash, if input.firstName != "" then input.firstName else "Admin",
                                         input.lastName, Director, true, tenantId, 1)];
      return Created;
    }
  }

  // ---- runs of the two scripts, as one account sees them ----

  datatype Command =
    | Upsert(input: UserInput, hash: string)
    | Promote(email: string, pwHash: string)

  predicate Addresses(c: Command, email: string) {
    match c case Upsert(input, _) => input.email == email case Promote(e, _) => e == email
  }

  /** What a command does to an existing account. */
  function Apply(u: User, email: string, c: Command): User {
    if !Addresses(c, email) then u
    else match c
      case Upsert(input, hash) => if AsksForSomething(input) then UpdatedUser(u, input, hash) else u
      case Promote(_, hash) => PromotedUser(u, hash)
  }

  function Run(u: User, email: string, cs: seq<Command>): User {
    if cs == [] then u else Apply(Run(u, email, cs[..|cs| - 1]), email, cs[|cs| - 1])
  }

  /** The command resets the password, changes the role, or changes whether the account is active. */
  predicate CutsAccess(u: User, email: string, c: Command) {
    Addresses(c, email) && match c
      case Upsert(input, _) => Revokes(u, input)
      case Promote(_, _) => true
  }

  ghost predicate SomeCut(u: User, email: string, cs: seq<Command>) {
    exists i :: 0 <= i < |cs| && CutsAccess(Run(u, email, cs[..i]), email, cs[i])
  }

  /** A run has a cut if the run without its last command has one, or the last command is one. */
  lemma LastCut(u: User, email: string, cs: seq<Command>)
    requires cs != []
    ensures var init, last := cs[..|cs| - 1], cs[|cs| - 1];
            SomeCut(u, email, cs) <==> SomeCut(u, email, init) || CutsAccess(Run(u, email, init), email, last)
  {
    var init, last := cs[..|cs| - 1], cs[|cs| - 1];
    hide CutsAccess, Run;
    assert forall i :: 0 <= i <= |init| ==> cs[..i] == init[..i];
    assert cs[..|init|] == init;
    if SomeCut(u, email, init) {
      var i :| 0 <= i < |init| && CutsAccess(Run(u, email, init[..i]), email, init[i]);
      assert CutsAccess(Run(u, email, cs[..i]), email, cs[i]);
    }
    if CutsAccess(Run(u, email, init), email, last) {
      assert CutsAccess(Run(u, email, cs[..|cs| - 1]), email, cs[|cs| - 1]);
    }
  }

  /** One command moves the version by one if it cuts access, and otherwise not at all. */
  lemma ApplyVersion(u: User, email: string, c: Command)
    ensures var v := Apply(u, email, c);
            && v.id == u.id && v.tenantId == u.tenantId
            && v.authVersion == (if CutsAccess(u, email, c) then u.authVersion + 1 else u.authVersion)
            && (!CutsAccess(u, email, c) ==> v.role == u.role && v.isActive == u.isActive && v.password == u.password)
  {
  }

  /** Who the account is never changes; its version never falls, and rises exactly by a cut. */
  lemma {:induction false} RunVersions(u: User, email: string, cs: seq<Command>)
    ensures var v := Run(u, email, cs);
            && v.id == u.id && v.tenantId == u.tenantId
            && v.authVersion >= u.authVersion
            && (v.authVersion > u.authVersion <==> SomeCut(u, email, cs))
            && (!SomeCut(u, email, cs) ==> v.role == u.role && v.isActive == u.isActive && v.password == u.password)
  {
    if cs != [] {
      var init, last := cs[..|cs| - 1], cs[|cs| - 1];
      RunVersions(u, email, init);
      LastCut(u, email, cs);
      ApplyVersion(Run(u, email, init), email, last);
      hide SomeCut, CutsAccess, Apply;
      assert Run(u, email, cs) == Apply(Run(u, email, init), email, last);
    }
  }

  /** A token minted by now is accepted after a run if and only if it is accepted now and no command of the
      run cut access. A pure rename leaves it accepted; nothing, reactivation included, brings it back. */
  lemma AcceptedAfterRunExactly(u: User, email: string, cs: seq<Command>, token: Token)
    requires VersionOf(token) <= u.authVersion
    ensures Accepts(Some(Run(u, email, cs)), token) <==> Accepts(Some(u), token) && !SomeCut(u, email, cs)
  {
    RunVersions(u, email, cs);
    if Accepts(Some(Run(u, email, cs)), token) {
      assert u.authVersion == Run(u, email, cs).authVersion;
    }
  }

  // ---- what the last command on a setting leaves ----

  predicate GivesActive(c: Command, email: string) {
    match c case Upsert(input, _) => input.email == email && input.isActive.Some? case Promote(e, _) => e == email
  }

  predicate GivesRole(c: Command, email: string) {
    match c case Upsert(input, _) => input.email == email && input.role.Some? case Promote(e, _) => e == email
  }

  predicate GivesPassword(c: Command, email: string) {
    match c
    case Upsert(input, _) => input.email == email && input.password.Some? && input.password.value != ""
    case Promote(e, _) => e == email
  }

  /** One command writes what it gives and keeps what it does not give. */
  lemma CommandWrites(u: User, email: string, c: Command)
    ensures var v := Apply(u, email, c);
            && (!GivesActive(c, email) ==> v.isActive == u.isActive)
            && (!GivesRole(c, email) ==> v.role == u.role)
            && (!GivesPassword(c, email) ==> v.password == u.password)
            && (GivesActive(c, email) ==> v.isActive == if c.Upsert? then c.input.isActive.value else true)
            && (GivesRole(c, email) ==> v.role == if c.Upsert? then c.input.role.value else Director)
            && (GivesPassword(c, email) ==> v.password == if c.Upsert? then c.hash else c.pwHash)
  {
  }

  /** After a run the account is as active as the last command on its active state made it. */
  lemma {:induction false} LastActiveStateStands(u: User, email: string, cs: seq<Command>, i: nat)
    requires i < |cs| && GivesActive(cs[i], email) && forall j :: i < j < |cs| ==> !GivesActive(cs[j], email)
    ensures Run(u, email, cs).isActive == if cs[i].Upsert? then cs[i].input.isActive.value else true
  {
    var init := cs[..|cs| - 1];
    CommandWrites(Run(u, email, init), email, cs[|cs| - 1]);
    hide Apply, GivesActive;
    if i < |init| { LastActiveStateStands(u, email, init, i); }
  }

  lemma {:induction false} LastRoleStands(u: User, email: string, cs: seq<Command>, i: nat)
    requires i < |cs| && GivesRole(cs[i], email) && forall j :: i < j < |cs| ==> !GivesRole(cs[j], email)
    ensures Run(u, email, cs).role == if cs[i].Upsert? then cs[i].input.role.value else Director
  {
    var init := cs[..|cs| - 1];
    CommandWrites(Run(u, email, init), email, cs[|cs| - 1]);
    hide Apply, GivesRole;
    if i < |init| { LastRoleStands(u, email, init, i); }
  }

  lemma {:induction false} LastPasswordStands(u: User, email: string, cs: seq<Command>, i: nat)
    requires i < |cs| && GivesPassword(cs[i], email) && forall j :: i < j < |cs| ==> !GivesPassword(cs[j], email)
    ensures Run(u, email, cs).password == if cs[i].Upsert? then cs[i].hash else cs[i].pwHash
  {
    var init := cs[..|cs| - 1];
    CommandWrites(Run(u, email, init), email, cs[|cs| - 1]);
    hide Apply, GivesPassword;
    if i < |init| { LastPasswordStands(u, email, init, i); }
  }

  /** A token on its fields: it names somebody, who is there and active, in the tenant it names if it names one,
      and at the version it was minted with; a token from before versions counts as minted at the first. */
  lemma WhoIsAccepted(dbUser: Option<User>, token: Token)
    ensures Accepts(dbUser, token) <==>
            exists u :: dbUser == Some(u) && u.isActive && token.id != ""
                     && token.tenantId in {None, Some(""), Some(u.tenantId)}
                     && (token.authVersion == Some(u.authVersion) || (token.authVersion == None && u.authVersion == 1))
  {
    if dbUser.Some? {
      var u := dbUser.value;
      assert Accepts(dbUser, token) <==>
          u.isActive && token.id != "" && token.tenantId in {None, Some(""), Some(u.tenantId)}
          && (token.authVersion == Some(u.authVersion) || (token.authVersion == None && u.authVersion == 1));
    }
  }

  /** Where the last command on the active state is a deactivation, no token is accepted, a later one included. */
  lemma DeactivatedIsShutOut(u: User, email: string, cs: seq<Command>, i: nat, token: Token)
    requires i < |cs| && cs[i].Upsert? && cs[i].input.email == email && cs[i].input.isActive == Some(false)
    requires forall j :: i < j < |cs| ==> !GivesActive(cs[j], email)
    ensures !Accepts(Some(Run(u, email, cs)), token)
  {
    LastActiveStateStands(u, email, cs, i);
    WhoIsAccepted(Some(Run(u, email, cs)), token);
  }

  /** No password, and no role or active state other than the account has. */
  predicate Renames(u: User, input: UserInput) {
    && input.password in {None, Some("")} && input.role in {None, Some(u.role)} && input.isActive in {None, Some(u.isActive)}
  }

  /** A run that only renames the account leaves every token as it is, accepted or not. */
  lemma {:induction false} RenameCutsNothing(u: User, email: string, cs: seq<Command>, token: Token)
    requires forall c :: c in cs ==>
               match c case Upsert(input, _) => input.email != email || Renames(u, input) case Promote(e, _) => e != email
    ensures var v := Run(u, email, cs);
            v == u.(firstName := v.firstName, lastName := v.lastName) && (Accepts(Some(v), token) <==> Accepts(Some(u), token))
  {
    if cs != [] {
      var init, last := cs[..|cs| - 1], cs[|cs| - 1];
      assert last in cs && forall c :: c in init ==> c in cs;
      RenameCutsNothing(u, email, init, token);
    }
  }

  lemma {:induction false} RunSplit(u: User, email: string, cs: seq<Command>, ds: seq<Command>)
    ensures Run(u, email, cs + ds) == Run(Run(u, email, cs), email, ds)
  {
    if ds == [] {
      assert cs + ds == cs;
    } else {
      assert (cs + ds)[..|cs + ds| - 1] == cs + ds[..|ds| - 1];
      RunSplit(u, email, cs, ds[..|ds| - 1]);
    }
  }

  /** Once a minted token is rejected it stays rejected, whatever is run afterwards. */
  lemma RevocationIsPermanent(u: User, email: string, cs: seq<Command>, ds: seq<Command>, token: Token)
    requires VersionOf(token) <= u.authVersion
    requires !Accepts(Some(Run(u, email, cs)), token)
    ensures !Accepts(Some(Run(u, email, cs + ds)), token)
  {
    RunVersions(u, email, cs);
    RunSplit(u, email, cs, ds);
    AcceptedAfterRunExactly(Run(u, email, cs), email, ds, token);
  }
}
