/** Session state and the two decisions made from it in tutor_app/app.py:
    which session a login attempt leaves behind, and whether a request for a
    tutor's account page is allowed. */
module Auth {
  import opened TutorStore

  /** The only principal kind the application issues. */
  const TutorType := "Tutor"

  /** One session key: absent, present and holding `None`, or holding a value. */
  datatype Slot<T> = Missing | Null | Set(value: T)

  /** The two keys `current_user_id` and `current_user_type`. */
  datatype Session = Session(userId: Slot<nat>, userType: Slot<string>)

  /** The sessions the handlers can produce: untouched, logged out, or logged in
      as a tutor, with both keys always written together. */
  ghost predicate Consistent(s: Session) {
    || s == Session(Missing, Missing)
    || s == Session(Null, Null)
    || (s.userId.Set? && s.userType == Set(TutorType))
  }

  /** The value a present key holds, `None` standing for Python's None. */
  function Read<T>(slot: Slot<T>): Option<T>
    requires !slot.Missing?
  {
    if slot.Set? then Some(slot.value) else None
  }

  /** The session after a login attempt with these credentials. Both keys are
      cleared first and, on a match, set together; the result does not depend
      on what the session held before. */
  function LoginSession(table: seq<Tutor>, email: string, password: string): (s: Session)
    ensures Consistent(s)
    ensures s.userId.Set? <==> exists t :: t in table && t.email == email && t.password == password
    ensures s.userId.Set? ==> exists t :: t in table && t.email == email && t.password == password && t.id == s.userId.value
    ensures !s.userId.Set? ==> s == Session(Null, Null)
  {
    match FindByCredentials(table, email, password)
    case Some(t) => Session(Set(t.id), Set(TutorType))
    case None => Session(Null, Null)
  }

  /** The initialisation the account handler runs first: a session without a
      `current_user_id` key gets both keys set to `None`; any other session is
      left as it is. */
  function Initialise(s: Session): (r: Session)
    ensures !r.userId.Missing?
    ensures s.userId.Missing? ==> r == Session(Null, Null)
    ensures !s.userId.Missing? ==> r == s
    ensures Consistent(s) ==> Consistent(r) && !r.userType.Missing?
  {
    if s.userId.Missing? then Session(Null, Null) else s
  }

  /** Why a request is refused; all three are shown to the client alike. */
  datatype Denial = NotLoggedIn | OtherTutor | OtherPrincipal

  datatype Decision = Allow | Deny(reason: Denial)

  /** The ordered checks of the account handler on the two session values read.
      Access is allowed exactly to the logged-in tutor whose id is the one
      requested. */
  function Decide(userId: Option<nat>, userType: Option<string>, requested: nat): (d: Decision)
    ensures d == Allow <==> userId == Some(requested) && userType == Some(TutorType)
    ensures d == Deny(NotLoggedIn) <==> userId.None?
    ensures d == Deny(OtherTutor) <==> userId.Some? && userId.value != requested && userType == Some(TutorType)
    ensures d == Deny(OtherPrincipal) <==> userId.Some? && userType != Some(TutorType)
  {
    if userId.None? then Deny(NotLoggedIn)
    else if userType == Some(TutorType) then
      if userId.value == requested then Allow else Deny(OtherTutor)
    else Deny(OtherPrincipal)
  }

  /** What the account handler answers. `KeyError` is what reading a missing
      `current_user_type` key would raise. */
  datatype Page = AccountPage(tutor: Tutor) | PermissionDenied | NotFound | KeyError

  /** The account handler's answer for a session and a requested id: the page
      of the requested tutor only to that same tutor, a not-found answer when
      that tutor's row is gone, and one permission-denied page for every
      refusal. */
  function AccountView(s: Session, table: seq<Tutor>, requested: nat): (p: Page)
    ensures p.AccountPage? <==>
      s.userId == Set(requested) && s.userType == Set(TutorType) && FindById(table, requested).Some?
    ensures p.AccountPage? ==> p.tutor in table && p.tutor.id == requested
    ensures p.NotFound? <==>
      s.userId == Set(requested) && s.userType == Set(TutorType) && FindById(table, requested).None?
    ensures p.KeyError? <==> !s.userId.Missing? && s.userType.Missing?
    ensures Consistent(s) ==> !p.KeyError?
  {
    var s' := Initialise(s);
    if s'.userType.Missing? then KeyError
    else
      match Decide(Read(s'.userId), Read(s'.userType), requested)
      case Allow =>
        (match FindById(table, requested)
         case Some(t) => AccountPage(t)
         case None => NotFound)
      case Deny(_) => PermissionDenied
  }

  /** Every refusal, whatever its reason, is the same permission-denied page,
      and every session that is not logged in as the requested tutor is
      refused. */
  lemma EveryDenialLooksAlike(s: Session, table: seq<Tutor>, requested: nat)
    requires !Initialise(s).userType.Missing?
    ensures Decide(Read(Initialise(s).userId), Read(Initialise(s).userType), requested).Deny?
            <==> AccountView(s, table, requested) == PermissionDenied
    ensures !(s.userId == Set(requested) && s.userType == Set(TutorType)) ==>
              AccountView(s, table, requested) == PermissionDenied
  {
  }

  /** A session with no `current_user_id` key is initialised to the logged-out
      session and is treated exactly like it: refused. */
  lemma MissingKeysLikeLoggedOut(s: Session, table: seq<Tutor>, requested: nat)
    requires s.userId.Missing?
    ensures Initialise(s) == Session(Null, Null)
    ensures AccountView(s, table, requested) == AccountView(Session(Null, Null), table, requested)
    ensures AccountView(s, table, requested) == PermissionDenied
  {
  }

  /** After a successful login as `t`, the account page of `t` is shown and
      every other tutor's account is refused. */
  lemma LoginThenAccount(table: seq<Tutor>, t: Tutor, requested: nat)
    requires TableValid(table)
    requires t in table
    ensures LoginSession(table, t.email, t.password) == Session(Set(t.id), Set(TutorType))
    ensures AccountView(LoginSession(table, t.email, t.password), table, requested) ==
            if requested == t.id then AccountPage(t) else PermissionDenied
  {
  }

  /** A failed login logs the client out: every account request that follows
      is refused, whatever the session held before. */
  lemma FailedLoginDenies(table: seq<Tutor>, email: string, password: string, requested: nat)
    requires FindByCredentials(table, email, password).None?
    ensures LoginSession(table, email, password) == Session(Null, Null)
    ensures AccountView(LoginSession(table, email, password), table, requested) == PermissionDenied
  {
  }
}
