/** The request handlers of tutor_app/app.py that change state, on one
    client's view of the application: the shared tutor table and that client's
    session. */
module TutorApp {
  import opened TutorStore
  import opened Auth

  const SignupSucceeded := "You've successfully signed up as a tutor!"
  const SignupEmailInUse := "The email you have entered is already in use for an existing tutor account."
  const SignupFailed := "An error occurred while signing up. Please try again later."
  const LoginSucceeded := "Successful login"
  const LoginFailed := "Login failed. Please check the email and password."

  /** The JSON body of a login answer: a message and, on success, the id. */
  datatype LoginReply = LoginReply(message: string, tutorId: Option<nat>)

  /** The rows `seed_database` inserts: name, email, password. */
  const SeedRows: seq<(string, string, string)> := [
    ("John Doe", "john.doe@tutorplanet.co.uk", "password"),
    ("Jane Smith", "jane.smith@tutorplanet.co.uk", "password")
  ]

  class App {
    var tutors: seq<Tutor>
    var session: Session

    ghost predicate Valid()
      reads this
    {
      TableValid(tutors) && Consistent(session)
    }

    /** An empty table and a client that has sent nothing yet: the state
        before the seeding that runs when the module is imported
        (tutor_app/app.py:164-165); `Seed` is then called on it. */
    constructor ()
      ensures Valid()
      ensures tutors == [] && session == Session(Missing, Missing)
    {
      tutors := [];
      session := Session(Missing, Missing);
    }

    /** The POST branch of the sign-up handler. `storeFault` stands for the
        store failing for any reason other than the email constraint. The
        session is neither read nor written. */
    method Signup(name: string, email: string, password: string, storeFault: bool) returns (message: string)
      requires Valid()
      modifies this`tutors
      ensures Valid()
      ensures session == old(session)
      ensures storeFault ==> tutors == old(tutors) && message == SignupFailed
      ensures !storeFault && EmailTaken(old(tutors), email) ==>
                tutors == old(tutors) && message == SignupEmailInUse
      ensures !storeFault && !EmailTaken(old(tutors), email) ==>
                && tutors == old(tutors) + [Tutor(NextId(old(tutors)), name, email, password)]
                && (forall t :: t in old(tutors) ==> t.id != NextId(old(tutors)))
                && message == SignupSucceeded
    {
      if storeFault {
        // rolled back: the table keeps its rows
        message := SignupFailed;
        return;
      }
      match Insert(tutors, name, email, password)
      case Inserted(table, _) =>
        tutors := table;
        message := SignupSucceeded;
      case IntegrityError =>
        message := SignupEmailInUse;
    }

    /** The POST branch of the login handler: clear both keys, look the
        credentials up, and on a match set both keys. */
    method Login(email: string, password: string) returns (reply: LoginReply)
      requires Valid()
      modifies this`session
      ensures Valid()
      ensures tutors == old(tutors)
      ensures session == LoginSession(tutors, email, password)
      ensures reply.tutorId.Some? <==> session.userId.Set?
      ensures reply.tutorId.Some? ==>
                reply == LoginReply(LoginSucceeded, Some(session.userId.value))
      ensures reply.tutorId.None? ==>
                reply == LoginReply(LoginFailed, None) && session == Session(Null, Null)
    {
      session := session.(userId := Null);
      session := session.(userType := Null);
      var found := FindByCredentials(tutors, email, password);
      match found
      case Some(t) =>
        session := session.(userId := Set(t.id));
        session := session.(userType := Set(TutorType));
        reply := LoginReply(LoginSucceeded, Some(t.id));
      case None =>
        reply := LoginReply(LoginFailed, None);
    }

    /** The account handler: initialise a session without keys, then decide,
        then fetch the requested row. */
    method Account(requested: nat) returns (page: Page)
      requires Valid()
      modifies this`session
      ensures Valid()
      ensures tutors == old(tutors)
      ensures session == Initialise(old(session))
      ensures page == AccountView(old(session), tutors, requested)
    {
      if session.userId.Missing? {
        session := session.(userId := Null);
        session := session.(userType := Null);
      }
      assert !session.userType.Missing?;
      var decision := Decide(Read(session.userId), Read(session.userType), requested);
      match decision
      case Allow =>
        match FindById(tutors, requested) {
          case Some(t) => page := AccountPage(t);
          case None => page := NotFound;
        }
      case Deny(_) =>
        page := PermissionDenied;
    }

    /** `seed_database`: empty the table, then insert the seed rows one by one
        in order; they receive the keys 1, 2, ... */
    method Seed()
      requires Valid()
      modifies this`tutors
      ensures Valid()
      ensures session == old(session)
      ensures |tutors| == |SeedRows|
      ensures forall k :: 0 <= k < |SeedRows| ==>
                tutors[k] == Tutor(k + 1, SeedRows[k].0, SeedRows[k].1, SeedRows[k].2)
    {
      tutors := [];
      for i := 0 to |SeedRows|
        invariant TableValid(tutors)
        invariant |tutors| == i
        invariant forall k :: 0 <= k < i ==>
                    tutors[k] == Tutor(k + 1, SeedRows[k].0, SeedRows[k].1, SeedRows[k].2)
      {
        var row := SeedRows[i];
        assert !EmailTaken(tutors, row.1) by {
          forall t | t in tutors ensures t.email != row.1 {
            var k :| 0 <= k < |tutors| && tutors[k] == t;
          }
        }
        assert NextId(tutors) == i + 1 by {
          if i > 0 {
            assert tutors[i - 1] in tutors;
            var t :| t in tutors && t.id == MaxId(tutors);
            var k :| 0 <= k < |tutors| && tutors[k] == t;
          }
        }
        var r := Insert(tutors, row.0, row.1, row.2);
        tutors := r.table;
      }
    }
  }
}
