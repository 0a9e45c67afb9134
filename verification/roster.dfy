/**
  The activity API server: an in-memory, ordered list of activities whose
  student lists are changed in place by signup and unregister, and a store
  of admin sessions mapping a cookie token to a username.
  Activities are addressed by their position in the list.
 */
module Roster {
  import opened Wrappers

  type Token = string

  datatype Activity = Activity(
    name: string,
    description: string,
    schedule: string,
    maxParticipants: int,
    students: seq<string>)

  /** An HTTP error response: status code and `detail` text. */
  datatype HttpError = HttpError(status: int, detail: string)

  const NotFound := HttpError(404, "Activity not found")
  const AuthenticationRequired := HttpError(401, "Authentication required")
  const InvalidCredentials := HttpError(401, "Invalid credentials")
  /** Request validation's answer when a required form field is empty or absent. */
  const FieldRequired := HttpError(422, "Field required")

  datatype Result<T> = Ok(value: T) | Err(error: HttpError)

  /** JSON body of a successful login; the token travels in a cookie. */
  datatype LoginBody = LoginBody(message: string, user: string)
  datatype Session = Session(body: LoginBody, token: Token)

  /** JSON body of the status endpoint. */
  datatype StatusBody = StatusBody(authenticated: bool, user: Option<string>)

  /** JSON body of a successful signup or unregister. */
  datatype ChangeBody = ChangeBody(message: string, activity: Activity)

  /** The activities the server starts with, in list order. */
  const Catalog: seq<Activity> := [
    Activity("Chess Club", "Learn strategies and compete in chess tournaments",
      "Fridays, 3:30 PM - 5:00 PM", 12,
      ["michael@mergington.edu", "daniel@mergington.edu"]),
    Activity("Programming Class", "Learn programming fundamentals and build software projects",
      "Tuesdays and Thursdays, 3:30 PM - 4:30 PM", 20,
      ["emma@mergington.edu", "sophia@mergington.edu"]),
    Activity("Gym Class", "Physical education and sports activities",
      "Mondays, Wednesdays, Fridays, 2:00 PM - 3:00 PM", 30,
      ["john@mergington.edu", "olivia@mergington.edu"]),
    Activity("Soccer Team", "Join the school soccer team and compete in matches",
      "Tuesdays and Thursdays, 4:00 PM - 5:30 PM", 22,
      ["liam@mergington.edu", "noah@mergington.edu"]),
    Activity("Basketball Team", "Practice and play basketball with the school team",
      "Wednesdays and Fridays, 3:30 PM - 5:00 PM", 15,
      ["ava@mergington.edu", "mia@mergington.edu"]),
    Activity("Art Club", "Explore your creativity through painting and drawing",
      "Thursdays, 3:30 PM - 5:00 PM", 15,
      ["amelia@mergington.edu", "harper@mergington.edu"]),
    Activity("Drama Club", "Act, direct, and produce plays and performances",
      "Mondays and Wednesdays, 4:00 PM - 5:30 PM", 20,
      ["ella@mergington.edu", "scarlett@mergington.edu"]),
    Activity("Math Club", "Solve challenging problems and participate in math competitions",
      "Tuesdays, 3:30 PM - 4:30 PM", 10,
      ["james@mergington.edu", "benjamin@mergington.edu"]),
    Activity("Debate Team", "Develop public speaking and argumentation skills",
      "Fridays, 4:00 PM - 5:30 PM", 12,
      ["charlotte@mergington.edu", "henry@mergington.edu"])
  ]

  /** The two lists hold the same activities in the same positions, whatever their students. */
  ghost predicate SameCatalog(a: seq<Activity>, b: seq<Activity>) {
    && |a| == |b|
    && forall i :: 0 <= i < |a| ==>
         && a[i].name == b[i].name
         && a[i].description == b[i].description
         && a[i].schedule == b[i].schedule
         && a[i].maxParticipants == b[i].maxParticipants
  }

  ghost predicate NoDuplicates(s: seq<string>) {
    forall i, j :: 0 <= i < j < |s| ==> s[i] != s[j]
  }

  /** The student list after signing `name` up: appended at the end unless already present. */
  function Enrolled(students: seq<string>, name: string): (r: seq<string>)
    ensures name in r
    ensures students <= r
    ensures |r| == if name in students then |students| else |students| + 1
  {
    if name in students then students else students + [name]
  }

  /** The student list after unregistering `name`: its first occurrence removed, if any. */
  function Withdrawn(students: seq<string>, name: string): (r: seq<string>)
    ensures name !in students ==> r == students
    ensures name in students ==> |r| == |students| - 1
    ensures multiset(r) == multiset(students) - multiset{name}
  {
    if students == [] then []
    else
      assert students == [students[0]] + students[1..];
      if students[0] == name then students[1..]
      else [students[0]] + Withdrawn(students[1..], name)
  }

  /** The session token's user; an absent or empty token authenticates nobody. */
  function CurrentUser(sessions: map<Token, string>, token: Option<Token>): (user: Option<string>)
    ensures user.Some? <==> token.Some? && token.value != "" && token.value in sessions
    ensures user.Some? ==> sessions[token.value] == user.value
    ensures "" !in sessions ==> (user.Some? <==> token.Some? && token.value in sessions)
  {
    if token.Some? && token.value != "" && token.value in sessions then Some(sessions[token.value]) else None
  }

  /** The admin gate: an absent or empty username is refused with 401. */
  function RequireAdmin(user: Option<string>): (r: Result<string>)
    ensures r.Ok? <==> user.Some? && user.value != ""
    ensures r.Ok? ==> r.value == user.value
    ensures r.Err? ==> r.error == AuthenticationRequired
  {
    if user.None? || user.value == "" then Err(AuthenticationRequired) else Ok(user.value)
  }

  /** Signing up twice is signing up once. */
  lemma EnrolledIdempotent(students: seq<string>, name: string)
    ensures Enrolled(Enrolled(students, name), name) == Enrolled(students, name)
  {
  }

  /** Withdrawn removes exactly the first occurrence and keeps the rest in order. */
  lemma {:induction false} WithdrawnRemovesFirst(students: seq<string>, name: string, k: nat)
    requires k < |students| && students[k] == name && name !in students[..k]
    ensures Withdrawn(students, name) == students[..k] + students[k + 1..]
  {
    if k > 0 {
      assert students[0] != name by { assert students[0] == students[..k][0]; }
      assert name !in students[1..][..k - 1] by { assert students[1..][..k - 1] == students[..k][1..]; }
      WithdrawnRemovesFirst(students[1..], name, k - 1);
      assert students[..k] == [students[0]] + students[1..][..k - 1];
    }
  }

  /** Unregistering a name just signed up restores the list. */
  lemma WithdrawnUndoesEnrolled(students: seq<string>, name: string)
    requires name !in students
    ensures Withdrawn(Enrolled(students, name), name) == students
  {
    var s := students + [name];
    assert s[..|students|] == students;
    WithdrawnRemovesFirst(s, name, |students|);
    assert s[|students| + 1..] == [];
  }

  /** Signup keeps a list duplicate-free. */
  lemma EnrolledKeepsDistinct(students: seq<string>, name: string)
    requires NoDuplicates(students)
    ensures NoDuplicates(Enrolled(students, name))
  {
  }

  /** Dropping one entry of a duplicate-free list leaves it duplicate-free and without that entry. */
  lemma DropKeepsDistinct(s: seq<string>, k: nat)
    requires k < |s| && NoDuplicates(s)
    ensures NoDuplicates(s[..k] + s[k + 1..])
    ensures s[k] !in s[..k] + s[k + 1..]
  {
  }

  /** Unregister keeps a list duplicate-free, and then the name is gone entirely. */
  lemma WithdrawnKeepsDistinct(students: seq<string>, name: string)
    requires NoDuplicates(students)
    ensures NoDuplicates(Withdrawn(students, name))
    ensures name !in Withdrawn(students, name)
  {
    if name in students {
      var k :| 0 <= k < |students| && students[k] == name;
      assert name !in students[..k] by {
        forall i | 0 <= i < k ensures students[..k][i] != name {
          assert students[..k][i] == students[i];
        }
      }
      WithdrawnRemovesFirst(students, name, k);
      DropKeepsDistinct(students, k);
    }
  }

  /**
    Replacing one activity's students by a duplicate-free list without an
    empty name keeps the catalogue, distinctness and the absence of empty names.
   */
  lemma ReplaceStudentsKeepsInvariant(acts: seq<Activity>, k: nat, students: seq<string>)
    requires k < |acts| && SameCatalog(acts, Catalog) && NoDuplicates(students) && "" !in students
    requires forall i :: 0 <= i < |acts| ==> NoDuplicates(acts[i].students) && "" !in acts[i].students
    ensures var updated := acts[k := acts[k].(students := students)];
      && SameCatalog(updated, Catalog)
      && forall i :: 0 <= i < |updated| ==> NoDuplicates(updated[i].students) && "" !in updated[i].students
  {
  }

  class Server {
    var activities: seq<Activity>
    var sessions: map<Token, string>

    /**
      Positions and descriptions never change, no list holds a name twice or
      an empty name, and no token is empty.
     */
    ghost predicate Valid()
      reads this
    {
      && SameCatalog(activities, Catalog)
      && (forall i :: 0 <= i < |activities| ==> NoDuplicates(activities[i].students) && "" !in activities[i].students)
      && "" !in sessions
    }

    constructor ()
      ensures Valid()
      ensures activities == Catalog && sessions == map[]
    {
      activities := Catalog;
      sessions := map[];
    }

    /** Records a session for `username` under a token never issued before. */
    method CreateSessionToken(username: string, issued: Token) returns (token: Token)
      requires Valid()
      requires issued != "" && issued !in sessions
      modifies this`sessions
      ensures Valid()
      ensures token == issued
      ensures sessions == old(sessions)[issued := username]
    {
      token := issued;
      sessions := sessions[token := username];
    }

    /** The username behind a session cookie, if any. */
    function User(token: Option<Token>): (user: Option<string>)
      reads this
      requires Valid()
      ensures user.Some? <==> token.Some? && token.value in sessions
      ensures user.Some? ==> user.value == sessions[token.value]
    {
      CurrentUser(sessions, token)
    }

    /**
      Login: 422 when either form field is empty (request validation treats
      an empty form value as missing), else a new session iff the
      credentials table maps `username` to `password`.
     */
    method Login(teachers: map<string, string>, username: string, password: string, issued: Token)
      returns (r: Result<Session>)
      requires Valid()
      requires issued != "" && issued !in sessions
      modifies this`sessions
      ensures Valid()
      ensures r.Ok? <==> username != "" && password != "" && username in teachers && teachers[username] == password
      ensures r.Ok? ==> r.value == Session(LoginBody("Login successful", username), issued)
      ensures r.Ok? ==> sessions == old(sessions)[issued := username]
      ensures r.Ok? ==> sessions.Keys == old(sessions).Keys + {issued} && |sessions| == |old(sessions)| + 1
      ensures r.Err? ==> sessions == old(sessions)
      ensures r.Err? ==> r.error == if username == "" || password == "" then FieldRequired else InvalidCredentials
    {
      if username == "" || password == "" {
        return Err(FieldRequired);
      }
      if username in teachers && teachers[username] == password {
        var token := CreateSessionToken(username, issued);
        assert sessions.Keys == old(sessions).Keys + {issued};
        r := Ok(Session(LoginBody("Login successful", username), token));
      } else {
        r := Err(InvalidCredentials);
      }
    }

    /** Logout: forgets the caller's session, if any, and always succeeds. */
    method Logout(token: Option<Token>) returns (message: string)
      requires Valid()
      modifies this`sessions
      ensures Valid()
      ensures message == "Logout successful"
      ensures sessions == if token.Some? then old(sessions) - {token.value} else old(sessions)
      ensures forall t :: t in old(sessions) && Some(t) != token ==> t in sessions && sessions[t] == old(sessions)[t]
    {
      if token.Some? && token.value != "" && token.value in sessions {
        sessions := sessions - {token.value};
      }
      message := "Logout successful";
    }

    /** Status: authenticated iff the cookie names a live session; `user` is its username. */
    function Status(token: Option<Token>): (s: StatusBody)
      reads this
      requires Valid()
      ensures s.authenticated <==> token.Some? && token.value in sessions
      ensures s.authenticated <==> s.user.Some?
      ensures s.authenticated ==> s.user.value == sessions[token.value]
    {
      var user := User(token);
      StatusBody(user.Some?, user)
    }

    /** The listing: always the initial catalogue, in the initial order. */
    function GetActivities(): (r: seq<Activity>)
      reads this
      requires Valid()
      ensures SameCatalog(r, Catalog)
      ensures |r| == |Catalog|
    {
      activities
    }

    /**
      Signup: 401 without an admin session, then 422 for an empty name, then
      404 for a position outside the list, else `name` is added to that
      activity if absent. Capacity is not checked.
     */
    method Signup(activityId: int, name: string, token: Option<Token>) returns (r: Result<ChangeBody>)
      requires Valid()
      modifies this`activities
      ensures Valid()
      ensures RequireAdmin(CurrentUser(sessions, token)).Err? ==> r == Err(AuthenticationRequired)
      ensures RequireAdmin(CurrentUser(sessions, token)).Ok? && name == "" ==> r == Err(FieldRequired)
      ensures RequireAdmin(CurrentUser(sessions, token)).Ok? && name != "" && !(0 <= activityId < |activities|) ==> r == Err(NotFound)
      ensures r.Ok? <==> RequireAdmin(CurrentUser(sessions, token)).Ok? && name != "" && 0 <= activityId < |activities|
      ensures r.Err? ==> activities == old(activities)
      ensures r.Ok? ==>
        var a := old(activities)[activityId];
        && activities == old(activities)[activityId := a.(students := Enrolled(a.students, name))]
        && r.value == ChangeBody(name + " signed up for " + a.name, activities[activityId])
    {
      var user := RequireAdmin(CurrentUser(sessions, token));
      if user.Err? {
        return Err(user.error);
      }
      if name == "" {
        return Err(FieldRequired);
      }
      if activityId < 0 || activityId >= |activities| {
        return Err(NotFound);
      }
      var a := activities[activityId];
      EnrolledKeepsDistinct(a.students, name);
      ReplaceStudentsKeepsInvariant(activities, activityId, Enrolled(a.students, name));
      var updated := a.(students := Enrolled(a.students, name));
      activities := activities[activityId := updated];
      r := Ok(ChangeBody(name + " signed up for " + a.name, updated));
    }

    /**
      Unregister: 401 without an admin session, then 422 for an empty name,
      then 404 for a position outside the list, else the first occurrence of
      `name` is removed if present; success either way.
     */
    method Unregister(activityId: int, name: string, token: Option<Token>) returns (r: Result<ChangeBody>)
      requires Valid()
      modifies this`activities
      ensures Valid()
      ensures RequireAdmin(CurrentUser(sessions, token)).Err? ==> r == Err(AuthenticationRequired)
      ensures RequireAdmin(CurrentUser(sessions, token)).Ok? && name == "" ==> r == Err(FieldRequired)
      ensures RequireAdmin(CurrentUser(sessions, token)).Ok? && name != "" && !(0 <= activityId < |activities|) ==> r == Err(NotFound)
      ensures r.Ok? <==> RequireAdmin(CurrentUser(sessions, token)).Ok? && name != "" && 0 <= activityId < |activities|
      ensures r.Err? ==> activities == old(activities)
      ensures r.Ok? ==>
        var a := old(activities)[activityId];
        && activities == old(activities)[activityId := a.(students := Withdrawn(a.students, name))]
        && name !in activities[activityId].students
        && r.value == ChangeBody(name + " unregistered from " + a.name, activities[activityId])
    {
      var user := RequireAdmin(CurrentUser(sessions, token));
      if user.Err? {
        return Err(user.error);
      }
      if name == "" {
        return Err(FieldRequired);
      }
      if activityId < 0 || activityId >= |activities| {
        return Err(NotFound);
      }
      var a := activities[activityId];
      WithdrawnKeepsDistinct(a.students, name);
      assert "" !in Withdrawn(a.students, name) by {
        assert "" !in a.students;
        assert multiset(a.students)[""] == 0;
        assert multiset(Withdrawn(a.students, name))[""] == 0;
      }
      ReplaceStudentsKeepsInvariant(activities, activityId, Withdrawn(a.students, name));
      var updated := a.(students := Withdrawn(a.students, name));
      activities := activities[activityId := updated];
      r := Ok(ChangeBody(name + " unregistered from " + a.name, updated));
    }
  }
}
