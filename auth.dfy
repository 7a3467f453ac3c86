/** The session of src/contexts/AuthContext.tsx: a fixed directory of mock
    credentials, `login`, `logout`, `isManager` and the initial load of the
    stored session. The "user" storage slot is the field `storedUser`. */
module Auth {
  import opened Optional

  datatype Role = TeamMember | Manager

  /** `User`: the session record, without a password. */
  datatype User = User(id: string, name: string, email: string, role: Role, profileImage: Option<string>)

  /** An entry of `mockUsers`. */
  datatype MockUser = MockUser(
    id: string, name: string, email: string, password: string, role: Role, profileImage: string)

  /** The avatar service address of the demo accounts. */
  function AvatarUrl(name: string, background: string): string
  {
    "https://ui-avatars.com/api/?name=" + name + "&background=" + background + "&color=fff"
  }

  /** `mockUsers` (lines 27-52). */
  function MockUsers(): seq<MockUser>
  {
    [ MockUser("1", "John Manager", "manager@example.com", "password", Manager,
               AvatarUrl("John+Manager", "0D8ABC")),
      MockUser("2", "Alice Member", "alice@example.com", "password", TeamMember,
               AvatarUrl("Alice+Member", "C152D4")),
      MockUser("3", "Bob Member", "bob@example.com", "password", TeamMember,
               AvatarUrl("Bob+Member", "8CC152")) ]
  }

  predicate Accepts(u: MockUser, email: string, password: string)
  {
    u.email == email && u.password == password
  }

  /** `users.find(u => u.email === email && u.password === password)`: the
      first entry with both an equal email and an equal password. */
  function FindUser(users: seq<MockUser>, email: string, password: string): (r: Option<MockUser>)
    ensures r.Some? <==> exists u :: u in users && Accepts(u, email, password)
    ensures r.Some? ==> r.value in users && Accepts(r.value, email, password)
    ensures r.Some? ==> exists i :: (0 <= i < |users| && users[i] == r.value &&
      forall j :: 0 <= j < i ==> !Accepts(users[j], email, password))
  {
    if users == [] then None
    else if Accepts(users[0], email, password) then Some(users[0])
    else
      assert forall u :: u in users <==> u == users[0] || u in users[1..];
      var r := FindUser(users[1..], email, password);
      assert r.Some? ==> exists i :: (1 <= i < |users| && users[i] == r.value &&
        forall j :: 0 <= j < i ==> !Accepts(users[j], email, password)) by {
        if r.Some? {
          var k :| 0 <= k < |users[1..]| && users[1..][k] == r.value &&
            forall j :: 0 <= j < k ==> !Accepts(users[1..][j], email, password);
          assert users[k + 1] == r.value;
          forall j | 1 <= j < k + 1
            ensures !Accepts(users[j], email, password)
          {
            assert users[j] == users[1..][j - 1];
          }
        }
      }
      r
  }

  /** `const { password: _, ...userWithoutPassword } = foundUser`. */
  function WithoutPassword(u: MockUser): (r: User)
    ensures r.id == u.id && r.name == u.name && r.email == u.email && r.role == u.role
    ensures r.profileImage == Some(u.profileImage)
  {
    User(u.id, u.name, u.email, u.role, Some(u.profileImage))
  }

  /** The outcome of `login`: resolved, or rejected with an error message. */
  datatype LoginResult = LoggedIn(user: User) | Rejected(message: string)

  /** The three demo accounts share the password "password"; any other
      password is refused for every email. */
  lemma WrongPasswordRejected(email: string, password: string)
    requires password != "password"
    ensures FindUser(MockUsers(), email, password).None?
  {
  }

  /** Of the three accounts only John Manager's opens a manager session. */
  lemma {:induction false} OnlyManagerAccount(email: string, password: string)
    requires FindUser(MockUsers(), email, password).Some?
    ensures var u := WithoutPassword(FindUser(MockUsers(), email, password).value);
      u.role == Manager <==> u.id == "1" && email == "manager@example.com"
  {
    var users := MockUsers();
    var found := FindUser(users, email, password).value;
    assert found in users;
    assert found == users[0] || found == users[1] || found == users[2];
  }

  /** The session state held by `AuthProvider`. */
  class AuthProvider {
    var user: Option<User>
    var isLoading: bool
    /** The "user" storage slot. */
    var storedUser: Option<User>

    /** The provider before its load effect has run. */
    constructor (stored: Option<User>)
      ensures user == None && isLoading && storedUser == stored
    {
      user := None;
      isLoading := true;
      storedUser := stored;
    }

    /** The mount effect (lines 63-73): take the stored session if there
        is one, then stop loading. */
    method LoadUser()
      modifies this
      ensures user == (if old(storedUser).Some? then old(storedUser) else old(user))
      ensures !isLoading && storedUser == old(storedUser)
    {
      if storedUser.Some? {
        user := storedUser;
      }
      isLoading := false;
    }

    /** `login` (lines 76-99): on a match the session becomes that account
        without its password and is stored; otherwise the call is rejected
        with "Invalid credentials" and the session is untouched. Loading
        ends either way. */
    method Login(email: string, password: string) returns (r: LoginResult)
      modifies this
      ensures r.LoggedIn? <==> exists u :: u in MockUsers() && Accepts(u, email, password)
      ensures r.LoggedIn? ==>
        r.user == WithoutPassword(FindUser(MockUsers(), email, password).value) &&
        user == Some(r.user) && storedUser == Some(r.user)
      ensures r.Rejected? ==>
        r.message == "Invalid credentials" && user == old(user) && storedUser == old(storedUser)
      ensures !isLoading
    {
      isLoading := true;
      var found := FindUser(MockUsers(), email, password);
      if found.Some? {
        var u := WithoutPassword(found.value);
        user := Some(u);
        storedUser := Some(u);
        r := LoggedIn(u);
      } else {
        r := Rejected("Invalid credentials");
      }
      isLoading := false;
    }

    /** `logout` (lines 102-106). */
    method Logout()
      modifies this
      ensures user == None && storedUser == None && isLoading == old(isLoading)
    {
      user := None;
      storedUser := None;
    }

    /** `isManager` (lines 109-111). */
    predicate IsManager()
      reads this
      ensures IsManager() <==> user.Some? && user.value.role == Manager
    {
      user.Some? && user.value.role == Manager
    }
  }
}
