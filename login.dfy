/** The sign-in screen (components/Login.jsx): the phone-length guard, the
    lookup by phone number and the exact password comparison. */
module Login {
  import opened Common
  import opened LedgerModel

  const PhoneError := "Phone number must be at least 10 digits"
  const NotFoundError := "User not found"
  const PasswordError := "Incorrect password"

  /** A row the lookup by phone number returns: the id and stored password. */
  datatype Account = Account(id: int, passwordHash: string)

  /** The rows a lookup of `phone` returns: the accounts of the users with
      that phone number. */
  ghost predicate IsPhoneAnswer(users: map<int, User>, phone: string, found: seq<Account>)
  {
    && (forall i :: 0 <= i < |found| ==>
          found[i].id in users && users[found[i].id].phone == phone && users[found[i].id].passwordHash == found[i].passwordHash)
    && (forall id :: id in users && users[id].phone == phone ==> exists i :: 0 <= i < |found| && found[i].id == id)
  }

  /** The checks of handleLogin in their order: a phone number of at least
      ten characters, exactly one matching user (`.single()`), the password
      equal to the stored one. The user id signed in, or the message. */
  function LoginCheck(phone: string, password: string, found: seq<Account>): (r: Result<int>)
    ensures r.Ok? <==> |phone| >= 10 && |found| == 1 && found[0].passwordHash == password
    ensures r.Ok? ==> r.value == found[0].id
    ensures |phone| < 10 ==> r == Err(PhoneError)
    ensures |phone| >= 10 && |found| != 1 ==> r == Err(NotFoundError)
    ensures |phone| >= 10 && |found| == 1 && found[0].passwordHash != password ==> r == Err(PasswordError)
  {
    if |phone| < 10 then Err(PhoneError)
    else if |found| != 1 then Err(NotFoundError)
    else if password != found[0].passwordHash then Err(PasswordError)
    else Ok(found[0].id)
  }

  /** When one user holds the phone number and the lookup returns one row,
      the row is that user's: their stored password signs in as them, and
      any other password is refused. */
  lemma StoredPasswordSignsIn(users: map<int, User>, id: int, found: seq<Account>, password: string)
    requires id in users && |users[id].phone| >= 10
    requires forall k :: k in users && k != id ==> users[k].phone != users[id].phone
    requires IsPhoneAnswer(users, users[id].phone, found) && |found| == 1
    ensures password == users[id].passwordHash ==> LoginCheck(users[id].phone, password, found) == Ok(id)
    ensures password != users[id].passwordHash ==> LoginCheck(users[id].phone, password, found) == Err(PasswordError)
  {
    assert found[0].id == id;
  }

  /** A phone number nobody holds is reported as an unknown user. */
  lemma UnknownPhoneNotFound(users: map<int, User>, phone: string, found: seq<Account>, password: string)
    requires |phone| >= 10 && forall k :: k in users ==> users[k].phone != phone
    requires IsPhoneAnswer(users, phone, found)
    ensures LoginCheck(phone, password, found) == Err(NotFoundError)
  {
  }

  /** The sign-in screen's state. */
  class LoginPage {
    var error: string
    var isLoading: bool

    constructor ()
      ensures error == "" && !isLoading
    {
      error, isLoading := "", false;
    }

    /** handleLogin: ignored while loading; otherwise the first failing
        check sets its message; success returns the session, which the
        caller stores before it switches to the home tab. `found` answers the
        lookup. */
    method HandleLogin(phone: string, password: string, found: seq<Account>) returns (session: Option<Session>)
      modifies this
      ensures old(isLoading) ==> unchanged(this) && session.None?
      ensures !old(isLoading) ==> !isLoading
      ensures !old(isLoading) && LoginCheck(phone, password, found).Err? ==>
        error == LoginCheck(phone, password, found).error && session.None?
      ensures !old(isLoading) && LoginCheck(phone, password, found).Ok? ==>
        error == "" && session == Some(Session(phone, LoginCheck(phone, password, found).value))
    {
      if isLoading {
        return None;
      }
      error := "";
      match LoginCheck(phone, password, found)
      case Err(message) =>
        error := message;
        session := None;
      case Ok(id) =>
        session := Some(Session(phone, id));
    }
  }
}
