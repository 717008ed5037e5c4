/** `UserModel`: account operations over an identity provider, composed with a
    `StoreModel` bound to the users collection. The provider is not modelled:
    what each of its calls resolved with is an argument. */
module Users {
  import opened Datatypes
  import opened Store

  /** What a provider call (create account, sign in) resolved with: the user,
      or the error code it rejected with. */
  datatype AuthResult = Authenticated(user: AuthUser) | AuthError(code: string)

  const DefaultTable: string := "Users"
  const EmailInUse: string := "auth/email-already-in-use"
  const InvalidEmail: string := "auth/invalid-email"

  class UserModel {
    /** The store the users collection is read and written through. */
    const users: StoreModel

    /** Without a table name the store is bound to "Users". */
    constructor (table: Option<string>, existing: map<string, Record>)
      ensures fresh(users)
      ensures users.table == (if table.Some? then table.value else DefaultTable)
      ensures users.docs == existing
    {
      users := new StoreModel(table.GetOr(DefaultTable), existing);
    }

    /** The envelope for a rejected account creation. */
    static function RegistrationFailure(email: string, code: string): (r: QueryReturn)
      ensures r.status == Error && r.data == NoData
    {
      if code == EmailInUse then QueryReturn(Error, email + " is already in use!", NoData)
      else if code == InvalidEmail then QueryReturn(Error, email + " is an invalid email address", NoData)
      else QueryReturn(Error, "Unable to register user", NoData)
    }

    /** Creates the account; on success writes `userData`, when given, to the
        users collection under the new uid. That write's outcome (`writeFault`)
        never reaches the envelope. */
    method RegisterWithEmailAndPassword(email: string, password: string, userData: DocObject?,
                                        outcome: AuthResult, writeFault: bool) returns (r: QueryReturn)
      modifies users, userData
      ensures outcome.Authenticated? ==>
        r == QueryReturn(Success, "User registered successfully", UserData(outcome.user))
      ensures outcome.AuthError? ==> r == RegistrationFailure(email, outcome.code)
      ensures outcome.Authenticated? && userData != null ==>
        && userData.fields == old(userData.fields) - {Reference}
        && users.docs == (if writeFault then old(users.docs)
                          else old(users.docs)[outcome.user.uid := userData.fields])
      ensures outcome.AuthError? || userData == null ==> users.docs == old(users.docs)
      ensures outcome.AuthError? && userData != null ==> userData.fields == old(userData.fields)
    {
      if outcome.AuthError? {
        return RegistrationFailure(email, outcome.code);
      }
      if userData != null {
        var ignored := users.Save(userData, Some(outcome.user.uid), writeFault);
      }
      r := QueryReturn(Success, "User registered successfully", UserData(outcome.user));
    }

    /** `verifyEmail` defaults to false; when it is true an unverified user is
        refused even though signing in succeeded. */
    static function Login(email: string, password: string, verifyEmail: Option<bool>, outcome: AuthResult): (r: QueryReturn)
      ensures r.status == Success <==>
        outcome.Authenticated? && (verifyEmail.GetOr(false) ==> outcome.user.emailVerified)
      ensures r.status == Success ==>
        r == QueryReturn(Success, "User logged in successfully", UserData(outcome.user))
      ensures outcome.AuthError? ==> r == QueryReturn(Error, "Invalid login credentials", NoData)
      ensures outcome.Authenticated? && r.status == Error ==>
        r == QueryReturn(Error, "Email address needs verification", NoData)
    {
      match outcome
      case AuthError(_) => QueryReturn(Error, "Invalid login credentials", NoData)
      case Authenticated(user) =>
        if verifyEmail.GetOr(false) && !user.emailVerified then
          QueryReturn(Error, "Email address needs verification", NoData)
        else
          QueryReturn(Success, "User logged in successfully", UserData(user))
    }

    /** `fault`: signing out threw. */
    static function Logout(fault: bool): (r: QueryReturn)
      ensures r.status == Success <==> !fault
      ensures r.message == (if fault then "Unable to complete process" else "User signout!")
      ensures r.data == NoData
    {
      if fault then QueryReturn(Error, "Unable to complete process", NoData)
      else QueryReturn(Success, "User signout!", NoData)
    }

    /** Deletes the provider account and the user's document. Both are
        attempted; the store's `delete` always resolves, so only the provider
        (`providerFault`) can make the whole call fail. */
    method DeleteAccount(user: AuthUser, providerFault: bool, storeFault: bool) returns (r: QueryReturn)
      modifies users
      ensures users.docs == (if storeFault then old(users.docs) else old(users.docs) - {user.uid})
      ensures r.status == Success <==> !providerFault
      ensures r == (if providerFault then QueryReturn(Error, "unable to delete user account", NoData)
                    else QueryReturn(Success, "Account deleted successfully", NoData))
    {
      var deleted := users.Delete(user.uid, storeFault);
      if providerFault {
        r := QueryReturn(Error, "unable to delete user account", NoData);
      } else {
        r := QueryReturn(Success, "Account deleted successfully", NoData);
      }
    }
  }

  /** The three registration failures give three different messages for every
      email, so a caller can tell them apart. */
  lemma RegistrationMessagesDistinct(email: string, other: string)
    requires other != EmailInUse && other != InvalidEmail
    ensures UserModel.RegistrationFailure(email, EmailInUse).message != UserModel.RegistrationFailure(email, InvalidEmail).message
    ensures UserModel.RegistrationFailure(email, EmailInUse).message != UserModel.RegistrationFailure(email, other).message
    ensures UserModel.RegistrationFailure(email, InvalidEmail).message != UserModel.RegistrationFailure(email, other).message
  {
    var inUse := email + " is already in use!";
    var invalid := email + " is an invalid email address";
    var generic := "Unable to register user";
    assert inUse[|email| + 5] == 'l' && invalid[|email| + 5] == 'n';
    if |inUse| == |generic| {
      assert inUse[|email|] == ' ' != generic[|email|];
    }
    assert |invalid| != |generic|;
  }

  /** Omitting `verifyEmail` is the same as passing `false`: sign-in success is login success. */
  lemma LoginWithoutVerification(email: string, password: string, outcome: AuthResult)
    ensures UserModel.Login(email, password, None, outcome) == UserModel.Login(email, password, Some(false), outcome)
    ensures outcome.Authenticated? ==> UserModel.Login(email, password, None, outcome).status == Success
  {
  }
}
