/** The login state of `AuthProvider` (src/contexts/AuthContext.js): a
    fixed-credential login, a logout, and the restore that runs once at
    start-up from the two storage entries. */
module Auth {
  import opened Js
  import opened Base64

  const TokenKey: string := "authToken"
  const UserKey: string := "userData"
  const AdminName: string := "admin"
  const AdminPassword: string := "admin123"
  const LoginError: string := "Invalid username or password"

  /** A storage entry: text written as it is, or the serialisation of a value
      by `JSON.stringify`, which parses back to `Stringified(value)`. Both
      kinds can hold the same user: this store writes the record it keeps as
      `Serialised`, and an entry written by anything else is `Text`, whose
      parse is a parameter of `Restore`. So a stored `null` may appear as
      `Serialised(JNull)` or as `Text("null")` parsing to `JNull`; `Restore`
      gives the same user for both. */
  datatype Stored = Text(text: string) | Serialised(value: Json)

  /** `localStorage.getItem(key)` is truthy: the entry exists and is not the
      empty string (a serialised value is never empty text). */
  predicate Present(storage: map<string, Stored>, key: string) {
    key in storage && (storage[key].Text? ==> storage[key].text != "")
  }

  /** The text made into the token: `username:password:timestamp`. */
  function TokenText(username: string, password: string, now: nat): string {
    username + ":" + password + ":" + NatToString(now)
  }

  /** The record a successful login keeps; `loginTime` is the moment of login
      in ISO form. */
  function UserRecord(username: string, loginTime: string): (r: Json)
    ensures r.JObj? && r.fields.Keys == {"username", "role", "loginTime"}
    ensures r.fields["username"] == JStr(username) && r.fields["role"] == JStr("admin")
  {
    JObj(map["username" := JStr(username), "role" := JStr("admin"), "loginTime" := JStr(loginTime)])
  }

  /** The token text of the fixed credentials is a byte string, so `btoa`
      never throws on it, and the token decodes back to that text. */
  lemma TokenDecodes(now: nat)
    ensures Btoa(TokenText(AdminName, AdminPassword, now)).Some?
    ensures Atob(Btoa(TokenText(AdminName, AdminPassword, now)).value) == Some(TokenText(AdminName, AdminPassword, now))
  {
    var t := TokenText(AdminName, AdminPassword, now);
    var prefix, digits := AdminName + ":" + AdminPassword + ":", NatToString(now);
    assert IsLatin1(prefix);
    assert t == prefix + digits;
    assert forall i :: |prefix| <= i < |t| ==> t[i] == digits[i - |prefix|];
    AtobBtoa(t);
  }

  datatype LoginResult = Success | Failure(error: string)

  class AuthStore {
    var isAuthenticated: bool
    /** `user`, with `None` for `null`. */
    var user: Option<Json>
    var loading: bool
    /** The browser's local storage, as far as this store reads and writes it. */
    var storage: map<string, Stored>

    /** The provider before its start-up effect: signed out and loading. */
    constructor (storage: map<string, Stored>)
      ensures !isAuthenticated && user == None && loading
      ensures this.storage == storage
    {
      isAuthenticated := false;
      user := None;
      loading := true;
      this.storage := storage;
    }

    /** The start-up effect. With both entries present the user is signed in
        from the stored record, whatever the token says; `parsedText` is the
        outcome of parsing a user entry that is plain text (`None` when that
        throws, which aborts the effect before `loading` is cleared). */
    method Restore(parsedText: Option<Json>) returns (threw: bool)
      modifies this
      ensures storage == old(storage)
      ensures var both := Present(storage, TokenKey) && Present(storage, UserKey);
        && (threw <==> both && storage[UserKey].Text? && parsedText.None?)
        && isAuthenticated == (old(isAuthenticated) || both)
        && (both && !threw ==> user == Some(if storage[UserKey].Serialised? then Stringified(storage[UserKey].value) else parsedText.value))
        && (!both || threw ==> user == old(user))
        && loading == (old(loading) && threw)
    {
      threw := false;
      if Present(storage, TokenKey) && Present(storage, UserKey) {
        isAuthenticated := true;
        match storage[UserKey]
        case Serialised(v) =>
          user := Some(Stringified(v));
        case Text(_) =>
          if parsedText.None? {
            threw := true;
            return;
          }
          user := Some(parsedText.value);
      }
      loading := false;
    }

    /** `login(username, password)`, where `now` is `Date.now()` and
        `loginTime` the ISO form of the same moment. Only the fixed
        credentials succeed; a success stores the token and the record and
        signs the user in, a failure changes nothing. */
    method Login(username: string, password: string, now: nat, loginTime: string) returns (result: LoginResult)
      modifies this
      ensures result.Success? <==> username == AdminName && password == AdminPassword
      ensures result.Failure? ==> result.error == LoginError
      ensures result.Success? ==>
        && isAuthenticated && user == Some(UserRecord(username, loginTime))
        && Btoa(TokenText(username, password, now)).Some?
        && storage == old(storage)[TokenKey := Text(Btoa(TokenText(username, password, now)).value)]
                                  [UserKey := Serialised(UserRecord(username, loginTime))]
      ensures result.Failure? ==>
        isAuthenticated == old(isAuthenticated) && user == old(user) && storage == old(storage)
      ensures loading == old(loading)
    {
      if username == AdminName && password == AdminPassword {
        TokenDecodes(now);
        var token := Btoa(TokenText(username, password, now)).value;
        var record := UserRecord(username, loginTime);
        storage := storage[TokenKey := Text(token)][UserKey := Serialised(record)];
        isAuthenticated := true;
        user := Some(record);
        result := Success;
      } else {
        result := Failure(LoginError);
      }
    }

    /** `logout()`: both entries removed, signed out, no user. */
    method Logout()
      modifies this
      ensures storage == old(storage) - {TokenKey, UserKey}
      ensures !isAuthenticated && user == None
      ensures loading == old(loading)
    {
      storage := storage - {TokenKey, UserKey};
      isAuthenticated := false;
      user := None;
    }
  }

  /** A session survives a reload: after a successful login, a new provider
      over the same storage restores the same user. */
  method LoginThenReload(now: nat, loginTime: string, parsedText: Option<Json>) returns (before: AuthStore, after: AuthStore)
    ensures after.isAuthenticated && !after.loading
    ensures after.user == before.user == Some(UserRecord(AdminName, loginTime))
  {
    before := new AuthStore(map[]);
    var _ := before.Restore(None);
    var result := before.Login(AdminName, AdminPassword, now, loginTime);
    TokenDecodes(now);
    UserRecordSurvives(AdminName, loginTime);
    after := new AuthStore(before.storage);
    var threw := after.Restore(parsedText);
  }

  /** The user record holds only strings, so the save and parse keep it. */
  lemma UserRecordSurvives(username: string, loginTime: string)
    ensures Stringified(UserRecord(username, loginTime)) == UserRecord(username, loginTime)
  {
    var r := UserRecord(username, loginTime);
    assert forall k :: k in r.fields ==> r.fields[k].JStr?;
    StringifiedKeeps(r);
  }

  /** After a logout, a reload starts signed out. */
  method LogoutThenReload(storage: map<string, Stored>, parsedText: Option<Json>) returns (after: AuthStore)
    ensures !after.isAuthenticated && after.user == None && !after.loading
  {
    var before := new AuthStore(storage);
    before.Logout();
    after := new AuthStore(before.storage);
    var threw := after.Restore(parsedText);
  }
}
