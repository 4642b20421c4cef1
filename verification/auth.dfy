/**
 * The credential stub: a fixed user table, a "hash" that prepends a fixed
 * prefix, and token decoding as a lookup of the token in the table.
 */
module Auth {
  import opened Wrappers
  import opened Errors

  /** A stored user: the table's record for one username. */
  datatype UserInDB = UserInDB(username: string, hashedPassword: string)

  /** The prefix the stub hash puts in front of a password. */
  const HashPrefix: string := "fakehashed"

  /** The process-wide user table: one user, `test`, whose password is `test`. */
  const FakeUsersDb: map<string, UserInDB> :=
    map["test" := UserInDB("test", "fakehashedtest")]

  /** The stub hash: the password behind a fixed prefix. */
  function FakeHashPassword(password: string): (h: string)
    ensures |h| == |HashPrefix| + |password|
    ensures h[..|HashPrefix|] == HashPrefix
    ensures h[|HashPrefix|..] == password
  {
    HashPrefix + password
  }

  /** Different passwords never share a hash. */
  lemma FakeHashInjective(p: string, q: string)
    ensures FakeHashPassword(p) == FakeHashPassword(q) <==> p == q
  {
  }

  /** Every record of the table is filed under its own username. */
  lemma UsersDbKeyedByUsername()
    ensures forall u :: u in FakeUsersDb ==> FakeUsersDb[u].username == u
  {
  }

  /** Looks a username up in a table; absent when the table has no such key. */
  function GetUser(db: map<string, UserInDB>, username: string): (r: Option<UserInDB>)
    ensures r.Some? <==> username in db
    ensures r.Some? ==> r.value == db[username]
  {
    if username in db then Some(db[username]) else None
  }

  /** Decodes a bearer token: the token is taken to be a username of the fixed table. */
  function FakeDecodeToken(token: string): (r: Option<UserInDB>)
    ensures r.Some? <==> token == "test"
    ensures r.Some? ==> r.value.username == token
  {
    GetUser(FakeUsersDb, token)
  }

  /** The gate in front of every catalog endpoint: 401 unless the token decodes to a user. */
  function GetCurrentUser(token: string): (r: Result<UserInDB, ApiError>)
    ensures r.Failure? <==> FakeDecodeToken(token).None?
    ensures r.Failure? ==> r.error == InvalidCredentials && StatusCode(r.error) == 401
    ensures r.Success? ==> FakeDecodeToken(token) == Some(r.value) && r.value.username == token
  {
    match FakeDecodeToken(token)
    case None => Failure(InvalidCredentials)
    case Some(user) => Success(user)
  }
}
