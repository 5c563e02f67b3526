/**
 * The `users` table as the SSO protocol sees it: read-or-create by email
 * (Eloquent's `firstOrCreate`), used by `ssoCallback` and `apiSyncUser`.
 */
module Users {
  import opened Wrappers

  /** A user record; `password` is the stored hash, an opaque string here. */
  datatype User = User(email: string, name: string, password: string)

  /** The table, keyed by the unique `email` column. */
  type UserTable = map<string, User>

  /** One user per email: every record is stored under its own email. */
  predicate UsersKeyed(users: UserTable) {
    forall e :: e in users ==> users[e].email == e
  }

  /**
   * `User::firstOrCreate(['email' => email], ['name' => name, 'password' => password])`:
   * the existing record when there is one, otherwise a new record built from the arguments.
   */
  function FirstOrCreate(users: UserTable, email: string, name: string, password: string): (r: (UserTable, User))
    ensures r.0.Keys == users.Keys + {email}
    ensures email in r.0 && r.0[email] == r.1
    ensures forall e :: e in users ==> r.0[e] == users[e]
    ensures email !in users ==> r.1 == User(email, name, password)
    ensures |r.0| == if email in users then |users| else |users| + 1
    ensures UsersKeyed(users) ==> UsersKeyed(r.0) && r.1.email == email
  {
    if email in users then
      (users, users[email])
    else
      var user := User(email, name, password);
      (users[email := user], user)
  }

  /** A second find-or-create for the same email adds nothing and returns the record of the first. */
  lemma FirstOrCreateTwice(users: UserTable, email: string, n1: string, p1: string, n2: string, p2: string)
    ensures var (u1, user1) := FirstOrCreate(users, email, n1, p1);
      FirstOrCreate(u1, email, n2, p2) == (u1, user1)
  {
  }

  /** Response of `apiSyncUser`. */
  datatype SyncReply = SyncUnauthorized | Synced
  {
    function Status(): nat {
      if Synced? then 200 else 401
    }
  }

  /**
   * `apiSyncUser`: with the configured secret, find-or-create the user by
   * email (`hashed` is `Hash::make` of the presented password); otherwise
   * answer 401 and leave the table alone.
   */
  function SyncUser(users: UserTable, secret: string, presented: Option<string>, name: string, email: string, hashed: string): (r: (SyncReply, UserTable))
    ensures r.0.SyncUnauthorized? <==> presented != Some(secret)
    ensures r.0.SyncUnauthorized? ==> r.1 == users
    ensures r.0.Synced? ==> email in r.1 && r.1.Keys == users.Keys + {email}
    ensures r.0.Synced? && email !in users ==> r.1[email] == User(email, name, hashed)
    ensures forall e :: e in users ==> e in r.1 && r.1[e] == users[e]
    ensures UsersKeyed(users) ==> UsersKeyed(r.1)
  {
    if presented != Some(secret) then
      (SyncUnauthorized, users)
    else
      (Synced, FirstOrCreate(users, email, name, hashed).0)
  }
}
